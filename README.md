# Smartexpense, modelled in Dafny

Smartexpense is a personal-finance application with two halves:

- an Express/Prisma backend that stores users, categories and transactions (expenses and incomes);
- a React frontend that shows them and checks forms before sending them.

This project models the decision logic of both halves and proves what that logic promises.

**Backend.**

- **Field validators.** Amount, description, notes and category. The raw JSON value goes in; the result is *unset*, *cleared* (notes only), a value, or the first `ValidationError`.
- **Transaction controllers.** One controller parametrised by kind covers both expense and income. The model covers:
  - the `where` filter of a list query;
  - paging;
  - the scoping of get, update and delete to the caller's rows of that kind;
  - create;
  - the partial update;
  - delete.

  The tables live in a `Db` class whose methods append, replace and remove rows.
- **Accounts.** The check order of `register` and `login`, `validateToken`, and the two password-strength variants (fail-fast and collect-all). Hashing and token creation are parameters (oracles).
- **Categories.** The default-category seeding loop and the category listing.
- **Admin.** The user-search predicate, the user list, the role-change and delete guards, top-spender ranking and `createUser`.
- **Errors.** The error classes with their status codes, and the error middleware's fallbacks.

**Frontend.**

- the filter validator, the expense-form validator and the admin "create user" validator, each building its error map with the same statements as the source;
- the client's status-to-message switch;
- the currency symbol, placement and parsing rules;
- country lookup;
- currency grouping by region;
- the toast store.

The modules follow the source files:

- `Validation`, `TransactionQueries`, `TransactionWrites`, `Paging`, `Sorting`, `Categories` and `DefaultCategories` cover the validators, the two transaction controllers and the category code.
- `Auth`, `PasswordRules`, `PasswordUtils`, `PasswordReport` and `Admin` cover accounts and the admin controller.
- `Errors` and `ErrorHandler` cover the error classes and the middleware.
- `FilterValidation`, `ExpenseForm`, `AdminForm`, `ClientErrors`, `Currency`, `Countries`, `CurrencyOptions` and `Toasts` cover the frontend.
- `Strings`, `JsNumbers` and `Values` give JavaScript's string operations, `parseFloat`/`parseInt`/`Number` and truthiness.
- `Database` holds the tables.

Raw JSON values are `Undefined | Null | Str(s) | Num(text)`. A JSON number is carried as the text `String(n)` gives it, so `parseFloat(amount)` and `amount.toString()` read the same characters the source reads. Amounts are exact rationals (`real`).

## Model

| member | source | states |
|---|---|---|
| Validation.ValidateAmount | backend/src/utils/validation.utils.js:4-34 | A required falsy amount is "Amount is required" before any other check. An optional `undefined`/`null` amount is unset and never an error. A value is returned exactly when the text parses, the value lies strictly between 0 and 100,000,000, and the text has at most two digits after its first dot; the value returned is the parsed one. Every failure is a `ValidationError`. |
| Validation.ValidateDescription | backend/src/utils/validation.utils.js:36-54 | A required falsy description is "required". An optional absent one is unset. A required blank one is "cannot be empty". The 255 limit applies to the untrimmed text. An accepted value is the trimmed text, and when not required a blank text yields `""`. |
| Validation.ValidateNotes | backend/src/utils/validation.utils.js:56-66 | `undefined`/`null` gives unset and nothing else does. `""` gives the explicit null (cleared). More than 1000 untrimmed characters is the notes error. Anything else comes back trimmed. |
| Validation.ValidateCategory | backend/src/utils/validation.utils.js:68-94 | Required and falsy gives "CategoryId is required". Optional and absent gives unset, with no lookup. Otherwise the parsed id is returned exactly when a category with that id, the caller's user id and, if given, the type exists. A failed lookup names the type, or is "Category not found" when no type was given. |
| Validation.AcceptedAmount | backend/src/utils/validation.utils.js:13-33 | An amount whose text parses to a value in range, with at most two decimals in the text, is accepted with exactly that value. |
| Validation.TooManyDecimals | backend/src/utils/validation.utils.js:27-31 | An in-range amount whose text has more than two digits after the dot is refused with the decimal-places message. |
| Validation.AmountRoundTrip | backend/src/utils/validation.utils.js:13-33 | Every amount from 0.01 to 99,999,999.99 is accepted with its exact value. This holds as a string written with two decimals, and as a JSON number, whose text `String(n)` has no trailing zeros (`5`, `12.3`, `0.01`). |
| Validation.NumberTextValue | backend/src/utils/validation.utils.js:13-30 | A JSON number's text (whole, one decimal or two decimals) parses back to the amount, with at most two digits after the dot. |
| JsNumbers.ParseWhole | backend/src/utils/validation.utils.js:13-28 | `parseFloat` reads a run of digits alone as its value, and the digits-after-the-dot count of text without a dot is 0. |
| Validation.TwoDecimalsAccepted | backend/src/utils/validation.utils.js:13-33 | Any `<digits>.<two digits>` text in range is accepted with its value in hundredths. |
| Validation.TrailingZeroRefused | backend/src/utils/validation.utils.js:27-31 | The decimal rule counts characters of the text, not precision: adding a `0` to an accepted two-decimal amount keeps its value but gets it refused. |
| Validation.TrailingZeroKeepsValue | backend/src/utils/validation.utils.js:13 | `parseFloat` of a two-decimal text with a `0` appended reads the same value, and the text then has three fraction digits. |
| Validation.CentsTextValue | backend/src/utils/validation.utils.js:13 | The two-decimal text of a cent count parses to that count divided by 100. |
| Validation.CentsTextFraction | backend/src/utils/validation.utils.js:28 | The two-decimal text of a cent count has exactly two digits after the dot. |
| JsNumbers.ParseDecimal | backend/src/utils/validation.utils.js:13-28 | `parseFloat` reads all of `<digits>.<digits>` as a non-negative number, and the digits-after-the-dot count is the length of the second run. |
| JsNumbers.ReadFractionWithinCount | backend/src/utils/validation.utils.js:13-28 | The fraction digits `parseFloat` reads never outnumber the characters the decimal rule counts after the first dot. |
| JsNumbers.TwoDigitsAreCents | backend/src/utils/validation.utils.js:13-31 | A parsed value whose text has at most two decimals is a whole number of hundredths. |
| JsNumbers.NatToDigits | frontend/src/utils/filterValidation.js:46 | `String(n)` is a non-empty run of digits whose value is `n`. |
| Strings.Trim | backend/src/utils/validation.utils.js:45-53 | Neither end of `trim()`'s result is whitespace, the result is no longer than the input, and it is empty exactly when the input is blank. |
| Strings.TrimKeepsText | backend/src/utils/validation.utils.js:53 | Trimming removes whitespace and nothing else. |
| Strings.SplitWs | backend/src/controller/admin.controller.js:15 | `split(/\s+/)` has at least one piece, and no piece holds whitespace. |
| Strings.SplitWsKeepsText | backend/src/controller/admin.controller.js:15 | The pieces, glued together, are the text without its whitespace. |
| Strings.SplitWsPiecesNonEmpty | backend/src/controller/admin.controller.js:15 | On trimmed, non-empty text no piece is empty. |
| Strings.ContainsSelfInsensitive | backend/src/controller/expense.controller.js:140-145 | A case-insensitive `contains` finds any text equal to the field when both are lower-cased. |
| Strings.LexLeTotal | backend/src/controller/category.controller.js:11-13 | The name order used for sorting is total. |
| Strings.LexLeTransitive | backend/src/controller/category.controller.js:11-13 | The name order used for sorting is transitive. |
| Strings.LexLeAntisymmetric | backend/src/controller/category.controller.js:11-13 | Two names that each sort at or before the other are equal, so the order by name is fixed up to equal names. |
| Errors.StatusCode | backend/src/utils/errors.utils.js:2-40 | `ValidationError` is 400, `AuthenticationError` 401, `ForbiddenError` 403, `NotFoundError` 404 and `ConflictError` 409, each an if-and-only-if. A plain error has no status code. |
| Errors.StatusCodeIdentifiesClass | backend/src/utils/errors.utils.js:2-40 | No two custom classes share a status code. |
| ErrorHandler.OrText | backend/src/middleware/errorHandler.middleware.js:11 | `value \|\| fallback` on a string: the value when it is present and not empty, otherwise the fallback. |
| ErrorHandler.OrNumber | backend/src/middleware/errorHandler.middleware.js:10 | `value \|\| fallback` on a number: the value when it is present and not 0, otherwise the fallback. |
| ErrorHandler.Respond | backend/src/middleware/errorHandler.middleware.js:10-16 | Status is `statusCode` or 500. Message is `message` or "Internal Server Error". `error` is `name` or "Error". The body has exactly those two fields. |
| ErrorHandler.RespondToAppError | backend/src/middleware/errorHandler.middleware.js:10-16 | A custom error answers with its class's status code, its own message (unless empty) and its class name. A plain error answers 500. |
| Database.FindCategory | backend/src/utils/validation.utils.js:78-84 | `findFirst` returns a stored category matching id, owner and (if given) type, and returns none exactly when no stored category matches. |
| Database.CategoryTypeOf | backend/src/controller/expense.controller.js:109-111 | The `category.type` of a transaction is the type of a stored category with its id, and there is none exactly when no category has that id. |
| Database.CategoryTypeOfUnique | backend/src/controller/expense.controller.js:109-111 | With unique category ids, the referenced category's type is the type of the category with that id. |
| Database.FindUserByEmail | backend/src/controller/auth.controller.js:17 | `findUnique({ email })` returns a stored user with that email, and returns none exactly when no user has it. |
| Database.UserIndex | backend/src/controller/auth.controller.js:88-96 | `findUnique({ id })` gives the position of a user with that id, and nothing exactly when no user has it. |
| Database.UpdateKeepsValid | backend/src/controller/expense.controller.js:280-286 | Replacing a row by one with the same id and an owned category keeps ids unique and categories owned. |
| Database.RemoveById | backend/src/controller/expense.controller.js:313-315 | After delete, a row remains exactly when it was stored and has another id. |
| Database.RemoveByIdAppend | backend/src/controller/expense.controller.js:313-315 | Deleting from a split table deletes from each part, so the kept rows stay in order. |
| Database.RemoveAbsentId | backend/src/controller/expense.controller.js:313-315 | Deleting an id no row has changes nothing. |
| Database.DeleteRemovesOne | backend/src/controller/expense.controller.js:313-315 | With unique ids, delete removes exactly the matched row, keeps the others in order, and the table shrinks by one. |
| Database.DeleteKeepsValid | backend/src/controller/expense.controller.js:313-315 | Removing one row keeps ids unique and categories owned, and every remaining row is an old one. |
| Database.AppendKeepsValid | backend/src/controller/expense.controller.js:221-234 | Appending a row with the next id and an owned category keeps the table's keys, and the new id is fresh. |
| Database.RemoveKeepsValid | backend/src/controller/income.controller.js:216-218 | Deleting by id keeps ids unique and categories owned, and leaves only old rows. |
| Database.AppendCategoryKeepsValid | backend/src/utils/defaultCategories.utils.js:14-20 | Appending a category with the next id keeps category ids unique and every transaction's category found. |
| Database.ReplaceKeepsOwned | backend/src/controller/income.controller.js:184-190 | Replacing a row by one with an owned category keeps every transaction's category owned. |
| Database.Db.constructor | backend/src/utils/prisma.utils.js:4-12 | The tables start empty and valid, with every counter at 1. |
| Database.Db.InsertTransaction | backend/src/controller/expense.controller.js:221-234 | `transaction.create` appends the row, advances the transaction counter, and changes no other table. |
| Database.Db.ReplaceTransaction | backend/src/controller/expense.controller.js:280-286 | `transaction.update` replaces the row by id and changes no other table. |
| Database.Db.RemoveTransaction | backend/src/controller/expense.controller.js:313-315 | `transaction.delete` removes the rows with the id and changes no other table. |
| Database.Db.InsertCategory | backend/src/utils/defaultCategories.utils.js:14-20 | `category.create` appends the row, advances the category counter, and changes no other table. |
| Database.Db.InsertUser | backend/src/controller/auth.controller.js:25-32 | `user.create` with a fresh email appends the row, advances the user counter, and changes no other table. |
| Database.Db.SetUserRole | backend/src/controller/admin.controller.js:146-156 | The user table becomes the role-updated table, and nothing else changes. |
| Database.TransactionsNotOf | backend/src/controller/admin.controller.js:175-177 | A transaction remains after the cascade exactly when it was stored and belongs to another user. |
| Database.CategoriesNotOf | backend/src/controller/admin.controller.js:175-177 | A category remains after the cascade exactly when it was stored and belongs to another user. |
| Database.TransactionsNotOfUnique | backend/src/controller/admin.controller.js:175-177 | The cascade keeps the transaction ids unique. |
| Database.CategoriesNotOfUnique | backend/src/controller/admin.controller.js:175-177 | The cascade keeps the category ids unique. |
| Database.CascadeKeepsOwned | backend/src/controller/admin.controller.js:175-177 | After the cascade, every remaining transaction's category is still found for its owner. |
| Database.Db.RemoveUserAt | backend/src/controller/admin.controller.js:175-177 | The user at the position leaves the table and the others keep their order. The user's categories and transactions are deleted with it (the relations cascade), the other rows stay in order, and the tables stay valid. |
| TransactionQueries.QueryFilter | backend/src/controller/expense.controller.js:107-145 | The filter always carries the caller and the controller's kind. A supplied `startDate`/`endDate` the date parser refuses fails with "Invalid startDate format"/"Invalid endDate format" (start checked first), and that is the only error. |
| TransactionQueries.BuildFilter | backend/src/controller/income.controller.js:19-57 | Assembling the `where` one key at a time gives the filter the query describes. |
| TransactionQueries.FilterMeaning | backend/src/controller/expense.controller.js:114-145 | A runnable filter matches a row exactly when the query asks for it: the caller's row of this kind, with `date >= start`, `date <= end`, an equal category id, `amount >= min`, `amount <= max`, and the description containing the search case-insensitively, each only when supplied. |
| TransactionQueries.Select | backend/src/controller/expense.controller.js:151-161 | `findMany({ where })` keeps exactly the stored rows the filter matches. |
| TransactionQueries.SelectIsWanted | backend/src/controller/expense.controller.js:151-161 | The selected rows are exactly the wanted rows, in table order. |
| TransactionQueries.ListTransactions | backend/src/controller/expense.controller.js:148-172 | A filter error is the list's error. A successful page is ordered by date, newest first. |
| TransactionQueries.GetTransactions | backend/src/controller/income.controller.js:5-90 | The list handler builds the `where` and answers with the list query over the stored tables. |
| TransactionQueries.ListedRowsAreWanted | backend/src/controller/expense.controller.js:107-112 | Every listed row is a stored row of the caller, of the controller's kind, meeting every supplied filter, whatever else the query holds. |
| TransactionQueries.ListIsWindowOfWanted | backend/src/controller/expense.controller.js:148-172 | The rows are the window starting at `(page-1)*limit` over the wanted rows sorted newest first. `total` counts all wanted rows, and `pages` is `ceil(total/limit)`. |
| TransactionQueries.FindOwned | backend/src/controller/expense.controller.js:187-198 | The `findFirst` returns a stored row with the id, the caller and the kind, and none exactly when no such row is stored. |
| TransactionQueries.FindOwnedUnique | backend/src/controller/expense.controller.js:187-198 | With unique ids, a stored owned row is what the lookup finds for its id. |
| TransactionQueries.SameIdSameRow | backend/src/controller/expense.controller.js:187-198 | With unique ids, two stored rows with the same id are the same row. |
| TransactionQueries.GetTransaction | backend/src/controller/income.controller.js:92-117 | The row is returned exactly when the caller owns a row of this kind with the id; otherwise it is `NotFoundError` "Expense not found"/"Income not found". |
| TransactionQueries.OthersRowsHidden | backend/src/controller/expense.controller.js:187-200 | Another user's row, or one of the other kind, is not found by get, whatever its id. |
| Paging.Slice | backend/src/controller/expense.controller.js:159-160 | `skip`/`take` give the rows from `skip` on, at most `take` of them, in order. |
| Paging.SliceKeepsOrder | backend/src/controller/expense.controller.js:156-160 | A window of rows sorted newest first stays sorted. |
| Paging.Ceil | backend/src/controller/expense.controller.js:171 | `Math.ceil(x)` is the least integer at or above `x`. |
| Paging.CeilScaled | backend/src/controller/expense.controller.js:171 | `c = ceil(x/d)` with `d > 0` means `(c-1)*d < x <= c*d`. |
| Paging.PageCount | backend/src/controller/expense.controller.js:171 | For a positive limit, `pages` is the least count of pages of `limit` rows that covers `total`. A zero limit gives JSON `null`. |
| Paging.TransactionWindow | backend/src/controller/expense.controller.js:148-171 | The window exists exactly when page and limit parse, the limit is non-negative and the skip is non-negative. Then skip is `(page-1)*limit` and take is `limit`. Otherwise the storage layer refuses the query. |
| Paging.UserWindow | backend/src/controller/admin.controller.js:9-78 | With the user list's numeric coercion, skip is `parseInt((page-1)*limit)`, take is `parseInt(limit)`, and `pages` divides by the coerced limit. An invalid window is refused by storage. |
| Paging.PageOfRow | backend/src/controller/expense.controller.js:148-171 | Every result row `i` is on page `i / limit + 1`, at position `i % limit`, and that page is within `pages`. |
| Sorting.InsertDesc | backend/src/controller/expense.controller.js:156-158 | Inserting keeps the rows as a multiset and keeps a newest-first order. |
| Sorting.SortDesc | backend/src/controller/expense.controller.js:156-158 | `orderBy: { date: 'desc' }` yields a permutation of the rows, sorted by the key, largest first. |
| Sorting.SortKeepsRows | backend/src/controller/expense.controller.js:156-158 | A row is in the sorted list exactly when it is in the input. |
| Sorting.SortIsStable | backend/src/controller/expense.controller.js:156-158 | Rows with equal dates keep their table order. |
| Sorting.InsertWithKey | backend/src/controller/expense.controller.js:156-158 | Inserting one row adds it, and only it, to the rows sharing its key, in front. |
| TransactionWrites.DateValue | backend/src/controller/expense.controller.js:226 | `new Date(null)` is the epoch, a text goes through the date parser, and `undefined` is an Invalid Date. |
| TransactionWrites.CreatedDate | backend/src/controller/expense.controller.js:226 | A falsy date leaves the column default `now`. A truthy date is parsed, and an Invalid Date is refused. |
| TransactionWrites.ReceiptArg | backend/src/controller/expense.controller.js:229 | `receiptUrl \|\| null`: a falsy URL stores null, and a non-empty text is stored as it is. |
| TransactionWrites.NewTransaction | backend/src/controller/expense.controller.js:210-234 | A created row has the next id and the caller's id, and its category is one of the caller's categories of this kind. |
| TransactionWrites.NewRow | backend/src/controller/income.controller.js:129-138 | The stored row holds the validated values and the picked date. An income stores no receipt URL; an expense stores `receiptUrl \|\| null`. An Invalid Date is refused. |
| TransactionWrites.CreateErrorOrder | backend/src/controller/expense.controller.js:216-219 | The error of create is that of the first failing validation, in the order amount, description, notes, category. The category lookup decides only once the others pass. |
| TransactionWrites.CreateRefusesForeignCategory | backend/src/controller/income.controller.js:124-127 | Once amount, description and notes pass, a category id that names no category of the caller and the kind makes create fail with `Category must be of type "<kind>"`. |
| TransactionWrites.NoMatchRefused | backend/src/utils/validation.utils.js:68-90 | A truthy id that matches no category of the caller and the type is refused with the message naming the type. |
| TransactionWrites.CreatedValues | backend/src/controller/expense.controller.js:221-230 | A created row holds the parsed amount, the trimmed description and the validated notes. |
| TransactionWrites.CreatedDateAndReceipt | backend/src/controller/income.controller.js:134-137 | A created row has the body's date only when it is truthy, else `now`. An income's receipt URL is null. |
| TransactionWrites.CreatedIsFound | backend/src/controller/expense.controller.js:187-200 | A row appended with a fresh id and a category of this kind is what get returns for its id. |
| TransactionWrites.CreateTransaction | backend/src/controller/expense.controller.js:210-244 | On success the row is appended with the next id and is then found by get. On failure nothing is written. The users and categories do not change. |
| TransactionWrites.OptionalAmount | backend/src/controller/expense.controller.js:266 | In update, the amount is unset exactly when the body's amount is `undefined` or `null`. |
| TransactionWrites.OptionalDescription | backend/src/controller/expense.controller.js:267 | In update, the description is unset exactly when the body's description is absent or `null`. |
| TransactionWrites.OptionalNotes | backend/src/controller/expense.controller.js:268 | In update, the notes are unset exactly when the body's notes are absent or `null`. |
| TransactionWrites.OptionalCategory | backend/src/controller/income.controller.js:175 | In update, the category is unset exactly when absent or `null`. A given one is the caller's, of this kind. |
| TransactionWrites.PatchOf | backend/src/controller/expense.controller.js:272-278 | A key is in `updateData` exactly when its validated value is not `undefined`. Notes may be set to null. Date is present exactly when the body has it. The receipt URL is written only on the expense path, when the body has it. |
| TransactionWrites.FillUpdateData | backend/src/controller/income.controller.js:177-182 | Filling `updateData` key by key gives that patch. |
| TransactionWrites.UpdateDataKeys | backend/src/controller/expense.controller.js:266-278 | A field is in the patch exactly when the body holds a non-null value for it; an undefined date or receipt URL is left out. |
| TransactionWrites.UpdateDataCategory | backend/src/controller/expense.controller.js:269 | A category in the patch is one of the caller's categories of this kind. |
| TransactionWrites.BuildUpdateData | backend/src/controller/expense.controller.js:266-278 | The validations, in order, then the key-by-key patch. |
| TransactionWrites.ApplyPatch | backend/src/controller/expense.controller.js:280-286 | The updated row keeps its id and owner. |
| TransactionWrites.EmptyPatchKeepsRow | backend/src/controller/income.controller.js:177-190 | An empty `updateData` leaves the row as it was. |
| TransactionWrites.UpdatedTransaction | backend/src/controller/expense.controller.js:253-286 | A row not owned (caller and kind) is not found, whatever the body holds, because the ownership check precedes validation. A success is the found row with the patch applied. |
| TransactionWrites.UpdateKeepsUnsuppliedFields | backend/src/controller/income.controller.js:172-182 | A field the body leaves out or sets to `null` keeps its stored value, and so do a left-out date and receipt URL. An income's receipt URL never changes. |
| TransactionWrites.UpdateClearsFields | backend/src/controller/expense.controller.js:268-278 | Notes `""` are stored as null, `receiptUrl: ""` as null, and a `null` date as the epoch. |
| TransactionWrites.EmptyUpdateChangesNothing | backend/src/controller/income.controller.js:172-190 | `update(id, {})` on an owned row returns it unchanged. |
| TransactionWrites.ReplaceBySelf | backend/src/controller/income.controller.js:184-190 | Replacing a row by itself leaves the table unchanged. |
| TransactionWrites.UpdateTransaction | backend/src/controller/expense.controller.js:247-293 | Only the matched row changes, and only in the patched fields. A failure writes nothing. The other tables are unchanged. |
| TransactionWrites.DeleteTransaction | backend/src/controller/income.controller.js:199-225 | After the ownership check, exactly the matched row is removed and the rest keep their order. A failure writes nothing. |
| Categories.InsertByName | backend/src/controller/category.controller.js:11-13 | Inserting by name keeps the categories as a multiset. |
| Categories.InsertByNameSorted | backend/src/controller/category.controller.js:11-13 | Inserting by name keeps the list sorted by name. |
| Categories.SortByName | backend/src/controller/category.controller.js:11-13 | `orderBy: { name: 'asc' }` yields a permutation sorted by name. |
| Categories.OwnOfType | backend/src/controller/category.controller.js:6-10 | The `where: { userId, type }` keeps exactly the caller's categories of the type. |
| Categories.GetCategories | backend/src/controller/category.controller.js:3-40 | The result holds exactly the caller's categories of the kind, sorted by name ascending, each as often as stored. |
| Categories.OthersCategoriesIgnored | backend/src/controller/category.controller.js:25-33 | A category of another user or the other type does not change what the caller sees. |
| Categories.OwnOfTypeAppend | backend/src/controller/category.controller.js:6-10 | Filtering a split table filters each part. |
| Categories.OwnOfTypeNone | backend/src/controller/category.controller.js:25-29 | A table without the caller's categories of the type lists nothing. |
| Categories.OwnOfTypeAll | backend/src/controller/category.controller.js:6-10 | A table holding only the caller's categories of the type lists all of them in order. |
| DefaultCategories.CreateDefaultCategories | backend/src/utils/defaultCategories.utils.js:12-22 | The loop appends the default rows after the existing ones and advances the counter by 8. The users and transactions are unchanged. |
| DefaultCategories.DefaultRowsShape | backend/src/utils/defaultCategories.utils.js:1-19 | There are 8 rows: all of type `expense`, owned by the user, flagged default, with the listed names, colours and icons. |
| DefaultCategories.NewUserSeesDefaults | backend/src/utils/defaultCategories.utils.js:12-22 | A new user's expense categories are exactly the 8 defaults, sorted by name, and their income categories are empty. |
| PasswordRules.MessageInjective | backend/src/utils/password.js:10-28 | Two rules with the same message are the same rule. |
| PasswordRules.InIfBroken | backend/src/utils/password.js:10-28 | A rule's message comes only from that rule failing. |
| PasswordRules.FailedNamesEachBrokenRule | backend/src/utils/password.js:8-28 | A rule's message is in the list exactly when the rule fails. |
| PasswordRules.NoneFailedIffAllHold | backend/src/utils/password.js:30-33 | The list is empty exactly when all five rules hold. |
| PasswordRules.FailedBounded | backend/src/utils/password.js:10-28 | At most five messages, none twice. |
| PasswordRules.NoDuplicatesAppend | backend/src/utils/password.js:10-28 | Pushing a message not yet in the list keeps it free of repeats. |
| PasswordUtils.StrongPassword | backend/src/utils/password.utils.js:5-47 | Strong exactly when length ≥ 8 and there are an upper-case letter, a lower-case letter, a digit and a special character. Strong exactly when the error is null. Otherwise the error is the message of the first failing rule in check order. |
| PasswordUtils.FailFastIsFirstCollected | backend/src/utils/password.utils.js:7-40 | The fail-fast error is the first message of the collect-all list, and the two variants agree on strength. |
| PasswordUtils.HashPassword | backend/src/utils/password.utils.js:51-64 | An empty or non-string password is refused before hashing; otherwise the result is the oracle's hash. |
| PasswordUtils.ComparePassword | backend/src/utils/password.utils.js:67-84 | The password is checked first, then the stored hash, each refused when empty or not a string. Otherwise the result is the oracle's comparison. |
| PasswordReport.StrongPassword | backend/src/utils/password.js:6-34 | The pushed list is the messages of all failing rules in check order. `isStrong` holds exactly when the list is empty, exactly when all rules hold. |
| Auth.SignupRejection | backend/src/controller/auth.controller.js:15-21 | Accepted exactly when all four fields are filled, the email is free and the password is strong. A missing field is "All fields are required". A taken email is a conflict whatever the password. A weak password is the validation error carrying the first failing rule's message. |
| Auth.Register | backend/src/controller/auth.controller.js:11-52 | A rejection writes nothing. An acceptance appends the user (with the hash), then its 8 default categories. It answers with id, email and names (never the password) and a token for the new id. |
| Auth.Login | backend/src/controller/auth.controller.js:55-83 | Missing fields are refused before any lookup. An unknown email and a wrong password give the same `AuthenticationError`. Success needs the stored user and a matching hash, and shows that user's public fields. |
| Auth.ValidateToken | backend/src/controller/auth.controller.js:86-108 | A user id with no user is "User not found". Otherwise the answer is that user's public fields. |
| Auth.FindUserByEmailAppend | backend/src/controller/auth.controller.js:17-32 | An account appended with a free email is what the email lookup then finds. |
| Auth.LoginAfterSignup | backend/src/controller/auth.controller.js:11-83 | Signing up and then logging in with the same credentials succeeds and shows the new account, given a hash the comparison accepts. |
| Auth.UserIndexAppend | backend/src/controller/auth.controller.js:25-34 | An account appended with a fresh id is found at the end. |
| Auth.NewAccountValidates | backend/src/controller/auth.controller.js:86-108 | The token of a newly registered account names a user that `validateToken` finds. |
| Admin.OneWordMeaning | backend/src/controller/admin.controller.js:17-23 | A one-word search's `OR` holds exactly when the email, first name or last name contains the raw search, case-insensitively. |
| Admin.SeveralWordsClauses | backend/src/controller/admin.controller.js:26-38 | There is one clause for the email, one per term per name, and the first-and-rest clause. |
| Admin.SeveralWordsMeaning | backend/src/controller/admin.controller.js:24-39 | The several-word `OR` holds exactly when the email contains the full search or a name contains one term. The first-and-rest clause adds no match of its own. |
| Admin.BuildWhere | backend/src/controller/admin.controller.js:12-44 | The `OR` is present exactly when a search is given, and the role exactly when a role is given. A user satisfies the `where` exactly when the search names the user and the role (if any) is theirs. |
| Admin.SearchByOwnEmail | backend/src/controller/admin.controller.js:20-27 | Searching for a user's own email finds that user. |
| Admin.Matching | backend/src/controller/admin.controller.js:47-48 | `findMany({ where })` keeps exactly the stored users satisfying it. |
| Admin.Selected | backend/src/controller/admin.controller.js:14-44 | The users the search and role select. |
| Admin.MatchingIsSelected | backend/src/controller/admin.controller.js:12-48 | The `where` built from a search and a role selects exactly their users, in table order. |
| Admin.RowsKeepOrder | backend/src/controller/admin.controller.js:67 | Rows of users sorted newest first are sorted by `createdAt` descending. |
| Admin.ShownRowsFromFound | backend/src/controller/admin.controller.js:65-67 | Each shown row is a found user's row. |
| Admin.PageOf | backend/src/controller/admin.controller.js:46-79 | The rows are those of the found users sorted by `createdAt` descending, cut to the window's `skip` and `take`. So there are at most `take` rows, each a found user's row, in that order. The pagination counts all found users. |
| Admin.GetAllUsers | backend/src/controller/admin.controller.js:6-84 | A missing `page` is 1 and a missing `limit` 50. Fails exactly when storage refuses the window. Otherwise the answer is the page of the users the search and role select. |
| Admin.RoleChangeRejection | backend/src/controller/admin.controller.js:138-148 | A role other than USER/ADMIN is refused first, then changing one's own role, then an unknown id (P2025). No rejection exactly when none applies. |
| Admin.RoleChangeTouchesOnlyTarget | backend/src/controller/admin.controller.js:146-148 | With unique ids, a role change rewrites only the target's row and only its role. |
| Admin.UpdateUserRole | backend/src/controller/admin.controller.js:133-165 | A rejection writes nothing. Otherwise the target's role is set and the target's selected columns are returned. The other tables are unchanged. |
| Admin.DeleteRejection | backend/src/controller/admin.controller.js:171-185 | Deleting oneself is refused first. A missing user becomes `NotFoundError` "User not found". No rejection exactly when the target exists and is someone else. |
| Admin.RemoveAtDropsId | backend/src/controller/admin.controller.js:175-177 | With unique ids, dropping the target's row drops exactly the users with its id. |
| Admin.DeleteUser | backend/src/controller/admin.controller.js:167-187 | A rejection writes nothing. Otherwise exactly the target leaves the user table, and exactly the target's categories and transactions leave theirs. |
| Admin.SpentAppend | backend/src/controller/admin.controller.js:235-236 | Totals and counts add over a split table, so other users' rows never change a user's entry. |
| Admin.InsertBySpent | backend/src/controller/admin.controller.js:238 | Inserting keeps the entries as a multiset. |
| Admin.InsertBySpentSorted | backend/src/controller/admin.controller.js:238 | Inserting keeps the entries sorted by total, descending. |
| Admin.InsertBySpentBound | backend/src/controller/admin.controller.js:238 | Inserting keeps a bound on totals. |
| Admin.RankBySpent | backend/src/controller/admin.controller.js:238 | The sort yields a permutation ordered by total, largest first. |
| Admin.TopSpenders | backend/src/controller/admin.controller.js:229-239 | There are min(5, number of candidates) entries, sorted by total descending. They are a sub-multiset of the candidates, so no candidate appears more often than it occurs. No candidate left out has spent more than any entry kept. |
| Admin.InsertBySpentTies | backend/src/controller/admin.controller.js:238 | An inserted entry goes ahead of the entries that tie with it, and the other ties keep their order. |
| Admin.RankIsStable | backend/src/controller/admin.controller.js:238 | The ranking is stable: the entries sharing a total come out in the order they had. |
| Admin.TopSpendersTies | backend/src/controller/admin.controller.js:229-239 | Among candidates tied at a total, the kept ones are the first of them in table order. |
| Admin.TopOfRanked | backend/src/controller/admin.controller.js:238-239 | The first five of a sorted permutation form a sub-multiset of the candidates, and no left-out candidate outspends them. |
| Admin.CreateUser | backend/src/controller/admin.controller.js:253-309 | The checks of `register`, with "Email is already registered" as the conflict. A rejection writes nothing. An acceptance stores country `\|\| 'US'` and currency `\|\| 'USD'`, then the default categories. |
| FilterValidation.AmountProblem | frontend/src/utils/filterValidation.js:4-18 | No message exactly when the bound is acceptable. Each message of the chain (not a number, below 0, at least 100,000,000, more than 2 decimals) is given exactly when its rule fails and every earlier rule passes. |
| FilterValidation.CheckBound | frontend/src/utils/filterValidation.js:20-34 | One bound's chain adds at most its own entry and leaves every other entry. |
| FilterValidation.CheckBounds | frontend/src/utils/filterValidation.js:4-43 | A bound has an entry exactly when it is non-empty and either breaks its chain or the bounds are reversed. Reversed bounds replace both entries with the ordering messages. Empty exactly when both bounds are acceptable. |
| FilterValidation.ValidateFilters | frontend/src/utils/filterValidation.js:1-58 | The amount entries as above. A search entry exactly when the search is over 100 characters, quoting its length. Both date entries exactly when both dates are valid and start is after end. The map is empty exactly when no rule is violated. |
| FilterValidation.TwoDecimalBoundAccepted | frontend/src/utils/filterValidation.js:4-18 | Every two-decimal bound from 0.00 to 99,999,999.99 passes the chain. |
| FilterValidation.ReversedBoundsRejectedAlone | frontend/src/utils/filterValidation.js:36-43 | Reversed bounds are refused even when each passes its own chain. |
| ExpenseForm.AmountChainOrder | frontend/src/components/expenses/ExpenseForm.jsx:43-56 | Each amount rule (missing, not a number, ≤ 0, ≥ 100,000,000, more than 2 decimals) is reported exactly when it fails and all earlier ones pass. No rule is reported exactly when the amount is acceptable. |
| ExpenseForm.DescriptionMeaning | frontend/src/components/expenses/ExpenseForm.jsx:58-62 | Accepted exactly when not blank and at most 255 untrimmed characters. Blank gives "required". An over-long text gives the message quoting its length. |
| ExpenseForm.AmountProblemMeaning | frontend/src/components/expenses/ExpenseForm.jsx:43-56 | The amount gets no message exactly when it is acceptable. |
| ExpenseForm.FieldsAcceptable | frontend/src/components/expenses/ExpenseForm.jsx:40-78 | The form is acceptable exactly when no field gets a message. |
| ExpenseForm.CheckAmount | frontend/src/components/expenses/ExpenseForm.jsx:41-56 | The map has an amount entry, with the amount's message, exactly when the amount breaks a rule, and no other entry. |
| ExpenseForm.CheckOthers | frontend/src/components/expenses/ExpenseForm.jsx:58-75 | For description, notes, date and category, each entry is present exactly when its rule fails, with that field's message. The amount entry is kept. |
| ExpenseForm.ValidateForm | frontend/src/components/expenses/ExpenseForm.jsx:40-78 | Every field is examined. There is an entry, with its message, exactly for each wrong field. Valid exactly when the map is empty, exactly when the form is acceptable. |
| ExpenseForm.BlankAmountPassesForm | frontend/src/components/expenses/ExpenseForm.jsx:43-56 | A whitespace amount passes every rule (it is not NaN for `Number` and not compared for `parseFloat`) but does not parse. |
| ExpenseForm.AcceptedAmountPassesServer | frontend/src/components/expenses/ExpenseForm.jsx:43-56 | An amount the form accepts and that parses is accepted by the server, with the same value. |
| ExpenseForm.AcceptedTextPassesServer | frontend/src/components/expenses/ExpenseForm.jsx:58-66 | A description and notes the form accepts pass the server's checks, the description trimmed. |
| AdminForm.JoinedAddressMatches | frontend/src/pages/AdminPanel.jsx:105 | Three non-empty parts without whitespace or `@`, joined as `local@domain.tld`, match the email pattern. |
| AdminForm.NameAccepted | frontend/src/pages/AdminPanel.jsx:107-117 | A name is accepted exactly when its trimmed text has at least two characters. |
| AdminForm.NameMessages | frontend/src/pages/AdminPanel.jsx:107-117 | "Required" exactly when blank. "At least 2 characters" exactly when not blank but shorter than two after trimming. |
| AdminForm.BlankNeverMatches | frontend/src/pages/AdminPanel.jsx:105 | No blank text matches the pattern. |
| AdminForm.EmailAccepted | frontend/src/pages/AdminPanel.jsx:119-123 | An email is accepted exactly when it matches the pattern. |
| AdminForm.EmailMessages | frontend/src/pages/AdminPanel.jsx:119-123 | "Required" exactly when blank. "Invalid" exactly when not blank and not matching. |
| AdminForm.FieldsAcceptable | frontend/src/pages/AdminPanel.jsx:103-137 | The form is acceptable exactly when no field gets a message. |
| AdminForm.CheckName | frontend/src/pages/AdminPanel.jsx:107-117 | A name's chain adds its entry exactly when the name is wrong, and leaves every other entry. |
| AdminForm.CheckEmail | frontend/src/pages/AdminPanel.jsx:119-123 | The email chain adds its entry exactly when the email is wrong, and leaves every other entry. |
| AdminForm.CheckPasswords | frontend/src/pages/AdminPanel.jsx:125-133 | An empty password gives "required" (with no strength check). An empty confirmation gives "required", and a different one "Passwords do not match". The earlier entries are kept. |
| AdminForm.ValidateCreateForm | frontend/src/pages/AdminPanel.jsx:103-137 | There is an entry, with its message, exactly for each wrong field. Valid exactly when the map is empty, exactly when the form is acceptable. |
| AdminForm.MalformedAddressesRefused | frontend/src/pages/AdminPanel.jsx:105-123 | An address with no dot after the `@` does not match. A padded address is invalid, because the pattern is matched against the untrimmed text. |
| AdminForm.AcceptedFormIsComplete | frontend/src/pages/AdminPanel.jsx:138-154 | A form the panel accepts passes the server's "All fields are required" check. |
| ClientErrors.FlatMembers | frontend/src/utils/errorHandler.js:15 | A message is in `Object.values(errors).flat()` exactly when some value is that message or an array holding it. |
| ClientErrors.FixedStatusIgnoresBody | frontend/src/utils/errorHandler.js:20-39 | 401, 403, 429, 500, 502, 503 and 504 give a text that does not depend on the body. |
| ClientErrors.GatewayStatusesAgree | frontend/src/utils/errorHandler.js:41-44 | 502, 503 and 504 give the same message. |
| ClientErrors.ServerMessageShown | frontend/src/utils/errorHandler.js:13-47 | For every non-fixed status (except a 400 with field errors), a non-empty server message is shown as it is. |
| ClientErrors.EmptyOnlyFromErrorList | frontend/src/utils/errorHandler.js:2-49 | The text is empty exactly for a 400 whose field-error list joins to nothing. |
| ClientErrors.EmptyErrorObjectReadsEmpty | frontend/src/utils/errorHandler.js:13-16 | A 400 with an empty `errors` object reads as the empty text. |
| ClientErrors.ServerErrorsAsShown | frontend/src/utils/errorHandler.js:10-47 | Across the wire: validation, not-found and conflict errors with a message show the server's message. Authentication and forbidden errors show fixed texts. A 500 shows the server-failure text. |
| Currency.SymbolsNonEmpty | frontend/src/utils/currency.js:3-38 | Every symbol is non-empty, so the `\|\| currencyCode` fallback serves only unknown codes. |
| Currency.GetCurrencySymbol | frontend/src/utils/currency.js:47-49 | The symbol of the upper-cased code, or the code unchanged, in its original case. |
| Currency.NaNFormatsAsZero | frontend/src/utils/currency.js:59-61 | A NaN amount, including a text `parseFloat` cannot read, formats as `0`. |
| Currency.ManualLayout | frontend/src/utils/currency.js:81-93 | Without an `Intl` result: zero decimals for JPY, KRW, VND and IDR or when decimals are off, two otherwise. The symbol follows after a space for the eight symbol-after currencies and precedes directly otherwise. |
| Currency.NativeResultShown | frontend/src/utils/currency.js:66-79 | With `useNativeFormat` and a result from `Intl`, that result is returned as it is. |
| Currency.FormatIgnoresCase | frontend/src/utils/currency.js:63-64 | The code's case does not change `formatCurrency`'s result. |
| Currency.UnknownCodeCase | frontend/src/utils/currency.js:47-93 | An unknown code comes back from `getCurrencySymbol` in its own case but is shown upper-cased by `formatCurrency`. |
| Currency.ChangeSymmetric | frontend/src/utils/currency.js:96-103 | An amount and its negation are shown with the same digits and opposite signs. |
| Currency.ZeroChangeIsPlus | frontend/src/utils/currency.js:102 | Zero gets `+`. |
| Currency.NaNChange | frontend/src/utils/currency.js:96-103 | NaN is `-0` with the sign and `0` without. |
| Currency.KeepNumeric | frontend/src/utils/currency.js:109 | Only digits, `.`, `,` and `-` are kept. |
| Currency.DropCommas | frontend/src/utils/currency.js:110 | No comma is left. |
| Currency.KeepNumericAppend | frontend/src/utils/currency.js:109 | Filtering a concatenation filters each part. |
| Currency.KeepNumericNone | frontend/src/utils/currency.js:109 | Text without the numeric class disappears. |
| Currency.ParseCurrency | frontend/src/utils/currency.js:106-113 | A number passes through unchanged. A text always gives a number, 0 when nothing parses. |
| Currency.SurroundingTextIgnored | frontend/src/utils/currency.js:106-113 | Text around the number with no digit, dot, comma or minus does not change what is read. |
| Currency.DirhamSymbolKeepsDot | frontend/src/utils/currency.js:106-113 | The dirham symbol's dot survives the cleaning and is read in front of the digits. |
| Currency.SymbolsNonNumeric | frontend/src/utils/currency.js:3-38 | No symbol but the dirham's holds a digit, dot, comma or minus. |
| Currency.SymbolIgnored | frontend/src/utils/currency.js:89-113 | A symbol without numeric characters, before or after the digits, is ignored by the reading. |
| Currency.ManualReadBack | frontend/src/utils/currency.js:81-113 | Reading back the manual format gives what reading the locale's digits gives, for every known currency but the dirham. |
| Currency.FormattedAmountReadBack | frontend/src/utils/currency.js:52-113 | Reading back what `formatCurrency` wrote without `Intl` gives what reading the locale's digits gives, for every known currency but the dirham. |
| Countries.FindIndex | frontend/src/utils/countryOptions.js:72 | `find` gives the first entry whose code is exactly the given code, or none when no entry has it. |
| Countries.LookupsAnswerFirstMatch | frontend/src/utils/countryOptions.js:71-80 | Both lookups answer with the first entry having the code: its name and its label. |
| Countries.UnknownCodeUnchanged | frontend/src/utils/countryOptions.js:71-80 | A code no entry has comes back unchanged from both lookups. |
| Countries.LowerCaseNotResolved | frontend/src/utils/countryOptions.js:72-78 | Matching is exact: `us` is not resolved by either lookup. |
| Countries.CommonCountriesListed | frontend/src/utils/countryOptions.js:82-93 | Every common country occurs in the full list, with the same label. |
| CurrencyOptions.GroupByRegion | frontend/src/utils/currencyOptions.js:51-62 | The keys, in order of creation, are the regions in order of first appearance. Each group holds exactly its region's options in list order, and no group is empty. |
| CurrencyOptions.RegionsAreTheRegions | frontend/src/utils/currencyOptions.js:55-57 | The keys are distinct, and a key exists exactly when some option has that region. |
| CurrencyOptions.InRegionMembers | frontend/src/utils/currencyOptions.js:54-59 | A group holds exactly the options of its region. |
| CurrencyOptions.GroupsNonEmpty | frontend/src/utils/currencyOptions.js:55-57 | A region is a key exactly when its group is non-empty. |
| CurrencyOptions.TotalStep | frontend/src/utils/currencyOptions.js:58 | Pushing one option adds one to the total of the groups of distinct keys containing its region. |
| CurrencyOptions.GroupSizesSum | frontend/src/utils/currencyOptions.js:54-59 | The group sizes sum to the number of options. |
| CurrencyOptions.CommonCurrenciesListed | frontend/src/utils/currencyOptions.js:65-74 | Every common currency occurs in the full list, with the same label. |
| Toasts.WithoutMembers | frontend/src/hooks/useToast.js:22 | A toast is kept exactly when it was there and has another id. |
| Toasts.WithoutAppend | frontend/src/hooks/useToast.js:22 | Removal filters each part of a concatenation, so the kept toasts stay in order. |
| Toasts.WithoutAbsent | frontend/src/hooks/useToast.js:20-23 | Removing an id that is not present leaves the list unchanged. |
| Toasts.WithoutIdempotent | frontend/src/hooks/useToast.js:20-23 | No toast with the id is left, so removing twice is removing once. |
| Toasts.SameReadingRemovedTogether | frontend/src/hooks/useToast.js:7-22 | Two toasts added at the same clock reading share an id, so removing one removes both. |
| Toasts.AddThenRemoveRestores | frontend/src/hooks/useToast.js:6-23 | Adding a toast with a fresh id and then removing that id restores the list. |
| Toasts.ToastStore.constructor | frontend/src/hooks/useToast.js:4 | The store starts empty. |
| Toasts.ToastStore.AddToast | frontend/src/hooks/useToast.js:6-10 | Exactly one toast is appended at the end, with type defaulting to `error`. The earlier toasts are unchanged. |
| Toasts.ToastStore.RemoveToast | frontend/src/hooks/useToast.js:20-24 | Every toast with the id is dropped, and the others stay in order. |
| Toasts.ToastStore.ClearToasts | frontend/src/hooks/useToast.js:26-28 | The list becomes empty. |

## Left out

- Hashing and tokens: bcrypt and jsonwebtoken are oracles passed as functions. `hash`, `compare` and `token` are parameters, and their failures are not modelled.
- The bearer-header middleware and `jwt.js` are not part of this model. The caller's id is a parameter.
- `getUserById` in the admin controller is not modelled: it is a single lookup whose only decision is `User not found`, the same as `Auth.ValidateToken`.
- The remaining global counters of `getGlobalStats` are not modelled, and neither is the recent-users query. Only the top-spender pipeline is.
- `stats.controller.js` is not modelled: it never sends a response.
- The legacy `auth.js` and `errors.js` are not modelled: they are not wired into the routes (`errors.js` is a subset of `errors.utils.js`).
- The `hashPassword` and `comparePassword` guards of `password.js` are the same code as those of `password.utils.js`. They are modelled once, as `PasswordUtils.HashPassword` and `PasswordUtils.ComparePassword`.
- Auth.ValidateToken: an unknown user is modelled as the intended `AuthenticationError` ("User not found", a 401). As written, the handler has no `next` parameter, so its `catch` (auth.controller.js:110-112) calls an undefined `next`. That throws a ReferenceError, and the 401 is never sent. What the client then sees depends on how Express treats a rejected handler promise, which is not modelled.
- Concurrency and time are not modelled:
  - `Promise.all`;
  - the admin search debounce;
  - the 5-second auto-removal timer of the toasts.
- Clock readings are parameters: `Date.now()` for toast ids, and `now` for the default transaction date.
- Dates: `new Date(text)` is an abstract parser `string -> Option<int>` passed in. A numeric date is a time value truncated to an integer.
- Floating point: amounts are exact rationals.
  - `parseFloat` reads whitespace, a sign, digits, a dot and digits. Exponents, `Infinity`, hexadecimal and the rounding of binary doubles are not modelled.
  - `parseInt` reads decimal digits only.
  - `Number(text)` accepts the trimmed decimal literal, and blank text is 0.
- JsNumbers.ParseFloat: agrees with JavaScript's only on texts without an exponent or `Infinity`.
- Currency.FormatCurrency: `Intl.NumberFormat` and `toLocaleString` are passed in as functions. The model states where the result of each goes, not the digits they print.
- Default arguments (`currencyCode = 'EUR'`, the defaults of the `options` object, `type = 'error'` on the kind only) are passed explicitly by the caller. The one exception is the toast type, whose default is modelled.
- Strings.Lower and Strings.Upper: map ASCII letters only. JavaScript's full Unicode case mapping is not modelled.
- String lengths: lengths are counted in code points, whereas JavaScript counts UTF-16 code units. The 255, 1000 and 100 character limits differ for text outside the Basic Multilingual Plane.
- Strings.LexLe: orders names by code point, standing in for the database collation of `orderBy: { name: 'asc' }`.
- Body values other than strings, numbers, `null` and absence (arrays, objects, booleans) are not modelled. The filter form's fields are held as strings.
- Ids: a route's `req.params.id` is a string while stored ids are numbers. The model describes the evidently intended code: ids of one type, compared by equality in the own-account guards of `updateUserRole` and `deleteUser` and in the lookups by id. As written, Prisma refuses a string id in `where: { id }`, and `===` between a string and a number never holds.
- Admin.UpdateUserRole: the caller's id is a parameter, standing in for an admin middleware that would supply it. As written, no middleware sets `req.user` (the bearer middleware sets only `req.userId`), so `req.user.id` throws a TypeError, answered with 500, on every request with a valid role. This failure is not modelled.
- Admin.DeleteUser: the caller's id is a parameter for the same reason. As written, `req.user.id` throws on every delete, answered with 500. This failure is not modelled.
- The admin routes import a `requireAdmin` that the middleware module does not export. The admin-only access check is not modelled.
- Database.Db.RemoveUserAt: the schema, which fixes the referential actions, is not part of this model. The model takes the user's categories and transactions to cascade. Under Restrict every delete would instead fail, because every account owns its default categories.
- Admin.RoleChangeRejection: the Prisma error for an unknown id is an opaque plain error with the text "Record to update not found.". Other Prisma error codes are not modelled.
- The persistence layer's refusals (NaN ids, Invalid Dates, a NaN or negative skip) are one generic storage error answered with 500.
- Paging.TransactionWindow: a negative `limit` is refused as a storage error. Prisma instead reads a negative `take` backwards, so `?limit=-5` on page 1 answers the last 5 rows, with `pages` equal to `Math.ceil(total / -5)`. Backward reading is not modelled.
- Paging.UserWindow: a negative `parseInt(limit)` is refused in the same way, for the same reason.
- The schema's column defaults (`role`, `country`, `currency`, `createdAt`) are not modelled. A new account stores role `USER`, and `register` leaves country and currency to the column default (`None`).
- The `expenses` relation, counted in the user list and summed and counted for the top spenders (`Admin.Spent`, `Admin.TopSpenders`), is taken to hold all of the user's transactions.
- Top spenders: `findMany({ take: 10 })` without an order takes the first ten rows in table order.
- ClientErrors: the `data.message` and `data.errors` of a response are taken to be a string and an object of strings or string arrays.
- ExpenseForm.ValidateForm and AdminForm.ValidateCreateForm: the map holds each message as a `Message` value. `Text` renders the exact strings the forms show.
- CurrencyOptions.GroupByRegion: JavaScript's key order of the grouped object is returned as the separate `order` sequence.
- The country and currency lists are written as consecutive regional blocks whose concatenation is the list.
- Rendering, hooks, effects, the network clients, the stores, the routes, server start-up, the configuration and the `create-admin.js` script are not modelled.
- `prisma.utils.js` and the Prisma client are replaced by the in-memory `Db` class.
- The expense filter copy in `ExpenseFilters.jsx` and the login form's checks are duplicates of the modelled validators and are not modelled separately.
- The expense controller's private validators are modelled by the shared ones with the type `expense`. They differ only in always requiring that type, and their messages are the same.
