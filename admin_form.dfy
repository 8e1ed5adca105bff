/**
 * `validateCreateForm` of the admin panel: the browser's check of the "create user" form. Each field that
 * is wrong gets one message in a map, and the form is submitted only when the map is empty. The map holds
 * each message as a `Message` value; `Text` renders it as the string the form shows.
 */
module AdminForm {
  import opened Wrappers
  import opened Strings
  import Auth

  datatype NewUser = NewUser(firstName: string, lastName: string, email: string, password: string,
                             confirmPassword: string)

  datatype FormField = FirstName | LastName | Email | Password | ConfirmPassword

  /** The two name inputs share their rules and differ only in the wording of the messages. */
  datatype NamePart = First | Last

  datatype Message =
    | NameRequired(part: NamePart)
    | NameTooShort(part: NamePart)
    | EmailRequired
    | EmailInvalid
    | PasswordRequired
    | ConfirmRequired
    | PasswordsDiffer

  function Text(m: Message): string {
    match m
    case NameRequired(First) => "First name is required"
    case NameRequired(Last) => "Last name is required"
    case NameTooShort(First) => "First name must be at least 2 characters"
    case NameTooShort(Last) => "Last name must be at least 2 characters"
    case EmailRequired => "Email is required"
    case EmailInvalid => "Please enter a valid email address"
    case PasswordRequired => "Password is required"
    case ConfirmRequired => "Please confirm your password"
    case PasswordsDiffer => "Passwords do not match"
  }

  /**
   * `s` read as `local@domain.tld` with the `@` at `at` and a dot at `dot`, any dot after the `@` with
   * text on both sides: no whitespace anywhere, no other `@`, and at least one character before the `@`,
   * between it and the dot, and after the dot.
   */
  predicate SplitsAt(s: string, at: int, dot: int) {
    0 < at && at + 1 < dot < |s| - 1 && s[at] == '@' && s[dot] == '.' &&
    forall i :: 0 <= i < |s| ==> !IsSpace(s[i]) && (i != at ==> s[i] != '@')
  }

  /** The language of `^[^\s@]+@[^\s@]+\.[^\s@]+$`. */
  predicate EmailPattern(s: string) {
    exists at, dot :: 0 < at < |s| && 0 < dot < |s| && SplitsAt(s, at, dot)
  }

  /** Three parts free of whitespace and `@`, joined by an `@` and a dot, match the pattern. */
  lemma JoinedAddressMatches(local: string, domain: string, tld: string)
    requires local != [] && domain != [] && tld != []
    requires forall c :: c in local + domain + tld ==> !IsSpace(c) && c != '@'
    ensures EmailPattern(local + "@" + domain + "." + tld)
  {
    var s := local + "@" + domain + "." + tld;
    var at, dot := |local|, |local| + 1 + |domain|;
    forall i | 0 <= i < |s| ensures !IsSpace(s[i]) && (i != at ==> s[i] != '@') {
      if i < at {
        assert s[i] == local[i] && s[i] in local + domain + tld;
      } else if at < i < dot {
        assert s[i] == domain[i - at - 1] && s[i] in local + domain + tld;
      } else if dot < i {
        assert s[i] == tld[i - dot - 1] && s[i] in local + domain + tld;
      }
    }
    assert SplitsAt(s, at, dot);
  }

  /** Blank after trimming is "required"; otherwise the trimmed name needs two characters. */
  function NameProblem(part: NamePart, name: string): Option<Message> {
    if Trim(name) == "" then Some(NameRequired(part))
    else if |Trim(name)| < 2 then Some(NameTooShort(part))
    else None
  }

  /** A name is refused exactly when its trimmed text is shorter than two characters. */
  lemma NameAccepted(part: NamePart, name: string)
    ensures NameProblem(part, name).None? <==> |Trim(name)| >= 2
  {
  }

  /** Blank is "required"; a short name that is not blank is "too short". */
  lemma NameMessages(part: NamePart, name: string)
    ensures NameProblem(part, name) == Some(NameRequired(part)) <==> AllSpace(name)
    ensures NameProblem(part, name) == Some(NameTooShort(part)) <==> !AllSpace(name) && |Trim(name)| < 2
  {
  }

  /** Blank after trimming is "required"; otherwise the untrimmed text must match the pattern. */
  function EmailProblem(email: string): Option<Message> {
    if Trim(email) == "" then Some(EmailRequired)
    else if !EmailPattern(email) then Some(EmailInvalid)
    else None
  }

  /** No blank text matches the pattern. */
  lemma BlankNeverMatches(email: string)
    requires EmailPattern(email)
    ensures !AllSpace(email)
  {
    var at, dot :| 0 < at < |email| && 0 < dot < |email| && SplitsAt(email, at, dot);
    assert !IsSpace(email[at]);
  }

  /** An email is accepted exactly when it matches the pattern. */
  lemma EmailAccepted(email: string)
    ensures EmailProblem(email).None? <==> EmailPattern(email)
  {
    if EmailPattern(email) {
      BlankNeverMatches(email);
    }
  }

  /** Blank is "required"; any other text that does not match is "invalid". */
  lemma EmailMessages(email: string)
    ensures EmailProblem(email) == Some(EmailRequired) <==> AllSpace(email)
    ensures EmailProblem(email) == Some(EmailInvalid) <==> !AllSpace(email) && !EmailPattern(email)
  {
  }

  function PasswordProblem(password: string): Option<Message> {
    if password == "" then Some(PasswordRequired) else None
  }

  /** An empty confirmation is "required"; otherwise it must equal the password exactly. */
  function ConfirmProblem(password: string, confirmPassword: string): Option<Message> {
    if confirmPassword == "" then Some(ConfirmRequired)
    else if password != confirmPassword then Some(PasswordsDiffer)
    else None
  }

  /** A form every field of which is acceptable. */
  predicate FormAcceptable(form: NewUser) {
    |Trim(form.firstName)| >= 2 && |Trim(form.lastName)| >= 2 && EmailPattern(form.email) &&
    form.password != "" && form.confirmPassword == form.password
  }

  /** A form is acceptable exactly when no field gets a message. */
  lemma FieldsAcceptable(form: NewUser)
    ensures FormAcceptable(form) <==>
              NameProblem(First, form.firstName).None? && NameProblem(Last, form.lastName).None? &&
              EmailProblem(form.email).None? && PasswordProblem(form.password).None? &&
              ConfirmProblem(form.password, form.confirmPassword).None?
  {
    NameAccepted(First, form.firstName);
    NameAccepted(Last, form.lastName);
    EmailAccepted(form.email);
    var names := |Trim(form.firstName)| >= 2 && |Trim(form.lastName)| >= 2;
    var secrets := form.password != "" && form.confirmPassword == form.password;
    assert secrets <==> PasswordProblem(form.password).None? && ConfirmProblem(form.password, form.confirmPassword).None?;
    assert FormAcceptable(form) <==> names && EmailPattern(form.email) && secrets;
  }

  /** The message, if any, the form shows for `field`. */
  function Problem(form: NewUser, field: FormField): Option<Message> {
    match field
    case FirstName => NameProblem(First, form.firstName)
    case LastName => NameProblem(Last, form.lastName)
    case Email => EmailProblem(form.email)
    case Password => PasswordProblem(form.password)
    case ConfirmPassword => ConfirmProblem(form.password, form.confirmPassword)
  }

  /** The chain of one name in `validateCreateForm`: `newUserData.firstName` or `newUserData.lastName`. */
  method CheckName(errors: map<FormField, Message>, field: FormField, part: NamePart, name: string)
    returns (updated: map<FormField, Message>)
    ensures field in updated <==> field in errors || NameProblem(part, name).Some?
    ensures NameProblem(part, name).Some? ==> updated[field] == NameProblem(part, name).value
    ensures forall k :: k != field ==> (k in updated <==> k in errors)
    ensures forall k :: k != field && k in errors ==> updated[k] == errors[k]
    ensures NameProblem(part, name).None? ==> field in errors ==> updated[field] == errors[field]
  {
    updated := errors;
    var trimmed := Trim(name);
    if trimmed == "" {
      updated := updated[field := NameRequired(part)];
    } else if |trimmed| < 2 {
      updated := updated[field := NameTooShort(part)];
    }
  }

  /** The chain of `newUserData.email` in `validateCreateForm`. */
  method CheckEmail(errors: map<FormField, Message>, email: string) returns (updated: map<FormField, Message>)
    ensures Email in updated <==> Email in errors || EmailProblem(email).Some?
    ensures EmailProblem(email).Some? ==> updated[Email] == EmailProblem(email).value
    ensures EmailProblem(email).None? ==> updated == errors
    ensures forall k :: k != Email ==> (k in updated <==> k in errors)
    ensures forall k :: k != Email && k in errors ==> updated[k] == errors[k]
  {
    updated := errors;
    var blank := Trim(email) == "";
    var matches := EmailPattern(email);
    assert EmailProblem(email) == if blank then Some(EmailRequired) else if !matches then Some(EmailInvalid) else None;
    if blank {
      updated := updated[Email := EmailRequired];
    } else if !matches {
      updated := updated[Email := EmailInvalid];
    }
  }

  /** The chains of `newUserData.password` and `newUserData.confirmPassword` in `validateCreateForm`. */
  method CheckPasswords(errors: map<FormField, Message>, password: string, confirmPassword: string)
    returns (updated: map<FormField, Message>)
    requires errors.Keys <= {FirstName, LastName, Email}
    ensures forall k :: k in {FirstName, LastName, Email} ==> (k in updated <==> k in errors)
    ensures forall k :: k in {FirstName, LastName, Email} && k in errors ==> updated[k] == errors[k]
    ensures Password in updated <==> PasswordProblem(password).Some?
    ensures Password in updated ==> updated[Password] == PasswordProblem(password).value
    ensures ConfirmPassword in updated <==> ConfirmProblem(password, confirmPassword).Some?
    ensures ConfirmPassword in updated ==> updated[ConfirmPassword] == ConfirmProblem(password, confirmPassword).value
  {
    updated := errors;
    if password == "" {
      updated := updated[Password := PasswordRequired];
    }
    if confirmPassword == "" {
      updated := updated[ConfirmPassword := ConfirmRequired];
    } else if password != confirmPassword {
      updated := updated[ConfirmPassword := PasswordsDiffer];
    }
  }

  /**
   * `validateCreateForm`: an entry for exactly the fields that are wrong, each with that field's message,
   * and `valid` exactly when there is none.
   */
  method ValidateCreateForm(form: NewUser) returns (valid: bool, errors: map<FormField, Message>)
    ensures forall field :: field in errors <==> Problem(form, field).Some?
    ensures forall field :: field in errors ==> errors[field] == Problem(form, field).value
    ensures valid <==> errors == map[]
    ensures valid <==> FormAcceptable(form)
  {
    errors := map[];
    errors := CheckName(errors, FirstName, First, form.firstName);
    errors := CheckName(errors, LastName, Last, form.lastName);
    errors := CheckEmail(errors, form.email);
    errors := CheckPasswords(errors, form.password, form.confirmPassword);
    valid := |errors| == 0;
    forall field
      ensures field in errors <==> Problem(form, field).Some?
      ensures field in errors ==> errors[field] == Problem(form, field).value
    {
      match field
      case FirstName =>
      case LastName =>
      case Email =>
      case Password =>
      case ConfirmPassword =>
    }
    FieldsAcceptable(form);
    if errors != map[] {
      var field :| field in errors;
      match field
      case FirstName =>
      case LastName =>
      case Email =>
      case Password =>
      case ConfirmPassword =>
    } else {
      assert FirstName !in errors && LastName !in errors && Email !in errors;
      assert Password !in errors && ConfirmPassword !in errors;
    }
  }

  /** The pattern needs a dot after the `@`, and the email is matched untrimmed, so padding is refused. */
  lemma MalformedAddressesRefused()
    ensures !EmailPattern("ann@mail")
    ensures EmailProblem(" ann@mail.com") == Some(EmailInvalid)
  {
    var s := "ann@mail";
    forall at, dot ensures !SplitsAt(s, at, dot) {
      if 0 < at && at + 1 < dot < |s| - 1 {
        assert s[dot] != '.';
      }
    }
    var t := " ann@mail.com";
    forall at, dot ensures !SplitsAt(t, at, dot) {
      assert IsSpace(t[0]);
    }
    assert !IsSpace(t[1]);
    assert !AllSpace(t);
  }

  /**
   * The account fields the panel sends to `createUser`, as typed, without the confirmation. The country
   * and currency it sends too are separate arguments of `Admin.CreateUser` and take no part in these checks.
   */
  function Submitted(form: NewUser): Auth.Signup {
    Auth.Signup(Some(form.firstName), Some(form.lastName), Some(form.email), Some(form.password))
  }

  /** A form the panel accepts passes the server's "all fields are required" check. */
  lemma AcceptedFormIsComplete(form: NewUser)
    requires FormAcceptable(form)
    ensures Auth.Complete(Submitted(form))
  {
    var at, dot :| SplitsAt(form.email, at, dot);
  }
}
