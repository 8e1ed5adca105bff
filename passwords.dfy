/**
 * The password strength rules, shared by both `strongPassword` variants: at least 8 characters, an
 * uppercase letter, a lowercase letter, a digit and one of the special characters, checked in that order.
 */
module PasswordRules {
  datatype Rule = Length | Uppercase | Lowercase | Digit | Special

  /** The position of a rule in the order both variants check them in. */
  function Rank(rule: Rule): nat {
    match rule
    case Length => 0
    case Uppercase => 1
    case Lowercase => 2
    case Digit => 3
    case Special => 4
  }

  /** The character class `[!@#$%^&*(),.?":{}|<>]`. */
  const SpecialChars: string := "!@#$%^&*(),.?\":{}|<>"

  predicate HasCharIn(p: string, lo: char, hi: char) {
    exists i :: 0 <= i < |p| && lo <= p[i] <= hi
  }

  predicate HasSpecial(p: string) {
    exists i :: 0 <= i < |p| && p[i] in SpecialChars
  }

  predicate Holds(rule: Rule, p: string) {
    match rule
    case Length => |p| >= 8
    case Uppercase => HasCharIn(p, 'A', 'Z')
    case Lowercase => HasCharIn(p, 'a', 'z')
    case Digit => HasCharIn(p, '0', '9')
    case Special => HasSpecial(p)
  }

  /** The letter the messages differ in. */
  function Initial(rule: Rule): char {
    match rule
    case Length => 'e'
    case Uppercase => 'u'
    case Lowercase => 'l'
    case Digit => 'n'
    case Special => 's'
  }

  function Message(rule: Rule): (r: string)
    ensures |r| > 35 && r[35] == Initial(rule)
  {
    match rule
    case Length => "Password must be at least 8 characters long"
    case Uppercase => "Password must contain at least one uppercase letter"
    case Lowercase => "Password must contain at least one lowercase letter"
    case Digit => "Password must contain at least one number"
    case Special => "Password must contain at least one special character"
  }

  /** The messages tell the rules apart. */
  lemma MessageInjective(a: Rule, b: Rule)
    requires Message(a) == Message(b)
    ensures a == b
  {
    assert Initial(a) == Message(a)[35];
  }

  predicate AllHold(p: string) {
    forall rule :: Holds(rule, p)
  }

  /** The message of `rule` if it fails, nothing otherwise. */
  function IfBroken(rule: Rule, p: string): (r: seq<string>)
    ensures r == [] <==> Holds(rule, p)
  {
    if Holds(rule, p) then [] else [Message(rule)]
  }

  /** The messages of all failing rules, in check order. */
  function Failed(p: string): seq<string> {
    IfBroken(Length, p) + IfBroken(Uppercase, p) + IfBroken(Lowercase, p) + IfBroken(Digit, p) + IfBroken(Special, p)
  }

  lemma InIfBroken(m: Rule, rule: Rule, p: string)
    ensures Message(m) in IfBroken(rule, p) <==> m == rule && !Holds(rule, p)
  {
    if Message(m) in IfBroken(rule, p) {
      MessageInjective(m, rule);
    }
  }

  /** A rule's message is in the list exactly when the rule fails. */
  lemma FailedNamesEachBrokenRule(p: string, rule: Rule)
    ensures Message(rule) in Failed(p) <==> !Holds(rule, p)
  {
    InIfBroken(rule, Length, p);
    InIfBroken(rule, Uppercase, p);
    InIfBroken(rule, Lowercase, p);
    InIfBroken(rule, Digit, p);
    InIfBroken(rule, Special, p);
  }

  /** No rule fails exactly when every rule holds. */
  lemma NoneFailedIffAllHold(p: string)
    ensures Failed(p) == [] <==> AllHold(p)
  {
    if Failed(p) == [] {
      forall rule ensures Holds(rule, p) {
        match rule
        case Length =>
        case Uppercase =>
        case Lowercase =>
        case Digit =>
        case Special =>
      }
    }
  }

  predicate NoDuplicates<T(==)>(s: seq<T>) {
    forall i, j :: 0 <= i < j < |s| ==> s[i] != s[j]
  }

  lemma NoDuplicatesAppend(prefix: seq<string>, rule: Rule, p: string)
    requires NoDuplicates(prefix)
    requires Message(rule) !in prefix
    ensures NoDuplicates(prefix + IfBroken(rule, p))
  {
  }

  /** At most five messages, none twice. */
  lemma FailedBounded(p: string)
    ensures |Failed(p)| <= 5
    ensures NoDuplicates(Failed(p))
  {
    var p1 := IfBroken(Length, p);
    var p2 := p1 + IfBroken(Uppercase, p);
    var p3 := p2 + IfBroken(Lowercase, p);
    var p4 := p3 + IfBroken(Digit, p);
    InIfBroken(Uppercase, Length, p);
    NoDuplicatesAppend(p1, Uppercase, p);
    InIfBroken(Lowercase, Length, p);
    InIfBroken(Lowercase, Uppercase, p);
    NoDuplicatesAppend(p2, Lowercase, p);
    InIfBroken(Digit, Length, p);
    InIfBroken(Digit, Uppercase, p);
    InIfBroken(Digit, Lowercase, p);
    NoDuplicatesAppend(p3, Digit, p);
    InIfBroken(Special, Length, p);
    InIfBroken(Special, Uppercase, p);
    InIfBroken(Special, Lowercase, p);
    InIfBroken(Special, Digit, p);
    NoDuplicatesAppend(p4, Special, p);
  }
}

/** `password.utils.js`: the fail-fast `strongPassword` and the input guards of hashing and comparing. */
module PasswordUtils {
  import opened Wrappers
  import opened Values
  import opened Errors
  import opened PasswordRules

  datatype Strength = Strength(isStrong: bool, error: Option<string>)

  /** The first failing check, in order, returns its message; passing all five is strong. */
  function StrongPassword(p: string): (r: Strength)
    ensures r.isStrong <==> AllHold(p)
    ensures r.isStrong <==> r.error.None?
    ensures !r.isStrong ==> exists rule :: !Holds(rule, p) && r.error == Some(Message(rule)) &&
                                           forall earlier :: Rank(earlier) < Rank(rule) ==> Holds(earlier, p)
  {
    if !Holds(Length, p) then Strength(false, Some(Message(Length)))
    else if !Holds(Uppercase, p) then Strength(false, Some(Message(Uppercase)))
    else if !Holds(Lowercase, p) then Strength(false, Some(Message(Lowercase)))
    else if !Holds(Digit, p) then Strength(false, Some(Message(Digit)))
    else if !Holds(Special, p) then Strength(false, Some(Message(Special)))
    else Strength(true, None)
  }

  /** The fail-fast error is the first message the collect-all variant reports. */
  lemma FailFastIsFirstCollected(p: string)
    ensures !StrongPassword(p).isStrong ==> Failed(p) != [] && StrongPassword(p).error == Some(Failed(p)[0])
    ensures StrongPassword(p).isStrong <==> Failed(p) == []
  {
    NoneFailedIffAllHold(p);
  }

  const NotAString: string := "Password must be a non-empty string"

  /** `hashPassword`: an empty or non-string password is refused before the hash function runs. */
  function HashPassword(password: Raw, hash: string -> string): (r: Outcome<string>)
    ensures r.Err? <==> !(password.Str? && password.s != "")
    ensures r.Err? ==> r.error == Plain("Error", NotAString)
    ensures r.Ok? ==> r.value == hash(password.s)
  {
    if !(password.Str? && password.s != "") then Err(Plain("Error", NotAString))
    else Ok(hash(password.s))
  }

  /** `comparePassword`: the password is checked first, then the stored hash, then they are compared. */
  function ComparePassword(password: Raw, hashed: Raw, compare: (string, string) -> bool): (r: Outcome<bool>)
    ensures !(password.Str? && password.s != "") ==> r == Err(Plain("Error", NotAString))
    ensures password.Str? && password.s != "" && !(hashed.Str? && hashed.s != "") ==>
              r == Err(Plain("Error", "Hashed password must be a non-empty string"))
    ensures r.Ok? <==> password.Str? && password.s != "" && hashed.Str? && hashed.s != ""
    ensures r.Ok? ==> r.value == compare(password.s, hashed.s)
  {
    if !(password.Str? && password.s != "") then Err(Plain("Error", NotAString))
    else if !(hashed.Str? && hashed.s != "") then Err(Plain("Error", "Hashed password must be a non-empty string"))
    else Ok(compare(password.s, hashed.s))
  }
}

/** `password.js`: the `strongPassword` that pushes the message of every failing check onto a list. */
module PasswordReport {
  import opened PasswordRules

  datatype Report = Report(isStrong: bool, errors: seq<string>)

  method StrongPassword(p: string) returns (r: Report)
    ensures r.errors == Failed(p)
    ensures r.isStrong <==> r.errors == []
    ensures r.isStrong <==> AllHold(p)
  {
    var errors: seq<string> := [];
    if !Holds(Length, p) {
      errors := errors + [Message(Length)];
    }
    assert errors == IfBroken(Length, p);
    if !Holds(Uppercase, p) {
      errors := errors + [Message(Uppercase)];
    }
    assert errors == IfBroken(Length, p) + IfBroken(Uppercase, p);
    if !Holds(Lowercase, p) {
      errors := errors + [Message(Lowercase)];
    }
    assert errors == IfBroken(Length, p) + IfBroken(Uppercase, p) + IfBroken(Lowercase, p);
    if !Holds(Digit, p) {
      errors := errors + [Message(Digit)];
    }
    assert errors == IfBroken(Length, p) + IfBroken(Uppercase, p) + IfBroken(Lowercase, p) + IfBroken(Digit, p);
    if !Holds(Special, p) {
      errors := errors + [Message(Special)];
    }
    NoneFailedIffAllHold(p);
    r := Report(|errors| == 0, errors);
  }
}
