/**
 * The two validation predicates registered on the administrator options at
 * start-up (Program.cs:49-55): the email must contain '@', the password must
 * hold an upper-case letter, a lower-case letter and a digit.
 */
module OptionsValidation {
  import opened Options

  /** The character tests the password rule uses, restricted to ASCII. */
  datatype CharClass = Upper | Lower | Digit

  predicate InClass(c: char, k: CharClass)
  {
    match k
    case Upper => 'A' <= c <= 'Z'
    case Lower => 'a' <= c <= 'z'
    case Digit => '0' <= c <= '9'
  }

  /** `s.Any(test)`: some character of `s` is in class `k`. */
  function AnyIn(s: string, k: CharClass): (r: bool)
    ensures r <==> exists i :: 0 <= i < |s| && InClass(s[i], k)
  {
    if s == [] then false
    else if InClass(s[0], k) then true
    else
      var rest := AnyIn(s[1..], k);
      assert forall i :: 1 <= i < |s| ==> s[i] == s[1..][i - 1];
      rest
  }

  predicate EmailValid(o: AdminOptions)
  {
    '@' in o.email
  }

  predicate PasswordValid(o: AdminOptions)
  {
    AnyIn(o.password, Upper) && AnyIn(o.password, Lower) && AnyIn(o.password, Digit)
  }

  /** Both registered predicates hold. */
  predicate Valid(o: AdminOptions)
  {
    EmailValid(o) && PasswordValid(o)
  }

  const EmailFailure: string := "Email is not valid."
  /** The text says "one char" where the rule asks for a digit; it is kept as written. */
  const PasswordFailure: string := "Password must have at least one lower, one upper, and one char"

  /**
   * The failure messages collected when the options are materialised: every
   * registered predicate is evaluated, in registration order, and each one that
   * fails contributes its message.
   */
  function Failures(o: AdminOptions): (fs: seq<string>)
    ensures fs == [] <==> Valid(o)
    ensures EmailFailure in fs <==> !EmailValid(o)
    ensures PasswordFailure in fs <==> !PasswordValid(o)
    ensures |fs| <= 2
    ensures |fs| == 2 ==> fs == [EmailFailure, PasswordFailure]
  {
    (if EmailValid(o) then [] else [EmailFailure]) + (if PasswordValid(o) then [] else [PasswordFailure])
  }

  /** A password with no upper-case letter is refused: "alllower1". */
  lemma RejectsAllLower(o: AdminOptions)
    requires o.password == "alllower1"
    ensures !Valid(o) && PasswordFailure in Failures(o)
  {
  }

  /** A password with no lower-case letter is refused: "ALLUPPER1". */
  lemma RejectsAllUpper(o: AdminOptions)
    requires o.password == "ALLUPPER1"
    ensures !Valid(o) && PasswordFailure in Failures(o)
  {
  }

  /** Any password with no digit is refused, whatever the message says. */
  lemma RejectsNoDigit(o: AdminOptions)
    requires forall i :: 0 <= i < |o.password| ==> !('0' <= o.password[i] <= '9')
    ensures !Valid(o) && PasswordFailure in Failures(o)
  {
  }

  /** Any email without '@' is refused, whatever the password. */
  lemma RejectsEmailWithoutAt(o: AdminOptions)
    requires forall i :: 0 <= i < |o.email| ==> o.email[i] != '@'
    ensures !Valid(o) && EmailFailure in Failures(o)
  {
  }

  /** "a@b.com" with "Aa1aaaaa" passes both predicates. */
  lemma AcceptsSample(o: AdminOptions)
    requires o.email == "a@b.com" && o.password == "Aa1aaaaa"
    ensures Valid(o) && Failures(o) == []
  {
  }
}
