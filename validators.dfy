/** The backend's password validator: a password needs an ASCII capital
    letter. */
module Validators {
  import opened Seqs
  import opened Strings

  /** The error `validate` raises: its message and its code. */
  datatype ValidationError = ValidationError(message: string, code: string)

  const NoUpperMessage := "The password must contain at least one uppercase letter."
  const NoUpperCode := "password_no_upper"

  /** `get_help_text()`: the same text for every call. */
  const HelpText := "Your password must contain at least one uppercase letter."

  /** `re.search(r'[A-Z]', password)` finds a match. */
  predicate HasAsciiUpper(s: string) { exists k: nat | k < |s| :: IsUpper(s[k]) }

  /** `validate(password, user)`: the error it raises, `None` when it
      returns normally. The user takes no part. */
  function Validate(password: string, user: Option<nat>): (r: Option<ValidationError>)
    ensures r.None? <==> HasAsciiUpper(password)
    ensures r.Some? ==> r.value.code == NoUpperCode && r.value.message == NoUpperMessage
  {
    if HasAsciiUpper(password) then None else Some(ValidationError(NoUpperMessage, NoUpperCode))
  }

  /** Length plays no part: a lone capital passes, and a long password of
      small letters does not. */
  lemma LengthIrrelevant()
    ensures Validate("A", None).None?
    ensures Validate("abcdefghij", None).Some?
  {
    assert IsUpper("A"[0]);
    var s := "abcdefghij";
    assert forall k: nat | k < |s| :: !IsUpper(s[k]) by {
      forall k: nat | k < |s| ensures !IsUpper(s[k]) {
        assert s[k] in "abcdefghij";
      }
    }
  }

  /** Adding characters never turns an accepted password down. */
  lemma ExtendingKeepsValid(p: string, q: string, u: Option<nat>)
    requires Validate(p, u).None?
    ensures Validate(p + q, u).None? && Validate(q + p, u).None?
  {
    var k: nat :| k < |p| && IsUpper(p[k]);
    assert (p + q)[k] == p[k];
    assert (q + p)[|q| + k] == p[k];
  }
}
