/** The registration page's password check, the regular expression
    `^(?=.*[A-Z]).{4,}$` without flags, and what a submission then does. */
module RegisterPage {
  import opened Seqs
  import opened Strings
  import Validators

  /** The characters `.` does not match: the ECMAScript line terminators. */
  predicate IsLineTerminator(c: char) { c == '\n' || c == '\r' || c == '\U{2028}' || c == '\U{2029}' }

  /** The length of a string in UTF-16 code units, which is what the pattern
      counts: a character outside the Basic Multilingual Plane is two. */
  function Utf16Length(s: string): (n: nat)
    ensures n >= |s|
    decreases |s|
  {
    if |s| == 0 then 0 else Utf16Length(s[..|s| - 1]) + (if s[|s| - 1] as int > 0xFFFF then 2 else 1)
  }

  /** The look-ahead `(?=.*[A-Z])` at the start: some capital is reached
      without passing a line terminator. */
  predicate CapitalAhead(s: string) {
    exists j: nat | j < |s| :: IsUpper(s[j]) && forall i: nat | i < j :: !IsLineTerminator(s[i])
  }

  /** `.{4,}$` from the start: the whole input is at least four code units
      that are not line terminators. */
  predicate FourOrMoreDots(s: string) {
    Utf16Length(s) >= 4 && forall i: nat | i < |s| :: !IsLineTerminator(s[i])
  }

  /** `passwordRegex.test(password)`. */
  predicate PasswordRegexTest(s: string) { CapitalAhead(s) && FourOrMoreDots(s) }

  /** The pattern in plain terms: at least four code units, some A to Z,
      and no line terminator. */
  lemma RegexMeaning(s: string)
    ensures PasswordRegexTest(s)
        <==> (Utf16Length(s) >= 4 && Validators.HasAsciiUpper(s)
              && forall i: nat | i < |s| :: !IsLineTerminator(s[i]))
  {
    if Utf16Length(s) >= 4 && Validators.HasAsciiUpper(s) && forall i: nat | i < |s| :: !IsLineTerminator(s[i]) {
      var j: nat :| j < |s| && IsUpper(s[j]);
      assert forall i: nat | i < j :: !IsLineTerminator(s[i]);
    }
  }

  /** Every password the page accepts also passes the backend validator. */
  lemma AcceptedPassesValidator(s: string, user: Option<nat>)
    requires PasswordRegexTest(s)
    ensures Validators.Validate(s, user).None?
  {
    var j: nat :| j < |s| && IsUpper(s[j]) && forall i: nat | i < j :: !IsLineTerminator(s[i]);
  }

  /** The page asks for more than the backend: a lone capital passes the
      validator but not the page. */
  lemma PageStricterThanValidator()
    ensures Validators.Validate("A", None).None? && !PasswordRegexTest("A")
  {
    Validators.LengthIrrelevant();
    assert Utf16Length("A") == 1 by {
      assert "A"[..0] == "";
    }
  }

  /** A capital outside A to Z does not count. */
  lemma AccentedCapitalRejected()
    ensures !PasswordRegexTest("ÉÉÉÉ")
  {
    var s := "ÉÉÉÉ";
    assert forall j: nat | j < |s| :: !IsUpper(s[j]) by {
      forall j: nat | j < |s| ensures !IsUpper(s[j]) {
        assert s[j] == 'É';
      }
    }
  }

  /** A character outside the Basic Multilingual Plane counts twice: three
      characters can be long enough. */
  lemma AstralCountsTwice()
    ensures PasswordRegexTest("Ab\U{1F600}")
  {
    var s := "Ab\U{1F600}";
    assert s[..2] == "Ab" && s[..2][..1] == "A" && s[..2][..1][..0] == "";
    assert Utf16Length("") == 0;
    assert Utf16Length("A") == 1;
    assert Utf16Length("Ab") == 2;
    assert s[2] as int == 0x1F600;
    assert Utf16Length(s) == 4;
    assert IsUpper(s[0]);
  }

  /** A line feed anywhere rejects the password. */
  lemma LineTerminatorRejected(a: string, b: string)
    ensures !PasswordRegexTest(a + "\n" + b)
  {
    assert (a + "\n" + b)[|a|] == '\n';
  }

  // ---------------------------------------------------------------------------
  // Submission

  datatype RegisterForm = RegisterForm(username: string, email: string, password: string,
                                       firstName: string, lastName: string)

  /** What `handleSubmit` does before the request settles: reject with the
      complexity message, or send the form to the registration endpoint. */
  datatype Submission =
    | Rejected(title: string, description: string)
    | Sent(form: RegisterForm)

  const InvalidTitle := "Invalid Password"
  const InvalidDescription := "Password must be at least 4 characters long and contain at least one uppercase letter."

  /** The submission and whether the page still shows it is loading: a
      rejected password makes no request and clears the loading state; a
      sent form stays loading until the request settles. */
  function HandleSubmit(f: RegisterForm): (r: (Submission, bool))
    ensures r.0.Sent? <==> PasswordRegexTest(f.password)
    ensures r.0.Sent? ==> r.0.form == f && r.1
    ensures r.0.Rejected? ==> r.0 == Rejected(InvalidTitle, InvalidDescription) && !r.1
  {
    if PasswordRegexTest(f.password) then (Sent(f), true) else (Rejected(InvalidTitle, InvalidDescription), false)
  }
}
