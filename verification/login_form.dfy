/** Client-side validation of the login form
    (`src/components/auth/login-form.tsx`). */
module LoginForm {
  import opened Wrappers
  import opened Strings

  const EmailErrorMessage: string := "Please enter a valid email address"
  const PasswordErrorMessage: string := "Password must be at least 8 characters long"
  const MinPasswordLength: nat := 8

  /** A character of the class `[^\s@]`. */
  predicate EmailChar(c: char) {
    !IsSpace(c) && c != '@'
  }

  /** `[^\s@]+`: a non-empty run of such characters. */
  predicate EmailRun(s: string) {
    |s| > 0 && forall i :: 0 <= i < |s| ==> EmailChar(s[i])
  }

  /** The pattern `^[^\s@]+@[^\s@]+\.[^\s@]+$`, read literally: three runs
      separated by an '@' and a '.'. */
  ghost predicate MatchesEmailPattern(s: string) {
    exists at, dot ::
      && 0 < at && at + 1 < dot && dot + 1 < |s|
      && s[at] == '@' && s[dot] == '.'
      && EmailRun(s[..at]) && EmailRun(s[at + 1..dot]) && EmailRun(s[dot + 1..])
  }

  /** The first position of `c` in `s`, or -1 (`s.indexOf(c)`). */
  function IndexOf(s: string, c: char): (r: int)
    ensures -1 <= r < |s|
    ensures r == -1 ==> forall i :: 0 <= i < |s| ==> s[i] != c
    ensures r >= 0 ==> s[r] == c && forall i :: 0 <= i < r ==> s[i] != c
  {
    if |s| == 0 then -1
    else if s[0] == c then 0
    else
      var r := IndexOf(s[1..], c);
      if r == -1 then -1 else r + 1
  }

  /** A domain part: no white space or '@', and a '.' that is neither its
      first nor its last character. */
  predicate IsDomain(d: string) {
    && (forall i :: 0 <= i < |d| ==> EmailChar(d[i]))
    && exists j :: 1 <= j < |d| - 1 && d[j] == '.'
  }

  /** local@domain with a non-empty local part free of white space and '@'. */
  predicate IsEmailAddress(s: string) {
    var at := IndexOf(s, '@');
    at > 0 && EmailRun(s[..at]) && IsDomain(s[at + 1..])
  }

  /** `validateEmail`: the empty string when the address has the expected
      shape, the fixed message otherwise. */
  function ValidateEmail(email: string): (msg: string)
    ensures msg == "" <==> IsEmailAddress(email)
    ensures msg != "" ==> msg == EmailErrorMessage
  {
    if IsEmailAddress(email) then "" else EmailErrorMessage
  }

  /** `validatePassword`: the empty string from 8 UTF-16 code units on,
      the unit JavaScript's `length` counts. */
  function ValidatePassword(password: string): (msg: string)
    ensures msg == "" <==> Utf16Length(password) >= MinPasswordLength
    ensures msg != "" ==> msg == PasswordErrorMessage
  {
    if Utf16Length(password) >= MinPasswordLength then "" else PasswordErrorMessage
  }

  /** Four characters outside the Basic Multilingual Plane are eight code
      units, so they pass; four plain letters do not. */
  lemma PasswordCountsCodeUnits()
    ensures ValidatePassword("\U{1F600}\U{1F600}\U{1F600}\U{1F600}") == ""
    ensures ValidatePassword("abcd") == PasswordErrorMessage
  {
    var e := "\U{1F600}\U{1F600}\U{1F600}\U{1F600}";
    assert e[..1][..0] == [] && e[..2][..1] == e[..1];
    assert e[..3][..2] == e[..2] && e[..|e| - 1] == e[..3];
    assert Utf16Length(e[..1]) == 2;
    assert Utf16Length(e[..2]) == 4;
    assert Utf16Length(e[..3]) == 6;
  }

  lemma ShapeGivesPattern(s: string)
    requires IsEmailAddress(s)
    ensures MatchesEmailPattern(s)
  {
    var at := IndexOf(s, '@');
    var d := s[at + 1..];
    var j :| 1 <= j < |d| - 1 && d[j] == '.';
    var dot := at + 1 + j;
    assert s[at + 1..dot] == d[..j];
    assert s[dot + 1..] == d[j + 1..];
    assert EmailRun(s[at + 1..dot]);
    assert EmailRun(s[dot + 1..]);
  }

  /** The first '@' found by the scan is the one the pattern places. */
  lemma {:induction false} IndexOfFirst(s: string, c: char, k: nat)
    requires k < |s| && s[k] == c
    requires forall i :: 0 <= i < k ==> s[i] != c
    ensures IndexOf(s, c) == k
    decreases k
  {
    if k > 0 {
      IndexOfFirst(s[1..], c, k - 1);
    }
  }

  /** Two runs around a '.' after the '@' form a domain part. */
  lemma RunsMakeDomain(s: string, a: nat, dot: nat)
    requires a + 1 < dot && dot + 1 < |s| && s[dot] == '.'
    requires EmailRun(s[a + 1..dot]) && EmailRun(s[dot + 1..])
    ensures IsDomain(s[a + 1..])
  {
    var d := s[a + 1..];
    forall i | 0 <= i < |d| ensures EmailChar(d[i]) {
      if a + 1 + i < dot {
        assert d[i] == s[a + 1..dot][i];
      } else if a + 1 + i > dot {
        assert d[i] == s[dot + 1..][a + i - dot];
      }
    }
    assert d[dot - a - 1] == '.';
  }

  /** No '@' before the first run ends. */
  lemma RunHasNoAt(s: string, a: nat)
    requires a <= |s| && EmailRun(s[..a])
    ensures forall i :: 0 <= i < a ==> s[i] != '@'
  {
    forall i | 0 <= i < a ensures s[i] != '@' {
      assert s[i] == s[..a][i];
    }
  }

  lemma PatternGivesShape(s: string)
    requires MatchesEmailPattern(s)
    ensures IsEmailAddress(s)
  {
    var a, dot :| && 0 < a && a + 1 < dot && dot + 1 < |s|
      && s[a] == '@' && s[dot] == '.'
      && EmailRun(s[..a]) && EmailRun(s[a + 1..dot]) && EmailRun(s[dot + 1..]);
    RunHasNoAt(s, a);
    IndexOfFirst(s, '@', a);
    RunsMakeDomain(s, a, dot);
  }

  /** The structural check accepts exactly the strings the pattern matches. */
  lemma EmailShapeMatchesPattern(s: string)
    ensures IsEmailAddress(s) <==> MatchesEmailPattern(s)
  {
    if IsEmailAddress(s) { ShapeGivesPattern(s); }
    if MatchesEmailPattern(s) { PatternGivesShape(s); }
  }

  /** Every accepted address has exactly one '@', no white space, and at
      least five characters. */
  lemma AcceptedEmailShape(s: string)
    requires ValidateEmail(s) == ""
    ensures exists at :: 0 <= at < |s| && s[at] == '@'
    ensures forall i, j :: 0 <= i < |s| && 0 <= j < |s| && s[i] == '@' && s[j] == '@' ==> i == j
    ensures !HasSpace(s)
    ensures |s| >= 5
  {
    var at := IndexOf(s, '@');
    var d := s[at + 1..];
    forall i | 0 <= i < |s| && i != at ensures EmailChar(s[i]) {
      if i < at {
        assert s[i] == s[..at][i];
      } else {
        assert s[i] == d[i - at - 1];
      }
    }
  }

  /** The form's state: the two fields, their inline errors, the loading
      flag and the server error. */
  datatype LoginState = LoginState(
    email: string,
    password: string,
    emailError: string,
    passwordError: string,
    isLoading: bool,
    error: Option<string>)

  /** Typing in the email field stores the value and clears its error. */
  function EditEmail(st: LoginState, value: string): (st': LoginState)
    ensures st'.email == value && st'.emailError == ""
    ensures st'.password == st.password && st'.passwordError == st.passwordError
    ensures st'.isLoading == st.isLoading && st'.error == st.error
  {
    st.(email := value, emailError := "")
  }

  /** Typing in the password field stores the value and clears its error. */
  function EditPassword(st: LoginState, value: string): (st': LoginState)
    ensures st'.password == value && st'.passwordError == ""
    ensures st'.email == st.email && st'.emailError == st.emailError
    ensures st'.isLoading == st.isLoading && st'.error == st.error
  {
    st.(password := value, passwordError := "")
  }

  /** Leaving the email field shows the email error for the current value. */
  function BlurEmail(st: LoginState): (st': LoginState)
    ensures st'.emailError == "" <==> IsEmailAddress(st.email)
    ensures st' == st.(emailError := st'.emailError)
  {
    st.(emailError := ValidateEmail(st.email))
  }

  /** Leaving the password field shows the password error for its value. */
  function BlurPassword(st: LoginState): (st': LoginState)
    ensures st'.passwordError == "" <==> Utf16Length(st.password) >= MinPasswordLength
    ensures st' == st.(passwordError := st'.passwordError)
  {
    st.(passwordError := ValidatePassword(st.password))
  }

  /** How the awaited `login` call ends: it resolves, or it rejects and the
      handler stops at the `await`. */
  datatype LoginCall = Resolves | Rejects

  /** The state after a submit, and whether the login action was called. */
  datatype Submission = Submission(state: LoginState, callsLogin: bool)

  /** `handleSubmit`: both validators run and both errors are recorded;
      the login action is called only when neither error is set. Before the
      call the loading flag goes up and the server error is cleared; the
      flag comes down only when the call resolves, since no `finally`
      guards it. */
  function Submit(st: LoginState, call: LoginCall): (s: Submission)
    ensures s.state.emailError == ValidateEmail(st.email)
    ensures s.state.passwordError == ValidatePassword(st.password)
    ensures s.callsLogin <==> IsEmailAddress(st.email) && Utf16Length(st.password) >= MinPasswordLength
    ensures s.state.email == st.email && s.state.password == st.password
    ensures !s.callsLogin ==> s.state.isLoading == st.isLoading && s.state.error == st.error
    ensures s.callsLogin ==> s.state.error == None
    ensures s.callsLogin ==> (s.state.isLoading <==> call == Rejects)
  {
    var emailError := ValidateEmail(st.email);
    var passwordError := ValidatePassword(st.password);
    var checked := st.(emailError := emailError, passwordError := passwordError);
    if emailError != "" || passwordError != "" then Submission(checked, false)
    else
      var waiting := checked.(isLoading := true, error := None);
      match call
      case Resolves => Submission(waiting.(isLoading := false), true)
      case Rejects => Submission(waiting, true)
  }

  /** A rejected login leaves the form stuck in its loading state: the
      button stays disabled until the page is reloaded. */
  lemma RejectedLoginStaysLoading(st: LoginState)
    requires IsEmailAddress(st.email) && Utf16Length(st.password) >= MinPasswordLength
    ensures Submit(st, Rejects).state.isLoading
    ensures !Submit(st, Resolves).state.isLoading
    ensures Submit(st, Rejects).state == Submit(st, Resolves).state.(isLoading := true)
  {
  }
}
