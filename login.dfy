/** The sign-in form of the front end (MODXX/src/pages/login.jsx): the e-mail
    pattern /^[^\s@]+@[^\s@]+\.[^\s@]+$/, the form check and the guard in
    front of the login request. */
module LoginForm {
  import opened Common

  /** A character of the class [^\s@]. */
  predicate Plain(c: char) { !IsJsSpace(c) && c != '@' }

  predicate AllPlain(s: string) { forall i :: 0 <= i < |s| ==> Plain(s[i]) }

  /** The pattern matches `s` with its '@' at index `at` and the matched '.'
      at index `dot`: plain text, '@', plain text, '.', plain text, every
      part non-empty. */
  predicate MatchesAt(s: string, at: int, dot: int) {
    0 < at && at + 1 < dot && dot + 1 < |s|
    && s[at] == '@' && s[dot] == '.'
    && AllPlain(s[..at]) && AllPlain(s[at + 1..dot]) && AllPlain(s[dot + 1..])
  }

  /** What the regular expression accepts. */
  predicate EmailPattern(s: string) {
    exists at, dot | 0 <= at < |s| && 0 <= dot < |s| :: MatchesAt(s, at, dot)
  }

  /** The index of the first '@', or |s| when there is none. */
  function FirstAt(s: string): (k: nat)
    ensures k <= |s|
    ensures k < |s| ==> s[k] == '@'
    ensures forall i :: 0 <= i < k ==> s[i] != '@'
  {
    if s == [] then 0 else if s[0] == '@' then 0 else 1 + FirstAt(s[1..])
  }

  /** validateEmail, decided by one scan: text before the first '@', and
      after it a domain with no '@' or white space that has a '.' which is
      neither its first nor its last character. */
  function ValidateEmail(s: string): (ok: bool)
    ensures ok <==> EmailPattern(s)
  {
    PatternIff(s);
    ScanAccepts(s)
  }

  /** The scan validateEmail amounts to: the text around the first '@'. */
  predicate ScanAccepts(s: string) {
    var at := FirstAt(s);
    0 < at < |s| && AllPlain(s[..at])
    && var domain := s[at + 1..];
    |domain| >= 3 && AllPlain(domain) && '.' in domain[1..|domain| - 1]
  }

  lemma PatternIff(s: string)
    ensures ScanAccepts(s) <==> EmailPattern(s)
  {
    if ScanAccepts(s) {
      ScanGivesPattern(s);
    }
    if EmailPattern(s) {
      var a, d :| 0 <= a < |s| && 0 <= d < |s| && MatchesAt(s, a, d);
      PatternGivesScan(s, a, d);
    }
  }

  lemma PlainSlice(s: string, i: int, j: int)
    requires AllPlain(s) && 0 <= i <= j <= |s|
    ensures AllPlain(s[i..j])
  {
    forall m | 0 <= m < j - i ensures Plain(s[i..j][m]) {
      assert s[i..j][m] == s[i + m];
    }
  }

  lemma ScanGivesPattern(s: string)
    requires ScanAccepts(s)
    ensures EmailPattern(s)
  {
    var at := FirstAt(s);
    var domain := s[at + 1..];
    var k :| 0 <= k < |domain| - 2 && domain[1..|domain| - 1][k] == '.';
    var dot := at + 2 + k;
    assert s[dot] == '.';
    assert s[at + 1..dot] == domain[..k + 1];
    assert s[dot + 1..] == domain[k + 2..];
    PlainSlice(domain, 0, k + 1);
    PlainSlice(domain, k + 2, |domain|);
    assert domain[k + 2..|domain|] == domain[k + 2..];
    assert MatchesAt(s, at, dot);
  }

  lemma PatternGivesScan(s: string, a: int, d: int)
    requires 0 <= a < |s| && 0 <= d < |s| && MatchesAt(s, a, d)
    ensures ScanAccepts(s)
  {
    assert forall i :: 0 <= i < a ==> s[i] != '@' by {
      forall i | 0 <= i < a ensures s[i] != '@' {
        assert s[i] == s[..a][i];
      }
    }
    var at := FirstAt(s);
    assert at == a;
    var domain := s[a + 1..];
    assert domain == s[a + 1..d] + [s[d]] + s[d + 1..];
    assert AllPlain(domain) by {
      forall m | 0 <= m < |domain| ensures Plain(domain[m]) {
        if m < d - a - 1 {
          assert domain[m] == s[a + 1..d][m];
        } else if m > d - a - 1 {
          assert domain[m] == s[d + 1..][m - (d - a)];
        }
      }
    }
    assert domain[1..|domain| - 1][d - a - 2] == '.';
  }

  /** The empty string and any string with white space are rejected. */
  lemma RejectsEmptyAndSpaces(s: string)
    ensures !ValidateEmail("")
    ensures (exists i :: 0 <= i < |s| && IsJsSpace(s[i])) ==> !ValidateEmail(s)
  {
    if ValidateEmail(s) {
      var a, d :| 0 <= a < |s| && 0 <= d < |s| && MatchesAt(s, a, d);
      forall i | 0 <= i < |s| ensures !IsJsSpace(s[i]) {
        if i < a {
          assert s[i] == s[..a][i];
        } else if a < i < d {
          assert s[i] == s[a + 1..d][i - a - 1];
        } else if d < i {
          assert s[i] == s[d + 1..][i - d - 1];
        }
      }
    }
  }

  /** An accepted address holds exactly one '@'. */
  lemma ExactlyOneAt(s: string, i: int, j: int)
    requires ValidateEmail(s)
    requires 0 <= i < |s| && 0 <= j < |s| && s[i] == '@' && s[j] == '@'
    ensures i == j
  {
    var a, d :| 0 <= a < |s| && 0 <= d < |s| && MatchesAt(s, a, d);
    forall k | 0 <= k < |s| && k != a ensures s[k] != '@' {
      if k < a {
        assert s[k] == s[..a][k];
      } else if a < k < d {
        assert s[k] == s[a + 1..d][k - a - 1];
      } else if d < k {
        assert s[k] == s[d + 1..][k - d - 1];
      }
    }
  }

  /** isFormValid: both fields filled in and the e-mail well formed. */
  function IsFormValid(email: string, password: string): (ok: bool)
    ensures ok ==> email != "" && password != "" && EmailPattern(email)
    ensures email != "" && password != "" && EmailPattern(email) ==> ok
  {
    email != "" && password != "" && ValidateEmail(email)
  }

  /** What the server answers to the login request. */
  datatype LoginReply = Accepted(user: string) | Refused(message: Option<string>)

  /** The page after a submit: the error text shown, whether the login
      request was sent, the signed-in user and the route navigated to. */
  datatype Screen = Screen(error: string, loading: bool, requestSent: bool,
                           signedIn: Option<string>, route: Option<string>)

  /** handleSubmit, with the server's reply as a parameter (it is consulted
      only when the request is sent). */
  function HandleSubmit(email: string, password: string, reply: LoginReply): (s: Screen)
    ensures !IsFormValid(email, password) ==>
      s == Screen("Please check your email format", false, false, None, None)
    ensures IsFormValid(email, password) ==> s.requestSent && !s.loading
    ensures s.route.Some? ==> IsFormValid(email, password) && reply.Accepted? && s.route == Some("/dashboard")
    ensures s.error == "" <==> s.route.Some?
  {
    if !IsFormValid(email, password) then
      Screen("Please check your email format", false, false, None, None)
    else match reply
      case Accepted(user) => Screen("", false, true, Some(user), Some("/dashboard"))
      case Refused(m) =>
        var text := if m.Some? && m.value != "" then m.value
                    else "Login failed! Please check your credentials.";
        Screen(text, false, true, None, None)
  }
}
