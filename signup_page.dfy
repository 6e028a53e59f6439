/** frontend/src/pages/Signup.jsx: the password-strength test and the order in which
    `handleSubmit` checks the form before it sends the signup request. */
module SignupPage {
  import opened Wrappers

  /** Characters that JavaScript's `.` does not match: the line terminators. */
  predicate IsLineTerminator(c: char) {
    c == '\n' || c == '\r' || c == '\U{2028}' || c == '\U{2029}'
  }

  predicate IsUpper(c: char) { 'A' <= c <= 'Z' }

  /** `\d` without the `u` flag. */
  predicate IsDigit(c: char) { '0' <= c <= '9' }

  /** The string's length in UTF-16 code units, which is what `.{8,}` counts without the
      `u` flag: a character outside the Basic Multilingual Plane is two of them. */
  function Utf16Length(s: string): (n: nat)
    ensures |s| <= n <= 2 * |s|
  {
    if s == [] then 0 else (if s[0] as int > 0xFFFF then 2 else 1) + Utf16Length(s[1..])
  }

  /** `/^(?=.*[A-Z])(?=.*\d).{8,}$/.test(pwd)`, read clause by clause: each lookahead
      finds its class after a run of non-terminators, and `.{8,}$` spans the whole string. */
  predicate RegexAccepts(s: string)
    ensures RegexAccepts(s) ==> 4 <= |s|
  {
    && (exists i :: 0 <= i < |s| && (forall k :: 0 <= k < i ==> !IsLineTerminator(s[k])) && IsUpper(s[i]))
    && (exists i :: 0 <= i < |s| && (forall k :: 0 <= k < i ==> !IsLineTerminator(s[k])) && IsDigit(s[i]))
    && (forall k :: 0 <= k < |s| ==> !IsLineTerminator(s[k]))
    && Utf16Length(s) >= 8
  }

  /** The rule as the form's message states it, plus the line-terminator restriction. */
  predicate IsStrongPassword(s: string)
    ensures IsStrongPassword(s) ==> 4 <= |s|
  {
    && Utf16Length(s) >= 8
    && (exists i :: 0 <= i < |s| && IsUpper(s[i]))
    && (exists i :: 0 <= i < |s| && IsDigit(s[i]))
    && (forall k :: 0 <= k < |s| ==> !IsLineTerminator(s[k]))
  }

  lemma RegexIsStrongPassword(s: string)
    ensures RegexAccepts(s) <==> IsStrongPassword(s)
  {
    if IsStrongPassword(s) {
      var i :| 0 <= i < |s| && IsUpper(s[i]);
      var j :| 0 <= j < |s| && IsDigit(s[j]);
      assert (forall k :: 0 <= k < i ==> !IsLineTerminator(s[k])) && IsUpper(s[i]);
      assert (forall k :: 0 <= k < j ==> !IsLineTerminator(s[k])) && IsDigit(s[j]);
    }
  }

  /** Characters beyond the Basic Multilingual Plane count twice, so six characters
      can already be long enough. */
  lemma AstralCharactersCountTwice()
    ensures IsStrongPassword("A1\U{1F600}\U{1F600}\U{1F600}x")
  {
    var s := "A1\U{1F600}\U{1F600}\U{1F600}x";
    assert s[0] == 'A' && s[1] == '1';
    assert Utf16Length(s) == 9;
  }

  lemma StrongExample()
    ensures IsStrongPassword("Password1")
  {
    assert "Password1"[0] == 'P' && "Password1"[8] == '1';
  }

  /** No upper-case letter. */
  lemma LowerCaseIsWeak()
    ensures !IsStrongPassword("password1")
  {
    var s := "password1";
    forall i | 0 <= i < |s| ensures !IsUpper(s[i]) {}
  }

  /** Too short. */
  lemma ShortIsWeak()
    ensures !IsStrongPassword("Pass1")
  {
    assert Utf16Length("Pass1") <= 2 * 5;
    assert Utf16Length("Pass1") == 5;
  }

  /** A trailing newline defeats `.{8,}$`. */
  lemma NewlineIsWeak()
    ensures !IsStrongPassword("Password1\n")
  {
    assert "Password1\n"[9] == '\n';
  }

  const MismatchMessage := "Passwords do not match"
  const WeakMessage := "Password must be 8+ chars, include 1 uppercase & 1 number"

  /** The message `handleSubmit` shows instead of sending, checked in source order;
      `None` means the request is sent. */
  function FormError(password: string, confirm: string): (r: Option<string>)
    ensures r.None? <==> password == confirm && IsStrongPassword(password)
    ensures password != confirm ==> r == Some(MismatchMessage)
    ensures password == confirm && !IsStrongPassword(password) ==> r == Some(WeakMessage)
  {
    if password != confirm then Some(MismatchMessage)
    else if !IsStrongPassword(password) then Some(WeakMessage)
    else None
  }

  /** What the `fetch` to `/signup` ended in. */
  datatype SignupResponse =
    | NetworkError
    | Replied(ok: bool, message: Option<string>)

  /** The form's state fields and the requests it has sent. */
  class SignupForm {
    var email: string
    var password: string
    var confirmPassword: string
    var loading: bool
    var message: string
    var messageType: string
    /** The `{ email, password }` bodies posted to `/signup`, in order. */
    var sent: seq<(string, string)>
    /** A redirect to `/login` is scheduled. */
    var redirecting: bool

    constructor ()
      ensures email == "" && password == "" && confirmPassword == "" && !loading
      ensures message == "" && messageType == "" && sent == [] && !redirecting
    {
      email, password, confirmPassword := "", "", "";
      loading, message, messageType := false, "", "";
      sent, redirecting := [], false;
    }

    /** `handleSubmit` up to the `fetch`: either an error message, or the request goes out. */
    method Submit()
      modifies this
      ensures email == old(email) && password == old(password) && confirmPassword == old(confirmPassword)
      ensures redirecting == old(redirecting)
      ensures var e := FormError(old(password), old(confirmPassword));
        if e.Some? then
          messageType == "danger" && message == e.value && loading == old(loading) && sent == old(sent)
        else
          loading && message == "" && messageType == old(messageType)
          && sent == old(sent) + [(old(email), old(password))]
    {
      if password != confirmPassword {
        messageType := "danger";
        message := MismatchMessage;
        return;
      }
      if !IsStrongPassword(password) {
        messageType := "danger";
        message := WeakMessage;
        return;
      }
      loading := true;
      message := "";
      sent := sent + [(email, password)];
    }

    /** The rest of `handleSubmit`, once the request has settled. */
    method Settle(r: SignupResponse)
      modifies this
      ensures email == old(email) && password == old(password) && confirmPassword == old(confirmPassword)
      ensures sent == old(sent) && !loading
      ensures r.Replied? && r.ok ==>
        messageType == "success" && message == "Account created. Redirecting to login..." && redirecting
      ensures r.Replied? && !r.ok ==>
        messageType == "danger" && redirecting == old(redirecting)
        && message == (if r.message.Some? && r.message.value != "" then r.message.value else "Signup failed")
      ensures r.NetworkError? ==>
        messageType == "danger" && message == "Server error. Try again." && redirecting == old(redirecting)
    {
      match r {
        case NetworkError =>
          messageType := "danger";
          message := "Server error. Try again.";
        case Replied(ok, m) =>
          if ok {
            messageType := "success";
            message := "Account created. Redirecting to login...";
            redirecting := true;
          } else {
            messageType := "danger";
            message := if m.Some? && m.value != "" then m.value else "Signup failed";
          }
      }
      loading := false;
    }
  }
}
