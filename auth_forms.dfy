/**
 * The two regular expressions shared by the account forms, written out as the structure
 * each one matches, with lemmas that say in plain terms which strings they accept.
 *
 *   email:    ^[^@\s]+@[^@\s]+\.[^@\s]+$
 *   password: ^.*(?=.*[a-zA-Z])(?=.*\d).{8,30}.*$
 */
module FormPatterns {
  import opened JsText

  /** `[^@\s]+`: non-empty, no '@', no whitespace. */
  predicate EmailSegment(t: string) {
    |t| > 0 && forall k :: 0 <= k < |t| ==> t[k] != '@' && !IsSpace(t[k])
  }

  /** The three segments of the email pattern sit around an '@' at `i` and a '.' at `j`. */
  predicate EmailSplitAt(s: string, i: int, j: int) {
    0 <= i < j < |s| && s[i] == '@' && s[j] == '.' &&
    EmailSegment(s[0..i]) && EmailSegment(s[i + 1..j]) && EmailSegment(s[j + 1..|s|])
  }

  /** `emailPattern.test(s)` (the pattern is anchored at both ends, and has no flags). */
  predicate EmailPattern(s: string) {
    exists i, j :: 0 <= i < j < |s| && EmailSplitAt(s, i, j)
  }

  predicate HasNoSpace(s: string) {
    forall k :: 0 <= k < |s| ==> !IsSpace(s[k])
  }

  /** `s[i]` is the one and only '@' of `s`. */
  predicate OnlyAtSignAt(s: string, i: int) {
    0 <= i < |s| && s[i] == '@' && forall k :: 0 <= k < |s| && k != i ==> s[k] != '@'
  }

  /** Some '.' after the '@' at `i` has text on both of its sides. */
  predicate DotAfter(s: string, i: int) {
    exists j :: 0 <= i + 1 < j < |s| - 1 && s[j] == '.'
  }

  lemma SegmentFromChars(s: string, a: int, b: int)
    requires 0 <= a < b <= |s|
    requires forall k :: a <= k < b ==> s[k] != '@' && !IsSpace(s[k])
    ensures EmailSegment(s[a..b])
  {
    var t := s[a..b];
    forall k | 0 <= k < |t| ensures t[k] != '@' && !IsSpace(t[k]) {
      assert t[k] == s[a + k];
    }
  }

  lemma CharsOfSegment(s: string, a: int, b: int)
    requires 0 <= a < b <= |s| && EmailSegment(s[a..b])
    ensures forall k :: a <= k < b ==> s[k] != '@' && !IsSpace(s[k])
  {
    var t := s[a..b];
    forall k | a <= k < b ensures s[k] != '@' && !IsSpace(s[k]) {
      assert s[k] == t[k - a];
    }
  }

  /**
   * The email pattern accepts exactly the strings without whitespace that hold exactly one
   * '@', not at the start, followed later by a '.' that has text on both sides.
   */
  lemma EmailPatternMeaning(s: string)
    ensures EmailPattern(s) <==> HasNoSpace(s) && exists i :: 0 < i && OnlyAtSignAt(s, i) && DotAfter(s, i)
  {
    if EmailPattern(s) {
      var i, j :| 0 <= i < j < |s| && EmailSplitAt(s, i, j);
      CharsOfSegment(s, 0, i);
      CharsOfSegment(s, i + 1, j);
      CharsOfSegment(s, j + 1, |s|);
      assert 0 < i && OnlyAtSignAt(s, i) && DotAfter(s, i);
    }
    if HasNoSpace(s) && exists i :: 0 < i && OnlyAtSignAt(s, i) && DotAfter(s, i) {
      var i :| 0 < i && OnlyAtSignAt(s, i) && DotAfter(s, i);
      var j :| 0 <= i + 1 < j < |s| - 1 && s[j] == '.';
      SegmentFromChars(s, 0, i);
      SegmentFromChars(s, i + 1, j);
      SegmentFromChars(s, j + 1, |s|);
      assert EmailSplitAt(s, i, j);
    }
  }

  predicate NoLineTerminator(t: string) {
    forall k :: 0 <= k < |t| ==> !IsLineTerminator(t[k])
  }

  /** The lookahead `(?=.*[a-zA-Z])` at position `p`: a letter follows on the same line. */
  predicate LetterAhead(s: string, p: int)
    requires 0 <= p <= |s|
  {
    exists k :: p <= k < |s| && IsAsciiLetter(s[k]) && NoLineTerminator(s[p..k])
  }

  /** The lookahead `(?=.*\d)` at position `p`. */
  predicate DigitAhead(s: string, p: int)
    requires 0 <= p <= |s|
  {
    exists k :: p <= k < |s| && IsAsciiDigit(s[k]) && NoLineTerminator(s[p..k])
  }

  /** `.{q}.*$` from position `p`: `q` characters, then anything, all on one line, to the end. */
  predicate BodyFits(s: string, p: int, q: int)
    requires 0 <= p <= |s|
  {
    8 <= q <= 30 && p + q <= |s| && NoLineTerminator(s[p..p + q]) && NoLineTerminator(s[p + q..|s|])
  }

  /** `.{8,30}.*$` from position `p`. */
  predicate BodyFrom(s: string, p: int)
    requires 0 <= p <= |s|
  {
    exists q :: 8 <= q <= 30 && BodyFits(s, p, q)
  }

  /** The password regex: a leading `.*` up to some position `p`, the two lookaheads there, and the body. */
  predicate PasswordPattern(s: string) {
    exists p :: 0 <= p <= |s| && PasswordSplitAt(s, p)
  }

  /** The leading `.*` stops at `p`, where both lookaheads and the body match. */
  predicate PasswordSplitAt(s: string, p: int)
    requires 0 <= p <= |s|
  {
    NoLineTerminator(s[0..p]) && LetterAhead(s, p) && DigitAhead(s, p) && BodyFrom(s, p)
  }

  predicate HasLetter(s: string) { exists k :: 0 <= k < |s| && IsAsciiLetter(s[k]) }
  predicate HasDigit(s: string) { exists k :: 0 <= k < |s| && IsAsciiDigit(s[k]) }

  lemma NoLineTerminatorSlice(s: string, a: int, b: int)
    requires 0 <= a <= b <= |s| && NoLineTerminator(s)
    ensures NoLineTerminator(s[a..b])
  {
    var t := s[a..b];
    forall k | 0 <= k < |t| ensures !IsLineTerminator(t[k]) {
      assert t[k] == s[a + k];
    }
  }

  lemma NoLineTerminatorJoin(s: string, a: int, b: int)
    requires 0 <= a <= b <= |s|
    requires NoLineTerminator(s[0..a]) && NoLineTerminator(s[a..b]) && NoLineTerminator(s[b..|s|])
    ensures NoLineTerminator(s)
  {
    var t0, t1, t2 := s[0..a], s[a..b], s[b..|s|];
    forall k | 0 <= k < |s| ensures !IsLineTerminator(s[k]) {
      if k < a {
        assert s[k] == t0[k];
      } else if k < b {
        assert s[k] == t1[k - a];
      } else {
        assert s[k] == t2[k - b];
      }
    }
  }

  lemma PasswordPatternSound(s: string)
    requires PasswordPattern(s)
    ensures NoLineTerminator(s) && |s| >= 8 && HasLetter(s) && HasDigit(s)
  {
    var p :| 0 <= p <= |s| && PasswordSplitAt(s, p);
    BodyGivesLength(s, p);
    AheadGivesCharacter(s, p);
  }

  lemma BodyGivesLength(s: string, p: int)
    requires 0 <= p <= |s| && NoLineTerminator(s[0..p]) && BodyFrom(s, p)
    ensures NoLineTerminator(s) && |s| >= 8
  {
    var q :| 8 <= q <= 30 && BodyFits(s, p, q);
    NoLineTerminatorJoin(s, p, p + q);
  }

  lemma AheadGivesCharacter(s: string, p: int)
    requires 0 <= p <= |s| && LetterAhead(s, p) && DigitAhead(s, p)
    ensures HasLetter(s) && HasDigit(s)
  {
    var a :| p <= a < |s| && IsAsciiLetter(s[a]) && NoLineTerminator(s[p..a]);
    var d :| p <= d < |s| && IsAsciiDigit(s[d]) && NoLineTerminator(s[p..d]);
    assert IsAsciiLetter(s[a]) && IsAsciiDigit(s[d]);
  }

  lemma PasswordPatternComplete(s: string)
    requires NoLineTerminator(s) && |s| >= 8 && HasLetter(s) && HasDigit(s)
    ensures PasswordPattern(s)
  {
    var a :| 0 <= a < |s| && IsAsciiLetter(s[a]);
    var d :| 0 <= d < |s| && IsAsciiDigit(s[d]);
    NoLineTerminatorSlice(s, 0, a);
    NoLineTerminatorSlice(s, 0, d);
    NoLineTerminatorSlice(s, 0, 8);
    NoLineTerminatorSlice(s, 8, |s|);
    NoLineTerminatorSlice(s, 0, 0);
    assert BodyFits(s, 0, 8);
    assert LetterAhead(s, 0) && DigitAhead(s, 0) && BodyFrom(s, 0);
    assert PasswordSplitAt(s, 0);
  }

  /**
   * The password pattern accepts exactly the strings of at least 8 characters with an ASCII
   * letter, an ASCII digit and no line break. Because of the leading and trailing `.*` the
   * `{8,30}` puts no upper bound on the length.
   */
  lemma PasswordPatternMeaning(s: string)
    ensures PasswordPattern(s) <==> NoLineTerminator(s) && |s| >= 8 && HasLetter(s) && HasDigit(s)
  {
    if PasswordPattern(s) {
      PasswordPatternSound(s);
    }
    if NoLineTerminator(s) && |s| >= 8 && HasLetter(s) && HasDigit(s) {
      PasswordPatternComplete(s);
    }
  }

  /** A 31-character password passes, although the form's hint promises 8-30 characters. */
  lemma PasswordLengthCapNotEnforced()
    ensures var s := "abcdefghijklmnopqrstuvwxyz12345"; |s| == 31 && PasswordPattern(s)
  {
    var s := "abcdefghijklmnopqrstuvwxyz12345";
    assert HasLetter(s) && HasDigit(s) by {
      assert IsAsciiLetter(s[0]) && IsAsciiDigit(s[30]);
    }
    assert NoLineTerminator(s);
    PasswordPatternComplete(s);
  }
}


/** register.js: the submit handler's checks, in order, and the request it sends. */
module RegisterForm {
  import opened JsText
  import opened FormPatterns
  import Accounts

  const MsgBadEmail := "邮箱格式不正确"
  const MsgWeakPassword := "密码需8-30位，且包含字母和数字"
  const MsgMismatch := "两次输入的密码不一致"
  const MsgNeedName := "请输入姓名"

  /** The JSON body of POST /api/register. */
  datatype RegisterBody = RegisterBody(lastName: string, firstName: string, email: string, password: string)

  /** Either the first failing check's message is shown and nothing is sent, or the body is sent. */
  datatype Outcome = Rejected(message: string) | Send(body: RegisterBody)

  /**
   * Submitting the form with the raw field values. Names and email are trimmed, the two
   * passwords are compared untrimmed. Checks run email, password, confirmation, names.
   */
  function Submit(lastNameField: string, firstNameField: string, emailField: string,
                  passwordField: string, confirmField: string): (r: Outcome)
    ensures r == Rejected(MsgBadEmail) <==> !EmailPattern(Trim(emailField))
    ensures r == Rejected(MsgWeakPassword) <==> EmailPattern(Trim(emailField)) && !PasswordPattern(passwordField)
    ensures r == Rejected(MsgMismatch) <==>
              EmailPattern(Trim(emailField)) && PasswordPattern(passwordField) && passwordField != confirmField
    ensures r == Rejected(MsgNeedName) <==>
              EmailPattern(Trim(emailField)) && PasswordPattern(passwordField) && passwordField == confirmField &&
              (Trim(lastNameField) == [] || Trim(firstNameField) == [])
    ensures r.Send? ==> r.body == RegisterBody(Trim(lastNameField), Trim(firstNameField), Trim(emailField), passwordField)
  {
    var lastName := Trim(lastNameField);
    var firstName := Trim(firstNameField);
    var email := Trim(emailField);
    if !EmailPattern(email) then Rejected(MsgBadEmail)
    else if !PasswordPattern(passwordField) then Rejected(MsgWeakPassword)
    else if passwordField != confirmField then Rejected(MsgMismatch)
    else if lastName == [] || firstName == [] then Rejected(MsgNeedName)
    else Send(RegisterBody(lastName, firstName, email, passwordField))
  }

  /**
   * Whatever the form sends has all four fields present, so the server's "incomplete"
   * check never fires for it; and its email has no surrounding whitespace.
   */
  lemma SentBodyIsComplete(lastNameField: string, firstNameField: string, emailField: string,
                           passwordField: string, confirmField: string)
    ensures var r := Submit(lastNameField, firstNameField, emailField, passwordField, confirmField);
            r.Send? ==>
              Accounts.Truthy(r.body.lastName) && Accounts.Truthy(r.body.firstName) &&
              Accounts.Truthy(r.body.email) && Accounts.Truthy(r.body.password) &&
              |r.body.password| >= 8 && Trim(r.body.email) == r.body.email
  {
    var r := Submit(lastNameField, firstNameField, emailField, passwordField, confirmField);
    if r.Send? {
      var i, j :| 0 <= i < j < |r.body.email| && EmailSplitAt(r.body.email, i, j);
      PasswordPatternMeaning(passwordField);
      TrimIdempotent(emailField);
    }
  }
}

/** reset-password.js: email, then code, then password; the request is built only after all pass. */
module ResetPasswordForm {
  import opened JsText
  import opened FormPatterns
  import Accounts

  const MsgBadEmail := "邮箱格式不正确"
  const MsgNeedCode := "请输入验证码"
  const MsgWeakPassword := "密码需8-30位，且包含字母和数字"

  /** The JSON body of POST /api/reset-password. */
  datatype ResetBody = ResetBody(email: string, code: string, newPassword: string)

  datatype Outcome = Rejected(message: string) | Send(body: ResetBody)

  function Submit(emailField: string, codeField: string, passwordField: string): (r: Outcome)
    ensures r == Rejected(MsgBadEmail) <==> !EmailPattern(Trim(emailField))
    ensures r == Rejected(MsgNeedCode) <==> EmailPattern(Trim(emailField)) && Trim(codeField) == []
    ensures r == Rejected(MsgWeakPassword) <==>
              EmailPattern(Trim(emailField)) && Trim(codeField) != [] && !PasswordPattern(passwordField)
    ensures r.Send? ==> r.body == ResetBody(Trim(emailField), Trim(codeField), passwordField)
  {
    var email := Trim(emailField);
    var code := Trim(codeField);
    if !EmailPattern(email) then Rejected(MsgBadEmail)
    else if code == [] then Rejected(MsgNeedCode)
    else if !PasswordPattern(passwordField) then Rejected(MsgWeakPassword)
    else Send(ResetBody(email, code, passwordField))
  }

  /** What the form sends never trips the server's "incomplete" check. */
  lemma SentBodyIsComplete(emailField: string, codeField: string, passwordField: string)
    ensures var r := Submit(emailField, codeField, passwordField);
            r.Send? ==>
              Accounts.Truthy(r.body.email) && Accounts.Truthy(r.body.code) && Accounts.Truthy(r.body.newPassword)
  {
    var r := Submit(emailField, codeField, passwordField);
    if r.Send? {
      var i, j :| 0 <= i < j < |r.body.email| && EmailSplitAt(r.body.email, i, j);
      PasswordPatternMeaning(passwordField);
    }
  }
}

/** forgot.js: the page state the submit handler sets, step by step. */
module ForgotForm {
  import opened JsText
  import opened FormPatterns

  const MsgBadEmail := "邮箱格式不正确"
  const MsgSent := "重置邮件已发送，请查收邮箱"
  const ClassPlain := "message"
  const ClassInfo := "message message-info"

  /** How the POST /api/forgot request ended; the handler ignores it. */
  datatype FetchOutcome = Responded(status: nat) | NetworkError

  class ForgotPage {
    var message: string
    var messageClass: string
    var buttonDisabled: bool
    /** The bodies of the POST /api/forgot requests sent so far (the email of each). */
    var requests: seq<string>

    constructor ()
      ensures message == [] && messageClass == ClassPlain && !buttonDisabled && requests == []
    {
      message := [];
      messageClass := ClassPlain;
      buttonDisabled := false;
      requests := [];
    }

    /**
     * Submitting with the raw email field. An invalid email shows the format error and
     * stops before the button is disabled or anything is sent. A valid one disables the
     * button, shows the success message and sends the trimmed email; the request's outcome
     * changes nothing.
     */
    method Submit(emailField: string, outcome: FetchOutcome)
      modifies this
      ensures !EmailPattern(Trim(emailField)) ==>
                message == MsgBadEmail && messageClass == ClassPlain &&
                buttonDisabled == old(buttonDisabled) && requests == old(requests)
      ensures EmailPattern(Trim(emailField)) ==>
                message == MsgSent && messageClass == ClassInfo &&
                buttonDisabled && requests == old(requests) + [Trim(emailField)]
    {
      var email := Trim(emailField);
      message := [];
      messageClass := ClassPlain;
      if !EmailPattern(email) {
        message := MsgBadEmail;
        return;
      }
      buttonDisabled := true;
      messageClass := ClassInfo;
      message := MsgSent;
      requests := requests + [email];
      match outcome {
        case Responded(_) =>
        case NetworkError =>
      }
    }
  }
}
