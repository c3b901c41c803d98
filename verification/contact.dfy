/** Field validation and submit gating of the contact page
    (src/pages/Contact/index.js: validateField and the submit handler of setupForm).

    The DOM field becomes a record of its control kind, its `required`
    attribute and its value; reCAPTCHA's response and the outcome of the
    `fetch` are parameters of the submit handler. */
module Contact {
  import opened Wrappers

  // ---------------------------------------------------------------------------
  // String.prototype.trim

  /** WhiteSpace and LineTerminator characters of ECMAScript, which `trim` strips. */
  predicate IsJsSpace(c: char) {
    || c == '\t' || c == '\n' || c == '\U{000B}' || c == '\U{000C}' || c == '\r' || c == ' '
    || c == '\U{00A0}' || c == '\U{1680}' || ('\U{2000}' <= c <= '\U{200A}')
    || c == '\U{2028}' || c == '\U{2029}' || c == '\U{202F}' || c == '\U{205F}'
    || c == '\U{3000}' || c == '\U{FEFF}'
  }

  function TrimStart(s: string): (r: string)
    ensures |r| <= |s|
    ensures r != [] ==> !IsJsSpace(r[0])
    decreases |s|
  {
    if s != [] && IsJsSpace(s[0]) then TrimStart(s[1..]) else s
  }

  function TrimEnd(s: string): (r: string)
    ensures |r| <= |s|
    decreases |s|
  {
    if s != [] && IsJsSpace(s[|s| - 1]) then TrimEnd(s[..|s| - 1]) else s
  }

  function Trim(s: string): string {
    TrimEnd(TrimStart(s))
  }

  lemma {:induction false} TrimStartEmpty(s: string)
    ensures TrimStart(s) == [] <==> forall i | 0 <= i < |s| :: IsJsSpace(s[i])
    decreases |s|
  {
    if s != [] && IsJsSpace(s[0]) {
      TrimStartEmpty(s[1..]);
      assert forall i | 1 <= i < |s| :: s[i] == s[1..][i - 1];
    }
  }

  lemma {:induction false} TrimEndKeepsNonEmpty(s: string)
    requires s != [] && !IsJsSpace(s[0])
    ensures TrimEnd(s) != []
    decreases |s|
  {
    if IsJsSpace(s[|s| - 1]) {
      TrimEndKeepsNonEmpty(s[..|s| - 1]);
    }
  }

  /** A value trims to the empty string exactly when it is all white space. */
  lemma TrimEmpty(s: string)
    ensures Trim(s) == [] <==> forall i | 0 <= i < |s| :: IsJsSpace(s[i])
  {
    TrimStartEmpty(s);
    var t := TrimStart(s);
    if t != [] {
      TrimEndKeepsNonEmpty(t);
    }
  }

  // ---------------------------------------------------------------------------
  // The e-mail pattern /^[a-zA-Z0-9._-]+@[a-zA-Z0-9.-]+\.[a-zA-Z]{2,}$/

  predicate IsLetter(c: char) { ('a' <= c <= 'z') || ('A' <= c <= 'Z') }
  predicate IsDigit(c: char) { '0' <= c <= '9' }
  /** `[a-zA-Z0-9._-]` */
  predicate IsLocalChar(c: char) { IsLetter(c) || IsDigit(c) || c == '.' || c == '_' || c == '-' }
  /** `[a-zA-Z0-9.-]` */
  predicate IsDomainChar(c: char) { IsLetter(c) || IsDigit(c) || c == '.' || c == '-' }

  predicate AllLocal(s: string) { forall i | 0 <= i < |s| :: IsLocalChar(s[i]) }
  predicate AllDomain(s: string) { forall i | 0 <= i < |s| :: IsDomainChar(s[i]) }
  predicate AllLetters(s: string) { forall i | 0 <= i < |s| :: IsLetter(s[i]) }

  /** The pattern splits the whole value at an '@' (index `at`) and a '.'
      (index `dot`): a non-empty local part, a non-empty domain, and at least
      two letters at the end. */
  predicate SplitsAt(s: string, at: nat, dot: nat) {
    && 1 <= at && at + 1 < dot && dot + 3 <= |s|
    && s[at] == '@' && s[dot] == '.'
    && AllLocal(s[..at]) && AllDomain(s[at + 1..dot]) && AllLetters(s[dot + 1..])
  }

  /** The language of the pattern. */
  predicate MatchesEmail(s: string) {
    exists at: nat, dot: nat | at < |s| && dot < |s| :: SplitsAt(s, at, dot)
  }

  /** Index of the first '@', or |s| when there is none. */
  function FirstAt(s: string): (i: nat)
    ensures i <= |s|
    ensures i < |s| ==> s[i] == '@'
    ensures forall m | 0 <= m < i :: s[m] != '@'
  {
    if s == [] then 0
    else if s[0] == '@' then 0
    else 1 + FirstAt(s[1..])
  }

  /** Index of the last '.', or |s| when there is none. */
  function LastDot(s: string): (i: nat)
    ensures i <= |s|
    ensures i < |s| ==> s[i] == '.' && forall m | i < m < |s| :: s[m] != '.'
    ensures i == |s| ==> forall m | 0 <= m < |s| :: s[m] != '.'
    decreases |s|
  {
    if s == [] then 0
    else if s[|s| - 1] == '.' then |s| - 1
    else
      var j := LastDot(s[..|s| - 1]);
      if j == |s| - 1 then |s| else j
  }

  /** A scanner for the pattern: split at the first '@' and the last '.'. */
  function ValidEmail(s: string): bool {
    var at := FirstAt(s);
    var dot := LastDot(s);
    at < |s| && dot < |s| && SplitsAt(s, at, dot)
  }

  /** The scanner accepts exactly the pattern's language. No local or domain
      character is '@', so any split uses the first '@'; no letter is '.', so
      any split uses the last '.'. */
  lemma EmailScanner(s: string)
    ensures ValidEmail(s) <==> MatchesEmail(s)
  {
    if MatchesEmail(s) {
      var at: nat, dot: nat :| at < |s| && dot < |s| && SplitsAt(s, at, dot);
      assert FirstAt(s) == at;
      assert LastDot(s) == dot;
    }
  }

  /** An accepted address has exactly one '@'. */
  lemma OneAt(s: string)
    requires MatchesEmail(s)
    ensures multiset(s)['@'] == 1
  {
    var at: nat, dot: nat :| at < |s| && dot < |s| && SplitsAt(s, at, dot);
    assert s == s[..at] + [s[at]] + s[at + 1..];
    NoAt(s[..at]);
    var rest := s[at + 1..];
    assert rest == s[at + 1..dot] + s[dot..];
    assert s[dot..] == [s[dot]] + s[dot + 1..];
    NoAt(s[at + 1..dot]);
    NoAt(s[dot + 1..]);
  }

  lemma NoAt(t: string)
    requires forall i | 0 <= i < |t| :: t[i] != '@'
    ensures multiset(t)['@'] == 0
  {
    assert '@' !in multiset(t);
  }

  /** The pattern is matched against the raw value: a match begins with a
      local-part character and ends with a letter, so a value with a
      leading or trailing space never matches. */
  lemma SpacesFail(s: string)
    ensures MatchesEmail(s) ==> s != [] && IsLocalChar(s[0]) && IsLetter(s[|s| - 1])
    ensures MatchesEmail(s) ==> s[0] != ' ' && s[|s| - 1] != ' '
  {
    if MatchesEmail(s) {
      var at: nat, dot: nat :| at < |s| && dot < |s| && SplitsAt(s, at, dot);
      assert s[0] == s[..at][0];
      assert s[|s| - 1] == s[dot + 1..][|s| - dot - 2];
    }
  }

  // ---------------------------------------------------------------------------
  // validateField

  datatype Control = EmailInput | OtherInput | Select | TextArea

  datatype Field = Field(control: Control, required: bool, value: string)

  datatype Verdict = Valid | Required | BadEmail | NoOption

  function Message(v: Verdict): string {
    match v
    case Valid => ""
    case Required => "This field is required"
    case BadEmail => "Please enter a valid email address"
    case NoOption => "Please select an option"
  }

  /** `validateField`: the required check, then the e-mail pattern, then the
      empty select, each returning as soon as it fires. */
  function ValidateField(f: Field): (v: Verdict)
    ensures f.required && Trim(f.value) == [] ==> v == Required
    ensures v == BadEmail <==>
              !(f.required && Trim(f.value) == []) && f.control == EmailInput && !ValidEmail(f.value)
    ensures v == NoOption <==>
              !(f.required && Trim(f.value) == []) && f.control == Select && f.value == []
    ensures v == Valid <==>
              && !(f.required && Trim(f.value) == [])
              && (f.control == EmailInput ==> ValidEmail(f.value))
              && (f.control == Select ==> f.value != [])
  {
    if f.required && Trim(f.value) == [] then Required
    else if f.control == EmailInput && !ValidEmail(f.value) then BadEmail
    else if f.control == Select && f.value == [] then NoOption
    else Valid
  }

  /** The required check comes first, so a required select never reports a missing option. */
  lemma RequiredSelectNeverNoOption(f: Field)
    requires f.required && f.control == Select
    ensures ValidateField(f) != NoOption
  {
    if f.value == [] {
      TrimEmpty(f.value);
    }
  }

  /** A required field that is only white space is reported as missing. */
  lemma BlankIsRequired(f: Field)
    requires f.required && forall i | 0 <= i < |f.value| :: IsJsSpace(f.value[i])
    ensures ValidateField(f) == Required
  {
    TrimEmpty(f.value);
  }

  // ---------------------------------------------------------------------------
  // Submit

  datatype Button = Button(enabled: bool, text: string)

  /** What `fetch` does: a response with `ok` set, one without, or a rejection. */
  datatype Network = Delivered | Refused | Unreachable

  datatype Notice = Silent | Success(text: string) | Failure(text: string)

  datatype Submission = Submission(
    verdicts: seq<Option<Verdict>>,
    sent: Option<string>,
    notice: Notice,
    button: Button,
    formReset: bool)

  const SendLabel := "Send Message"
  const CaptchaMissing := "Please complete the reCAPTCHA verification."
  const ThankYou := "Thank you for your message. We'll get back to you soon!"
  const SendFailed := "Sorry, there was an error sending your message. Please try again later."

  /** Every required field is validated, each showing its own error; there is no short cut. */
  function CheckAll(fields: seq<Field>): (vs: seq<Option<Verdict>>)
    ensures |vs| == |fields|
    ensures forall i | 0 <= i < |fields| :: (vs[i].Some? <==> fields[i].required)
    ensures forall i | 0 <= i < |fields| && fields[i].required :: vs[i] == Some(ValidateField(fields[i]))
  {
    seq(|fields|, i requires 0 <= i < |fields| =>
      if fields[i].required then Some(ValidateField(fields[i])) else None)
  }

  predicate AllValid(vs: seq<Option<Verdict>>) {
    forall i | 0 <= i < |vs| :: vs[i] != Some(Required) && vs[i] != Some(BadEmail) && vs[i] != Some(NoOption)
  }

  /** The submit handler. `captcha` is `grecaptcha.getResponse()`; `sent`
      holds the token the request carried when `fetch` was called. */
  function Submit(fields: seq<Field>, button: Button, captcha: string, net: Network): (r: Submission)
    ensures r.verdicts == CheckAll(fields)
    ensures !AllValid(r.verdicts) ==> r.sent == None && r.button == button && r.notice == Silent
    ensures AllValid(r.verdicts) && captcha == [] ==>
              r.sent == None && r.notice == Failure(CaptchaMissing) && r.button == Button(true, SendLabel)
    ensures r.sent.Some? <==> AllValid(r.verdicts) && captcha != []
    ensures r.sent.Some? ==> r.sent.value == captcha && r.button == Button(true, SendLabel)
    ensures r.formReset <==> r.sent.Some? && net == Delivered
    ensures r.notice.Success? <==> r.sent.Some? && net == Delivered
    ensures r.sent.Some? ==> r.notice == (if net == Delivered then Success(ThankYou) else Failure(SendFailed))
  {
    var vs := CheckAll(fields);
    if !AllValid(vs) then Submission(vs, None, Silent, button, false)
    else if captcha == [] then
      Submission(vs, None, Failure(CaptchaMissing), Button(true, SendLabel), false)
    else
      match net
      case Delivered =>
        Submission(vs, Some(captcha), Success(ThankYou),
                   Button(true, SendLabel), true)
      case _ =>
        Submission(vs, Some(captcha), Failure(SendFailed), Button(true, SendLabel), false)
  }
}
