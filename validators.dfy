/**
  The validator functions a question can hold (src/Question.js:89-106). A validator maps the
  user's answer to `true` (accept), `false` (reject silently) or a string (reject with that message).
  The two fixed regular expressions of the source are written out as predicates on strings.
 */
module Validators {
  import opened Common

  /** What a validator returns: `true`, `false` or an error message. */
  datatype Verdict = Accept | Reject | Explain(message: string)

  /** A validator function: the three the source installs, or one supplied by a caller. */
  datatype Validator =
    | NotEmpty(subject: string)   // installed by `validateEmpty`; `subject` is the question's original name
    | Email                       // installed by `validateEmail`
    | OnlyNumber                  // installed by `validateOnlyNumber`
    | Custom(id: nat)             // any other function a caller passes to `validate`

  const EmailMessage: string := "Please provide a valid email address."
  const NumbersMessage: string := "Please provide only numbers."

  function EmptyMessage(subject: string): string {
    subject + " cannot be empty."
  }

  // ---------------------------------------------------------------------------
  // The e-mail pattern  ^.+@[^.].*\.[a-z]{2,}$
  // ---------------------------------------------------------------------------

  /** The characters a JavaScript `.` does not match. */
  predicate IsLineTerminator(c: char) {
    c == '\n' || c == '\r' || c == '\U{2028}' || c == '\U{2029}'
  }

  predicate NoLineTerminator(s: string) {
    forall i :: 0 <= i < |s| ==> !IsLineTerminator(s[i])
  }

  predicate AllLowercase(s: string) {
    forall i :: 0 <= i < |s| ==> 'a' <= s[i] <= 'z'
  }

  /**
    The pattern matches `s` with its `@` at index `at` and its escaped `\.` at index `dot`:
    `.+` is s[..at], `[^.]` is s[at + 1] (any character but a dot, line terminators included),
    `.*` is s[at + 2..dot] and `[a-z]{2,}` is s[dot + 1..], which runs to the end.
   */
  predicate EmailSplit(s: string, at: int, dot: int) {
    && 0 < at && at + 2 <= dot && dot + 3 <= |s|
    && s[at] == '@' && s[at + 1] != '.' && s[dot] == '.'
    && NoLineTerminator(s[..at]) && NoLineTerminator(s[at + 2..dot])
    && AllLowercase(s[dot + 1..])
  }

  /** The reference meaning of the pattern: some way of splitting `s` fits it. */
  ghost predicate EmailShape(s: string) {
    exists at, dot :: EmailSplit(s, at, dot)
  }

  /** Index of the last occurrence of `c` in `s`. */
  function LastIndex(s: string, c: char): (r: Option<nat>)
    ensures r.Some? ==> r.value < |s| && s[r.value] == c && c !in s[r.value + 1..]
    ensures r.None? ==> c !in s
  {
    if s == [] then None
    else if s[|s| - 1] == c then Some(|s| - 1)
    else
      var r := LastIndex(s[..|s| - 1], c);
      assert r.Some? ==> s[r.value + 1..] == s[..|s| - 1][r.value + 1..] + [s[|s| - 1]];
      assert s == s[..|s| - 1] + [s[|s| - 1]];
      r
  }

  /** `t` matches `.+@[^.].*` with its `@` at index `at`. */
  predicate MailboxAt(t: string, at: int) {
    && 0 < at && at + 2 <= |t|
    && t[at] == '@' && t[at + 1] != '.'
    && NoLineTerminator(t[..at]) && NoLineTerminator(t[at + 2..])
  }

  /** Searches the `@` of a match of `.+@[^.].*` against `t`, trying indices from `at` upwards. */
  function HasMailbox(t: string, at: nat): (b: bool)
    requires 0 < at <= |t| + 1 && NoLineTerminator(t[..at - 1])
    ensures b <==> exists a :: at <= a && MailboxAt(t, a)
    decreases |t| - at
  {
    if at + 2 > |t| then false
    else if IsLineTerminator(t[at - 1]) then
      assert forall a :: at <= a && 0 <= a <= |t| ==> t[..a][at - 1] == t[at - 1];
      false
    else
      assert t[..at] == t[..at - 1] + [t[at - 1]];
      var here := t[at] == '@' && t[at + 1] != '.' && NoLineTerminator(t[at + 2..]);
      assert here <==> MailboxAt(t, at);
      here || HasMailbox(t, at + 1)
  }

  /** The scan behind the e-mail test: find the last dot, then the `@` before it. */
  predicate ScanEmail(s: string) {
    match LastIndex(s, '.')
    case None => false
    case Some(dot) => dot + 3 <= |s| && AllLowercase(s[dot + 1..]) && HasMailbox(s[..dot], 1)
  }

  /** The scan decides exactly the pattern. */
  lemma ScanEmailIsPattern(s: string)
    ensures ScanEmail(s) <==> EmailShape(s)
  {
    if ScanEmail(s) {
      var dot := LastIndex(s, '.').value;
      var t := s[..dot];
      var at :| 1 <= at && MailboxAt(t, at);
      assert t[..at] == s[..at];
      assert t[at + 2..] == s[at + 2..dot];
      assert EmailSplit(s, at, dot);
    }
    if EmailShape(s) {
      var at, dot :| EmailSplit(s, at, dot);
      forall i | dot < i < |s| ensures s[i] != '.' {
        assert s[dot + 1..][i - dot - 1] == s[i];
      }
      assert LastIndex(s, '.') == Some(dot);
      var t := s[..dot];
      assert t[..at] == s[..at];
      assert t[at + 2..] == s[at + 2..dot];
      assert MailboxAt(t, at);
    }
  }

  /** `/^.+@[^.].*\.[a-z]{2,}$/.test(s)`: true exactly when the pattern matches `s`. */
  predicate MatchesEmail(s: string)
    ensures MatchesEmail(s) <==> EmailShape(s)
  {
    ScanEmailIsPattern(s);
    ScanEmail(s)
  }

  // ---------------------------------------------------------------------------
  // The only-number pattern  ^(?=(\d)*)$
  // ---------------------------------------------------------------------------

  predicate IsDigit(c: char) {
    '0' <= c <= '9'
  }

  predicate AllDigits(s: string) {
    forall i :: 0 <= i < |s| ==> IsDigit(s[i])
  }

  /** A non-empty run of ASCII digits: what `\d+` matches. */
  predicate IsNumeral(s: string) {
    |s| > 0 && AllDigits(s)
  }

  /**
    The pattern `^(?=(\d)*)$` as written, matched from index 0: the look-ahead needs some
    (possibly empty) run of digits at index 0, then `$` needs index 0 to be the end of `text`.
   */
  predicate MatchesOnlyNumberAsWritten(text: string) {
    (exists k :: 0 <= k <= |text| && AllDigits(text[..k])) && |text| == 0
  }

  /** The look-ahead never fails, so the pattern as written matches the empty answer and nothing else. */
  lemma OnlyNumberPatternMatchesOnlyEmpty(text: string)
    ensures MatchesOnlyNumberAsWritten(text) <==> text == ""
  {
    assert AllDigits(text[..0]);
  }

  /** The validator `validateOnlyNumber` installs, as written: `false` on a match, the message otherwise. */
  function OnlyNumberAsWritten(text: string): (r: Verdict)
    ensures r != Accept
    ensures r == Reject <==> text == ""
    ensures r != Reject ==> r == Explain(NumbersMessage)
  {
    OnlyNumberPatternMatchesOnlyEmpty(text);
    if MatchesOnlyNumberAsWritten(text) then Reject else Explain(NumbersMessage)
  }

  /** As written, every numeral is refused with "Please provide only numbers.", and "" is refused silently. */
  lemma OnlyNumberAsWrittenRefusesNumerals(text: string)
    ensures IsNumeral(text) ==> OnlyNumberAsWritten(text) == Explain(NumbersMessage)
    ensures OnlyNumberAsWritten(text) != Accept
    ensures text == "" <==> OnlyNumberAsWritten(text) == Reject
  {
  }

  /** A concrete answer the as-written validator refuses although it is only digits. */
  lemma OnlyNumberAsWrittenRefuses42()
    ensures IsNumeral("42") && OnlyNumberAsWritten("42") == Explain(NumbersMessage)
  {
    OnlyNumberAsWrittenRefusesNumerals("42");
  }

  /** The evidently intended number validator: accept a numeral, explain otherwise. */
  function OnlyNumberCorrected(text: string): (r: Verdict)
    ensures r == Accept <==> IsNumeral(text)
    ensures r != Accept ==> r == Explain(NumbersMessage)
  {
    if IsNumeral(text) then Accept else Explain(NumbersMessage)
  }

  // ---------------------------------------------------------------------------
  // Running a validator
  // ---------------------------------------------------------------------------

  /**
    What validator `v` returns for the answer `text`. A caller-supplied validator is opaque to
    the model: `custom` gives its verdict.
   */
  function Judge(v: Validator, text: string, custom: (nat, string) -> Verdict): (r: Verdict)
    ensures v.NotEmpty? ==> (r == Accept <==> text != "")
    ensures v.NotEmpty? && text == "" ==> r == Explain(v.subject + " cannot be empty.")
    ensures v.Email? ==> (r == Accept <==> EmailShape(text))
    ensures v.Email? && r != Accept ==> r == Explain(EmailMessage)
    ensures v.OnlyNumber? ==> r == OnlyNumberAsWritten(text)
    ensures v.OnlyNumber? ==> r != Accept && (r == Reject <==> text == "")
    ensures v.Custom? ==> r == custom(v.id, text)
  {
    match v
    case NotEmpty(subject) => if text != "" then Accept else Explain(EmptyMessage(subject))
    case Email => if MatchesEmail(text) then Accept else Explain(EmailMessage)
    case OnlyNumber => OnlyNumberAsWritten(text)
    case Custom(id) => custom(id, text)
  }

  /** "a@b.co" is accepted by the e-mail validator. */
  lemma EmailAcceptsExample()
    ensures EmailShape("a@b.co")
  {
    assert EmailSplit("a@b.co", 1, 3);
  }

  /** "not-an-email" is refused by the e-mail validator: it has no `@`. */
  lemma EmailRefusesExample()
    ensures !EmailShape("not-an-email")
  {
  }
}
