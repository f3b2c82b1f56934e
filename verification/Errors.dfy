/** Parsing the text of provider errors and classifying them for the retry policy. */
module Errors {
  import opened Words
  import opened Strings

  datatype ErrorKind = ErrUnknown | ErrRateLimit | ErrTokenLimit | ErrContentPolicy | ErrAuth | ErrServerError | ErrTimeout

  /** An error value: its text, and whether its chain holds context.DeadlineExceeded. */
  datatype Cause = Cause(text: string, deadline: bool)

  /** What ClassifyFromError can see: a ProviderError somewhere in the chain, or plain text. */
  datatype GoError = Plain(cause: Cause) | Structured(cause: Cause, status: int, body: string)

  const STATUS: string := "status "
  const COLON: string := [':']
  const DEADLINE: string := "deadline exceeded"

  const TOKEN_LIMIT: seq<string> := [
    "context_length_exceeded", "maximum context length", "max_tokens", "token limit",
    "context window", "too many tokens", "maximum number of tokens"]
  const CONTENT_POLICY: seq<string> := [
    "content_policy_violation", "content_filter", "safety", "blocked", "harm_category", "moderation", "responsible_ai"]
  const RATE_LIMIT: seq<string> := [
    "rate_limit", "rate limit", "too many requests", "quota exceeded", "resource_exhausted"]
  const AUTH: seq<string> := [
    "invalid_api_key", "invalid api key", "authentication", "unauthorized", "forbidden", "permission denied"]
  const OVERLOADED: seq<string> := ["overloaded_error", "overloaded"]

  // ---------------------------------------------------------------- text of an error

  predicate IsDigit(c: char) {
    '0' <= c <= '9'
  }

  predicate AllDigits(s: string) {
    forall k :: 0 <= k < |s| ==> IsDigit(s[k])
  }

  function DigitValue(c: char): int {
    c as int - '0' as int
  }

  function Number(s: string): int {
    if s == "" then 0 else Wrap(Number(s[..|s| - 1]) * 10 + DigitValue(s[|s| - 1]))
  }

  /** Status code and body, or 0 and the whole message when the text has another shape. */
  ghost function Parse(msg: string): (int, string) {
    var at := Index(msg, STATUS);
    if at < 0 then (0, msg)
    else ParseAfter(msg, msg[at + |STATUS|..])
  }

  ghost function ParseAfter(msg: string, after: string): (int, string) {
    var colon := Index(after, COLON);
    if colon < 0 then (0, msg)
    else ParseFields(msg, after[..colon], after[colon + 1..])
  }

  function ParseFields(msg: string, field: string, body: string): (int, string) {
    var code := TrimSpace(field);
    if AllDigits(code) then (Number(code), TrimSpace(body)) else (0, msg)
  }

  method ParseProviderErrorString(msg: string) returns (status: int, body: string)
    ensures (status, body) == Parse(msg)
  {
    var at := FindIndex(msg, STATUS);
    if at < 0 { return 0, msg; }
    var after := msg[at + |STATUS|..];
    var colon := FindIndex(after, COLON);
    if colon < 0 { return 0, msg; }
    status, body := Fields(msg, after[..colon], after[colon + 1..]);
  }

  method Fields(msg: string, field: string, rest: string) returns (status: int, body: string)
    ensures (status, body) == ParseFields(msg, field, rest)
  {
    var codeStr := TrimSpace(field);
    var code := 0;
    for k := 0 to |codeStr|
      invariant AllDigits(codeStr[..k]) && code == Number(codeStr[..k])
    {
      if !('0' <= codeStr[k] <= '9') { return 0, msg; }
      assert codeStr[..k + 1][..k] == codeStr[..k];
      code := Wrap(code * 10 + (codeStr[k] as int - '0' as int));
    }
    assert codeStr[..|codeStr|] == codeStr;
    return code, TrimSpace(rest);
  }

  /** fmt's %d of a status code. */
  function Decimal(n: nat): string {
    var digit := ('0' as int + n % 10) as char;
    if n < 10 then [digit] else Decimal(n / 10) + [digit]
  }

  lemma {:induction false} DecimalIsNumber(n: nat)
    requires n < TWO63
    ensures AllDigits(Decimal(n)) && Decimal(n) != "" && Number(Decimal(n)) == n
  {
    var s := Decimal(n);
    if n < 10 {
      assert s[..0] == "";
    } else {
      DecimalIsNumber(n / 10);
      assert s[..|s| - 1] == Decimal(n / 10);
    }
  }

  /** The text every provider formats: a prefix, the code, the response body. */
  function Format(prefix: string, code: nat, body: string): string {
    prefix + STATUS + Decimal(code) + ": " + body
  }

  lemma StatusIsUnbordered()
    ensures Unbordered(STATUS)
  {
    assert STATUS == ['s', 't', 'a', 't', 'u', 's', ' '];
    forall d | 0 < d < |STATUS| ensures STATUS[d..] != STATUS[..|STATUS| - d] {
      assert STATUS[d..][|STATUS| - d - 1] == ' ' && STATUS[..|STATUS| - d][|STATUS| - d - 1] != ' ';
    }
  }

  lemma DigitsAreCode(msg: string, code: nat, body: string)
    requires code < TWO63
    ensures ParseFields(msg, Decimal(code), " " + body) == (code, TrimSpace(body))
  {
    DecimalIsNumber(code);
    var s := Decimal(code);
    assert IsDigit(s[0]) && IsDigit(s[|s| - 1]);
    TrimNothing(s);
    TrimAround(body, ' ');
  }

  lemma FormattedPieces(prefix: string, code: nat, body: string)
    ensures var after := Decimal(code) + COLON + (" " + body);
      && Format(prefix, code, body) == prefix + STATUS + after
      && Format(prefix, code, body)[|prefix| + |STATUS|..] == after
      && after[..|Decimal(code)|] == Decimal(code) && after[|Decimal(code)| + 1..] == " " + body
  {
    assert ": " == COLON + " ";
  }

  /** Parsing undoes formatting, for every code and every body. */
  lemma ParseUndoesFormat(prefix: string, code: nat, body: string)
    requires !Contains(prefix, STATUS) && code < TWO63
    ensures Parse(Format(prefix, code, body)) == (code as int, TrimSpace(body))
  {
    var after := Decimal(code) + COLON + (" " + body);
    FormattedPieces(prefix, code, body);
    StatusIsUnbordered();
    MarkerAfterFiller(prefix, STATUS, after);
    DecimalIsNumber(code);
    CharAfterFiller(Decimal(code), ':', " " + body);
    DigitsAreCode(Format(prefix, code, body), code, body);
  }

  /** A field with a visible letter that is no digit is not a code. */
  lemma LetterIsNoCode(msg: string, front: string, back: string, body: string)
    ensures ParseFields(msg, front + ['s'] + back, body) == (0, msg)
  {
    TrimKeepsVisible(front, 's', back);
    var code := TrimSpace(front + ['s'] + back);
    var k :| 0 <= k < |code| && code[k] == 's';
    assert !IsDigit(code[k]);
  }

  /** Cut at a colon before or after the 's': either the field holds the letter, or the body does. */
  lemma MisreadFields(msg: string, front: string, tail: string, after: string, colon: nat)
    requires after == front + ['s'] + tail && |msg| > |TrimSpace(tail)|
    requires colon < |after| && after[colon] == ':'
    ensures |ParseFields(msg, after[..colon], after[colon + 1..]).1| > |TrimSpace(tail)|
  {
    if colon > |front| {
      var back := after[|front| + 1..colon];
      assert after[..colon] == front + ['s'] + back;
      LetterIsNoCode(msg, front, back, after[colon + 1..]);
    } else {
      assert after[|front|] == 's';
      var skipped := front[colon + 1..];
      assert after[colon + 1..] == skipped + ['s'] + tail;
      TrimKeepsVisible(skipped, 's', tail);
    }
  }

  lemma MisreadAfter(msg: string, front: string, tail: string, after: string)
    requires after == front + ['s'] + tail && |msg| > |TrimSpace(tail)|
    ensures |ParseAfter(msg, after).1| > |TrimSpace(tail)|
  {
    IndexSpec(after, COLON);
    var colon := Index(after, COLON);
    if colon >= 0 {
      assert after[colon..colon + 1][0] == ':';
      MisreadFields(msg, front, tail, after, colon);
    }
  }

  /** Behind an earlier "status " the code's own digits are never read: what comes back is longer than the rest. */
  lemma MisreadAfterStatus(prefix: string, rest: string, tail: string)
    requires Contains(prefix, STATUS) && rest == ['s'] + tail
    ensures |Parse(prefix + rest).1| > |TrimSpace(tail)|
  {
    var msg := prefix + rest;
    FirstInPrefix(prefix, rest, STATUS);
    var at := Index(msg, STATUS) + |STATUS|;
    DropFront(prefix, rest, at);
    TrimIsShort(tail);
    var front := prefix[at..];
    assert front + rest == front + ['s'] + tail;
    MisreadAfter(msg, front, tail, msg[at..]);
  }

  lemma FormattedTail(prefix: string, code: nat, body: string) returns (rest: string, tail: string)
    ensures Format(prefix, code, body) == prefix + rest && rest == ['s'] + tail
    ensures |TrimSpace(tail)| >= |TrimSpace(body)|
  {
    var mid := STATUS[1..] + Decimal(code) + ": ";
    rest, tail := STATUS + Decimal(code) + ": " + body, mid + body;
    assert STATUS == ['s'] + STATUS[1..];
    SuffixTrimsShorter(mid, body);
  }

  /** Parsing undoes formatting, for every code and every body, exactly when the prefix does not say "status ". */
  lemma ParseUndoesFormatIff(prefix: string, code: nat, body: string)
    requires code < TWO63
    ensures Parse(Format(prefix, code, body)) == (code as int, TrimSpace(body)) <==> !Contains(prefix, STATUS)
  {
    if Contains(prefix, STATUS) {
      var rest, tail := FormattedTail(prefix, code, body);
      MisreadAfterStatus(prefix, rest, tail);
    } else {
      ParseUndoesFormat(prefix, code, body);
    }
  }

  // ---------------------------------------------------------------- classification

  ghost predicate ContainsAny(s: string, patterns: seq<string>) {
    exists k :: 0 <= k < |patterns| && Contains(s, patterns[k])
  }

  method HasAny(s: string, patterns: seq<string>) returns (r: bool)
    ensures r == ContainsAny(s, patterns)
  {
    for k := 0 to |patterns|
      invariant forall j :: 0 <= j < k ==> !Contains(s, patterns[j])
    {
      var at := FindIndex(s, patterns[k]);
      if at >= 0 { return true; }
    }
    return false;
  }

  /** Lower case, with the two letters outside ASCII whose lower case is an ASCII letter. */
  function LowerChar(c: char): char {
    if 'A' <= c <= 'Z' then (c as int + 32) as char
    else if c as int == 0x212A then 'k'
    else if c as int == 0x130 then 'i'
    else c
  }

  function Lower(s: string): string {
    seq(|s|, k requires 0 <= k < |s| => LowerChar(s[k]))
  }

  ghost predicate TimedOut(cause: Cause) {
    cause.deadline || Contains(cause.text, DEADLINE)
  }

  ghost function Classify(cause: Cause, status: int, body: string): ErrorKind {
    if TimedOut(cause) then ErrTimeout
    else if status == 429 then ErrRateLimit
    else if status == 401 || status == 403 then ErrAuth
    else if status >= 500 then (if ContainsAny(body, OVERLOADED) then ErrRateLimit else ErrServerError)
    else if ContainsAny(Lower(body), TOKEN_LIMIT) then ErrTokenLimit
    else if ContainsAny(Lower(body), CONTENT_POLICY) then ErrContentPolicy
    else if ContainsAny(Lower(body), RATE_LIMIT) then ErrRateLimit
    else if ContainsAny(Lower(body), AUTH) then ErrAuth
    else ErrUnknown
  }

  ghost function KindOf(err: GoError): ErrorKind {
    match err
    case Structured(cause, status, body) => Classify(cause, status, body)
    case Plain(cause) => Classify(cause, Parse(cause.text).0, Parse(cause.text).1)
  }

  method ClassifyError(cause: Cause, status: int, body: string) returns (kind: ErrorKind)
    ensures kind == Classify(cause, status, body)
  {
    if cause.deadline { return ErrTimeout; }
    var at := FindIndex(cause.text, DEADLINE);
    if at >= 0 { return ErrTimeout; }
    if status == 429 { return ErrRateLimit; }
    if status == 401 || status == 403 { return ErrAuth; }
    if status >= 500 {
      var overloaded := HasAny(body, OVERLOADED);
      return if overloaded then ErrRateLimit else ErrServerError;
    }
    var lower := Lower(body);
    var found := HasAny(lower, TOKEN_LIMIT);
    if found { return ErrTokenLimit; }
    found := HasAny(lower, CONTENT_POLICY);
    if found { return ErrContentPolicy; }
    found := HasAny(lower, RATE_LIMIT);
    if found { return ErrRateLimit; }
    found := HasAny(lower, AUTH);
    return if found then ErrAuth else ErrUnknown;
  }

  method ClassifyFromError(err: GoError) returns (kind: ErrorKind)
    ensures kind == KindOf(err)
    ensures err.Structured? ==> kind == Classify(err.cause, err.status, err.body)
    ensures err.Plain? ==> kind == Classify(err.cause, Parse(err.cause.text).0, Parse(err.cause.text).1)
  {
    match err
    case Structured(cause, status, body) => kind := ClassifyError(cause, status, body);
    case Plain(cause) =>
      var status, body := ParseProviderErrorString(cause.text);
      kind := ClassifyError(cause, status, body);
  }

  // ---------------------------------------------------------------- which kind

  const OVERLOAD: string := "overloaded"

  lemma OverloadedPatterns(body: string)
    ensures ContainsAny(body, OVERLOADED) <==> Contains(body, OVERLOAD)
  {
    assert OVERLOADED[0] == OVERLOAD + "_error" && OVERLOADED[1] == OVERLOAD;
    if Contains(body, OVERLOAD + "_error") {
      ContainsFront(body, OVERLOAD, "_error");
    }
  }

  /** Neither the status nor a deadline has decided. */
  predicate ByBody(status: int) {
    status < 500 && status !in {401, 403, 429}
  }

  /**
   * The kind of an error, case by case. A deadline comes first; then 429 is a rate limit, 401
   * and 403 are authentication, and 5xx a server error unless the body says "overloaded", which
   * is a rate limit. For every other status the lower-case body decides, token limit before
   * content policy before rate limit before authentication.
   */
  lemma KindExactlyWhen(cause: Cause, status: int, body: string)
    ensures var kind := Classify(cause, status, body);
      var timedOut := cause.deadline || Contains(cause.text, DEADLINE);
      var b := Lower(body);
      && (kind == ErrTimeout <==> timedOut)
      && (!timedOut && status == 429 ==> kind == ErrRateLimit)
      && (!timedOut && status in {401, 403} ==> kind == ErrAuth)
      && (!timedOut && status >= 500 ==> kind == if Contains(body, OVERLOAD) then ErrRateLimit else ErrServerError)
      && (!timedOut && ByBody(status) ==>
            && (kind == ErrTokenLimit <==> ContainsAny(b, TOKEN_LIMIT))
            && (kind == ErrContentPolicy <==> ContainsAny(b, CONTENT_POLICY) && !ContainsAny(b, TOKEN_LIMIT))
            && (kind == ErrRateLimit <==> ContainsAny(b, RATE_LIMIT) && !ContainsAny(b, CONTENT_POLICY) && !ContainsAny(b, TOKEN_LIMIT))
            && (kind == ErrAuth <==> ContainsAny(b, AUTH) && !ContainsAny(b, RATE_LIMIT) && !ContainsAny(b, CONTENT_POLICY)
                                     && !ContainsAny(b, TOKEN_LIMIT))
            && (kind == ErrUnknown <==> !ContainsAny(b, AUTH) && !ContainsAny(b, RATE_LIMIT) && !ContainsAny(b, CONTENT_POLICY)
                                        && !ContainsAny(b, TOKEN_LIMIT)))
  {
    OverloadedPatterns(body);
  }

  /** The kind of a formatted error is that of its code and trimmed body. */
  lemma FormattedKind(prefix: string, code: nat, body: string, deadline: bool)
    requires !Contains(prefix, STATUS) && code < TWO63
    ensures KindOf(Plain(Cause(Format(prefix, code, body), deadline)))
            == Classify(Cause(Format(prefix, code, body), deadline), code, TrimSpace(body))
  {
    ParseUndoesFormat(prefix, code, body);
  }

  predicate SameLetter(a: char, b: char) {
    a == b || ('A' <= a <= 'Z' && b as int == a as int + 32) || ('A' <= b <= 'Z' && a as int == b as int + 32)
  }

  /** Upper and lower case make no difference, except to "overloaded" in the body of a 5xx. */
  lemma KindIgnoresCase(cause: Cause, status: int, b1: string, b2: string)
    requires |b1| == |b2| && forall k :: 0 <= k < |b1| ==> SameLetter(b1[k], b2[k])
    requires status < 500
    ensures Classify(cause, status, b1) == Classify(cause, status, b2)
  {
    assert Lower(b1) == Lower(b2);
  }

  /** There it does: an "OVERLOADED" server is a server error. */
  lemma OverloadedIsCaseSensitive(cause: Cause)
    requires !TimedOut(cause)
    ensures Classify(cause, 529, OVERLOAD) == ErrRateLimit && Classify(cause, 529, "OVERLOADED") == ErrServerError
  {
    OverloadedPatterns(OVERLOAD);
    OverloadedPatterns("OVERLOADED");
    assert OccursAt(OVERLOAD, OVERLOAD, 0);
    assert OVERLOAD[0] == 'o';
    AbsentLetter("OVERLOADED", OVERLOAD, 'o');
  }

  // ---------------------------------------------------------------- wrapping

  ghost predicate SaysNone(s: string, patterns: seq<string>) {
    forall k :: 0 <= k < |patterns| ==> !Contains(s, patterns[k])
  }

  /** A label that says nothing the classification listens to. */
  ghost predicate Neutral(lead: string) {
    && IsLabel(lead) && !Contains(lead, STATUS) && !Contains(lead, DEADLINE)
    && SaysNone(Lower(lead), TOKEN_LIMIT) && SaysNone(Lower(lead), CONTENT_POLICY)
    && SaysNone(Lower(lead), RATE_LIMIT) && SaysNone(Lower(lead), AUTH)
  }

  predicate AreWords(patterns: seq<string>) {
    forall k :: 0 <= k < |patterns| ==> IsWord(patterns[k])
  }

  lemma TokenLimitWords()
    ensures AreWords(TOKEN_LIMIT)
  {
  }

  lemma ContentPolicyWords()
    ensures AreWords(CONTENT_POLICY)
  {
  }

  lemma RateLimitWords()
    ensures AreWords(RATE_LIMIT)
  {
  }

  lemma AuthWords()
    ensures AreWords(AUTH)
  {
  }

  lemma SingleWords()
    ensures IsWord(STATUS) && IsWord(DEADLINE)
  {
  }

  lemma LowerLabel(lead: string, s: string)
    requires IsLabel(lead)
    ensures Lower(lead + s) == Lower(lead) + Lower(s) && IsLabel(Lower(lead))
  {
    var n := |lead|;
    assert lead[n - 2..][0] == ':' && lead[n - 2..][1] == ' ';
    assert Lower(lead)[n - 2] == ':' && Lower(lead)[n - 1] == ' ';
  }

  lemma AnyBehindLabel(lead: string, s: string, patterns: seq<string>)
    requires IsLabel(lead) && AreWords(patterns) && SaysNone(lead, patterns)
    ensures ContainsAny(lead + s, patterns) <==> ContainsAny(s, patterns)
  {
    forall k | 0 <= k < |patterns| ensures Contains(lead + s, patterns[k]) <==> Contains(s, patterns[k]) {
      ContainsBehindLabel(lead, s, patterns[k]);
    }
  }

  /** The message itself is only the answer when its parts are none. */
  lemma PartsOrWhole(m1: string, m2: string, after: string)
    ensures ParseAfter(m1, after) == ParseAfter(m2, after)
            || (ParseAfter(m1, after) == (0, m1) && ParseAfter(m2, after) == (0, m2))
  {
  }

  /** The wrapped text parses to the same code and body, or both texts are taken whole. */
  lemma ParseBehindLabel(lead: string, text: string)
    requires IsLabel(lead) && !Contains(lead, STATUS)
    ensures Parse(lead + text) == Parse(text) || (Parse(text) == (0, text) && Parse(lead + text) == (0, lead + text))
  {
    SingleWords();
    IndexBehindLabel(lead, text, STATUS);
    IndexSpec(text, STATUS);
    if Contains(text, STATUS) {
      var at := Index(text, STATUS);
      DropMore(lead, text, at + |STATUS|);
      ParsedFrom(text, at, text[at + |STATUS|..]);
      ParsedFrom(lead + text, |lead| + at, text[at + |STATUS|..]);
      PartsOrWhole(text, lead + text, text[at + |STATUS|..]);
    }
  }

  lemma ParsedFrom(msg: string, at: nat, after: string)
    requires Index(msg, STATUS) == at && after == msg[at + |STATUS|..]
    ensures Parse(msg) == ParseAfter(msg, after)
  {
  }

  lemma PatternsBehindLabel(lead: string, s: string)
    requires Neutral(lead)
    ensures ContainsAny(Lower(lead + s), TOKEN_LIMIT) <==> ContainsAny(Lower(s), TOKEN_LIMIT)
    ensures ContainsAny(Lower(lead + s), CONTENT_POLICY) <==> ContainsAny(Lower(s), CONTENT_POLICY)
    ensures ContainsAny(Lower(lead + s), RATE_LIMIT) <==> ContainsAny(Lower(s), RATE_LIMIT)
    ensures ContainsAny(Lower(lead + s), AUTH) <==> ContainsAny(Lower(s), AUTH)
  {
    TokenLimitWords();
    ContentPolicyWords();
    RateLimitWords();
    AuthWords();
    LowerLabel(lead, s);
    AnyBehindLabel(Lower(lead), Lower(s), TOKEN_LIMIT);
    AnyBehindLabel(Lower(lead), Lower(s), CONTENT_POLICY);
    AnyBehindLabel(Lower(lead), Lower(s), RATE_LIMIT);
    AnyBehindLabel(Lower(lead), Lower(s), AUTH);
  }

  lemma DeadlineBehindLabel(lead: string, cause: Cause)
    requires Neutral(lead)
    ensures TimedOut(cause.(text := lead + cause.text)) <==> TimedOut(cause)
  {
    SingleWords();
    ContainsBehindLabel(lead, cause.text, DEADLINE);
  }

  /** Without a status, the deadline and the patterns are all that the classification looks at. */
  lemma ClassifiedAlike(c1: Cause, b1: string, c2: Cause, b2: string)
    requires TimedOut(c1) <==> TimedOut(c2)
    requires ContainsAny(Lower(b1), TOKEN_LIMIT) <==> ContainsAny(Lower(b2), TOKEN_LIMIT)
    requires ContainsAny(Lower(b1), CONTENT_POLICY) <==> ContainsAny(Lower(b2), CONTENT_POLICY)
    requires ContainsAny(Lower(b1), RATE_LIMIT) <==> ContainsAny(Lower(b2), RATE_LIMIT)
    requires ContainsAny(Lower(b1), AUTH) <==> ContainsAny(Lower(b2), AUTH)
    ensures Classify(c1, 0, b1) == Classify(c2, 0, b2)
  {
  }

  /** An error wrapped behind a neutral label is classified as before. */
  lemma WrappingKeepsKind(lead: string, cause: Cause)
    requires Neutral(lead)
    ensures KindOf(Plain(cause.(text := lead + cause.text))) == KindOf(Plain(cause))
  {
    var wrapped := cause.(text := lead + cause.text);
    DeadlineBehindLabel(lead, cause);
    ParseBehindLabel(lead, cause.text);
    if Parse(wrapped.text) != Parse(cause.text) {
      PatternsBehindLabel(lead, cause.text);
      ClassifiedAlike(wrapped, wrapped.text, cause, cause.text);
    }
  }

  // ---------------------------------------------------------------- what gets retried

  /** The kinds DefaultRetryPolicy retries. */
  const DEFAULT_RETRYABLE: set<ErrorKind> := {ErrRateLimit, ErrServerError, ErrTimeout}

  /**
   * From the response to the retry decision: an error formatted from status `code` and
   * any body is retried by default exactly when it is a 429 or a 5xx, or mentions a
   * deadline, or (any other code but 401 and 403) its body reads as a rate limit and
   * as nothing that is tested earlier. 401 and 403 are retried for a deadline only.
   */
  lemma RetriedExactlyWhen(prefix: string, code: nat, body: string, deadline: bool)
    requires !Contains(prefix, STATUS) && code < TWO63
    ensures var text, trimmed := Format(prefix, code, body), Lower(TrimSpace(body));
      var retried := KindOf(Plain(Cause(text, deadline))) in DEFAULT_RETRYABLE;
      && (code == 429 || code >= 500 ==> retried)
      && (code == 401 || code == 403 ==> (retried <==> deadline || Contains(text, DEADLINE)))
      && (code < 500 && code !in {401, 403, 429} ==>
            (retried <==> deadline || Contains(text, DEADLINE)
                          || (ContainsAny(trimmed, RATE_LIMIT) && !ContainsAny(trimmed, TOKEN_LIMIT)
                              && !ContainsAny(trimmed, CONTENT_POLICY))))
  {
    ParseUndoesFormat(prefix, code, body);
  }

  /** A prefix that already says "status " is misread: the code is lost. */
  lemma PrefixMatters() returns (prefix: string)
    ensures Contains(prefix, STATUS)
    ensures Parse(Format(prefix, 429, "")).0 == 0
  {
    prefix := STATUS + "x" + COLON;
    var msg := Format(prefix, 429, "");
    var tail := STATUS + Decimal(429) + ": " + "";
    var after := "x" + COLON + tail;
    assert OccursAt(prefix, STATUS, 0);
    assert msg == "" + STATUS + after;
    assert msg[|STATUS|..] == after;
    IndexIs(msg, STATUS, 0);
    CharAfterFiller("x", ':', tail);
    assert after[..1] == "x";
    assert TrimSpace("x") == "x" by { TrimNothing("x"); }
    assert !IsDigit("x"[0]);
  }
}
