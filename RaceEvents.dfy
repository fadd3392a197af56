/**
 * The four payloads of the race event stream and their JSON text.
 *
 * The server builds each payload as an object literal and sends
 * `JSON.stringify` of it (src/app/api/race/run/route.ts); the client reads it
 * back with `JSON.parse` (src/store/feed-store.ts). `Serialise` writes the
 * text `JSON.stringify` produces for these objects (keys in literal order,
 * absent optional fields omitted, strings escaped as JSON requires) and
 * `Parse` reads exactly that canonical text back. Two facts about it carry
 * the stream format: the text never contains a raw newline, and parsing
 * undoes serialising.
 */
module RaceEvents {
  import opened Wrappers
  import opened JsStrings

  /** The `step` object the `report_step` tool sends: the model's input plus the target and the card. */
  datatype StepReport = StepReport(
    step_number: int,
    current_title: string,
    selected_link: string,
    reason: string,
    success: bool,
    target: string,
    card_id: string)

  /** `{type: "browser" | "step" | "done" | "error", ...}`. */
  datatype Event =
    | Browser(command: string, result: Option<string>)
    | Step(step: StepReport)
    | Done(success: bool)
    | Error(error: string)

  // ---------------------------------------------------------------- strings

  function HexDigit(d: nat): char
    requires d < 16
  {
    if d < 10 then '0' + d as char else 'a' + (d - 10) as char
  }

  function HexValue(c: char): Option<nat> {
    if '0' <= c <= '9' then Some(c as nat - '0' as nat)
    else if 'a' <= c <= 'f' then Some(c as nat - 'a' as nat + 10)
    else if 'A' <= c <= 'F' then Some(c as nat - 'A' as nat + 10)
    else None
  }

  /** How `JSON.stringify` writes one character inside a string literal. */
  function EscapeChar(c: char): (r: string)
    ensures |r| >= 1 && '\n' !in r
  {
    if c == '"' then "\\\""
    else if c == '\\' then "\\\\"
    else if c == '\n' then "\\n"
    else if c == '\r' then "\\r"
    else if c == '\t' then "\\t"
    else if c == '\U{0008}' then "\\b"
    else if c == '\U{000C}' then "\\f"
    else if c < ' ' then "\\u00" + [HexDigit(c as nat / 16), HexDigit(c as nat % 16)]
    else [c]
  }

  function Escape(s: string): (r: string)
    ensures '\n' !in r
  {
    if s == [] then [] else EscapeChar(s[0]) + Escape(s[1..])
  }

  /** A JSON string literal. */
  function Quote(s: string): (r: string)
    ensures '\n' !in r
  {
    "\"" + Escape(s) + "\""
  }

  /** Decodes the escape sequence at the head of `t` (which starts with a backslash): the character and the length read. */
  function Unescape(t: string): Option<(char, nat)>
    requires |t| >= 1 && t[0] == '\\'
  {
    if |t| < 2 then None
    else if t[1] == '"' then Some(('"', 2))
    else if t[1] == '\\' then Some(('\\', 2))
    else if t[1] == '/' then Some(('/', 2))
    else if t[1] == 'n' then Some(('\n', 2))
    else if t[1] == 'r' then Some(('\r', 2))
    else if t[1] == 't' then Some(('\t', 2))
    else if t[1] == 'b' then Some(('\U{0008}', 2))
    else if t[1] == 'f' then Some(('\U{000C}', 2))
    else if t[1] == 'u' && |t| >= 6 then
      match (HexValue(t[2]), HexValue(t[3]), HexValue(t[4]), HexValue(t[5]))
      case (Some(a), Some(b), Some(c), Some(d)) =>
        var code := ((a * 16 + b) * 16 + c) * 16 + d;
        if code < 0xD800 || 0xE000 <= code then Some((code as char, 6)) else None
      case _ => None
    else None
  }

  /** Reads the body of a string literal up to its closing quote: the decoded string and what follows the quote. */
  function ParseStringBody(t: string): Option<(string, string)>
    decreases |t|
  {
    if |t| == 0 then None
    else if t[0] == '"' then Some(("", t[1..]))
    else if t[0] == '\\' then
      match Unescape(t)
      case Some((c, n)) =>
        (match ParseStringBody(t[n..])
         case Some((s, rest)) => Some(([c] + s, rest))
         case None => None)
      case None => None
    else if t[0] < ' ' then None
    else
      match ParseStringBody(t[1..])
      case Some((s, rest)) => Some(([t[0]] + s, rest))
      case None => None
  }

  function ParseString(t: string): Option<(string, string)> {
    if |t| > 0 && t[0] == '"' then ParseStringBody(t[1..]) else None
  }

  lemma EscapeCharThenParse(c: char, u: string)
    ensures ParseStringBody(EscapeChar(c) + u) ==
      match ParseStringBody(u)
      case Some((s, rest)) => Some(([c] + s, rest))
      case None => None
  {
    var e := EscapeChar(c);
    var t := e + u;
    if c == '"' || c == '\\' || c == '\n' || c == '\r' || c == '\t' || c == '\U{0008}' || c == '\U{000C}' {
      assert t[0] == '\\' && Unescape(t) == Some((c, 2));
      assert t[2..] == u;
    } else if c < ' ' {
      var hi, lo := c as nat / 16, c as nat % 16;
      assert t[0] == '\\' && t[1] == 'u' && t[2] == '0' && t[3] == '0';
      assert t[4] == HexDigit(hi) && t[5] == HexDigit(lo);
      assert HexValue(t[4]) == Some(hi) && HexValue(t[5]) == Some(lo);
      assert Unescape(t) == Some((c, 6));
      assert t[6..] == u;
    } else {
      assert t[1..] == u;
    }
  }

  /** A string literal reads back as the string it was written from. */
  lemma {:induction false} QuoteThenParse(s: string, rest: string)
    ensures ParseString(Quote(s) + rest) == Some((s, rest))
  {
    QuoteBody(s, rest);
    assert (Quote(s) + rest)[1..] == Escape(s) + ("\"" + rest);
  }

  lemma {:induction false} QuoteBody(s: string, rest: string)
    ensures ParseStringBody(Escape(s) + ("\"" + rest)) == Some((s, rest))
  {
    if s == [] {
      assert Escape(s) + ("\"" + rest) == "\"" + rest;
      assert ("\"" + rest)[1..] == rest;
    } else {
      QuoteBody(s[1..], rest);
      QuoteBodyStep(s[0], s[1..], "\"" + rest, rest);
      assert [s[0]] + s[1..] == s;
    }
  }

  /** One character more in front of an escaped string that already reads back. */
  lemma QuoteBodyStep(c: char, s: string, closing: string, rest: string)
    requires ParseStringBody(Escape(s) + closing) == Some((s, rest))
    ensures ParseStringBody(Escape([c] + s) + closing) == Some(([c] + s, rest))
  {
    hide ParseStringBody, EscapeChar;
    assert ([c] + s)[1..] == s;
    assert Escape([c] + s) + closing == EscapeChar(c) + (Escape(s) + closing);
    EscapeCharThenParse(c, Escape(s) + closing);
  }

  // ---------------------------------------------------------------- numbers

  predicate IsDigit(c: char) {
    '0' <= c <= '9'
  }

  /** Decimal digits of a natural number, most significant first, without leading zeros. */
  function NatText(n: nat): (r: string)
    ensures |r| >= 1 && forall i :: 0 <= i < |r| ==> IsDigit(r[i])
    decreases n
  {
    if n < 10 then ['0' + n as char] else NatText(n / 10) + ['0' + (n % 10) as char]
  }

  function DigitValue(c: char): nat
    requires IsDigit(c)
  {
    c as nat - '0' as nat
  }

  /** The value of a string of decimal digits. */
  function DigitsValue(ds: string): nat
    requires forall i :: 0 <= i < |ds| ==> IsDigit(ds[i])
  {
    if ds == [] then 0 else DigitsValue(ds[..|ds| - 1]) * 10 + DigitValue(ds[|ds| - 1])
  }

  lemma {:induction false} NatTextValue(n: nat)
    ensures DigitsValue(NatText(n)) == n
    decreases n
  {
    if n >= 10 {
      NatTextValue(n / 10);
      var r := NatText(n);
      assert r[..|r| - 1] == NatText(n / 10);
    }
  }

  /** The number of leading digits of `t`. */
  function DigitSpan(t: string): (k: nat)
    ensures k <= |t| && forall i :: 0 <= i < k ==> IsDigit(t[i])
    ensures k < |t| ==> !IsDigit(t[k])
  {
    if |t| > 0 && IsDigit(t[0]) then 1 + DigitSpan(t[1..]) else 0
  }

  lemma {:induction false} DigitSpanOfDigits(ds: string, rest: string)
    requires forall i :: 0 <= i < |ds| ==> IsDigit(ds[i])
    requires rest == [] || !IsDigit(rest[0])
    ensures DigitSpan(ds + rest) == |ds|
  {
    if ds != [] {
      DigitSpanOfDigits(ds[1..], rest);
      assert (ds + rest)[1..] == ds[1..] + rest;
    }
  }

  /** `JSON.stringify` of an integer. */
  function IntText(n: int): (r: string)
    ensures '\n' !in r
  {
    if n < 0 then "-" + NatText(-n) else NatText(n)
  }

  function ParseNat(t: string): Option<(nat, string)> {
    var k := DigitSpan(t);
    if k == 0 then None else Some((DigitsValue(t[..k]), t[k..]))
  }

  function ParseInt(t: string): Option<(int, string)> {
    if |t| > 0 && t[0] == '-' then
      match ParseNat(t[1..])
      case Some((n, rest)) => Some((-(n as int), rest))
      case None => None
    else ParseNat(t)
  }

  lemma NatTextThenParse(n: nat, rest: string)
    requires rest == [] || !IsDigit(rest[0])
    ensures ParseNat(NatText(n) + rest) == Some((n, rest))
  {
    var ds := NatText(n);
    DigitSpanOfDigits(ds, rest);
    assert (ds + rest)[..|ds|] == ds;
    assert (ds + rest)[|ds|..] == rest;
    NatTextValue(n);
  }

  lemma IntTextThenParse(n: int, rest: string)
    requires rest == [] || !IsDigit(rest[0])
    ensures ParseInt(IntText(n) + rest) == Some((n, rest))
  {
    if n < 0 {
      NegativeThenParse(-n, rest);
    } else {
      NatTextThenParse(n, rest);
      var t := NatText(n) + rest;
      assert t[0] == NatText(n)[0];
      assert t[0] != '-';
    }
  }

  lemma NegativeThenParse(m: nat, rest: string)
    requires rest == [] || !IsDigit(rest[0])
    requires m > 0
    ensures ParseInt(IntText(-(m as int)) + rest) == Some((-(m as int), rest))
  {
    hide ParseNat, NatText;
    var t := IntText(-(m as int)) + rest;
    NatTextThenParse(m, rest);
    assert t == "-" + (NatText(m) + rest);
    assert t[0] == '-' && t[1..] == NatText(m) + rest;
  }

  // ---------------------------------------------------------------- booleans and literals

  function BoolText(b: bool): string {
    if b then "true" else "false"
  }

  function ParseBool(t: string): Option<(bool, string)> {
    if StartsWith(t, "true") then Some((true, t[4..]))
    else if StartsWith(t, "false") then Some((false, t[5..]))
    else None
  }

  lemma BoolTextThenParse(b: bool, rest: string)
    ensures ParseBool(BoolText(b) + rest) == Some((b, rest))
  {
    assert (BoolText(b) + rest)[0] == BoolText(b)[0];
    assert (BoolText(b) + rest)[..|BoolText(b)|] == BoolText(b);
    assert (BoolText(b) + rest)[|BoolText(b)|..] == rest;
  }

  /** Consumes the literal text `lit` at the head of `t`. */
  function Lit(lit: string, t: string): Option<string> {
    if StartsWith(t, lit) then Some(t[|lit|..]) else None
  }

  lemma LitThenRest(lit: string, rest: string)
    ensures Lit(lit, lit + rest) == Some(rest)
  {
    assert (lit + rest)[..|lit|] == lit;
    assert (lit + rest)[|lit|..] == rest;
  }

  // ---------------------------------------------------------------- events

  const BrowserHead := "{\"type\":\"browser\",\"command\":"
  const ResultKey := ",\"result\":"
  const StepHead := "{\"type\":\"step\",\"step\":{\"step_number\":"
  const CurrentTitleKey := ",\"current_title\":"
  const SelectedLinkKey := ",\"selected_link\":"
  const ReasonKey := ",\"reason\":"
  const SuccessKey := ",\"success\":"
  const TargetKey := ",\"target\":"
  const CardIdKey := ",\"card_id\":"
  const DoneHead := "{\"type\":\"done\",\"success\":"
  const ErrorHead := "{\"type\":\"error\",\"error\":"

  /** `JSON.stringify` of the step object. */
  function StepText(s: StepReport): string {
    StepHead + (IntText(s.step_number) + (CurrentTitleKey + (Quote(s.current_title) +
    (SelectedLinkKey + (Quote(s.selected_link) + (ReasonKey + (Quote(s.reason) +
    (SuccessKey + (BoolText(s.success) + (TargetKey + (Quote(s.target) +
    (CardIdKey + (Quote(s.card_id) + "}}")))))))))))))
  }

  /** `JSON.stringify` of an event. */
  function Serialise(e: Event): string {
    match e
    case Browser(command, None) => BrowserHead + (Quote(command) + "}")
    case Browser(command, Some(result)) => BrowserHead + (Quote(command) + (ResultKey + (Quote(result) + "}")))
    case Step(s) => StepText(s)
    case Done(b) => DoneHead + (BoolText(b) + "}")
    case Error(msg) => ErrorHead + (Quote(msg) + "}")
  }

  lemma BrowserHeadOneLine()
    ensures '\n' !in BrowserHead
  {
  }

  lemma ResultKeyOneLine()
    ensures '\n' !in ResultKey
  {
  }

  lemma StepHeadOneLine()
    ensures '\n' !in StepHead
  {
  }

  lemma CurrentTitleKeyOneLine()
    ensures '\n' !in CurrentTitleKey
  {
  }

  lemma SelectedLinkKeyOneLine()
    ensures '\n' !in SelectedLinkKey
  {
  }

  lemma ReasonKeyOneLine()
    ensures '\n' !in ReasonKey
  {
  }

  lemma SuccessKeyOneLine()
    ensures '\n' !in SuccessKey
  {
  }

  lemma TargetKeyOneLine()
    ensures '\n' !in TargetKey
  {
  }

  lemma CardIdKeyOneLine()
    ensures '\n' !in CardIdKey
  {
  }

  lemma DoneHeadOneLine()
    ensures '\n' !in DoneHead
  {
  }

  lemma ErrorHeadOneLine()
    ensures '\n' !in ErrorHead
  {
  }

  lemma BoolTextOneLine(b: bool)
    ensures '\n' !in BoolText(b)
  {
  }

  lemma StepTextOneLine(s: StepReport)
    ensures '\n' !in StepText(s)
  {
    StepHeadOneLine(); CurrentTitleKeyOneLine(); SelectedLinkKeyOneLine(); ReasonKeyOneLine();
    SuccessKeyOneLine(); TargetKeyOneLine(); CardIdKeyOneLine();
    BoolTextOneLine(s.success);
    var r13 := Quote(s.card_id) + "}}";
    var r12 := CardIdKey + r13;
    var r11 := Quote(s.target) + r12;
    var r10 := TargetKey + r11;
    var r9 := BoolText(s.success) + r10;
    var r8 := SuccessKey + r9;
    var r7 := Quote(s.reason) + r8;
    var r6 := ReasonKey + r7;
    var r5 := Quote(s.selected_link) + r6;
    var r4 := SelectedLinkKey + r5;
    var r3 := Quote(s.current_title) + r4;
    var r2 := CurrentTitleKey + r3;
    var r1 := IntText(s.step_number) + r2;
    assert '\n' !in r13;
    assert '\n' !in r9;
    assert '\n' !in r5;
    assert '\n' !in r1;
  }

  /**
   * The serialised text is one line that opens with `{` and closes with `}`:
   * it has no raw newline, so it cannot end a frame or a line early, and it
   * has no surrounding whitespace, so trimming leaves it as it is.
   */
  lemma SerialiseShape(e: Event)
    ensures var t := Serialise(e); |t| >= 2 && t[0] == '{' && t[|t| - 1] == '}'
    ensures '\n' !in Serialise(e)
  {
    match e
    case Browser(_, None) => BrowserHeadOneLine();
    case Browser(_, Some(_)) => BrowserHeadOneLine(); ResultKeyOneLine();
    case Step(s) => StepTextOneLine(s);
    case Done(b) => DoneHeadOneLine(); BoolTextOneLine(b);
    case Error(_) => ErrorHeadOneLine();
  }

  function ParseStep(t: string): Option<StepReport> {
    match Lit(StepHead, t)
    case None => None
    case Some(t1) =>
    match ParseInt(t1)
    case None => None
    case Some((n, t2)) =>
    match Lit(CurrentTitleKey, t2)
    case None => None
    case Some(t3) =>
    match ParseString(t3)
    case None => None
    case Some((current, t4)) =>
    match Lit(SelectedLinkKey, t4)
    case None => None
    case Some(t5) =>
    match ParseString(t5)
    case None => None
    case Some((link, t6)) =>
    match Lit(ReasonKey, t6)
    case None => None
    case Some(t7) =>
    match ParseString(t7)
    case None => None
    case Some((reason, t8)) =>
    match Lit(SuccessKey, t8)
    case None => None
    case Some(t9) =>
    match ParseBool(t9)
    case None => None
    case Some((ok, t10)) =>
    match Lit(TargetKey, t10)
    case None => None
    case Some(t11) =>
    match ParseString(t11)
    case None => None
    case Some((target, t12)) =>
    match Lit(CardIdKey, t12)
    case None => None
    case Some(t13) =>
    match ParseString(t13)
    case None => None
    case Some((card, t14)) =>
    if t14 == "}}" then Some(StepReport(n, current, link, reason, ok, target, card)) else None
  }

  function ParseBrowser(t: string): Option<Event> {
    match Lit(BrowserHead, t)
    case None => None
    case Some(t1) =>
    match ParseString(t1)
    case None => None
    case Some((command, t2)) =>
    if t2 == "}" then Some(Browser(command, None))
    else
      match Lit(ResultKey, t2)
      case None => None
      case Some(t3) =>
      match ParseString(t3)
      case None => None
      case Some((result, t4)) =>
      if t4 == "}" then Some(Browser(command, Some(result))) else None
  }

  function ParseDone(t: string): Option<Event> {
    match Lit(DoneHead, t)
    case None => None
    case Some(t1) =>
    match ParseBool(t1)
    case None => None
    case Some((b, t2)) => if t2 == "}" then Some(Done(b)) else None
  }

  function ParseError(t: string): Option<Event> {
    match Lit(ErrorHead, t)
    case None => None
    case Some(t1) =>
    match ParseString(t1)
    case None => None
    case Some((msg, t2)) => if t2 == "}" then Some(Error(msg)) else None
  }

  /** `JSON.parse` of a payload, for the canonical text of the four event shapes; anything else is unparsable. */
  function Parse(t: string): Option<Event> {
    if StartsWith(t, BrowserHead) then ParseBrowser(t)
    else if StartsWith(t, StepHead) then
      (match ParseStep(t) case Some(s) => Some(Step(s)) case None => None)
    else if StartsWith(t, DoneHead) then ParseDone(t)
    else if StartsWith(t, ErrorHead) then ParseError(t)
    else None
  }

  lemma StepRoundTrip(s: StepReport)
    ensures ParseStep(StepText(s)) == Some(s)
  {
    hide Lit, ParseString, ParseInt, ParseBool, Quote, IntText, BoolText;
    var r13 := Quote(s.card_id) + "}}";
    var r12 := CardIdKey + r13;
    var r11 := Quote(s.target) + r12;
    var r10 := TargetKey + r11;
    var r9 := BoolText(s.success) + r10;
    var r8 := SuccessKey + r9;
    var r7 := Quote(s.reason) + r8;
    var r6 := ReasonKey + r7;
    var r5 := Quote(s.selected_link) + r6;
    var r4 := SelectedLinkKey + r5;
    var r3 := Quote(s.current_title) + r4;
    var r2 := CurrentTitleKey + r3;
    var r1 := IntText(s.step_number) + r2;
    assert StepText(s) == StepHead + r1;
    LitThenRest(StepHead, r1);
    IntTextThenParse(s.step_number, r2);
    LitThenRest(CurrentTitleKey, r3);
    QuoteThenParse(s.current_title, r4);
    LitThenRest(SelectedLinkKey, r5);
    QuoteThenParse(s.selected_link, r6);
    LitThenRest(ReasonKey, r7);
    QuoteThenParse(s.reason, r8);
    LitThenRest(SuccessKey, r9);
    BoolTextThenParse(s.success, r10);
    LitThenRest(TargetKey, r11);
    QuoteThenParse(s.target, r12);
    LitThenRest(CardIdKey, r13);
    QuoteThenParse(s.card_id, "}}");
  }

  lemma BrowserRoundTrip(command: string, result: Option<string>)
    ensures ParseBrowser(Serialise(Browser(command, result))) == Some(Browser(command, result))
  {
    match result
    case None =>
      LitThenRest(BrowserHead, Quote(command) + "}");
      QuoteThenParse(command, "}");
    case Some(r) =>
      var tail := ResultKey + (Quote(r) + "}");
      LitThenRest(BrowserHead, Quote(command) + tail);
      QuoteThenParse(command, tail);
      LitThenRest(ResultKey, Quote(r) + "}");
      QuoteThenParse(r, "}");
  }

  /** Which of the four heads a text starts with is decided by its tenth character. */
  lemma HeadsDiffer(t: string)
    ensures StartsWith(t, StepHead) ==> !StartsWith(t, BrowserHead)
    ensures StartsWith(t, DoneHead) ==> !StartsWith(t, BrowserHead) && !StartsWith(t, StepHead)
    ensures StartsWith(t, ErrorHead) ==> !StartsWith(t, BrowserHead) && !StartsWith(t, StepHead) && !StartsWith(t, DoneHead)
  {
    if StartsWith(t, StepHead) { assert t[9] == StepHead[9] == 's'; }
    if StartsWith(t, DoneHead) { assert t[9] == DoneHead[9] == 'd'; }
    if StartsWith(t, ErrorHead) { assert t[9] == ErrorHead[9] == 'e'; }
  }

  /** Parsing undoes serialising, for every event. */
  lemma {:induction false} RoundTrip(e: Event)
    ensures Parse(Serialise(e)) == Some(e)
  {
    var t := Serialise(e);
    HeadsDiffer(t);
    match e
    case Browser(command, result) =>
      BrowserRoundTrip(command, result);
      if result.None? {
        assert t == BrowserHead + (Quote(command) + "}");
      } else {
        assert t == BrowserHead + (Quote(command) + (ResultKey + (Quote(result.value) + "}")));
      }
      assert StartsWith(t, BrowserHead);
    case Step(s) =>
      StepRoundTrip(s);
      assert StartsWith(t, StepHead);
    case Done(b) =>
      LitThenRest(DoneHead, BoolText(b) + "}");
      BoolTextThenParse(b, "}");
      assert StartsWith(t, DoneHead);
    case Error(msg) =>
      LitThenRest(ErrorHead, Quote(msg) + "}");
      QuoteThenParse(msg, "}");
      assert StartsWith(t, ErrorHead);
  }
}
