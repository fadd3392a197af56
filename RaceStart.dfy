/**
 * Starting a race (src/app/api/race/start/route.ts): a browser session is
 * created, the start article is opened in it with an `agent-browser open`
 * command, and the session is answered. The article URL is the title with
 * spaces turned into underscores, percent-encoded as ECMA-262
 * `encodeURIComponent` does it: every character outside the unreserved set
 * is written as its UTF-8 bytes, each one as `%` and two upper-case hex
 * digits (section 2.1 of RFC 3986).
 */
module RaceStart {
  import opened Wrappers
  import opened Types
  import opened SandboxPool

  // ------------------------------------------------------------- the slug

  /** `title.replace(/ /g, "_")`. */
  function Slug(title: string): (r: string)
    ensures |r| == |title|
    ensures forall i :: 0 <= i < |title| ==> r[i] == if title[i] == ' ' then '_' else title[i]
    ensures ' ' !in r
  {
    if title == [] then []
    else [if title[0] == ' ' then '_' else title[0]] + Slug(title[1..])
  }

  // ------------------------------------------------------ percent-encoding

  /** The characters `encodeURIComponent` leaves alone: letters, digits and `- _ . ! ~ * ' ( )`. */
  predicate Unreserved(c: char) {
    || ('A' <= c <= 'Z') || ('a' <= c <= 'z') || ('0' <= c <= '9')
    || c == '-' || c == '_' || c == '.' || c == '!' || c == '~' || c == '*' || c == '\'' || c == '(' || c == ')'
  }

  function HexUpper(d: nat): (c: char)
    requires d < 16
    ensures IsHexUpper(c) && HexDigitValue(c) == d
  {
    if d < 10 then '0' + d as char else 'A' + (d - 10) as char
  }

  predicate IsHexUpper(c: char) {
    ('0' <= c <= '9') || ('A' <= c <= 'F')
  }

  /** The value of a hex digit of either case, as `decodeURIComponent` reads it. */
  function HexDigitValue(c: char): nat {
    if '0' <= c <= '9' then c as nat - '0' as nat
    else if 'A' <= c <= 'F' then c as nat - 'A' as nat + 10
    else if 'a' <= c <= 'f' then c as nat - 'a' as nat + 10
    else 16
  }

  /** A byte: a number below 256. */
  newtype byte = b: int | 0 <= b < 256

  /** The UTF-8 encoding of one Unicode scalar value. */
  function Utf8(c: char): (bs: seq<byte>)
    ensures 1 <= |bs| <= 4
  {
    var n := c as int;
    if n < 0x80 then [n as byte]
    else if n < 0x800 then [(0xC0 + n / 64) as byte, (0x80 + n % 64) as byte]
    else if n < 0x1_0000 then
      [(0xE0 + n / 4096) as byte, (0x80 + (n / 64) % 64) as byte, (0x80 + n % 64) as byte]
    else
      [(0xF0 + n / 262144) as byte, (0x80 + (n / 4096) % 64) as byte,
       (0x80 + (n / 64) % 64) as byte, (0x80 + n % 64) as byte]
  }

  /** `%HH` for each byte. */
  function PercentBytes(bs: seq<byte>): (r: string)
    ensures |r| == 3 * |bs|
  {
    if bs == [] then []
    else ['%', HexUpper(bs[0] as nat / 16), HexUpper(bs[0] as nat % 16)] + PercentBytes(bs[1..])
  }

  function EncodeChar(c: char): string {
    if Unreserved(c) then [c] else PercentBytes(Utf8(c))
  }

  /** `encodeURIComponent(s)`. */
  function EncodeURIComponent(s: string): (r: string)
    ensures Encoded(r)
  {
    if s == [] then []
    else
      EncodedChar(s[0]);
      EncodedAppend(EncodeChar(s[0]), EncodeURIComponent(s[1..]));
      EncodeChar(s[0]) + EncodeURIComponent(s[1..])
  }

  /** Text made only of unreserved characters and `%HH` triples with upper-case hex digits. */
  predicate Encoded(t: string)
    decreases |t|
  {
    if t == [] then true
    else if Unreserved(t[0]) then Encoded(t[1..])
    else |t| >= 3 && t[0] == '%' && IsHexUpper(t[1]) && IsHexUpper(t[2]) && Encoded(t[3..])
  }

  lemma {:induction false} EncodedAppend(a: string, b: string)
    requires Encoded(a) && Encoded(b)
    ensures Encoded(a + b)
    decreases |a|
  {
    if a == [] {
      assert a + b == b;
    } else if Unreserved(a[0]) {
      EncodedAppend(a[1..], b);
      EncodedPrepend(a, b, 1);
    } else {
      EncodedAppend(a[3..], b);
      EncodedPrepend(a, b, 3);
    }
  }

  /** Encoded text stays encoded behind the first unit of encoded text. */
  lemma EncodedPrepend(a: string, b: string, k: nat)
    requires Encoded(a) && a != [] && k == (if Unreserved(a[0]) then 1 else 3)
    requires Encoded(a[k..] + b)
    ensures Encoded(a + b)
  {
    hide Unreserved, IsHexUpper;
    var t := a + b;
    assert t[k..] == a[k..] + b;
    assert t[0] == a[0];
    if k == 3 {
      assert t[1] == a[1] && t[2] == a[2];
    }
  }

  lemma {:induction false} PercentBytesEncoded(bs: seq<byte>)
    ensures Encoded(PercentBytes(bs))
  {
    if bs != [] {
      PercentBytesEncoded(bs[1..]);
      var t := PercentBytes(bs);
      assert t[3..] == PercentBytes(bs[1..]);
    }
  }

  lemma EncodedChar(c: char)
    ensures Encoded(EncodeChar(c))
  {
    if !Unreserved(c) {
      PercentBytesEncoded(Utf8(c));
    }
  }

  /** Encoded text holds no character that would end a URL path segment or a double-quoted shell argument. */
  lemma {:induction false} EncodedIsOneSegment(t: string)
    requires Encoded(t)
    ensures '/' !in t && '?' !in t && '#' !in t && ' ' !in t && '"' !in t
    decreases |t|
  {
    if t != [] {
      if Unreserved(t[0]) {
        EncodedIsOneSegment(t[1..]);
        assert t == [t[0]] + t[1..];
      } else {
        EncodedIsOneSegment(t[3..]);
        assert t == t[..3] + t[3..];
      }
    }
  }

  // ------------------------------------------------------------- decoding

  /** `%HH` at the head of `t`: the byte it stands for. */
  function PercentByteAt(t: string): Option<byte> {
    if |t| >= 3 && t[0] == '%' && HexDigitValue(t[1]) < 16 && HexDigitValue(t[2]) < 16
    then Some((HexDigitValue(t[1]) * 16 + HexDigitValue(t[2])) as byte)
    else None
  }

  /** The bytes of `k` consecutive `%HH` triples, each a UTF-8 continuation byte. */
  function Continuations(t: string, k: nat): Option<seq<byte>>
    decreases k
  {
    if k == 0 then Some([])
    else
      match PercentByteAt(t)
      case None => None
      case Some(b) =>
        if b < 0x80 || b >= 0xC0 then None
        else
          match Continuations(t[3..], k - 1)
          case None => None
          case Some(rest) => Some([b] + rest)
  }

  /** The scalar value a UTF-8 sequence stands for, when it is a well-formed shortest encoding. */
  function ScalarOf(bs: seq<byte>): Option<char> {
    if |bs| == 1 && bs[0] < 0x80 then Some(bs[0] as char)
    else if |bs| == 2 && 0xC0 <= bs[0] < 0xE0 then
      var n := (bs[0] as int - 0xC0) * 64 + (bs[1] as int - 0x80);
      if 0x80 <= n then Some(n as char) else None
    else if |bs| == 3 && 0xE0 <= bs[0] < 0xF0 then
      var n := (bs[0] as int - 0xE0) * 4096 + (bs[1] as int - 0x80) * 64 + (bs[2] as int - 0x80);
      if 0x800 <= n && !(0xD800 <= n < 0xE000) then Some(n as char) else None
    else if |bs| == 4 && 0xF0 <= bs[0] < 0xF8 then
      var n := (bs[0] as int - 0xF0) * 262144 + (bs[1] as int - 0x80) * 4096
        + (bs[2] as int - 0x80) * 64 + (bs[3] as int - 0x80);
      if 0x1_0000 <= n < 0x11_0000 then Some(n as char) else None
    else None
  }

  /** How many bytes a UTF-8 sequence with this leading byte has, or 0 for a byte that cannot lead one. */
  function SequenceLength(b: byte): nat {
    if b < 0x80 then 1 else if b < 0xC0 then 0 else if b < 0xE0 then 2 else if b < 0xF0 then 3 else if b < 0xF8 then 4 else 0
  }

  /** The character at the head of percent-encoded text, and the length of text it took. */
  function DecodeChar(t: string): Option<(char, nat)>
    requires t != []
  {
    if t[0] != '%' then Some((t[0], 1))
    else
      match PercentByteAt(t)
      case None => None
      case Some(b0) =>
        var n := SequenceLength(b0);
        if n == 0 then None
        else
          match Continuations(t[3..], n - 1)
          case None => None
          case Some(rest) =>
            match ScalarOf([b0] + rest)
            case None => None
            case Some(c) => Some((c, 3 * n))
  }

  /**
   * `decodeURIComponent(t)`, which reverses `encodeURIComponent`: `None` is
   * the `URIError` it throws on a malformed escape or byte sequence.
   */
  function DecodeURIComponent(t: string): (r: Option<string>)
    decreases |t|
  {
    if t == [] then Some([])
    else
      match DecodeChar(t)
      case None => None
      case Some((c, k)) =>
        if k == 0 || k > |t| then None
        else
          match DecodeURIComponent(t[k..])
          case None => None
          case Some(rest) => Some([c] + rest)
  }

  lemma HexByte(b: byte)
    ensures HexDigitValue(HexUpper(b as nat / 16)) * 16 + HexDigitValue(HexUpper(b as nat % 16)) == b as int
  {
  }

  lemma PercentThenByte(b: byte, rest: string)
    ensures PercentByteAt(PercentBytes([b]) + rest) == Some(b)
  {
    HexByte(b);
    var t := PercentBytes([b]) + rest;
    assert t[..3] == ['%', HexUpper(b as nat / 16), HexUpper(b as nat % 16)];
  }

  lemma {:induction false} ContinuationsOf(bs: seq<byte>, rest: string)
    requires forall i :: 0 <= i < |bs| ==> 0x80 <= bs[i] < 0xC0
    ensures Continuations(PercentBytes(bs) + rest, |bs|) == Some(bs)
  {
    if bs != [] {
      hide PercentByteAt, HexUpper;
      var t := PercentBytes(bs) + rest;
      PercentBytesCons(bs);
      assert t == PercentBytes([bs[0]]) + (PercentBytes(bs[1..]) + rest);
      PercentThenByte(bs[0], PercentBytes(bs[1..]) + rest);
      assert t[3..] == PercentBytes(bs[1..]) + rest;
      ContinuationsOf(bs[1..], rest);
      assert [bs[0]] + bs[1..] == bs;
    }
  }

  lemma PercentBytesCons(bs: seq<byte>)
    requires bs != []
    ensures PercentBytes(bs) == PercentBytes([bs[0]]) + PercentBytes(bs[1..])
  {
    assert [bs[0]][1..] == [];
  }

  /** The UTF-8 encoding of a character decodes back to it. */
  lemma Utf8Decodes(c: char)
    ensures SequenceLength(Utf8(c)[0]) == |Utf8(c)|
    ensures forall i :: 1 <= i < |Utf8(c)| ==> 0x80 <= Utf8(c)[i] < 0xC0
    ensures ScalarOf(Utf8(c)) == Some(c)
  {
    var n := c as int;
    if n >= 0x1_0000 {
      Utf8Four(c);
    } else if n >= 0x800 {
      Utf8Three(c);
    }
  }

  lemma Utf8Three(c: char)
    requires 0x800 <= c as int < 0x1_0000
    ensures SequenceLength(Utf8(c)[0]) == 3
    ensures ScalarOf(Utf8(c)) == Some(c)
  {
    var n := c as int;
    var bs := Utf8(c);
    assert bs == [(0xE0 + n / 4096) as byte, (0x80 + (n / 64) % 64) as byte, (0x80 + n % 64) as byte];
    assert n / 4096 * 4096 + (n / 64) % 64 * 64 + n % 64 == n by {
      assert n / 64 == n / 4096 * 64 + (n / 64) % 64;
    }
  }

  lemma Utf8Four(c: char)
    requires 0x1_0000 <= c as int
    ensures SequenceLength(Utf8(c)[0]) == 4
    ensures ScalarOf(Utf8(c)) == Some(c)
  {
    var n := c as int;
    var d0, d1, d2, d3 := n / 262144, (n / 4096) % 64, (n / 64) % 64, n % 64;
    FourDigits(n);
    var bs := Utf8(c);
    assert bs == [(0xF0 + d0) as byte, (0x80 + d1) as byte, (0x80 + d2) as byte, (0x80 + d3) as byte];
    hide Utf8;
    assert bs[0] as int - 0xF0 == d0 && bs[1] as int - 0x80 == d1;
    assert bs[2] as int - 0x80 == d2 && bs[3] as int - 0x80 == d3;
  }

  /** A scalar value above the Basic Multilingual Plane as one 3-bit and three 6-bit digits. */
  lemma FourDigits(n: int)
    requires 0x1_0000 <= n < 0x11_0000
    ensures 0 <= n / 262144 < 8
    ensures 0 <= (n / 4096) % 64 < 64 && 0 <= (n / 64) % 64 < 64 && 0 <= n % 64 < 64
    ensures n / 262144 * 262144 + (n / 4096) % 64 * 4096 + (n / 64) % 64 * 64 + n % 64 == n
  {
    assert n / 4096 == n / 262144 * 64 + (n / 4096) % 64;
    assert n / 64 == n / 4096 * 64 + (n / 64) % 64;
  }

  /** A percent-encoded character decodes back to the character, consuming exactly its encoding. */
  lemma DecodeEncodedChar(c: char, rest: string)
    ensures DecodeChar(EncodeChar(c) + rest) == Some((c, |EncodeChar(c)|))
  {
    if !Unreserved(c) {
      hide Utf8, ScalarOf, DecodeChar, PercentBytes;
      Utf8Decodes(c);
      DecodePercent(Utf8(c), rest);
    }
  }

  /** A well-formed UTF-8 sequence, percent-encoded, decodes to its scalar value. */
  lemma DecodePercent(bs: seq<byte>, rest: string)
    requires |bs| >= 1 && SequenceLength(bs[0]) == |bs|
    requires forall i :: 1 <= i < |bs| ==> 0x80 <= bs[i] < 0xC0
    requires ScalarOf(bs).Some?
    ensures DecodeChar(PercentBytes(bs) + rest) == Some((ScalarOf(bs).value, 3 * |bs|))
  {
    hide ScalarOf, Continuations, PercentByteAt, SequenceLength, HexUpper;
    var t := PercentBytes(bs) + rest;
    assert PercentBytes(bs) == PercentBytes([bs[0]]) + PercentBytes(bs[1..]);
    assert t[0] == '%';
    PercentThenByte(bs[0], PercentBytes(bs[1..]) + rest);
    assert t == PercentBytes([bs[0]]) + (PercentBytes(bs[1..]) + rest);
    assert t[3..] == PercentBytes(bs[1..]) + rest;
    ContinuationsOf(bs[1..], rest);
    assert [bs[0]] + bs[1..] == bs;
  }

  /** `decodeURIComponent(encodeURIComponent(s)) == s`: the encoding loses nothing. */
  lemma {:induction false} DecodeEncode(s: string)
    ensures DecodeURIComponent(EncodeURIComponent(s)) == Some(s)
  {
    if s != [] {
      var e := EncodeChar(s[0]);
      var t := EncodeURIComponent(s);
      assert t == e + EncodeURIComponent(s[1..]);
      DecodeEncodedChar(s[0], EncodeURIComponent(s[1..]));
      assert t[|e|..] == EncodeURIComponent(s[1..]);
      DecodeEncode(s[1..]);
      assert [s[0]] + s[1..] == s;
    }
  }

  // --------------------------------------------------------- the handler

  const WikiBase := "https://en.wikipedia.org/wiki/"

  /** `https://en.wikipedia.org/wiki/${encodeURIComponent(slug)}`. */
  function ArticleUrl(title: string): string {
    WikiBase + EncodeURIComponent(Slug(title))
  }

  /** The article URL is the base followed by one path segment that decodes back to the slug, and it holds no double quote. */
  lemma ArticleUrlIsOneSegment(title: string)
    ensures |ArticleUrl(title)| >= |WikiBase| && ArticleUrl(title)[..|WikiBase|] == WikiBase
    ensures Encoded(ArticleUrl(title)[|WikiBase|..])
    ensures DecodeURIComponent(ArticleUrl(title)[|WikiBase|..]) == Some(Slug(title))
    ensures '"' !in ArticleUrl(title)
  {
    hide Encoded, DecodeURIComponent, EncodeURIComponent, Slug;
    var seg := EncodeURIComponent(Slug(title));
    DecodeEncode(Slug(title));
    EncodedIsOneSegment(seg);
    var url := ArticleUrl(title);
    assert url == WikiBase + seg;
    assert url[|WikiBase|..] == seg;
    assert url[..|WikiBase|] == WikiBase;
    assert '"' !in WikiBase;
  }

  const OpenPrefix := "agent-browser open \""

  /** `agent-browser open "<url>"`. */
  function OpenCommand(url: string): string {
    OpenPrefix + url + "\""
  }

  /** The quoted argument of the open command ends at the last character: the URL cannot close it early. */
  lemma OpenArgumentIsUrl(title: string)
    ensures var cmd := OpenCommand(ArticleUrl(title));
      && cmd[..|OpenPrefix|] == OpenPrefix
      && cmd[|OpenPrefix|..|cmd| - 1] == ArticleUrl(title)
      && cmd[|cmd| - 1] == '"'
      && forall i :: |OpenPrefix| <= i < |cmd| - 1 ==> cmd[i] != '"'
  {
    ArticleUrlIsOneSegment(title);
    hide ArticleUrl;
    OpenQuoted(ArticleUrl(title));
  }

  /** Quoting a URL without double quotes: the argument is exactly the URL. */
  lemma OpenQuoted(url: string)
    requires '"' !in url
    ensures var cmd := OpenCommand(url);
      && cmd[..|OpenPrefix|] == OpenPrefix
      && cmd[|OpenPrefix|..|cmd| - 1] == url
      && cmd[|cmd| - 1] == '"'
      && forall i :: |OpenPrefix| <= i < |cmd| - 1 ==> cmd[i] != '"'
  {
    var cmd := OpenCommand(url);
    assert cmd[|OpenPrefix|..|cmd| - 1] == url;
    forall i | |OpenPrefix| <= i < |cmd| - 1
      ensures cmd[i] != '"'
    {
      assert cmd[i] == url[i - |OpenPrefix|];
    }
  }

  /** The JSON answer of the handler. */
  datatype StartResponse =
    | Started(session_id: string, live_view_url: string)
    | StartError(status: int, error: string)

  /** A command the handler asks the sandbox to run in a session. */
  datatype SandboxCommand = SandboxCommand(session_id: string, code: string)

  /** What the handler did: the command it sent to the sandbox, if it got that far, and its answer. */
  datatype StartOutcome = StartOutcome(sent: Option<SandboxCommand>, response: StartResponse)

  /**
   * `POST /api/race/start`: the session, the open command, then the
   * session's id and live view URL; any thrown error is a 500 carrying its
   * message. The open command's own result is not looked at.
   */
  function HandleStart(card: WikiCard, env: Option<string>, sessionReply: Result<Reply, string>,
                       openReply: Result<Reply, string>): (o: StartOutcome)
    ensures o.sent.Some? <==> CreateBrowserSession(env, sessionReply).Ok?
    ensures o.sent.Some? ==>
      o.sent.value == SandboxCommand(CreateBrowserSession(env, sessionReply).value.id, OpenCommand(ArticleUrl(card.start_title)))
    ensures o.response.Started? <==>
      CreateBrowserSession(env, sessionReply).Ok? && ExecuteBash(env, openReply).Ok?
    ensures o.response.Started? ==>
      o.response.session_id == CreateBrowserSession(env, sessionReply).value.id
      && o.response.live_view_url == CreateBrowserSession(env, sessionReply).value.liveViewUrl
    ensures o.response.StartError? ==> o.response.status == 500
    ensures CreateBrowserSession(env, sessionReply).Err? ==>
      o.response == StartError(500, CreateBrowserSession(env, sessionReply).error)
    ensures CreateBrowserSession(env, sessionReply).Ok? && ExecuteBash(env, openReply).Err? ==>
      o.response == StartError(500, ExecuteBash(env, openReply).error)
  {
    match CreateBrowserSession(env, sessionReply)
    case Err(e) => StartOutcome(None, StartError(500, e))
    case Ok(session) =>
      var command := OpenCommand(ArticleUrl(card.start_title));
      match ExecuteBash(env, openReply)
      case Err(e) => StartOutcome(Some(SandboxCommand(session.id, command)), StartError(500, e))
      case Ok(_) => StartOutcome(Some(SandboxCommand(session.id, command)), Started(session.id, session.liveViewUrl))
  }

  /** A sandbox that answered the open command with an error still starts the race. */
  lemma OpenResultIgnored(card: WikiCard, env: Option<string>, sessionReply: Result<Reply, string>, a: Reply, b: Reply)
    ensures HandleStart(card, env, sessionReply, Ok(a)) == HandleStart(card, env, sessionReply, Ok(b))
  {
  }
}
