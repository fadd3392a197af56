/**
 * The race event stream: a cut-down `text/event-stream` (section 9.2 of the
 * HTML Living Standard). The server writes every event as one frame
 * `data: <JSON>` followed by a blank line (src/app/api/race/run/route.ts,
 * `send`); the client buffers what it reads, splits the buffer on "\n\n",
 * keeps the trailing partial piece for the next read, and takes the first
 * `data:` line of each complete frame (src/store/feed-store.ts). Unlike full
 * server-sent events, only "\n\n" separates frames and only one `data:` line
 * per frame is read.
 */
module EventStream {
  import opened Wrappers
  import opened JsStrings
  import opened RaceEvents

  /** The frame body the server writes for one event, without its terminating blank line. */
  function DataField(e: Event): string {
    "data: " + Serialise(e)
  }

  /** `send(e)` writes `data: ${JSON.stringify(e)}\n\n`. */
  function Frame(e: Event): string {
    DataField(e) + "\n\n"
  }

  /** Frame bodies, each followed by its blank line. */
  function Terminated(ps: seq<string>): string {
    if ps == [] then "" else ps[0] + "\n\n" + Terminated(ps[1..])
  }

  /** The frame bodies of a sequence of events. */
  function DataFields(es: seq<Event>): (r: seq<string>)
    ensures |r| == |es| && forall i :: 0 <= i < |es| ==> r[i] == DataField(es[i])
  {
    if es == [] then [] else [DataField(es[0])] + DataFields(es[1..])
  }

  /** What the server writes for a sequence of events, in order. */
  function Encode(es: seq<Event>): string {
    Terminated(DataFields(es))
  }

  lemma {:induction false} TerminatedAppend(ps: seq<string>, p: string)
    ensures Terminated(ps + [p]) == Terminated(ps) + p + "\n\n"
  {
    if ps != [] {
      TerminatedAppend(ps[1..], p);
      assert (ps + [p])[1..] == ps[1..] + [p];
    }
  }

  /** Sending one more event appends its frame. */
  lemma EncodeAppend(es: seq<Event>, e: Event)
    ensures Encode(es + [e]) == Encode(es) + Frame(e)
  {
    hide DataField, Terminated;
    assert DataFields(es + [e]) == DataFields(es) + [DataField(e)];
    TerminatedAppend(DataFields(es), DataField(e));
  }

  /** `s.split("\n\n")`: the pieces between non-overlapping separators, leftmost first. */
  function SplitFrames(s: string): (r: seq<string>)
    ensures |r| >= 1
    decreases |s|
  {
    if |s| < 2 then [s]
    else if s[0] == '\n' && s[1] == '\n' then [""] + SplitFrames(s[2..])
    else
      var rest := SplitFrames(s[1..]);
      [[s[0]] + rest[0]] + rest[1..]
  }

  /** `pieces.join("\n\n")`. */
  function JoinFrames(pieces: seq<string>): string
    requires |pieces| >= 1
  {
    if |pieces| == 1 then pieces[0] else pieces[0] + "\n\n" + JoinFrames(pieces[1..])
  }

  /** Splitting loses nothing: joining the pieces again gives the buffer back. */
  lemma {:induction false} JoinSplitFrames(s: string)
    ensures JoinFrames(SplitFrames(s)) == s
    decreases |s|
  {
    if |s| < 2 {
    } else if s[0] == '\n' && s[1] == '\n' {
      JoinSplitFrames(s[2..]);
      assert s == "\n\n" + s[2..];
    } else {
      JoinSplitFrames(s[1..]);
      var rest := SplitFrames(s[1..]);
      assert s == [s[0]] + s[1..];
      if |rest| > 1 {
        assert JoinFrames(rest) == rest[0] + "\n\n" + JoinFrames(rest[1..]);
      }
    }
  }

  /** One step of the splitter, stated for a string built by prepending one character. */
  lemma SplitFramesCons(x: char, u: string)
    ensures SplitFrames([x] + u) ==
      if x == '\n' && |u| >= 1 && u[0] == '\n' then [""] + SplitFrames(u[1..])
      else [[x] + SplitFrames(u)[0]] + SplitFrames(u)[1..]
  {
    var s := [x] + u;
    assert s[1..] == u;
    if |u| >= 1 && x == '\n' && u[0] == '\n' {
      assert s[2..] == u[1..];
    }
  }

  /** The first piece is the whole string when there is only one piece. */
  lemma {:induction false} SinglePiece(s: string)
    requires |SplitFrames(s)| == 1
    ensures SplitFrames(s)[0] == s
  {
    JoinSplitFrames(s);
  }

  /** The relation between splitting `s` and splitting `s + c`. */
  predicate AppendSplits(s: string, c: string) {
    var r := SplitFrames(s);
    SplitFrames(s + c) == r[..|r| - 1] + SplitFrames(r[|r| - 1] + c)
  }

  /**
   * Appending more input changes only the last piece: the complete frames
   * found so far stay, and the trailing partial piece is split again
   * together with the new input. This is why the client may split after
   * every read and keep only the trailing piece.
   */
  lemma {:induction false} SplitFramesAppend(s: string, c: string)
    ensures AppendSplits(s, c)
    decreases |s|
  {
    if |s| < 2 {
      assert SplitFrames(s) == [s];
    } else if s[0] == '\n' && s[1] == '\n' {
      SplitFramesAppend(s[2..], c);
      AppendAfterSeparator(s, c);
    } else {
      SplitFramesAppend(s[1..], c);
      AppendAfterChar(s, c);
    }
  }

  lemma AppendAfterSeparator(s: string, c: string)
    requires |s| >= 2 && s[0] == '\n' && s[1] == '\n'
    requires AppendSplits(s[2..], c)
    ensures AppendSplits(s, c)
  {
    var r, r' := SplitFrames(s), SplitFrames(s[2..]);
    assert r == [""] + r';
    assert (s + c)[0] == '\n' && (s + c)[1] == '\n';
    assert (s + c)[2..] == s[2..] + c;
    assert SplitFrames(s + c) == [""] + SplitFrames(s[2..] + c);
    assert r[..|r| - 1] == [""] + r'[..|r'| - 1];
  }

  lemma AppendAfterChar(s: string, c: string)
    requires |s| >= 2 && !(s[0] == '\n' && s[1] == '\n')
    requires AppendSplits(s[1..], c)
    ensures AppendSplits(s, c)
  {
    hide SplitFrames;
    var r, rest := SplitFrames(s), SplitFrames(s[1..]);
    assert s == [s[0]] + s[1..];
    SplitFramesCons(s[0], s[1..]);
    assert r == [[s[0]] + rest[0]] + rest[1..];
    assert s + c == [s[0]] + (s[1..] + c);
    SplitFramesCons(s[0], s[1..] + c);
    if |rest| == 1 {
      SinglePiece(s[1..]);
      assert [s[0]] + (rest[0] + c) == r[0] + c;
      SplitFramesCons(s[0], rest[0] + c);
    } else {
      assert r[..|r| - 1] == [[s[0]] + rest[0]] + rest[1..|rest| - 1];
    }
  }

  /** A frame body without newlines is exactly one piece, followed by the pieces after its separator. */
  lemma {:induction false} SplitAfterField(p: string, t: string)
    requires '\n' !in p
    ensures SplitFrames(p + "\n\n" + t) == [p] + SplitFrames(t)
    decreases |p|
  {
    if p == [] {
      assert p + "\n\n" + t == "\n\n" + t;
      assert ("\n\n" + t)[2..] == t;
    } else {
      SplitAfterField(p[1..], t);
      assert p + "\n\n" + t == [p[0]] + (p[1..] + "\n\n" + t);
      SplitFramesCons(p[0], p[1..] + "\n\n" + t);
      assert [p[0]] + p[1..] == p;
    }
  }

  lemma DataFieldOneLine(e: Event)
    ensures '\n' !in DataField(e)
  {
    SerialiseShape(e);
    assert DataField(e) == "data: " + Serialise(e);
  }

  /** Splitting newline-free frame bodies, each with its blank line, followed by any tail: one piece per body, then the tail's pieces. */
  lemma {:induction false} SplitTerminated(ps: seq<string>, tail: string)
    requires forall i :: 0 <= i < |ps| ==> '\n' !in ps[i]
    ensures SplitFrames(Terminated(ps) + tail) == ps + SplitFrames(tail)
  {
    hide SplitFrames;
    if ps != [] {
      var rest := Terminated(ps[1..]) + tail;
      SplitTerminated(ps[1..], tail);
      assert Terminated(ps) + tail == ps[0] + "\n\n" + rest;
      SplitAfterField(ps[0], rest);
      assert ps == [ps[0]] + ps[1..];
    } else {
      assert Terminated(ps) + tail == tail;
    }
  }

  /** `chunk.split("\n").find((l) => l.startsWith("data:"))`. */
  function DataLine(frame: string): Option<string> {
    FirstData(Split(frame, '\n'))
  }

  function FirstData(lines: seq<string>): (r: Option<string>)
    ensures r.Some? ==> r.value in lines && StartsWith(r.value, "data:")
    ensures r.None? ==> forall l :: l in lines ==> !StartsWith(l, "data:")
  {
    if lines == [] then None
    else if StartsWith(lines[0], "data:") then Some(lines[0])
    else FirstData(lines[1..])
  }

  /** The event a complete frame carries: `JSON.parse(dataLine.slice(5).trim())`, or nothing when there is no data line or it does not parse. */
  function FrameEvent(frame: string): Option<Event> {
    match DataLine(frame)
    case None => None
    case Some(line) => Parse(Trim(line[5..]))
  }

  /** The events of a sequence of complete frames, skipping the frames that carry none. */
  function FrameEvents(frames: seq<string>): seq<Event> {
    if frames == [] then []
    else
      match FrameEvent(frames[|frames| - 1])
      case Some(e) => FrameEvents(frames[..|frames| - 1]) + [e]
      case None => FrameEvents(frames[..|frames| - 1])
  }

  lemma FrameEventsAppend(a: seq<string>, b: seq<string>)
    ensures FrameEvents(a + b) == FrameEvents(a) + FrameEvents(b)
    decreases |b|
  {
    if b != [] {
      FrameEventsAppend(a, b[..|b| - 1]);
      assert (a + b)[..|a + b| - 1] == a + b[..|b| - 1];
      assert (a + b)[|a + b| - 1] == b[|b| - 1];
    } else {
      assert a + b == a;
    }
  }

  /** The complete frames of everything read: every piece but the trailing partial one. */
  function CompleteFrames(s: string): seq<string> {
    var r := SplitFrames(s);
    r[..|r| - 1]
  }

  function Concat(chunks: seq<string>): string {
    if chunks == [] then "" else Concat(chunks[..|chunks| - 1]) + chunks[|chunks| - 1]
  }

  /**
   * One more read: when the complete frames so far and the trailing piece
   * split what has been read, the trailing piece with the new chunk appended
   * splits into the rest.
   */
  lemma ReadChunk(chunks: seq<string>, i: nat, handled: seq<string>, buffer: string)
    requires i < |chunks|
    requires handled + [buffer] == SplitFrames(Concat(chunks[..i]))
    ensures var pieces := SplitFrames(buffer + chunks[i]);
      (handled + pieces[..|pieces| - 1]) + [pieces[|pieces| - 1]] == SplitFrames(Concat(chunks[..i + 1]))
  {
    assert chunks[..i + 1][..i] == chunks[..i];
    assert Concat(chunks[..i + 1]) == Concat(chunks[..i]) + chunks[i];
    SplitFramesAppend(Concat(chunks[..i]), chunks[i]);
    var r := handled + [buffer];
    assert r[..|r| - 1] == handled;
    var pieces := SplitFrames(buffer + chunks[i]);
    assert pieces[..|pieces| - 1] + [pieces[|pieces| - 1]] == pieces;
  }

  /** Before the first read nothing is buffered and no frame is complete. */
  lemma NothingRead()
    ensures [] + [""] == SplitFrames(Concat([])) && FrameEvents([]) == []
  {
  }

  /** Once every chunk is read, the complete frames are those of the whole stream. */
  lemma ReadAll(chunks: seq<string>, handled: seq<string>, buffer: string)
    requires handled + [buffer] == SplitFrames(Concat(chunks))
    ensures handled == CompleteFrames(Concat(chunks))
  {
    var r := handled + [buffer];
    assert r[..|r| - 1] == handled;
  }

  /** The events a client decodes from a stream delivered as the given chunks. */
  function StreamEvents(chunks: seq<string>): seq<Event> {
    FrameEvents(CompleteFrames(Concat(chunks)))
  }

  /** A frame the server wrote decodes to the event it was written from. */
  lemma FrameEventOfField(e: Event)
    ensures FrameEvent(DataField(e)) == Some(e)
  {
    hide Serialise, Parse;
    var f := DataField(e);
    var t := Serialise(e);
    DataFieldOneLine(e);
    SplitNoSep(f, '\n');
    assert f == "data:" + (" " + t);
    assert f[..5] == "data:" && f[5..] == " " + t;
    assert DataLine(f) == Some(f);
    SerialiseShape(e);
    TrimPrefixedSpace(t);
    RoundTrip(e);
  }

  lemma TrimPrefixedSpace(t: string)
    requires |t| >= 2 && t[0] == '{' && t[|t| - 1] == '}'
    ensures Trim(" " + t) == t
  {
    assert (" " + t)[1..] == t;
    assert TrimStart(" " + t) == TrimStart(t);
    TrimUnpadded(t);
  }

  /** Frames that each carry an event decode to those events, in order. */
  lemma {:induction false} FrameEventsOf(ps: seq<string>, es: seq<Event>)
    requires |ps| == |es|
    requires forall i :: 0 <= i < |ps| ==> FrameEvent(ps[i]) == Some(es[i])
    ensures FrameEvents(ps) == es
    decreases |ps|
  {
    hide FrameEvent;
    if ps != [] {
      var n := |ps| - 1;
      FrameEventsOf(ps[..n], es[..n]);
      assert es[..n] + [es[n]] == es;
    }
  }

  /**
   * Decoding what the server wrote gives back the events in emission order,
   * however the bytes were cut into chunks on the way; an unterminated tail
   * without a newline contributes nothing.
   */
  lemma DecodeEncode(es: seq<Event>, chunks: seq<string>, tail: string)
    requires Concat(chunks) == Encode(es) + tail
    requires '\n' !in tail
    ensures StreamEvents(chunks) == es
  {
    var ps := DataFields(es);
    forall i | 0 <= i < |ps| ensures '\n' !in ps[i] && FrameEvent(ps[i]) == Some(es[i]) {
      DataFieldOneLine(es[i]);
      FrameEventOfField(es[i]);
    }
    SplitTerminated(ps, tail);
    SplitNoNewline(tail);
    assert CompleteFrames(Concat(chunks)) == ps;
    FrameEventsOf(ps, es);
  }

  lemma SplitNoNewline(t: string)
    requires '\n' !in t
    ensures SplitFrames(t) == [t]
    decreases |t|
  {
    if |t| >= 2 {
      SplitNoNewline(t[1..]);
      assert t == [t[0]] + t[1..];
    }
  }
}
