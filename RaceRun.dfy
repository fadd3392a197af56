/**
 * The race run endpoint (src/app/api/race/run/route.ts). The language model
 * and its tool-calling loop are outside the model: what they do is given as
 * the tool calls of each step, the sandbox's answer to every browser call,
 * and whether `generateText` finally threw. Given that, the handler's
 * behaviour is fixed: which events it writes to the stream, in which order,
 * what each tool returns to the model, and the cleanup it always runs.
 */
module RaceRun {
  import opened Wrappers
  import opened JsStrings
  import opened SandboxPool
  import opened Sanitiser
  import opened RaceEvents
  import opened EventStream
  import opened RaceReplay

  const MaxToolOutput: nat := 8000
  const TruncationMarker := "\n\n... (truncated, use scroll down + snapshot -i to see more)"
  /** How much of a command's output the `browser` event carries. */
  const PreviewLength: nat := 200
  const RaceFailed := "Race failed"

  // ------------------------------------------------------------ tool output

  /** `truncateOutput`: output over the limit keeps its first 8000 characters and gets the marker. */
  function TruncateOutput(text: string): (r: string)
    ensures |text| <= MaxToolOutput ==> r == text
    ensures |text| > MaxToolOutput ==> |r| == MaxToolOutput + |TruncationMarker|
    ensures |text| > MaxToolOutput ==> r[..MaxToolOutput] == text[..MaxToolOutput] && r[MaxToolOutput..] == TruncationMarker
  {
    if |text| <= MaxToolOutput then text
    else
      var r := text[..MaxToolOutput] + TruncationMarker;
      assert r[..MaxToolOutput] == text[..MaxToolOutput];
      r
  }

  /** Truncating twice is truncating once: the marker is never cut and repeated. */
  lemma TruncateIdempotent(text: string)
    ensures TruncateOutput(TruncateOutput(text)) == TruncateOutput(text)
  {
    var r := TruncateOutput(text);
    if |text| > MaxToolOutput {
      assert r == r[..MaxToolOutput] + r[MaxToolOutput..];
    }
  }

  /** `res.result?.slice(0, 200)`. */
  function Preview(result: Option<string>): (p: Option<string>)
    ensures p.Some? <==> result.Some?
    ensures p.Some? ==> |p.value| <= PreviewLength && |p.value| <= |result.value| && p.value == result.value[..|p.value|]
    ensures p.Some? && |result.value| <= PreviewLength ==> p.value == result.value
  {
    match result
    case None => None
    case Some(s) => Some(if |s| <= PreviewLength then s else s[..PreviewLength])
  }

  /** What the browser tool returns to the model. */
  datatype ToolOutput = ToolError(error: string) | ToolResult(result: string)

  /** The browser tool's answer for a command the sandbox ran: its error, or its (truncated) output. */
  function BrowserOutput(res: BashOutput): (o: ToolOutput)
    ensures Truthy(res.error) <==> o.ToolError?
    ensures o.ToolError? ==> o.error == res.error.value
    ensures o.ToolResult? && Truthy(res.result) ==> o.result == TruncateOutput(res.result.value)
    ensures o.ToolResult? && !Truthy(res.result) ==> o.result == NoOutput
  {
    if Truthy(res.error) then ToolError(res.error.value)
    else ToolResult(TruncateOutput(if Truthy(res.result) then res.result.value else NoOutput))
  }

  /** For a sandbox answer `executeBash` produced, the tool sees exactly one of an error or a bounded, non-empty result. */
  lemma ExecutedOutput(env: Option<string>, reply: Result<Reply, string>)
    requires ExecuteBash(env, reply).Ok?
    ensures var o := BrowserOutput(ExecuteBash(env, reply).value);
      && (o.ToolResult? <==> !Truthy(reply.value.error) && reply.value.success)
      && (o.ToolResult? ==> o.result != "" && |o.result| <= MaxToolOutput + |TruncationMarker|)
      && (o.ToolError? ==> o.error != "")
  {
    var res := Normalise(reply.value);
    if res.result.Some? {
      assert Truthy(res.result);
      assert |TruncateOutput(res.result.value)| >= 1;
    }
  }

  // ------------------------------------------------------------- the model

  /** One tool call the model made, with the sandbox's answer for a browser call. */
  datatype ToolCall =
      /** `browser`; `reply` is what `executeBash` resolved to, or the message it rejected with. */
    | BrowserCall(command: string, reply: Result<BashOutput, string>)
    | ReportCall(step_number: int, current_title: string, selected_link: string, reason: string, success: bool)

  /** A tool's outcome as `onStepFinish` and `result.steps` see it; a rejected browser call is an error. */
  datatype ToolOutcome =
    | BrowserOutcome(output: Result<ToolOutput, string>)
    | ReportOutcome(ok: bool, success: bool)

  /** What the thrown value of a failed `generateText` is. */
  datatype Thrown = ErrorObject(message: string) | OtherValue

  /** `error instanceof Error ? error.message : "Race failed"`. */
  function ErrorMessage(t: Thrown): (msg: string)
    ensures t.ErrorObject? ==> msg == t.message
    ensures t.OtherValue? ==> msg == RaceFailed
  {
    match t
    case ErrorObject(m) => m
    case OtherValue => RaceFailed
  }

  function Outcome(c: ToolCall): ToolOutcome {
    match c
    case BrowserCall(_, reply) =>
      BrowserOutcome(match reply case Ok(res) => Ok(BrowserOutput(res)) case Err(e) => Err(e))
    case ReportCall(_, _, _, _, success) => ReportOutcome(true, success)
  }

  function Outcomes(cs: seq<ToolCall>): (r: seq<ToolOutcome>)
    ensures |r| == |cs| && forall i :: 0 <= i < |cs| ==> r[i] == Outcome(cs[i])
  {
    if cs == [] then [] else Outcomes(cs[..|cs| - 1]) + [Outcome(cs[|cs| - 1])]
  }

  /** A `report_step` result with `success`; its value is taken to sit under `result`, so the guard `"result" in tr` holds. */
  predicate Succeeded(o: ToolOutcome) {
    o.ReportOutcome? && o.success
  }

  /** `step.toolResults.some(...)`. */
  predicate AnySuccess(os: seq<ToolOutcome>) {
    exists i :: 0 <= i < |os| && Succeeded(os[i])
  }

  /** `result.steps.some(...)`: some `report_step` of some step succeeded. */
  predicate HasSuccess(steps: seq<seq<ToolCall>>) {
    exists i :: 0 <= i < |steps| && AnySuccess(Outcomes(steps[i]))
  }

  // -------------------------------------------------------------- the events

  /** The events one tool call sends: a rejected sandbox call sends none. */
  function CallEvents(c: ToolCall, target: string, cardId: string): (es: seq<Event>)
    ensures |es| <= 1
  {
    match c
    case BrowserCall(command, reply) =>
      (match reply
       case Ok(res) => [Browser(Sanitise(command), Preview(res.result))]
       case Err(_) => [])
    case ReportCall(n, current, selected, reason, success) =>
      [Step(StepReport(n, current, selected, reason, success, target, cardId))]
  }

  function CallsEvents(cs: seq<ToolCall>, target: string, cardId: string): seq<Event> {
    if cs == [] then [] else CallsEvents(cs[..|cs| - 1], target, cardId) + CallEvents(cs[|cs| - 1], target, cardId)
  }

  /** `onStepFinish`: one `done(true)` per successful `report_step` result. */
  function Dones(os: seq<ToolOutcome>): (es: seq<Event>)
    ensures forall i :: 0 <= i < |es| ==> es[i] == Done(true)
    ensures es != [] <==> AnySuccess(os)
  {
    if os == [] then []
    else
      var es := Dones(os[..|os| - 1]) + (if Succeeded(os[|os| - 1]) then [Done(true)] else []);
      assert forall i :: 0 <= i < |os| - 1 ==> os[..|os| - 1][i] == os[i];
      es
  }

  /** One step of the loop: its tools' events in call order, then `onStepFinish`'s. */
  function StepEvents(cs: seq<ToolCall>, target: string, cardId: string): seq<Event> {
    CallsEvents(cs, target, cardId) + Dones(Outcomes(cs))
  }

  function StepsEvents(steps: seq<seq<ToolCall>>, target: string, cardId: string): seq<Event> {
    if steps == [] then []
    else StepsEvents(steps[..|steps| - 1], target, cardId) + StepEvents(steps[|steps| - 1], target, cardId)
  }

  /** After the loop: `error` when `generateText` threw, else `done(false)` when nothing succeeded. */
  function Terminal(steps: seq<seq<ToolCall>>, failure: Option<Thrown>): seq<Event> {
    match failure
    case Some(t) => [Error(ErrorMessage(t))]
    case None => if HasSuccess(steps) then [] else [Done(false)]
  }

  /** Everything the handler writes, in order. */
  function RunEvents(steps: seq<seq<ToolCall>>, failure: Option<Thrown>, target: string, cardId: string): seq<Event> {
    StepsEvents(steps, target, cardId) + Terminal(steps, failure)
  }

  // ------------------------------------------------------------ properties

  /** What an event written inside the loop looks like: only `browser`, `step` and `done(true)` events. */
  predicate LoopEvent(e: Event, target: string, cardId: string) {
    match e
    case Browser(command, result) =>
      Sanitise(command) == command && (result.Some? ==> |result.value| <= PreviewLength)
    case Step(s) => s.target == target && s.card_id == cardId
    case Done(success) => success
    case Error(_) => false
  }

  predicate AllLoopEvents(es: seq<Event>, target: string, cardId: string) {
    forall i :: 0 <= i < |es| ==> LoopEvent(es[i], target, cardId)
  }

  lemma LoopEventsAppend(a: seq<Event>, b: seq<Event>, target: string, cardId: string)
    requires AllLoopEvents(a, target, cardId) && AllLoopEvents(b, target, cardId)
    ensures AllLoopEvents(a + b, target, cardId)
  {
  }

  lemma CallLoopEvents(c: ToolCall, target: string, cardId: string)
    ensures AllLoopEvents(CallEvents(c, target, cardId), target, cardId)
  {
    if c.BrowserCall? && c.reply.Ok? {
      SanitiseIdempotent(c.command);
    }
  }

  lemma {:induction false} CallsLoopEvents(cs: seq<ToolCall>, target: string, cardId: string)
    ensures AllLoopEvents(CallsEvents(cs, target, cardId), target, cardId)
  {
    if cs != [] {
      hide LoopEvent;
      CallsLoopEvents(cs[..|cs| - 1], target, cardId);
      CallLoopEvents(cs[|cs| - 1], target, cardId);
      LoopEventsAppend(CallsEvents(cs[..|cs| - 1], target, cardId), CallEvents(cs[|cs| - 1], target, cardId), target, cardId);
    }
  }

  /**
   * Inside the loop the handler only writes `browser` events with a
   * sanitised command and a short preview, `step` events for this race's
   * target and card, and `done(true)`.
   */
  lemma {:induction false} StepsLoopEvents(steps: seq<seq<ToolCall>>, target: string, cardId: string)
    ensures AllLoopEvents(StepsEvents(steps, target, cardId), target, cardId)
  {
    if steps != [] {
      var cs := steps[|steps| - 1];
      assert StepsEvents(steps, target, cardId) ==
        StepsEvents(steps[..|steps| - 1], target, cardId) + StepEvents(cs, target, cardId);
      hide LoopEvent, CallsEvents, Dones, StepsEvents;
      StepsLoopEvents(steps[..|steps| - 1], target, cardId);
      CallsLoopEvents(cs, target, cardId);
      LoopEventsAppend(CallsEvents(cs, target, cardId), Dones(Outcomes(cs)), target, cardId);
      LoopEventsAppend(StepsEvents(steps[..|steps| - 1], target, cardId), StepEvents(cs, target, cardId), target, cardId);
    }
  }

  /**
   * The terminal event: a thrown error sends one `error` event, last, and
   * no `done(false)`; otherwise `done(false)` is sent, last, exactly when no
   * `report_step` succeeded. No other event is an `error`.
   */
  lemma RunTerminal(steps: seq<seq<ToolCall>>, failure: Option<Thrown>, target: string, cardId: string)
    ensures var es := RunEvents(steps, failure, target, cardId);
      && (failure.Some? ==> es != [] && es[|es| - 1] == Error(ErrorMessage(failure.value)) && Done(false) !in es)
      && (failure.None? ==> (Done(false) in es <==> !HasSuccess(steps)))
      && (failure.None? && !HasSuccess(steps) ==> es != [] && es[|es| - 1] == Done(false))
      && (forall i :: 0 <= i < |es| && es[i].Error? ==> i == |es| - 1)
  {
    StepsLoopEvents(steps, target, cardId);
  }

  /**
   * The stream does not always end in exactly one terminal event: a step with
   * two successful `report_step` results sends `done(true)` twice.
   */
  lemma RepeatedDone(c: ToolCall, target: string, cardId: string)
    requires c.ReportCall? && c.success
    ensures RunEvents([[c, c]], None, target, cardId)
      == CallEvents(c, target, cardId) + CallEvents(c, target, cardId) + [Done(true), Done(true)]
  {
    TwoReports(c, target, cardId);
    hide CallsEvents, Dones, Outcomes, CallEvents, StepEvents, StepsEvents, HasSuccess, AnySuccess, Outcome, Succeeded, ErrorMessage;
    OneStep([c, c], target, cardId);
  }

  /** A throw after a successful `report_step` sends `done(true)` and then `error`. */
  lemma DoneThenError(c: ToolCall, t: Thrown, target: string, cardId: string)
    requires c.ReportCall? && c.success
    ensures RunEvents([[c]], Some(t), target, cardId)
      == CallEvents(c, target, cardId) + [Done(true), Error(ErrorMessage(t))]
  {
    OneReport(c, target, cardId);
    hide CallsEvents, Dones, Outcomes, CallEvents, StepEvents, StepsEvents, HasSuccess, AnySuccess, Outcome, Succeeded, ErrorMessage;
    OneStep([c], target, cardId);
  }

  /** A run of a single step. */
  lemma OneStep(cs: seq<ToolCall>, target: string, cardId: string)
    ensures StepsEvents([cs], target, cardId) == StepEvents(cs, target, cardId)
    ensures HasSuccess([cs]) == AnySuccess(Outcomes(cs))
  {
    var steps := [cs];
    assert steps[..0] == [];
  }

  /** A step with one successful report. */
  lemma OneReport(c: ToolCall, target: string, cardId: string)
    requires c.ReportCall? && c.success
    ensures StepEvents([c], target, cardId) == CallEvents(c, target, cardId) + [Done(true)]
    ensures AnySuccess(Outcomes([c]))
  {
    assert [c][..0] == [];
    assert CallsEvents([c], target, cardId) == CallEvents(c, target, cardId);
    assert Outcomes([c]) == [Outcome(c)];
    assert [Outcome(c)][..0] == [];
    assert Dones([Outcome(c)]) == [Done(true)];
    assert Succeeded(Outcomes([c])[0]);
  }

  /** A step with the same successful report twice. */
  lemma TwoReports(c: ToolCall, target: string, cardId: string)
    requires c.ReportCall? && c.success
    ensures StepEvents([c, c], target, cardId)
      == CallEvents(c, target, cardId) + CallEvents(c, target, cardId) + [Done(true), Done(true)]
    ensures AnySuccess(Outcomes([c, c]))
  {
    OneReport(c, target, cardId);
    var two := [c, c];
    assert two[..1] == [c];
    assert Outcomes(two)[..1] == Outcomes([c]);
    assert Dones(Outcomes([c])) == [Done(true)];
    assert Succeeded(Outcomes(two)[1]);
  }

  /** The verdict folds over concatenated events piece by piece. */
  lemma {:induction false} VerdictAppend(v: bool, a: seq<Event>, b: seq<Event>)
    ensures Verdict(v, a + b) == Verdict(Verdict(v, a), b)
  {
    if b == [] {
      assert a + b == a;
    } else {
      var n := |b| - 1;
      VerdictAppend(v, a, b[..n]);
      assert (a + b)[..|a + b| - 1] == a + b[..n];
      assert (a + b)[|a + b| - 1] == b[n];
    }
  }

  lemma {:induction false} VerdictCalls(v: bool, cs: seq<ToolCall>, target: string, cardId: string)
    ensures Verdict(v, CallsEvents(cs, target, cardId)) == (v || AnySuccess(Outcomes(cs)))
  {
    if cs != [] {
      var n := |cs| - 1;
      VerdictCalls(v, cs[..n], target, cardId);
      VerdictAppend(v, CallsEvents(cs[..n], target, cardId), CallEvents(cs[n], target, cardId));
      AnySuccessLast(cs);
    }
  }

  lemma AnySuccessLast(cs: seq<ToolCall>)
    requires cs != []
    ensures AnySuccess(Outcomes(cs)) == (AnySuccess(Outcomes(cs[..|cs| - 1])) || Succeeded(Outcome(cs[|cs| - 1])))
  {
    hide Outcome, AnySuccess, Succeeded;
    assert Outcomes(cs) == Outcomes(cs[..|cs| - 1]) + [Outcome(cs[|cs| - 1])];
    AnySuccessAppend(Outcomes(cs[..|cs| - 1]), Outcome(cs[|cs| - 1]));
  }

  lemma AnySuccessAppend(os: seq<ToolOutcome>, o: ToolOutcome)
    ensures AnySuccess(os + [o]) == (AnySuccess(os) || Succeeded(o))
  {
    var xs := os + [o];
    if AnySuccess(xs) && !Succeeded(o) {
      var i :| 0 <= i < |xs| && Succeeded(xs[i]);
      assert xs[i] == os[i];
    }
    if AnySuccess(os) {
      var i :| 0 <= i < |os| && Succeeded(os[i]);
      assert xs[i] == os[i];
    }
    assert xs[|os|] == o;
  }

  lemma VerdictDones(v: bool, os: seq<ToolOutcome>)
    ensures Verdict(v, Dones(os)) == (v || AnySuccess(os))
  {
    var es := Dones(os);
    if es != [] {
      assert es[|es| - 1] == Done(true);
    }
  }

  lemma {:induction false} VerdictSteps(steps: seq<seq<ToolCall>>, target: string, cardId: string)
    ensures Verdict(false, StepsEvents(steps, target, cardId)) == HasSuccess(steps)
  {
    if steps != [] {
      var n := |steps| - 1;
      var cs := steps[n];
      var before := StepsEvents(steps[..n], target, cardId);
      VerdictSteps(steps[..n], target, cardId);
      hide Verdict, CallsEvents, Dones, StepsEvents;
      VerdictAppend(false, before, StepEvents(cs, target, cardId));
      VerdictAppend(HasSuccess(steps[..n]), CallsEvents(cs, target, cardId), Dones(Outcomes(cs)));
      VerdictCalls(HasSuccess(steps[..n]), cs, target, cardId);
      VerdictDones(HasSuccess(steps[..n]) || AnySuccess(Outcomes(cs)), Outcomes(cs));
      HasSuccessLast(steps);
    }
  }

  lemma HasSuccessLast(steps: seq<seq<ToolCall>>)
    requires steps != []
    ensures HasSuccess(steps) == (HasSuccess(steps[..|steps| - 1]) || AnySuccess(Outcomes(steps[|steps| - 1])))
  {
    hide AnySuccess;
    var ps := steps[..|steps| - 1];
    assert forall i :: 0 <= i < |ps| ==> ps[i] == steps[i];
    if HasSuccess(steps) && !AnySuccess(Outcomes(steps[|steps| - 1])) {
      var i :| 0 <= i < |steps| && AnySuccess(Outcomes(steps[i]));
      assert AnySuccess(Outcomes(ps[i]));
    }
  }

  /** The verdict the client folds from the run's events is whether some `report_step` succeeded, thrown error or not. */
  lemma RunVerdict(steps: seq<seq<ToolCall>>, failure: Option<Thrown>, target: string, cardId: string)
    ensures Verdict(false, RunEvents(steps, failure, target, cardId)) == HasSuccess(steps)
  {
    hide Verdict;
    VerdictSteps(steps, target, cardId);
    VerdictAppend(false, StepsEvents(steps, target, cardId), Terminal(steps, failure));
    TerminalVerdict(HasSuccess(steps), steps, failure);
  }

  lemma TerminalVerdict(v: bool, steps: seq<seq<ToolCall>>, failure: Option<Thrown>)
    requires v == HasSuccess(steps)
    ensures Verdict(v, Terminal(steps, failure)) == v
  {
  }

  /**
   * The client reading the run's stream, cut into chunks in any way, decodes
   * exactly the events the handler wrote and ends with the verdict the run
   * earned.
   */
  lemma ClientSeesRun(steps: seq<seq<ToolCall>>, failure: Option<Thrown>, target: string, cardId: string, chunks: seq<string>)
    requires Concat(chunks) == Encode(RunEvents(steps, failure, target, cardId))
    ensures StreamEvents(chunks) == RunEvents(steps, failure, target, cardId)
    ensures Verdict(false, StreamEvents(chunks)) == HasSuccess(steps)
  {
    var es := RunEvents(steps, failure, target, cardId);
    assert Concat(chunks) == Encode(es) + "";
    DecodeEncode(es, chunks, "");
    RunVerdict(steps, failure, target, cardId);
  }

  // --------------------------------------------------------------- handler

  /** One run of the handler's asynchronous block, with the stream it writes. */
  class RaceRunner {
    const sessionId: string
    const target: string
    const cardId: string
    /** Everything written to the response stream so far. */
    var written: string
    var writerClosed: bool
    /** The sessions `closeBrowserSession` was asked to close. */
    var closeRequests: seq<string>

    constructor (sessionId: string, target: string, cardId: string)
      ensures this.sessionId == sessionId && this.target == target && this.cardId == cardId
      ensures written == "" && !writerClosed && closeRequests == []
    {
      this.sessionId := sessionId;
      this.target := target;
      this.cardId := cardId;
      written := "";
      writerClosed := false;
      closeRequests := [];
    }

    /** `send`: one frame appended to the stream (a failed write is swallowed and changes nothing else). */
    method Send(e: Event)
      modifies this
      ensures written == old(written) + Frame(e)
      ensures writerClosed == old(writerClosed) && closeRequests == old(closeRequests)
    {
      written := written + Frame(e);
    }

    /** The `browser` tool's `execute`, given what `executeBash` did with the sanitised command. */
    method BrowserTool(command: string, reply: Result<BashOutput, string>, ghost before: seq<Event>) returns (outcome: ToolOutcome)
      requires written == Encode(before)
      modifies this
      ensures written == Encode(before + CallEvents(BrowserCall(command, reply), target, cardId))
      ensures outcome == Outcome(BrowserCall(command, reply))
      ensures writerClosed == old(writerClosed) && closeRequests == old(closeRequests)
    {
      hide Encode, Frame, Sanitise;
      var sanitized := Sanitise(command);
      match reply
      case Err(e) =>
        assert before + [] == before;
        outcome := BrowserOutcome(Err(e));
      case Ok(res) =>
        var e := Browser(sanitized, Preview(res.result));
        Send(e);
        EncodeAppend(before, e);
        outcome := BrowserOutcome(Ok(BrowserOutput(res)));
    }

    /** The `report_step` tool's `execute`: one `step` event, acknowledged with `{ok: true, success}`. */
    method ReportStep(n: int, current: string, selected: string, reason: string, success: bool, ghost before: seq<Event>)
      returns (outcome: ToolOutcome)
      requires written == Encode(before)
      modifies this
      ensures written == Encode(before + CallEvents(ReportCall(n, current, selected, reason, success), target, cardId))
      ensures outcome == Outcome(ReportCall(n, current, selected, reason, success))
      ensures outcome.ReportOutcome? && outcome.ok && outcome.success == success
      ensures writerClosed == old(writerClosed) && closeRequests == old(closeRequests)
    {
      hide Encode, Frame;
      var e := Step(StepReport(n, current, selected, reason, success, target, cardId));
      Send(e);
      EncodeAppend(before, e);
      outcome := ReportOutcome(true, success);
    }

    /** The tool calls of one model step, in order. */
    method RunStep(calls: seq<ToolCall>, ghost before: seq<Event>) returns (outcomes: seq<ToolOutcome>)
      requires written == Encode(before)
      modifies this
      ensures written == Encode(before + CallsEvents(calls, target, cardId))
      ensures outcomes == Outcomes(calls)
      ensures writerClosed == old(writerClosed) && closeRequests == old(closeRequests)
    {
      hide Encode, CallEvents, Outcome;
      outcomes := [];
      var j := 0;
      assert calls[..0] == [] && before + [] == before;
      while j < |calls|
        invariant 0 <= j <= |calls|
        invariant written == Encode(before + CallsEvents(calls[..j], target, cardId))
        invariant outcomes == Outcomes(calls[..j])
        invariant writerClosed == old(writerClosed) && closeRequests == old(closeRequests)
      {
        ghost var sent := before + CallsEvents(calls[..j], target, cardId);
        var outcome;
        match calls[j] {
          case BrowserCall(command, reply) =>
            outcome := BrowserTool(command, reply, sent);
          case ReportCall(n, current, selected, reason, success) =>
            outcome := ReportStep(n, current, selected, reason, success, sent);
        }
        assert calls[..j + 1][..j] == calls[..j];
        assert Outcomes(calls[..j + 1]) == Outcomes(calls[..j]) + [Outcome(calls[j])];
        outcomes := outcomes + [outcome];
        assert sent + CallEvents(calls[j], target, cardId) == before + CallsEvents(calls[..j + 1], target, cardId);
        j := j + 1;
      }
      assert calls[..j] == calls;
    }

    /** `onStepFinish`: `done(true)` for every successful `report_step` result of the step. */
    method OnStepFinish(outcomes: seq<ToolOutcome>, ghost before: seq<Event>)
      requires written == Encode(before)
      modifies this
      ensures written == Encode(before + Dones(outcomes))
      ensures writerClosed == old(writerClosed) && closeRequests == old(closeRequests)
    {
      hide Encode, Frame, Dones;
      var j := 0;
      assert outcomes[..0] == [] && before + [] == before;
      while j < |outcomes|
        invariant 0 <= j <= |outcomes|
        invariant written == Encode(before + Dones(outcomes[..j]))
        invariant writerClosed == old(writerClosed) && closeRequests == old(closeRequests)
      {
        ghost var sent := before + Dones(outcomes[..j]);
        DonesLast(outcomes[..j + 1]);
        assert outcomes[..j + 1][..j] == outcomes[..j] && outcomes[..j + 1][j] == outcomes[j];
        var tr := outcomes[j];
        if tr.ReportOutcome? && tr.success {
          Send(Done(true));
          EncodeAppend(sent, Done(true));
          assert before + Dones(outcomes[..j + 1]) == sent + [Done(true)];
        } else {
          assert before + Dones(outcomes[..j + 1]) == sent;
        }
        j := j + 1;
      }
      assert outcomes[..j] == outcomes;
    }

    /** One model step: its tool calls, then `onStepFinish` on their results. */
    method FinishedStep(calls: seq<ToolCall>, ghost before: seq<Event>) returns (outcomes: seq<ToolOutcome>)
      requires written == Encode(before)
      modifies this
      ensures written == Encode(before + StepEvents(calls, target, cardId))
      ensures outcomes == Outcomes(calls)
      ensures writerClosed == old(writerClosed) && closeRequests == old(closeRequests)
    {
      hide Encode, CallsEvents, Dones, Outcomes;
      outcomes := RunStep(calls, before);
      OnStepFinish(outcomes, before + CallsEvents(calls, target, cardId));
      assert before + CallsEvents(calls, target, cardId) + Dones(outcomes) == before + StepEvents(calls, target, cardId);
    }

    /** The model's steps, each followed by `onStepFinish`; the results are what `result.steps` reports. */
    method RunSteps(steps: seq<seq<ToolCall>>) returns (results: seq<seq<ToolOutcome>>)
      requires written == ""
      modifies this
      ensures written == Encode(StepsEvents(steps, target, cardId))
      ensures |results| == |steps| && forall k :: 0 <= k < |steps| ==> results[k] == Outcomes(steps[k])
      ensures writerClosed == old(writerClosed) && closeRequests == old(closeRequests)
    {
      assert StepsEvents(steps[..0], target, cardId) == [];
      hide Encode, Frame, StepsEvents, StepEvents, Outcomes, CallsEvents, Dones;
      NothingWritten();
      results := [];
      var i := 0;
      while i < |steps|
        invariant 0 <= i <= |steps| && |results| == i
        invariant written == Encode(StepsEvents(steps[..i], target, cardId))
        invariant forall k :: 0 <= k < i ==> results[k] == Outcomes(steps[k])
        invariant writerClosed == old(writerClosed) && closeRequests == old(closeRequests)
      {
        ghost var sent := StepsEvents(steps[..i], target, cardId);
        var outcomes := FinishedStep(steps[i], sent);
        StepsEventsLast(steps, i, target, cardId);
        ResultsExtend(steps, results, outcomes);
        results := results + [outcomes];
        i := i + 1;
      }
      assert steps[..i] == steps;
    }

    /**
     * The asynchronous block: the model's steps; then `done(false)` when
     * nothing succeeded, or the `error` event when `generateText` threw; and
     * in every case the session close request and the writer close.
     */
    method Run(steps: seq<seq<ToolCall>>, failure: Option<Thrown>)
      requires written == "" && !writerClosed && closeRequests == []
      modifies this
      ensures written == Encode(RunEvents(steps, failure, target, cardId))
      ensures writerClosed
      ensures closeRequests == [sessionId]
    {
      hide Encode, Frame, StepsEvents, Outcomes, AnySuccess, HasSuccess;
      var results := RunSteps(steps);
      ghost var loop := StepsEvents(steps, target, cardId);
      match failure {
        case Some(t) =>
          Send(Error(ErrorMessage(t)));
          EncodeAppend(loop, Error(ErrorMessage(t)));
        case None =>
          var hasSuccess := exists k | 0 <= k < |results| :: AnySuccess(results[k]);
          ResultsSuccess(steps, results);
          if !hasSuccess {
            Send(Done(false));
            EncodeAppend(loop, Done(false));
          } else {
            assert loop + [] == loop;
          }
      }
      closeRequests := closeRequests + [sessionId];
      writerClosed := true;
    }
  }

  /** `result.steps.some(...)` over the recorded results is `HasSuccess` over the calls. */
  lemma ResultsSuccess(steps: seq<seq<ToolCall>>, results: seq<seq<ToolOutcome>>)
    requires |results| == |steps| && forall k :: 0 <= k < |steps| ==> results[k] == Outcomes(steps[k])
    ensures (exists k | 0 <= k < |results| :: AnySuccess(results[k])) == HasSuccess(steps)
  {
    hide AnySuccess, Outcomes;
    if HasSuccess(steps) {
      var k :| 0 <= k < |steps| && AnySuccess(Outcomes(steps[k]));
      assert AnySuccess(results[k]);
    }
  }

  lemma NothingWritten()
    ensures Encode([]) == ""
  {
  }

  lemma DonesLast(os: seq<ToolOutcome>)
    requires os != []
    ensures Dones(os) == Dones(os[..|os| - 1]) + (if Succeeded(os[|os| - 1]) then [Done(true)] else [])
  {
  }

  lemma StepsEventsLast(steps: seq<seq<ToolCall>>, i: nat, target: string, cardId: string)
    requires i < |steps|
    ensures StepsEvents(steps[..i + 1], target, cardId) ==
      StepsEvents(steps[..i], target, cardId) + StepEvents(steps[i], target, cardId)
  {
    assert steps[..i + 1][..i] == steps[..i];
  }

  /** The results collected so far, extended by the next step's outcomes. */
  lemma ResultsExtend(steps: seq<seq<ToolCall>>, results: seq<seq<ToolOutcome>>, outcomes: seq<ToolOutcome>)
    requires |results| < |steps| && outcomes == Outcomes(steps[|results|])
    requires forall k :: 0 <= k < |results| ==> results[k] == Outcomes(steps[k])
    ensures forall k :: 0 <= k < |results| + 1 ==> (results + [outcomes])[k] == Outcomes(steps[k])
  {
  }
}
