/**
 * What one race does to the feed (src/store/feed-store.ts, `startRace`),
 * stated as functions: how each decoded event changes the cards, the steps
 * and `raceSuccess`, and the state the whole race leaves behind on every
 * path the client can take.
 */
module RaceReplay {
  import opened Wrappers
  import opened Types
  import opened RaceEvents
  import opened EventStream
  import opened CardUpdates

  /** What the race loop carries from frame to frame: the cards, the steps so far and `raceSuccess`. */
  datatype Race = Race(cards: seq<CardState>, steps: seq<StepObject>, success: bool)

  /** The handling of one decoded event for the card `id` whose race started at `start`. */
  function Dispatch(r: Race, id: string, start: string, e: Event): (d: Race)
    ensures |d.cards| == |r.cards|
  {
    match e
    case Browser(command, result) =>
      r.(cards := MapCard(r.cards, id, Log(AgentAction(command, result))))
    case Step(s) =>
      var steps := r.steps + [ToStep(s)];
      var success := if s.success then true else r.success;
      Race(MapCard(r.cards, id, Progress(ToStep(s), RunOf(id, start, steps, success))), steps, success)
    case Done(b) => r.(success := b)
    case Error(_) => r
  }

  /** The events handled one after the other. */
  function Replay(r: Race, id: string, start: string, es: seq<Event>): (d: Race)
    ensures |d.cards| == |r.cards|
  {
    if es == [] then r else Dispatch(Replay(r, id, start, es[..|es| - 1]), id, start, es[|es| - 1])
  }

  /** Replaying no events changes nothing. */
  lemma ReplayNothing(r: Race, id: string, start: string)
    ensures Replay(r, id, start, []) == r
  {
  }

  /** Handling one more complete frame: its event, when it carries one, is dispatched after the earlier ones. */
  lemma ReplayFrame(r: Race, id: string, start: string, fs: seq<string>, f: string)
    ensures Replay(r, id, start, FrameEvents(fs + [f])) ==
      match FrameEvent(f)
      case Some(e) => Dispatch(Replay(r, id, start, FrameEvents(fs)), id, start, e)
      case None => Replay(r, id, start, FrameEvents(fs))
  {
    hide Dispatch, FrameEvent;
    assert (fs + [f])[..|fs|] == fs;
    var es := FrameEvents(fs);
    if FrameEvent(f).Some? {
      assert (es + [FrameEvent(f).value])[..|es|] == es;
    }
  }

  /** The steps the `step` events report, in order. */
  function StepsOf(es: seq<Event>): (r: seq<StepObject>)
    ensures |r| <= |es|
  {
    if es == [] then []
    else StepsOf(es[..|es| - 1]) + (if es[|es| - 1].Step? then [ToStep(es[|es| - 1].step)] else [])
  }

  /** The browser actions the `browser` events report, in order. */
  function ActionsOf(es: seq<Event>): (r: seq<AgentAction>)
    ensures |r| <= |es|
  {
    if es == [] then []
    else
      var e := es[|es| - 1];
      ActionsOf(es[..|es| - 1]) + (if e.Browser? then [AgentAction(e.command, e.result)] else [])
  }

  /** The verdict as the race loop folds it: a successful step sets it, a `done` event overrides it. */
  function Verdict(initial: bool, es: seq<Event>): bool {
    if es == [] then initial
    else
      var e := es[|es| - 1];
      var before := Verdict(initial, es[..|es| - 1]);
      if e.Step? && e.step.success then true
      else if e.Done? then e.success
      else before
  }

  /** The event makes the verdict true. */
  predicate SetsSuccess(e: Event) {
    (e.Step? && e.step.success) || (e.Done? && e.success)
  }

  /** The event makes the verdict false. */
  predicate ClearsSuccess(e: Event) {
    e.Done? && !e.success
  }

  /**
   * The verdict is true exactly when some event set it and no `done(false)`
   * came after, or when it started true and no `done(false)` came at all.
   */
  lemma {:induction false} VerdictSpec(initial: bool, es: seq<Event>)
    ensures Verdict(initial, es) <==>
      (exists i :: 0 <= i < |es| && SetsSuccess(es[i]) && forall j :: i < j < |es| ==> !ClearsSuccess(es[j]))
      || (initial && forall j :: 0 <= j < |es| ==> !ClearsSuccess(es[j]))
  {
    if es != [] {
      var n := |es| - 1;
      var p := es[..n];
      VerdictSpec(initial, p);
      assert forall j :: 0 <= j < n ==> p[j] == es[j];
      if SetsSuccess(es[n]) {
        assert SetsSuccess(es[n]);
      } else if ClearsSuccess(es[n]) {
        assert !Verdict(initial, es);
        forall i | 0 <= i < |es| && SetsSuccess(es[i])
          ensures exists j :: i < j < |es| && ClearsSuccess(es[j])
        {
          assert i < n;
        }
      } else {
        assert Verdict(initial, es) == Verdict(initial, p);
        if Verdict(initial, p) {
          if i :| 0 <= i < n && SetsSuccess(p[i]) && forall j :: i < j < n ==> !ClearsSuccess(p[j]) {
            assert SetsSuccess(es[i]) && forall j :: i < j < |es| ==> !ClearsSuccess(es[j]);
          }
        } else {
          forall i | 0 <= i < |es| && SetsSuccess(es[i])
            ensures exists j :: i < j < |es| && ClearsSuccess(es[j])
          {
            assert i < n;
            assert exists j :: i < j < n && ClearsSuccess(p[j]);
          }
          if initial {
            assert exists j :: 0 <= j < n && ClearsSuccess(p[j]);
          }
        }
      }
    }
  }

  /** The steps the loop collects are exactly the steps the `step` events report. */
  lemma {:induction false} ReplaySteps(r: Race, id: string, start: string, es: seq<Event>)
    ensures Replay(r, id, start, es).steps == r.steps + StepsOf(es)
  {
    hide MapCard, RunOf;
    if es != [] {
      ReplaySteps(r, id, start, es[..|es| - 1]);
    }
  }

  /** `raceSuccess` after the loop is the verdict folded over the events. */
  lemma {:induction false} ReplayVerdict(r: Race, id: string, start: string, es: seq<Event>)
    ensures Replay(r, id, start, es).success == Verdict(r.success, es)
  {
    if es != [] {
      ReplayVerdict(r, id, start, es[..|es| - 1]);
    }
  }

  /** Handling one event touches only the cards of the race's id, and never their place, their card or their phase. */
  lemma DispatchCards(r: Race, id: string, start: string, e: Event)
    ensures |Dispatch(r, id, start, e).cards| == |r.cards|
    ensures forall k :: 0 <= k < |r.cards| ==>
      Dispatch(r, id, start, e).cards[k].card == r.cards[k].card
      && Dispatch(r, id, start, e).cards[k].phase == r.cards[k].phase
    ensures forall k :: 0 <= k < |r.cards| && r.cards[k].card.card_id != id ==>
      Dispatch(r, id, start, e).cards[k] == r.cards[k]
  {
    hide RunOf, LastN, ToStep;
  }

  /** The same for a whole sequence of events. */
  lemma {:induction false} ReplayCards(r: Race, id: string, start: string, es: seq<Event>)
    ensures |Replay(r, id, start, es).cards| == |r.cards|
    ensures forall k :: 0 <= k < |r.cards| ==>
      Replay(r, id, start, es).cards[k].card == r.cards[k].card
      && Replay(r, id, start, es).cards[k].phase == r.cards[k].phase
    ensures forall k :: 0 <= k < |r.cards| && r.cards[k].card.card_id != id ==>
      Replay(r, id, start, es).cards[k] == r.cards[k]
  {
    hide Dispatch;
    if es != [] {
      ReplayCards(r, id, start, es[..|es| - 1]);
      DispatchCards(Replay(r, id, start, es[..|es| - 1]), id, start, es[|es| - 1]);
    }
  }

  /** The card's log holds the newest browser actions of the race, at most `ActionLogSize` of them, in arrival order. */
  lemma {:induction false} ReplayLog(r: Race, id: string, start: string, es: seq<Event>, k: nat)
    requires k < |r.cards| && r.cards[k].card.card_id == id
    requires |r.cards[k].agent_actions| <= ActionLogSize
    ensures |Replay(r, id, start, es).cards| == |r.cards|
    ensures Replay(r, id, start, es).cards[k].agent_actions ==
      LastN(r.cards[k].agent_actions + ActionsOf(es), ActionLogSize)
  {
    hide RunOf, ToStep;
    var log0 := r.cards[k].agent_actions;
    if es == [] {
      assert log0 + ActionsOf(es) == log0;
    } else {
      var p := es[..|es| - 1];
      var e := es[|es| - 1];
      ReplayLog(r, id, start, p, k);
      ReplayCards(r, id, start, p);
      var before := Replay(r, id, start, p);
      assert Replay(r, id, start, es) == Dispatch(before, id, start, e);
      if e.Browser? {
        var a := AgentAction(e.command, e.result);
        assert ActionsOf(es) == ActionsOf(p) + [a];
        LastNConcat(log0 + ActionsOf(p), [a], ActionLogSize);
        assert log0 + ActionsOf(p) + [a] == log0 + ActionsOf(es);
      } else {
        assert ActionsOf(es) == ActionsOf(p);
      }
    }
  }

  /** What the network does during one race, as the client sees it. */
  datatype RaceIo =
      /** `/api/race/start` rejected, answered with an error status, or its body was not JSON. */
    | StartFailed
      /** The session started; `/api/race/run` then rejected, answered with an error status or had no body. */
    | RunFailed(session_id: string, live_view_url: string)
      /** The session started and the run streamed `chunks`; `readFails` when a read rejected after them. */
    | Streamed(session_id: string, live_view_url: string, chunks: seq<string>, readFails: bool)

  /** The cards after the asynchronous part of `startRace` for card `id` has run to its end. */
  function RaceOutcome(cards: seq<CardState>, id: string, card: WikiCard, io: RaceIo): (r: seq<CardState>)
    ensures |r| == |cards|
  {
    match io
    case StartFailed => MapCard(cards, id, Fail(id))
    case RunFailed(sid, url) => MapCard(MapCard(cards, id, Session(sid, url)), id, Fail(id))
    case Streamed(sid, url, chunks, readFails) =>
      var r := Replay(Race(MapCard(cards, id, Session(sid, url)), [], false), id, card.start_title, StreamEvents(chunks));
      if readFails then MapCard(r.cards, id, Fail(id))
      else MapCard(r.cards, id, Finish(RunOf(id, card.start_title, r.steps, r.success)))
  }

  /** A race moves the feed forward, keeps every log capped and leaves the cards of other ids alone. */
  lemma RaceOutcomeAdvances(cards: seq<CardState>, id: string, card: WikiCard, io: RaceIo)
    ensures |RaceOutcome(cards, id, card, io)| == |cards|
    ensures Advanced(cards, RaceOutcome(cards, id, card, io))
    ensures LogsCapped(cards) ==> LogsCapped(RaceOutcome(cards, id, card, io))
    ensures forall k :: 0 <= k < |cards| && cards[k].card.card_id != id ==>
      RaceOutcome(cards, id, card, io)[k] == cards[k]
  {
    hide Replay, RunOf, Apply, MapCard, StreamEvents, LogsCapped;
    match io
    case StartFailed =>
      MapCardAdvances(cards, id, Fail(id));
    case RunFailed(sid, url) =>
      var c1 := MapCard(cards, id, Session(sid, url));
      MapCardAdvances(cards, id, Session(sid, url));
      MapCardAdvances(c1, id, Fail(id));
      AdvancedTrans(cards, c1, MapCard(c1, id, Fail(id)));
    case Streamed(sid, url, chunks, readFails) =>
      var c1 := MapCard(cards, id, Session(sid, url));
      MapCardAdvances(cards, id, Session(sid, url));
      var r0 := Race(c1, [], false);
      var es := StreamEvents(chunks);
      var r := Replay(r0, id, card.start_title, es);
      ReplayCards(r0, id, card.start_title, es);
      ReplayLogsCapped(r0, id, card.start_title, es);
      var u := if readFails then Fail(id) else Finish(RunOf(id, card.start_title, r.steps, r.success));
      MapCardAdvances(r.cards, id, u);
      assert Advanced(c1, r.cards);
      AdvancedTrans(cards, c1, r.cards);
      AdvancedTrans(cards, r.cards, MapCard(r.cards, id, u));
  }

  /** Handling events keeps every log capped. */
  lemma ReplayLogsCapped(r: Race, id: string, start: string, es: seq<Event>)
    ensures LogsCapped(r.cards) ==> LogsCapped(Replay(r, id, start, es).cards)
  {
    hide Replay;
    ReplayCards(r, id, start, es);
    if LogsCapped(r.cards) {
      forall k | 0 <= k < |r.cards|
        ensures |Replay(r, id, start, es).cards[k].agent_actions| <= ActionLogSize
      {
        if r.cards[k].card.card_id == id {
          ReplayLog(r, id, start, es, k);
        }
      }
    }
  }

  /** Every failure path leaves the race's card in `result` with the canonical failed run. */
  lemma RaceFailure(cards: seq<CardState>, id: string, card: WikiCard, io: RaceIo)
    requires io.StartFailed? || io.RunFailed? || io.readFails
    ensures forall k :: 0 <= k < |cards| && cards[k].card.card_id == id ==>
      RaceOutcome(cards, id, card, io)[k].phase == Result
      && RaceOutcome(cards, id, card, io)[k].run == Some(FailedRun(id))
  {
    hide Replay, FailedRun;
    if io.Streamed? {
      var c1 := MapCard(cards, id, Session(io.session_id, io.live_view_url));
      ReplayCards(Race(c1, [], false), id, card.start_title, StreamEvents(io.chunks));
    }
  }

  /**
   * A stream read to its end leaves the race's card in `result` with the
   * session it started, the steps the stream reported, the path through
   * their links, the folded verdict and the newest browser actions.
   */
  lemma RaceFinished(cards: seq<CardState>, id: string, card: WikiCard, io: RaceIo, k: nat)
    requires io.Streamed? && !io.readFails
    requires k < |cards| && cards[k].card.card_id == id && |cards[k].agent_actions| <= ActionLogSize
    ensures |RaceOutcome(cards, id, card, io)| == |cards|
    ensures RaceOutcome(cards, id, card, io)[k].phase == Result
    ensures RaceOutcome(cards, id, card, io)[k].session_id == Some(io.session_id)
    ensures RaceOutcome(cards, id, card, io)[k].run == Some(RunOf(id, card.start_title,
      StepsOf(StreamEvents(io.chunks)), Verdict(false, StreamEvents(io.chunks))))
    ensures RaceOutcome(cards, id, card, io)[k].agent_actions ==
      LastN(cards[k].agent_actions + ActionsOf(StreamEvents(io.chunks)), ActionLogSize)
  {
    hide RunOf, LastN, ActionsOf, StepsOf, Verdict, Replay;
    var start := card.start_title;
    var es := StreamEvents(io.chunks);
    var c1 := MapCard(cards, id, Session(io.session_id, io.live_view_url));
    assert c1[k] == Apply(Session(io.session_id, io.live_view_url), cards[k]);
    var r0 := Race(c1, [], false);
    var r := Replay(r0, id, start, es);
    ReplayCards(r0, id, start, es);
    ReplaySteps(r0, id, start, es);
    ReplayVerdict(r0, id, start, es);
    ReplayLog(r0, id, start, es, k);
    ReplaySession(r0, id, start, es, k);
    assert r.steps == StepsOf(es);
    var run := RunOf(id, start, r.steps, r.success);
    assert RaceOutcome(cards, id, card, io) == MapCard(r.cards, id, Finish(run));
    assert r.cards[k].card.card_id == id;
    assert RaceOutcome(cards, id, card, io)[k] == Apply(Finish(run), r.cards[k]);
  }

  /** Handling events leaves a card's session alone. */
  lemma {:induction false} ReplaySession(r: Race, id: string, start: string, es: seq<Event>, k: nat)
    requires k < |r.cards|
    ensures |Replay(r, id, start, es).cards| == |r.cards|
    ensures Replay(r, id, start, es).cards[k].session_id == r.cards[k].session_id
  {
    hide RunOf, LastN, ToStep;
    if es != [] {
      ReplaySession(r, id, start, es[..|es| - 1], k);
      DispatchCards(Replay(r, id, start, es[..|es| - 1]), id, start, es[|es| - 1]);
    }
  }

  /**
   * End to end: when the chunks the client reads are the frames the server
   * wrote for `es`, followed by at most an unterminated tail without a line
   * break, the card's final run is made of exactly the steps of `es`, and
   * its verdict is the verdict folded over `es`.
   */
  lemma RaceOfEncodedStream(cards: seq<CardState>, id: string, card: WikiCard, sid: string, url: string,
                            es: seq<Event>, chunks: seq<string>, tail: string, k: nat)
    requires Concat(chunks) == Encode(es) + tail && '\n' !in tail
    requires k < |cards| && cards[k].card.card_id == id && |cards[k].agent_actions| <= ActionLogSize
    ensures |RaceOutcome(cards, id, card, Streamed(sid, url, chunks, false))| == |cards|
    ensures RaceOutcome(cards, id, card, Streamed(sid, url, chunks, false))[k].run ==
      Some(RunOf(id, card.start_title, StepsOf(es), Verdict(false, es)))
    ensures RaceOutcome(cards, id, card, Streamed(sid, url, chunks, false))[k].agent_actions ==
      LastN(cards[k].agent_actions + ActionsOf(es), ActionLogSize)
  {
    hide RaceOutcome, StreamEvents, Encode;
    DecodeEncode(es, chunks, tail);
    RaceFinished(cards, id, card, Streamed(sid, url, chunks, false), k);
  }
}
