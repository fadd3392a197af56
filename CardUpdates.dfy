/**
 * The per-card updaters of the client store (src/store/feed-store.ts). The
 * store never edits a card in place: every change is
 * `cards.map((c) => c.card.card_id === id ? updater(c) : c)`, with one of a
 * handful of updaters. They are listed here as the `CardUpdate` datatype.
 */
module CardUpdates {
  import opened Wrappers
  import opened Types
  import opened RaceEvents

  /** The number of browser actions a card keeps (`slice(-20)`). */
  const ActionLogSize: nat := 20

  /** `s.slice(-n)` for a positive `n`: the last `n` entries, or all of them when there are fewer. */
  function LastN<T>(s: seq<T>, n: nat): (r: seq<T>)
    ensures |r| <= n && |r| <= |s|
    ensures |s| <= n ==> r == s
    ensures r == s[|s| - |r|..]
  {
    if |s| <= n then s else s[|s| - n..]
  }

  /** Capping after every append keeps the same entries as capping once at the end: the newest ones, in arrival order. */
  lemma LastNConcat<T>(x: seq<T>, y: seq<T>, n: nat)
    ensures LastN(LastN(x, n) + y, n) == LastN(x + y, n)
  {
    var c := LastN(x, n);
    assert c + y == (x + y)[|x| - |c|..];
    var k := |LastN(x + y, n)|;
    assert |LastN(c + y, n)| == k;
  }

  /** The selected link of every step, in order. */
  function Titles(steps: seq<StepObject>): (r: seq<string>)
    ensures |r| == |steps|
    ensures forall i :: 0 <= i < |steps| ==> r[i] == steps[i].selected_link_text
  {
    if steps == [] then [] else Titles(steps[..|steps| - 1]) + [steps[|steps| - 1].selected_link_text]
  }

  /** The run a card shows after the given steps: `path_titles` is the start title followed by every selected link. */
  function RunOf(id: string, start: string, steps: seq<StepObject>, success: bool): RunResult {
    RunResult(id, success, steps, [start] + Titles(steps), |steps|)
  }

  /** A run built from steps counts them and walks from the start title through each selected link. */
  lemma RunOfWellFormed(id: string, start: string, steps: seq<StepObject>, success: bool)
    ensures RunOf(id, start, steps, success).total_steps == |steps|
    ensures |RunOf(id, start, steps, success).path_titles| == RunOf(id, start, steps, success).total_steps + 1
    ensures RunOf(id, start, steps, success).path_titles[0] == start
    ensures forall i :: 0 <= i < |steps| ==>
      RunOf(id, start, steps, success).path_titles[i + 1] == steps[i].selected_link_text
  {
  }

  /** The run every failure path records. */
  function FailedRun(id: string): RunResult {
    RunResult(id, false, [], [], 0)
  }

  /** The client's copy of one reported step. */
  function ToStep(s: StepReport): StepObject {
    StepObject(s.step_number, s.current_title, s.target, s.selected_link, s.reason)
  }

  /** A card as it enters the feed. */
  function NewCardState(card: WikiCard): (c: CardState)
    ensures c.card == card && c.phase == Prediction && c.agent_actions == []
    ensures c.poll.card_id == card.card_id && c.poll.user_vote == None && c.poll.total_votes == 0
    ensures forall o: PollOption :: c.poll.votes.Count(o) == 0
    ensures c.run == None && c.current_step == None && c.session_id == None && c.live_view_url == None
  {
    CardState(card, Prediction, ZeroPoll(card.card_id), None, None, None, None, [])
  }

  /** The updaters the store applies to the cards of one id. */
  datatype CardUpdate =
    | SetRunning
    | Fail(id: string)
    | Session(session_id: string, live_view_url: string)
    | Log(action: AgentAction)
    | Progress(step: StepObject, run: RunResult)
    | Finish(run: RunResult)
    | Voted(option: PollOption)
    | Replied(poll: PollState, option: PollOption)

  /** One updater applied to one card. */
  function Apply(u: CardUpdate, c: CardState): (r: CardState)
    ensures r.card == c.card
    ensures |c.agent_actions| <= ActionLogSize ==> |r.agent_actions| <= ActionLogSize
    ensures !u.SetRunning? ==> PhaseRank(c.phase) <= PhaseRank(r.phase)
  {
    match u
    case SetRunning => c.(phase := Running)
    case Fail(id) => c.(phase := Result, run := Some(FailedRun(id)))
    case Session(sid, url) => c.(session_id := Some(sid), live_view_url := Some(url))
    case Log(a) => c.(agent_actions := LastN(c.agent_actions + [a], ActionLogSize))
    case Progress(step, run) => c.(current_step := Some(step), run := Some(run))
    case Finish(run) => c.(phase := Result, run := Some(run))
    case Voted(o) => c.(poll := AddVote(c.poll, o).(user_vote := Some(o)))
    case Replied(p, o) => c.(poll := p.(user_vote := Some(o)))
  }

  /** `cards.map((c) => c.card.card_id === id ? updater(c) : c)`. */
  function MapCard(cards: seq<CardState>, id: string, u: CardUpdate): (r: seq<CardState>)
    ensures |r| == |cards|
    ensures forall i :: 0 <= i < |cards| ==>
      r[i] == if cards[i].card.card_id == id then Apply(u, cards[i]) else cards[i]
  {
    if cards == [] then []
    else
      var last := cards[|cards| - 1];
      MapCard(cards[..|cards| - 1], id, u) + [if last.card.card_id == id then Apply(u, last) else last]
  }

  /** `cards.find((c) => c.card.card_id === id)`: the position of the first card with that id. */
  function FindCard(cards: seq<CardState>, id: string): (r: Option<nat>)
    ensures r.Some? ==> r.value < |cards| && cards[r.value].card.card_id == id
    ensures r.Some? ==> forall j :: 0 <= j < r.value ==> cards[j].card.card_id != id
    ensures r.None? ==> forall j :: 0 <= j < |cards| ==> cards[j].card.card_id != id
  {
    if cards == [] then None
    else if cards[0].card.card_id == id then Some(0)
    else
      match FindCard(cards[1..], id)
      case None => None
      case Some(k) => Some(k + 1)
  }

  /** No two cards share an id (ids come from `uuid()`). */
  predicate UniqueIds(cards: seq<CardState>) {
    forall i, j :: 0 <= i < j < |cards| ==> cards[i].card.card_id != cards[j].card.card_id
  }

  /** Every card keeps at most `ActionLogSize` browser actions. */
  predicate LogsCapped(cards: seq<CardState>) {
    forall i :: 0 <= i < |cards| ==> |cards[i].agent_actions| <= ActionLogSize
  }

  /** The feed only moves forward: no card is dropped or replaced and no card's phase goes back. */
  predicate Advanced(before: seq<CardState>, after: seq<CardState>) {
    && |before| <= |after|
    && forall i :: 0 <= i < |before| ==>
      after[i].card == before[i].card && PhaseRank(before[i].phase) <= PhaseRank(after[i].phase)
  }

  /** Every updater but `SetRunning` moves the feed forward and keeps the logs capped. */
  lemma MapCardAdvances(cards: seq<CardState>, id: string, u: CardUpdate)
    requires !u.SetRunning?
    ensures Advanced(cards, MapCard(cards, id, u))
    ensures LogsCapped(cards) ==> LogsCapped(MapCard(cards, id, u))
  {
  }

  /** `SetRunning` moves the feed forward when the cards it reaches are in prediction. */
  lemma SetRunningAdvances(cards: seq<CardState>, id: string)
    requires forall i :: 0 <= i < |cards| && cards[i].card.card_id == id ==> cards[i].phase == Prediction
    ensures Advanced(cards, MapCard(cards, id, SetRunning))
    ensures LogsCapped(cards) ==> LogsCapped(MapCard(cards, id, SetRunning))
  {
  }

  /** Moving forward is transitive. */
  lemma AdvancedTrans(a: seq<CardState>, b: seq<CardState>, c: seq<CardState>)
    requires Advanced(a, b) && Advanced(b, c)
    ensures Advanced(a, c)
  {
  }

  /** Moving forward without adding cards keeps the ids unique. */
  lemma AdvancedKeepsIds(before: seq<CardState>, after: seq<CardState>)
    requires Advanced(before, after) && |after| == |before| && UniqueIds(before)
    ensures UniqueIds(after)
  {
  }

  /** Updates keep the cards, and with them the ids, where they are. */
  lemma MapCardKeepsIds(cards: seq<CardState>, id: string, u: CardUpdate)
    ensures UniqueIds(cards) ==> UniqueIds(MapCard(cards, id, u))
    ensures FindCard(MapCard(cards, id, u), id) == FindCard(cards, id)
  {
    var r := MapCard(cards, id, u);
    assert forall i :: 0 <= i < |cards| ==> r[i].card == cards[i].card;
    FindCardSameIds(cards, r, id);
  }

  /** `find` only looks at the ids. */
  lemma {:induction false} FindCardSameIds(a: seq<CardState>, b: seq<CardState>, id: string)
    requires |a| == |b| && forall i :: 0 <= i < |a| ==> a[i].card.card_id == b[i].card.card_id
    ensures FindCard(a, id) == FindCard(b, id)
  {
    if a != [] {
      FindCardSameIds(a[1..], b[1..], id);
    }
  }
}
