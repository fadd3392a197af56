/**
 * The client store (src/store/feed-store.ts): the feed of cards, the index
 * of the card on screen and the loading flag, with the actions that change
 * them. Each `await` splits an action in two: the part before it runs when
 * the action is called, the part after it when the network answers, so the
 * answer is a parameter of the second part.
 */
module FeedStore {
  import opened Wrappers
  import opened Types
  import opened RaceEvents
  import opened EventStream
  import opened CardUpdates
  import opened RaceReplay

  /** The states of freshly fetched cards, in the order the server sent them. */
  function NewCards(cs: seq<WikiCard>): (r: seq<CardState>)
    ensures |r| == |cs|
    ensures forall i :: 0 <= i < |cs| ==> r[i] == NewCardState(cs[i])
  {
    if cs == [] then [] else NewCards(cs[..|cs| - 1]) + [NewCardState(cs[|cs| - 1])]
  }

  /** The fetched cards carry ids the feed does not hold yet and no two of them share one. */
  predicate FreshIds(cards: seq<CardState>, cs: seq<WikiCard>) {
    && (forall i, j :: 0 <= i < j < |cs| ==> cs[i].card_id != cs[j].card_id)
    && (forall i, j :: 0 <= i < |cards| && 0 <= j < |cs| ==> cards[i].card.card_id != cs[j].card_id)
  }

  /** `vote` goes ahead: a card has the id and its viewer has not voted on it yet. */
  predicate CanVote(cards: seq<CardState>, id: string) {
    match FindCard(cards, id)
    case None => false
    case Some(k) => cards[k].poll.user_vote.None?
  }

  /** `startRace` goes ahead: a card has the id and it is still waiting for predictions. */
  predicate CanStart(cards: seq<CardState>, id: string) {
    match FindCard(cards, id)
    case None => false
    case Some(k) => cards[k].phase == Prediction
  }

  /** With unique ids the card `find` returns is the only card with that id. */
  lemma OnlyCard(cards: seq<CardState>, id: string, k: nat)
    requires UniqueIds(cards) && k < |cards| && cards[k].card.card_id == id
    ensures FindCard(cards, id) == Some(k)
  {
    assert FindCard(cards, id).Some?;
  }

  /**
   * The optimistic update: the card's chosen bucket and total grow by one,
   * the other buckets stay, the choice is recorded, and no other card changes.
   */
  lemma VoteOptimistic(cards: seq<CardState>, id: string, o: PollOption, k: nat)
    requires k < |cards| && cards[k].card.card_id == id
    ensures MapCard(cards, id, Voted(o))[k].poll.votes.Count(o) == cards[k].poll.votes.Count(o) + 1
    ensures MapCard(cards, id, Voted(o))[k].poll.total_votes == cards[k].poll.total_votes + 1
    ensures forall b: PollOption :: b != o ==>
      MapCard(cards, id, Voted(o))[k].poll.votes.Count(b) == cards[k].poll.votes.Count(b)
    ensures MapCard(cards, id, Voted(o))[k].poll.user_vote == Some(o)
    ensures forall j :: 0 <= j < |cards| && cards[j].card.card_id != id ==>
      MapCard(cards, id, Voted(o))[j] == cards[j]
  {
  }

  /** A viewer votes at most once per card: after the optimistic update, and after the server's reply, `vote` is refused. */
  lemma VoteLocksCard(cards: seq<CardState>, id: string, o: PollOption, p: PollState)
    requires CanVote(cards, id)
    ensures !CanVote(MapCard(cards, id, Voted(o)), id)
    ensures !CanVote(MapCard(MapCard(cards, id, Voted(o)), id, Replied(p, o)), id)
  {
    hide AddVote, MapCard, FindCard;
    var k := FindCard(cards, id).value;
    var c1 := MapCard(cards, id, Voted(o));
    MapCardKeepsIds(cards, id, Voted(o));
    assert c1[k].poll.user_vote == Some(o);
    MapCardKeepsIds(c1, id, Replied(p, o));
  }

  /** The server's tally replaces the card's poll but keeps the viewer's choice. */
  lemma ReplyKeepsChoice(cards: seq<CardState>, id: string, p: PollState, o: PollOption, k: nat)
    requires k < |cards| && cards[k].card.card_id == id
    ensures MapCard(cards, id, Replied(p, o))[k].poll == p.(user_vote := Some(o))
    ensures MapCard(cards, id, Replied(p, o))[k].phase == cards[k].phase
  {
  }

  /** A race starts at most once per card: once started, the card never waits for predictions again, whatever the race does. */
  lemma RaceStartsOnce(cards: seq<CardState>, id: string, card: WikiCard, io: RaceIo)
    requires UniqueIds(cards) && CanStart(cards, id)
    ensures !CanStart(MapCard(cards, id, SetRunning), id)
    ensures !CanStart(RaceOutcome(MapCard(cards, id, SetRunning), id, card, io), id)
  {
    hide RaceOutcome, Replay, StreamEvents, AddVote;
    var k := FindCard(cards, id).value;
    var c1 := MapCard(cards, id, SetRunning);
    MapCardKeepsIds(cards, id, SetRunning);
    assert c1[k].phase == Running;
    var c2 := RaceOutcome(c1, id, card, io);
    RaceOutcomeAdvances(c1, id, card, io);
    assert PhaseRank(c2[k].phase) >= 1;
    FindCardSameIds(c1, c2, id);
  }

  /** The store, with the state `create` sets up and the actions that change it. */
  class Feed {
    var cards: seq<CardState>
    var activeIndex: int
    var loading: bool

    /** Card ids are unique and every browser log is capped. */
    ghost predicate Valid()
      reads this
    {
      UniqueIds(cards) && LogsCapped(cards)
    }

    constructor ()
      ensures Valid()
      ensures cards == [] && activeIndex == 0 && !loading
    {
      cards := [];
      activeIndex := 0;
      loading := false;
    }

    /** `setActiveIndex`: only the index changes. */
    method SetActiveIndex(index: int)
      modifies this
      ensures activeIndex == index
      ensures cards == old(cards) && loading == old(loading)
    {
      activeIndex := index;
    }

    /** `fetchCards` up to its request: refused while a fetch is under way, otherwise marks one under way. */
    method FetchCards() returns (requested: bool)
      modifies this
      ensures requested == !old(loading)
      ensures loading
      ensures cards == old(cards) && activeIndex == old(activeIndex)
    {
      if loading {
        return false;
      }
      loading := true;
      requested := true;
    }

    /**
     * `fetchCards` after its request: the fetched cards, when the request
     * and the body succeeded, are appended in prediction phase with zero
     * tallies; either way the fetch is over.
     */
    method FetchCardsReply(reply: Option<seq<WikiCard>>)
      requires Valid()
      requires reply.Some? ==> FreshIds(cards, reply.value)
      modifies this
      ensures Valid() && !loading && Advanced(old(cards), cards)
      ensures cards == old(cards) + (if reply.Some? then NewCards(reply.value) else [])
      ensures activeIndex == old(activeIndex)
    {
      if reply.Some? {
        cards := cards + NewCards(reply.value);
      }
      loading := false;
    }

    /** `vote` up to its request: refused for an unknown card or one already voted on, otherwise the optimistic update. */
    method Vote(cardId: string, option: PollOption) returns (sent: bool)
      requires Valid()
      modifies this
      ensures Valid() && Advanced(old(cards), cards)
      ensures sent == CanVote(old(cards), cardId)
      ensures cards == if sent then MapCard(old(cards), cardId, Voted(option)) else old(cards)
      ensures activeIndex == old(activeIndex) && loading == old(loading)
    {
      hide MapCard, Apply, AddVote, LogsCapped, UniqueIds;
      var found := FindCard(cards, cardId);
      if found.None? || cards[found.value].poll.user_vote.Some? {
        return false;
      }
      MapCardKeepsIds(cards, cardId, Voted(option));
      MapCardAdvances(cards, cardId, Voted(option));
      cards := MapCard(cards, cardId, Voted(option));
      sent := true;
    }

    /** `vote` after its request: the server's tally, with the viewer's choice, replaces the card's poll; a failed request keeps the optimistic one. */
    method VoteReply(cardId: string, option: PollOption, reply: Option<PollState>)
      requires Valid()
      modifies this
      ensures Valid() && Advanced(old(cards), cards)
      ensures cards == if reply.Some? then MapCard(old(cards), cardId, Replied(reply.value, option)) else old(cards)
      ensures activeIndex == old(activeIndex) && loading == old(loading)
    {
      if reply.Some? {
        MapCardKeepsIds(cards, cardId, Replied(reply.value, option));
        MapCardAdvances(cards, cardId, Replied(reply.value, option));
        cards := MapCard(cards, cardId, Replied(reply.value, option));
      }
    }

    /**
     * `startRace` up to its first `await`: refused for an unknown card or
     * one no longer in prediction, otherwise the card turns running and the
     * race for its `WikiCard` is handed to `RunRace`.
     */
    method StartRace(cardId: string) returns (race: Option<WikiCard>)
      requires Valid()
      modifies this
      ensures Valid() && Advanced(old(cards), cards)
      ensures race.Some? <==> CanStart(old(cards), cardId)
      ensures race.Some? ==> race.value == old(cards)[FindCard(old(cards), cardId).value].card
      ensures cards == if race.Some? then MapCard(old(cards), cardId, SetRunning) else old(cards)
      ensures activeIndex == old(activeIndex) && loading == old(loading)
    {
      hide MapCard, Apply, LogsCapped;
      var found := FindCard(cards, cardId);
      if found.None? || cards[found.value].phase != Prediction {
        return None;
      }
      var k := found.value;
      forall i | 0 <= i < |cards| && cards[i].card.card_id == cardId
        ensures cards[i].phase == Prediction
      {
        OnlyCard(cards, cardId, i);
      }
      MapCardKeepsIds(cards, cardId, SetRunning);
      SetRunningAdvances(cards, cardId);
      race := Some(cards[k].card);
      cards := MapCard(cards, cardId, SetRunning);
    }

    /**
     * The asynchronous part of `startRace`, run to its end: the session,
     * then the streamed events handled as they arrive, then the final run,
     * or a failed run on any failure. `card` is the card `StartRace` found.
     */
    method RunRace(cardId: string, card: WikiCard, io: RaceIo)
      requires Valid()
      requires card.card_id == cardId && exists k :: 0 <= k < |cards| && cards[k].card == card
      modifies this
      ensures Valid() && Advanced(old(cards), cards)
      ensures cards == RaceOutcome(old(cards), cardId, card, io)
      ensures activeIndex == old(activeIndex) && loading == old(loading)
    {
      RaceOutcomeAdvances(cards, cardId, card, io);
      hide MapCard, Apply, Replay, StreamEvents, RunOf, LogsCapped, Advanced;
      match io {
        case StartFailed =>
          cards := MapCard(cards, cardId, Fail(cardId));
        case RunFailed(sid, url) =>
          cards := MapCard(cards, cardId, Session(sid, url));
          cards := MapCard(cards, cardId, Fail(cardId));
        case Streamed(sid, url, chunks, readFails) =>
          cards := MapCard(cards, cardId, Session(sid, url));
          var steps, raceSuccess := ReadStream(cardId, card.start_title, chunks);
          if readFails {
            cards := MapCard(cards, cardId, Fail(cardId));
          } else {
            cards := MapCard(cards, cardId, Finish(RunOf(cardId, card.start_title, steps, raceSuccess)));
          }
      }
      AdvancedKeepsIds(old(cards), cards);
    }

    /**
     * The read loop: every read appends a chunk to the buffer, the complete
     * frames in it are handled in order and the trailing piece stays
     * buffered. Returns the steps and `raceSuccess` it ends with.
     */
    method ReadStream(cardId: string, start: string, chunks: seq<string>) returns (steps: seq<StepObject>, raceSuccess: bool)
      modifies this
      ensures Race(cards, steps, raceSuccess) == Replay(Race(old(cards), [], false), cardId, start, StreamEvents(chunks))
      ensures activeIndex == old(activeIndex) && loading == old(loading)
    {
      hide Replay, FrameEvents, SplitFrames, Concat, Dispatch, CompleteFrames;
      ghost var initial := Race(cards, [], false);
      NothingRead();
      ReplayNothing(initial, cardId, start);
      var buffer := "";
      steps := [];
      raceSuccess := false;
      ghost var handled: seq<string> := [];
      assert chunks[..0] == [];
      var i := 0;
      while i < |chunks|
        invariant i <= |chunks|
        invariant handled + [buffer] == SplitFrames(Concat(chunks[..i]))
        invariant Race(cards, steps, raceSuccess) == Replay(initial, cardId, start, FrameEvents(handled))
        invariant activeIndex == old(activeIndex) && loading == old(loading)
      {
        ReadChunk(chunks, i, handled, buffer);
        var pieces := SplitFrames(buffer + chunks[i]);
        buffer := pieces[|pieces| - 1];
        steps, raceSuccess := HandleFrames(cardId, start, pieces[..|pieces| - 1], steps, raceSuccess, initial, handled);
        handled := handled + pieces[..|pieces| - 1];
        i := i + 1;
      }
      assert chunks[..i] == chunks;
      ReadAll(chunks, handled, buffer);
    }

    /**
     * The frame loop of one read: the complete frames are handled in order,
     * continuing the replay of the frames handled before them.
     */
    method HandleFrames(cardId: string, start: string, frames: seq<string>, steps0: seq<StepObject>, success0: bool,
                        ghost initial: Race, ghost handled: seq<string>)
      returns (steps: seq<StepObject>, raceSuccess: bool)
      requires Race(cards, steps0, success0) == Replay(initial, cardId, start, FrameEvents(handled))
      modifies this
      ensures Race(cards, steps, raceSuccess) == Replay(initial, cardId, start, FrameEvents(handled + frames))
      ensures activeIndex == old(activeIndex) && loading == old(loading)
    {
      hide Replay, FrameEvents, Dispatch, FrameEvent;
      steps, raceSuccess := steps0, success0;
      assert handled + frames[..0] == handled;
      for j := 0 to |frames|
        invariant Race(cards, steps, raceSuccess) == Replay(initial, cardId, start, FrameEvents(handled + frames[..j]))
        invariant activeIndex == old(activeIndex) && loading == old(loading)
      {
        ReplayFrame(initial, cardId, start, handled + frames[..j], frames[j]);
        assert handled + frames[..j + 1] == (handled + frames[..j]) + [frames[j]];
        steps, raceSuccess := HandleFrame(cardId, start, frames[j], steps, raceSuccess);
      }
      assert frames[..|frames|] == frames;
    }

    /**
     * The body of the frame loop: the frame's data line is parsed and the
     * event it carries, if any, is handled; a frame without one is skipped.
     */
    method HandleFrame(cardId: string, start: string, frame: string, steps0: seq<StepObject>, success0: bool)
      returns (steps: seq<StepObject>, raceSuccess: bool)
      modifies this
      ensures Race(cards, steps, raceSuccess) ==
        match FrameEvent(frame)
        case Some(e) => Dispatch(Race(old(cards), steps0, success0), cardId, start, e)
        case None => Race(old(cards), steps0, success0)
      ensures activeIndex == old(activeIndex) && loading == old(loading)
    {
      hide RunOf, LastN, MapCard;
      steps, raceSuccess := steps0, success0;
      var event := FrameEvent(frame);
      if event.Some? {
        match event.value {
          case Browser(command, result) =>
            cards := MapCard(cards, cardId, Log(AgentAction(command, result)));
          case Step(s) =>
            var step := ToStep(s);
            steps := steps + [step];
            if s.success {
              raceSuccess := true;
            }
            cards := MapCard(cards, cardId, Progress(step, RunOf(cardId, start, steps, raceSuccess)));
          case Done(success) =>
            raceSuccess := success;
          case Error(_) =>
        }
      }
    }
  }
}
