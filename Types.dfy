/**
 * The shared records of the feed (src/lib/types.ts): cards, steps, run
 * results, polls and the per-card state the client keeps.
 */
module Types {
  import opened Wrappers

  /** One start/target pairing shown as one feed entry. */
  datatype WikiCard = WikiCard(
    card_id: string,
    start_title: string,
    target_title: string,
    language: string,
    max_steps: int)

  /** One navigation step of a race, as the client stores it. */
  datatype StepObject = StepObject(
    step: int,
    current_title: string,
    target_title: string,
    selected_link_text: string,
    reason_summary: string)

  /** The outcome of one race. */
  datatype RunResult = RunResult(
    card_id: string,
    success: bool,
    steps: seq<StepObject>,
    path_titles: seq<string>,
    total_steps: int)

  /** The four prediction buckets "1-3", "4-6", "7-9" and "10+". */
  datatype PollOption = OneToThree | FourToSix | SevenToNine | TenPlus {
    /** The string the bucket is keyed by on the wire. */
    function Label(): string {
      match this
      case OneToThree => "1-3"
      case FourToSix => "4-6"
      case SevenToNine => "7-9"
      case TenPlus => "10+"
    }
  }

  /** The bucket whose label is `s`, if any: exactly the four labels name a bucket. */
  function OptionFromLabel(s: string): (r: Option<PollOption>)
    ensures forall o: PollOption :: r == Some(o) <==> o.Label() == s
  {
    if s == "1-3" then Some(OneToThree)
    else if s == "4-6" then Some(FourToSix)
    else if s == "7-9" then Some(SevenToNine)
    else if s == "10+" then Some(TenPlus)
    else None
  }

  /** `Record<PollOption, number>`: one count per bucket, so every bucket always has a count. */
  datatype Votes = Votes(v1to3: nat, v4to6: nat, v7to9: nat, v10plus: nat) {
    function Count(o: PollOption): nat {
      match o
      case OneToThree => v1to3
      case FourToSix => v4to6
      case SevenToNine => v7to9
      case TenPlus => v10plus
    }

    function Sum(): nat {
      v1to3 + v4to6 + v7to9 + v10plus
    }

    /** `votes[o]++`: the named bucket goes up by one and no other bucket changes. */
    function Increment(o: PollOption): (v: Votes)
      ensures v.Count(o) == Count(o) + 1
      ensures forall p: PollOption :: p != o ==> v.Count(p) == Count(p)
    {
      match o
      case OneToThree => this.(v1to3 := v1to3 + 1)
      case FourToSix => this.(v4to6 := v4to6 + 1)
      case SevenToNine => this.(v7to9 := v7to9 + 1)
      case TenPlus => this.(v10plus := v10plus + 1)
    }
  }

  const NoVotes := Votes(0, 0, 0, 0)

  /** A card's tally; `user_vote` is the bucket this viewer chose, when they have voted. */
  datatype PollState = PollState(
    card_id: string,
    votes: Votes,
    user_vote: Option<PollOption>,
    total_votes: nat)

  /** The tally invariant: the total is the sum of the four buckets. */
  predicate Consistent(p: PollState) {
    p.total_votes == p.votes.Sum()
  }

  /** A fresh poll for a card: every bucket at zero, total zero, no vote of this viewer. */
  function ZeroPoll(card_id: string): (p: PollState)
    ensures p.card_id == card_id && p.user_vote == None && p.total_votes == 0
    ensures forall o: PollOption :: p.votes.Count(o) == 0
  {
    PollState(card_id, NoVotes, None, 0)
  }

  /** One counted vote: bucket `o` and the total go up by one; the card, the other buckets and the viewer's vote stay. */
  function AddVote(p: PollState, o: PollOption): (q: PollState)
    ensures q.card_id == p.card_id && q.user_vote == p.user_vote
    ensures q.votes.Count(o) == p.votes.Count(o) + 1
    ensures forall b: PollOption :: b != o ==> q.votes.Count(b) == p.votes.Count(b)
    ensures q.total_votes == p.total_votes + 1
    ensures Consistent(p) ==> Consistent(q)
  {
    p.(votes := p.votes.Increment(o), total_votes := p.total_votes + 1)
  }

  /** A card's lifecycle: prediction, then running, then result. */
  datatype CardPhase = Prediction | Running | Result

  /** Position of a phase in the one-way order prediction < running < result. */
  function PhaseRank(p: CardPhase): nat {
    match p
    case Prediction => 0
    case Running => 1
    case Result => 2
  }

  /** One line of the agent's browser log. */
  datatype AgentAction = AgentAction(command: string, result_preview: Option<string>)

  /** Everything the client keeps about one card. */
  datatype CardState = CardState(
    card: WikiCard,
    phase: CardPhase,
    poll: PollState,
    run: Option<RunResult>,
    current_step: Option<StepObject>,
    session_id: Option<string>,
    live_view_url: Option<string>,
    agent_actions: seq<AgentAction>)
}
