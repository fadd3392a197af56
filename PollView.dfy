/**
 * The poll widget's logic (src/components/Poll.tsx): which bucket a race's
 * step count falls in, and when a click on a bucket casts a vote.
 */
module PollView {
  import opened Wrappers
  import opened Types
  import opened CardUpdates

  /** The buckets in the order the widget lists them (`OPTIONS`). */
  const Options: seq<PollOption> := [OneToThree, FourToSix, SevenToNine, TenPlus]

  /** A bucket's position in `Options`. */
  function BucketIndex(o: PollOption): (i: nat)
    ensures i < |Options| && Options[i] == o
  {
    match o
    case OneToThree => 0
    case FourToSix => 1
    case SevenToNine => 2
    case TenPlus => 3
  }

  /** `Options` lists every bucket exactly once. */
  lemma OptionsListEachBucketOnce()
    ensures forall o: PollOption :: o in Options
    ensures forall i, j :: 0 <= i < j < |Options| ==> Options[i] != Options[j]
  {
    forall o: PollOption
      ensures o in Options
    {
      assert Options[BucketIndex(o)] == o;
    }
  }

  /** The bucket the race's step count falls in. */
  function GetCorrectBucket(steps: int): (b: PollOption)
    ensures steps <= 3 <==> b == OneToThree
    ensures 4 <= steps <= 6 <==> b == FourToSix
    ensures 7 <= steps <= 9 <==> b == SevenToNine
    ensures 10 <= steps <==> b == TenPlus
  {
    if steps <= 3 then OneToThree
    else if steps <= 6 then FourToSix
    else if steps <= 9 then SevenToNine
    else TenPlus
  }

  /** The least and, except for "10+", the greatest step count a bucket's label names. */
  function LabelLow(o: PollOption): nat {
    match o
    case OneToThree => 1
    case FourToSix => 4
    case SevenToNine => 7
    case TenPlus => 10
  }

  function LabelHigh(o: PollOption): Option<nat> {
    match o
    case OneToThree => Some(3)
    case FourToSix => Some(6)
    case SevenToNine => Some(9)
    case TenPlus => None
  }

  /** A race of at least one step lands in the bucket whose label names its step count. */
  lemma BucketMatchesLabel(steps: int)
    requires steps >= 1
    ensures LabelLow(GetCorrectBucket(steps)) <= steps
    ensures LabelHigh(GetCorrectBucket(steps)).Some? ==> steps <= LabelHigh(GetCorrectBucket(steps)).value
  {
  }

  /** More steps never give an earlier bucket. */
  lemma BucketMonotone(s: int, t: int)
    requires s <= t
    ensures BucketIndex(GetCorrectBucket(s)) <= BucketIndex(GetCorrectBucket(t))
  {
  }

  /** A failed run records no steps, and counts as the first bucket. */
  lemma FailedRunBucket(id: string)
    ensures GetCorrectBucket(FailedRun(id).total_steps) == OneToThree
  {
  }

  /** A click on bucket `key`: it votes for that bucket only when the viewer has not voted and the results are hidden. */
  function Click(poll: PollState, showResults: bool, key: PollOption): (vote: Option<PollOption>)
    ensures vote.Some? <==> poll.user_vote.None? && !showResults
    ensures vote.Some? ==> vote.value == key
  {
    if poll.user_vote.Some? || showResults then None else Some(key)
  }

  /** Once the store has counted a vote for a card, its poll takes no more clicks. */
  lemma NoClickAfterVote(c: CardState, o: PollOption, showResults: bool, key: PollOption)
    ensures Click(Apply(Voted(o), c).poll, showResults, key) == None
  {
  }
}
