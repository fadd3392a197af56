/**
 * The server-side poll ledger (src/app/api/poll/route.ts): one process-wide
 * map from card id to a tally, created lazily by the first vote for a card
 * and read back, or read as zero, by GET.
 */
module PollLedger {
  import opened Wrappers
  import opened Types

  /** The body and status of a refused request. */
  datatype HttpError = HttpError(status: int, error: string)

  /** Every stored tally is keyed by its own card id, sums up and carries no viewer's vote. */
  ghost predicate LedgerInvariant(store: map<string, PollState>) {
    forall id :: id in store ==>
      store[id].card_id == id && Consistent(store[id]) && store[id].user_vote == None
  }

  /** The tally the ledger holds for a card, or a zero tally when it holds none. */
  function Lookup(store: map<string, PollState>, id: string): (p: PollState)
    ensures id in store ==> p == store[id]
    ensures id !in store ==> p == ZeroPoll(id)
  {
    if id in store then store[id] else ZeroPoll(id)
  }

  /** The ledger after one POST: the card's tally, created at zero when missing, takes the vote; no other card changes. */
  function Record(store: map<string, PollState>, id: string, o: PollOption): (s: map<string, PollState>)
    ensures s.Keys == store.Keys + {id}
    ensures id in s && s[id] == AddVote(Lookup(store, id), o)
    ensures forall other :: other in store && other != id ==> s[other] == store[other]
  {
    store[id := AddVote(Lookup(store, id), o)]
  }

  /** Under the invariant every card reads as a tally of its own that sums up, stored or not. */
  lemma LookupWellFormed(store: map<string, PollState>, id: string)
    requires LedgerInvariant(store)
    ensures Lookup(store, id).card_id == id && Consistent(Lookup(store, id))
    ensures Lookup(store, id).user_vote == None
  {
    if id !in store {
      var z := ZeroPoll(id);
      assert z.votes.Sum() == z.votes.Count(OneToThree) + z.votes.Count(FourToSix)
        + z.votes.Count(SevenToNine) + z.votes.Count(TenPlus);
    }
  }

  /** A POST keeps the ledger invariant. */
  lemma RecordKeepsInvariant(store: map<string, PollState>, id: string, o: PollOption)
    requires LedgerInvariant(store)
    ensures LedgerInvariant(Record(store, id, o))
  {
    hide Record, Lookup, AddVote, ZeroPoll, Consistent;
    LookupWellFormed(store, id);
    var s := Record(store, id, o);
    forall x | x in s
      ensures s[x].card_id == x && Consistent(s[x]) && s[x].user_vote == None
    {
      if x == id {
        assert s[x] == AddVote(Lookup(store, id), o);
      } else {
        assert s[x] == store[x];
      }
    }
  }

  /** The ledger after `n` POSTs of the same vote for the same card. */
  function RecordTimes(store: map<string, PollState>, id: string, o: PollOption, n: nat): (s: map<string, PollState>)
    ensures id in s || n == 0
  {
    if n == 0 then store else Record(RecordTimes(store, id, o, n - 1), id, o)
  }

  /** There is no deduplication: `n` equal POSTs raise the bucket and the total by exactly `n` and leave the other buckets alone. */
  lemma {:induction false} RecordTimesCounts(store: map<string, PollState>, id: string, o: PollOption, n: nat)
    ensures Lookup(RecordTimes(store, id, o, n), id).votes.Count(o) == Lookup(store, id).votes.Count(o) + n
    ensures Lookup(RecordTimes(store, id, o, n), id).total_votes == Lookup(store, id).total_votes + n
    ensures forall p: PollOption :: p != o ==>
      Lookup(RecordTimes(store, id, o, n), id).votes.Count(p) == Lookup(store, id).votes.Count(p)
  {
    if n > 0 {
      RecordTimesCounts(store, id, o, n - 1);
    }
  }

  /** The process-wide `pollStore` and its two handlers. */
  class Ledger {
    var store: map<string, PollState>

    ghost predicate Valid()
      reads this
    {
      LedgerInvariant(store)
    }

    constructor ()
      ensures Valid() && store == map[]
    {
      store := map[];
    }

    /** POST: creates a zero tally for an unseen card, then counts the vote; answers the stored tally. */
    method Post(cardId: string, vote: PollOption) returns (poll: PollState)
      requires Valid()
      modifies this
      ensures Valid()
      ensures store == Record(old(store), cardId, vote)
      ensures poll == store[cardId] && Consistent(poll)
    {
      hide LedgerInvariant, Lookup, AddVote, ZeroPoll, Consistent;
      LookupWellFormed(store, cardId);
      var current: PollState;
      if cardId in store {
        current := store[cardId];
      } else {
        current := ZeroPoll(cardId);
        store := store[cardId := current];
      }
      poll := AddVote(current, vote);
      store := store[cardId := poll];
      assert current == Lookup(old(store), cardId);
      assert store == old(store)[cardId := poll];
      RecordKeepsInvariant(old(store), cardId, vote);
    }

    /** GET: a missing or empty `card_id` is a 400; otherwise the stored tally, or a zero one that is not stored. */
    method Get(cardId: Option<string>) returns (r: Result<PollState, HttpError>)
      requires Valid()
      ensures r.Err? <==> cardId == None || cardId == Some("")
      ensures r.Err? ==> r.error == HttpError(400, "card_id required")
      ensures r.Ok? ==> r.value == Lookup(store, cardId.value)
      ensures r.Ok? ==> r.value.card_id == cardId.value && Consistent(r.value)
    {
      if cardId == None || cardId.value == "" {
        return Err(HttpError(400, "card_id required"));
      }
      var id := cardId.value;
      if id in store {
        r := Ok(store[id]);
      } else {
        r := Ok(ZeroPoll(id));
      }
    }
  }
}
