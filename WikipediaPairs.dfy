/**
 * Card generation (src/lib/wikipedia-pairs.ts): the server hands out the
 * curated start/target pairs in a fixed rotation. The rotation position is
 * module state that survives between requests; here it is the field of a
 * `CardGenerator`. The `uuid()` card ids come from outside and are passed in.
 */
module WikipediaPairs {
  import opened Types

  /** `CURATED_PAIRS`: start title, target title. */
  const CuratedPairs: seq<(string, string)> := [
    ("Donald Trump", "Brazil"),
    ("Eiffel Tower", "Sushi"),
    ("Albert Einstein", "Football"),
    ("Cleopatra", "Moon landing"),
    ("Leonardo da Vinci", "Hip hop music"),
    ("Great Wall of China", "Bitcoin"),
    ("William Shakespeare", "Olympic Games"),
    ("Pyramids of Giza", "Artificial intelligence"),
    ("Marie Curie", "Netflix"),
    ("Nikola Tesla", "K-pop"),
    ("Machu Picchu", "Taylor Swift"),
    ("Napoleon", "Video game"),
    ("Amazon rainforest", "Pizza"),
    ("Titanic", "Mars"),
    ("Mona Lisa", "World Cup"),
    ("Vikings", "Internet"),
    ("Dinosaur", "Smartphone"),
    ("Mozart", "Electric car"),
    ("Ancient Rome", "Social media"),
    ("Frida Kahlo", "Quantum computing"),
    ("Pablo Picasso", "Space Station"),
    ("Genghis Khan", "Anime"),
    ("Bermuda Triangle", "Virtual reality"),
    ("Stonehenge", "Spotify"),
    ("Galileo Galilei", "Cryptocurrency"),
    ("Samurai", "Hollywood"),
    ("Atlantis", "Machine learning"),
    ("Socrates", "TikTok"),
    ("Tutankhamun", "Climate change"),
    ("Marco Polo", "Robotics")
  ]

  const CardLanguage := "en"
  const CardMaxSteps := 15

  /** The card generated at rotation position `n` with the given id. */
  function CardAt(n: nat, id: string): (card: WikiCard)
    ensures card.card_id == id && card.language == CardLanguage && card.max_steps == CardMaxSteps
    ensures (card.start_title, card.target_title) in CuratedPairs
  {
    var pair := CuratedPairs[n % |CuratedPairs|];
    WikiCard(id, pair.0, pair.1, CardLanguage, CardMaxSteps)
  }

  /** The rotation wraps: position `n + 30` gives the pair of position `n`. */
  lemma RotationPeriodic(n: nat, id: string)
    ensures CardAt(n + |CuratedPairs|, id) == CardAt(n, id)
  {
    assert (n + |CuratedPairs|) % |CuratedPairs| == n % |CuratedPairs|;
  }

  /** Any 30 consecutive positions hand out every curated pair. */
  lemma RotationCoversPairs(n: nat, id: string, k: nat)
    requires k < |CuratedPairs|
    ensures exists j :: n <= j < n + |CuratedPairs| && (CardAt(j, id).start_title, CardAt(j, id).target_title) == CuratedPairs[k]
  {
    assert |CuratedPairs| == 30;
    hide CardAt, CuratedPairs;
    var q, m := n / 30, n % 30;
    var j := if m <= k then q * 30 + k else q * 30 + 30 + k;
    assert j % 30 == k;
    CardAtPair(j, id);
  }

  /** Position `n` hands out the pair at `n` modulo the rotation's length. */
  lemma CardAtPair(n: nat, id: string)
    ensures (CardAt(n, id).start_title, CardAt(n, id).target_title) == CuratedPairs[n % |CuratedPairs|]
  {
  }

  /** Every card of the rotation is a race between two different articles. */
  lemma PairsAreRaces(n: nat, id: string)
    ensures CardAt(n, id).start_title != CardAt(n, id).target_title
  {
    var i := n % |CuratedPairs|;
    assert forall k :: 0 <= k < |CuratedPairs| ==> CuratedPairs[k].0[0] != CuratedPairs[k].1[0] || |CuratedPairs[k].0| != |CuratedPairs[k].1|;
    assert CuratedPairs[i].0[0] != CuratedPairs[i].1[0] || |CuratedPairs[i].0| != |CuratedPairs[i].1|;
  }

  /** The generator and the rotation position it shares across requests (`pairIndex`). */
  class CardGenerator {
    var pairIndex: nat

    constructor ()
      ensures pairIndex == 0
    {
      pairIndex := 0;
    }

    /** `generateCard`: the card at the current position, then the position moves on. */
    method GenerateCard(id: string) returns (card: WikiCard)
      modifies this
      ensures card == CardAt(old(pairIndex), id)
      ensures pairIndex == old(pairIndex) + 1
    {
      var pair := CuratedPairs[pairIndex % |CuratedPairs|];
      pairIndex := pairIndex + 1;
      card := WikiCard(id, pair.0, pair.1, CardLanguage, CardMaxSteps);
    }

    /**
     * `generateCards(count)`: `count` cards in a row, one `generateCard` call
     * each; a negative count gives none. `ids` holds the ids `uuid()` returns.
     */
    method GenerateCards(count: int, ids: seq<string>) returns (cards: seq<WikiCard>)
      requires |ids| == if count < 0 then 0 else count
      modifies this
      ensures |cards| == |ids|
      ensures forall i :: 0 <= i < |cards| ==> cards[i] == CardAt(old(pairIndex) + i, ids[i])
      ensures pairIndex == old(pairIndex) + |ids|
    {
      hide CardAt, CuratedPairs;
      cards := [];
      var i := 0;
      while i < |ids|
        invariant 0 <= i <= |ids| && |cards| == i
        invariant pairIndex == old(pairIndex) + i
        invariant forall k :: 0 <= k < i ==> cards[k] == CardAt(old(pairIndex) + k, ids[k])
      {
        var card := GenerateCard(ids[i]);
        cards := cards + [card];
        i := i + 1;
      }
    }
  }
}
