/**
 * The Spanish 40-card deck used by Argentine Truco, the static trick-taking
 * strength table, and deck creation (build in suit-major order, then a
 * Fisher-Yates shuffle).
 */
module Cards {

  datatype Suit = Espadas | Bastos | Oros | Copas

  /** The ten ranks of the Spanish deck: there are no 8s and no 9s. */
  type Rank = r: int | r in {1, 2, 3, 4, 5, 6, 7, 10, 11, 12} witness 1

  datatype Card = Card(suit: Suit, rank: Rank, id: string)

  /** The suits and ranks in the order `createDeck` walks them. */
  const Suits: seq<Suit> := [Espadas, Bastos, Oros, Copas]
  const Ranks: seq<Rank> := [1, 2, 3, 4, 5, 6, 7, 10, 11, 12]

  function SuitName(s: Suit): string {
    match s
    case Espadas => "espadas"
    case Bastos => "bastos"
    case Oros => "oros"
    case Copas => "copas"
  }

  function RankText(r: Rank): string {
    if r == 1 then "1" else if r == 2 then "2" else if r == 3 then "3"
    else if r == 4 then "4" else if r == 5 then "5" else if r == 6 then "6"
    else if r == 7 then "7" else if r == 10 then "10" else if r == 11 then "11" else "12"
  }

  /** The key `rank-suit` under which the strength table files a card. */
  function CardKey(c: Card): string {
    RankText(c.rank) + "-" + SuitName(c.suit)
  }

  /**
   * The strength table: higher is stronger. Every (rank, suit) pair of the
   * deck has an entry, so the source's fallback value 0 is never used.
   */
  function Strength(suit: Suit, rank: Rank): (v: int)
    ensures 1 <= v <= 14
  {
    if rank == 1 then
      (if suit == Espadas then 14 else if suit == Bastos then 13 else 8)
    else if rank == 7 then
      (if suit == Espadas then 12 else if suit == Oros then 11 else 4)
    else if rank == 3 then 10
    else if rank == 2 then 9
    else if rank == 12 then 7
    else if rank == 11 then 6
    else if rank == 10 then 5
    else if rank == 6 then 3
    else if rank == 5 then 2
    else 1
  }

  function CardStrength(c: Card): int {
    Strength(c.suit, c.rank)
  }

  /** -1, 0 or 1 as `a` is weaker than, as strong as, or stronger than `b`. */
  function CompareCards(a: Card, b: Card): (r: int)
    ensures r == 1 <==> CardStrength(a) > CardStrength(b)
    ensures r == -1 <==> CardStrength(a) < CardStrength(b)
    ensures r == 0 <==> CardStrength(a) == CardStrength(b)
  {
    var av := CardStrength(a);
    var bv := CardStrength(b);
    if av > bv then 1 else if av < bv then -1 else 0
  }

  lemma CompareAntisymmetric(a: Card, b: Card)
    ensures CompareCards(a, b) == -CompareCards(b, a)
  {
  }

  lemma CompareTransitive(a: Card, b: Card, c: Card)
    ensures CompareCards(a, b) >= 0 && CompareCards(b, c) >= 0 ==> CompareCards(a, c) >= 0
    ensures CompareCards(a, b) > 0 && CompareCards(b, c) >= 0 ==> CompareCards(a, c) > 0
  {
  }

  /** The tie classes of the table: same-rank 2s, 3s, faces, 6s, 5s and 4s tie
      across all suits; the two weak aces tie; the two weak sevens tie. */
  lemma CompareTies(a: Card, b: Card)
    ensures a.rank == b.rank && a.rank in {2, 3, 4, 5, 6, 10, 11, 12} ==> CompareCards(a, b) == 0
    ensures a.rank == b.rank == 1 && a.suit in {Oros, Copas} && b.suit in {Oros, Copas} ==> CompareCards(a, b) == 0
    ensures a.rank == b.rank == 7 && a.suit in {Bastos, Copas} && b.suit in {Bastos, Copas} ==> CompareCards(a, b) == 0
  {
  }

  /** The four top cards are strictly ordered and beat every other card:
      1 of espadas, then 1 of bastos, then 7 of espadas, then 7 of oros. */
  lemma TopCardsOrder(c: Card)
    ensures CardStrength(c) == 14 <==> c.rank == 1 && c.suit == Espadas
    ensures CardStrength(c) == 13 <==> c.rank == 1 && c.suit == Bastos
    ensures CardStrength(c) == 12 <==> c.rank == 7 && c.suit == Espadas
    ensures CardStrength(c) == 11 <==> c.rank == 7 && c.suit == Oros
    ensures CardStrength(c) <= 10 <==> !(c.rank == 1 && c.suit in {Espadas, Bastos}) && !(c.rank == 7 && c.suit in {Espadas, Oros})
  {
  }

  // ---------------------------------------------------------------------
  // The deck

  function Face(c: Card): (Suit, Rank) {
    (c.suit, c.rank)
  }

  function Faces(d: seq<Card>): (fs: seq<(Suit, Rank)>)
    ensures |fs| == |d|
  {
    seq(|d|, k requires 0 <= k < |d| => Face(d[k]))
  }

  /** No two cards of `d` share a (suit, rank) pair. */
  ghost predicate DistinctFaces(d: seq<Card>) {
    forall i, j :: 0 <= i < j < |d| ==> Face(d[i]) != Face(d[j])
  }

  /** `d` is a Spanish deck: 40 cards, each (suit, rank) pair exactly once. */
  ghost predicate IsSpanishDeck(d: seq<Card>) {
    && |d| == 40
    && DistinctFaces(d)
    && forall s: Suit, r: Rank :: (s, r) in Faces(d)
  }

  /** The (suit, rank) pairs in the order `createDeck` emits them, before shuffling. */
  function StandardFaces(): (fs: seq<(Suit, Rank)>)
    ensures |fs| == 40
  {
    seq(40, k requires 0 <= k < 40 => (Suits[k / 10], Ranks[k % 10]))
  }

  function SuitIndex(s: Suit): (k: nat)
    ensures k < 4 && Suits[k] == s
  {
    match s
    case Espadas => 0
    case Bastos => 1
    case Oros => 2
    case Copas => 3
  }

  function RankIndex(r: Rank): (k: nat)
    ensures k < 10 && Ranks[k] == r
  {
    if r <= 7 then r - 1 else r - 3
  }

  lemma StandardFacesDistinct()
    ensures forall i, j :: 0 <= i < j < 40 ==> StandardFaces()[i] != StandardFaces()[j]
  {
    forall i, j | 0 <= i < j < 40
      ensures StandardFaces()[i] != StandardFaces()[j]
    {
      var si, sj, ri, rj := i / 10, j / 10, i % 10, j % 10;
      assert i == 10 * si + ri && j == 10 * sj + rj;
      if si != sj {
        assert SuitIndex(Suits[si]) == si && SuitIndex(Suits[sj]) == sj;
      } else {
        assert RankIndex(Ranks[ri]) == ri && RankIndex(Ranks[rj]) == rj;
      }
    }
  }

  lemma StandardFacesComplete(s: Suit, r: Rank)
    ensures (s, r) in StandardFaces()
  {
    var k := 10 * SuitIndex(s) + RankIndex(r);
    assert k / 10 == SuitIndex(s) && k % 10 == RankIndex(r);
    assert StandardFaces()[k] == (s, r);
  }

  /** Two positions holding the same element make it occur at least twice. */
  lemma {:induction false} CountAtLeastTwo<T>(s: seq<T>, i: int, j: int)
    requires 0 <= i < j < |s| && s[i] == s[j]
    ensures multiset(s)[s[i]] >= 2
  {
    assert s == s[..j] + s[j..];
    assert s[i] in s[..j];
    assert s[j] in s[j..];
    assert multiset(s) == multiset(s[..j]) + multiset(s[j..]);
  }

  /** In a deck without repeated faces every card occurs once. */
  lemma {:induction false} DistinctFacesCountOne(d: seq<Card>, c: Card)
    requires DistinctFaces(d)
    ensures multiset(d)[c] <= 1
  {
    if d != [] {
      assert DistinctFaces(d[1..]) by {
        forall i, j | 0 <= i < j < |d[1..]| ensures Face(d[1..][i]) != Face(d[1..][j]) {
          assert d[1..][i] == d[i + 1] && d[1..][j] == d[j + 1];
        }
      }
      DistinctFacesCountOne(d[1..], c);
      assert d == [d[0]] + d[1..];
      if d[0] == c {
        forall k | 0 <= k < |d[1..]| ensures d[1..][k] != c {
          assert d[1..][k] == d[k + 1];
        }
        assert c !in d[1..];
      }
    }
  }

  /** Any permutation of a Spanish deck is a Spanish deck. */
  lemma PermutedSpanishDeck(a: seq<Card>, b: seq<Card>)
    requires IsSpanishDeck(a)
    requires multiset(a) == multiset(b)
    ensures IsSpanishDeck(b)
  {
    assert |b| == |multiset(b)| == |multiset(a)| == |a|;
    forall s: Suit, r: Rank ensures (s, r) in Faces(b) {
      var k :| 0 <= k < |a| && Faces(a)[k] == (s, r);
      assert a[k] in multiset(b);
      var m :| 0 <= m < |b| && b[m] == a[k];
      assert Faces(b)[m] == (s, r);
    }
    forall i, j | 0 <= i < j < |b| ensures Face(b[i]) != Face(b[j]) {
      if Face(b[i]) == Face(b[j]) {
        assert b[i] in multiset(a) && b[j] in multiset(a);
        var p :| 0 <= p < |a| && a[p] == b[i];
        var q :| 0 <= q < |a| && a[q] == b[j];
        assert p == q;
        CountAtLeastTwo(b, i, j);
        DistinctFacesCountOne(a, b[i]);
        assert false;
      }
    }
  }

  /**
   * The source's `shuffleDeck`: copy the input, then for i from the last
   * index down to 1 swap slot i with a random slot j in 0..i. The random
   * draw for step i is `roll(i) % (i + 1)`, which can be any index in 0..i.
   */
  method ShuffleDeck(deck: seq<Card>, roll: nat -> nat) returns (shuffled: seq<Card>)
    ensures |shuffled| == |deck|
    ensures multiset(shuffled) == multiset(deck)
  {
    var a := new Card[|deck|](k requires 0 <= k < |deck| => deck[k]);
    assert a[..] == deck;
    var i := a.Length - 1;
    while i > 0
      invariant -1 <= i < a.Length
      invariant multiset(a[..]) == multiset(deck)
    {
      var j := roll(i) % (i + 1);
      a[i], a[j] := a[j], a[i];
      i := i - 1;
    }
    shuffled := a[..];
  }

  /** The figures are ranked apart: any 12 beats any 11, which beats any 10. */
  lemma FiguresRanked(rey: Card, caballo: Card, sota: Card)
    requires rey.rank == 12 && caballo.rank == 11 && sota.rank == 10
    ensures CompareCards(rey, caballo) == 1 && CompareCards(caballo, sota) == 1
    ensures CompareCards(rey, sota) == 1
  {
  }

  /** The card built at step (suit si, rank ri) sits at index 10 * si + ri. */
  lemma StandardFaceAt(si: nat, ri: nat)
    requires si < 4 && ri < 10
    ensures 10 * si + ri < 40 && StandardFaces()[10 * si + ri] == (Suits[si], Ranks[ri])
  {
    var k := 10 * si + ri;
    assert k / 10 == si && k % 10 == ri;
  }

  /** The cards of `d` follow the faces `fs` from the start, and each id starts with its face's key. */
  ghost predicate BuiltInOrder(d: seq<Card>, fs: seq<(Suit, Rank)>) {
    && |d| <= |fs|
    && (forall k :: 0 <= k < |d| ==> Face(d[k]) == fs[k])
    && (forall c :: c in d ==> CardKey(c) + "-" <= c.id)
  }

  lemma AppendInOrder(d: seq<Card>, fs: seq<(Suit, Rank)>, card: Card)
    requires BuiltInOrder(d, fs) && |d| < |fs|
    requires Face(card) == fs[|d|] && CardKey(card) + "-" <= card.id
    ensures BuiltInOrder(d + [card], fs)
  {
    var e := d + [card];
    forall k | 0 <= k < |e| ensures Face(e[k]) == fs[k] {
      if k < |d| { assert e[k] == d[k]; }
    }
  }

  /**
   * The first half of the source's `createDeck`: one card per suit and rank,
   * suit-major, each with id `rank-suit-<random>` (the random suffix of the
   * k-th card built is `nonce(k)`).
   */
  method BuildOrderedDeck(nonce: nat -> string) returns (ordered: seq<Card>)
    ensures Faces(ordered) == StandardFaces()
    ensures forall c :: c in ordered ==> CardKey(c) + "-" <= c.id
  {
    ordered := [];
    for si := 0 to |Suits|
      invariant |ordered| == 10 * si
      invariant BuiltInOrder(ordered, StandardFaces())
    {
      for ri := 0 to |Ranks|
        invariant |ordered| == 10 * si + ri
        invariant BuiltInOrder(ordered, StandardFaces())
      {
        var card := Card(Suits[si], Ranks[ri], RankText(Ranks[ri]) + "-" + SuitName(Suits[si]) + "-" + nonce(|ordered|));
        StandardFaceAt(si, ri);
        AppendInOrder(ordered, StandardFaces(), card);
        ordered := ordered + [card];
      }
    }
    assert forall k :: 0 <= k < 40 ==> Faces(ordered)[k] == StandardFaces()[k];
  }

  /** The source's `createDeck`: the 40 cards built in order, then shuffled. */
  method CreateDeck(nonce: nat -> string, roll: nat -> nat) returns (deck: seq<Card>)
    ensures IsSpanishDeck(deck)
    ensures forall c :: c in deck ==> CardKey(c) + "-" <= c.id
  {
    var ordered := BuildOrderedDeck(nonce);
    StandardFacesDistinct();
    assert DistinctFaces(ordered) by {
      forall i, j | 0 <= i < j < |ordered| ensures Face(ordered[i]) != Face(ordered[j]) {
        assert Faces(ordered)[i] == Face(ordered[i]) && Faces(ordered)[j] == Face(ordered[j]);
      }
    }
    forall s: Suit, r: Rank ensures (s, r) in Faces(ordered) {
      StandardFacesComplete(s, r);
    }
    deck := ShuffleDeck(ordered, roll);
    PermutedSpanishDeck(ordered, deck);
    forall c | c in deck ensures CardKey(c) + "-" <= c.id {
      assert c in multiset(ordered);
    }
  }
}
