/**
 * Envido and Flor values of a hand. Both group the hand by suit; a suit's
 * group is keyed in order of first appearance (the key order of the
 * source's `suitGroups` object).
 */
module Envido {
  import opened Cards

  function Max(a: int, b: int): int {
    if a >= b then a else b
  }

  /** A card's Envido value: face cards (10, 11, 12) count 0, the others their rank. */
  function CardValue(c: Card): (v: int)
    ensures 0 <= v <= 7
  {
    if c.rank >= 10 then 0 else c.rank
  }

  function Values(cards: seq<Card>): (vs: seq<int>)
    ensures |vs| == |cards|
  {
    seq(|cards|, k requires 0 <= k < |cards| => CardValue(cards[k]))
  }

  /** Left-to-right sum, as `reduce((sum, value) => sum + value, 0)`. */
  function Sum(vs: seq<int>): int {
    if vs == [] then 0 else Sum(vs[..|vs| - 1]) + vs[|vs| - 1]
  }

  /** The cards of `hand` of suit `s`, in hand order. */
  function SuitCards(hand: seq<Card>, s: Suit): (r: seq<Card>)
    ensures |r| <= |hand|
    ensures forall c :: c in r ==> c in hand && c.suit == s
  {
    if hand == [] then []
    else
      var init, last := hand[..|hand| - 1], hand[|hand| - 1];
      SuitCards(init, s) + (if last.suit == s then [last] else [])
  }

  /** The suits of `hand` in order of first appearance. */
  function SuitOrder(hand: seq<Card>): seq<Suit> {
    if hand == [] then []
    else
      var o := SuitOrder(hand[..|hand| - 1]);
      if hand[|hand| - 1].suit in o then o else o + [hand[|hand| - 1].suit]
  }

  lemma {:induction false} SuitOrderMembers(hand: seq<Card>, s: Suit)
    ensures s in SuitOrder(hand) <==> SuitCards(hand, s) != []
  {
    if hand != [] {
      SuitOrderMembers(hand[..|hand| - 1], s);
    }
  }

  // ---------------------------------------------------------------------
  // The two highest values of a group (the source sorts descending and
  // takes the first two)

  function TopTwo(vs: seq<int>): (int, int)
    requires |vs| >= 2
  {
    if |vs| == 2 then
      (if vs[0] >= vs[1] then (vs[0], vs[1]) else (vs[1], vs[0]))
    else
      var p := TopTwo(vs[..|vs| - 1]);
      var x := vs[|vs| - 1];
      if x > p.0 then (x, p.0) else if x > p.1 then (p.0, x) else p
  }

  function TopTwoSum(vs: seq<int>): int
    requires |vs| >= 2
  {
    TopTwo(vs).0 + TopTwo(vs).1
  }

  /** Positions of the two values TopTwo picks: the first is a maximum, and
      every other position holds at most the second. */
  lemma {:induction false} TopTwoWitness(vs: seq<int>) returns (ih: nat, il: nat)
    requires |vs| >= 2
    ensures ih < |vs| && il < |vs| && ih != il
    ensures vs[ih] == TopTwo(vs).0 && vs[il] == TopTwo(vs).1
    ensures forall k :: 0 <= k < |vs| ==> vs[k] <= TopTwo(vs).0
    ensures forall k :: 0 <= k < |vs| && k != ih ==> vs[k] <= TopTwo(vs).1
  {
    if |vs| == 2 {
      if vs[0] >= vs[1] { ih, il := 0, 1; } else { ih, il := 1, 0; }
    } else {
      var n := |vs| - 1;
      var init := vs[..n];
      var h, l := TopTwoWitness(init);
      assert forall k :: 0 <= k < n ==> init[k] == vs[k];
      var x := vs[n];
      if x > TopTwo(init).0 {
        ih, il := n, h;
      } else if x > TopTwo(init).1 {
        ih, il := h, n;
      } else {
        ih, il := h, l;
      }
    }
  }

  /** TopTwoSum is the largest sum of two values at distinct positions. */
  lemma TopTwoIsBestPair(vs: seq<int>)
    requires |vs| >= 2
    ensures exists i, j :: 0 <= i < |vs| && 0 <= j < |vs| && i != j && TopTwoSum(vs) == vs[i] + vs[j]
    ensures forall i, j :: 0 <= i < |vs| && 0 <= j < |vs| && i != j ==> vs[i] + vs[j] <= TopTwoSum(vs)
  {
    var ih, il := TopTwoWitness(vs);
    assert TopTwoSum(vs) == vs[ih] + vs[il];
  }

  // ---------------------------------------------------------------------
  // Envido

  /** The best "two of a suit plus 20" over `suits`, 0 when no listed suit has two cards. */
  function BestPairScore(hand: seq<Card>, suits: seq<Suit>): (m: int)
    ensures m >= 0
  {
    if suits == [] then 0
    else
      var prev := BestPairScore(hand, suits[..|suits| - 1]);
      var cards := SuitCards(hand, suits[|suits| - 1]);
      if |cards| >= 2 then Max(prev, TopTwoSum(Values(cards)) + 20) else prev
  }

  /** Highest card value of the hand; -1 for an empty hand, where the source's
      `Math.max()` of nothing is -Infinity (lower than any card value). */
  function HighestValue(hand: seq<Card>): (v: int)
    ensures hand == [] ==> v == -1
    ensures hand != [] ==> 0 <= v <= 7 && v in Values(hand)
    ensures forall c :: c in hand ==> CardValue(c) <= v
  {
    if hand == [] then -1
    else
      var init := hand[..|hand| - 1];
      var h := HighestValue(init);
      assert forall c :: c in init ==> c in hand;
      assert Values(hand)[|hand| - 1] == CardValue(hand[|hand| - 1]);
      assert h in Values(init) ==> h in Values(hand) by {
        if h in Values(init) {
          var k :| 0 <= k < |init| && Values(init)[k] == h;
          assert Values(hand)[k] == h;
        }
      }
      Max(h, CardValue(hand[|hand| - 1]))
  }

  /** The specification of `calculateEnvidoPoints`. */
  function EnvidoValue(hand: seq<Card>): int {
    var m := BestPairScore(hand, SuitOrder(hand));
    if m == 0 then HighestValue(hand) else m
  }

  /** Every suit in `suits` with two or more cards scores at most BestPairScore. */
  lemma {:induction false} BestPairScoreUpper(hand: seq<Card>, suits: seq<Suit>, s: Suit)
    requires s in suits && |SuitCards(hand, s)| >= 2
    ensures TopTwoSum(Values(SuitCards(hand, s))) + 20 <= BestPairScore(hand, suits)
  {
    var n := |suits| - 1;
    if suits[n] != s {
      assert s in suits[..n] by {
        var k :| 0 <= k < |suits| && suits[k] == s;
        assert suits[..n][k] == s;
      }
      BestPairScoreUpper(hand, suits[..n], s);
    }
  }

  /** A non-zero BestPairScore is attained by some suit in `suits`. */
  lemma {:induction false} BestPairScoreWitness(hand: seq<Card>, suits: seq<Suit>) returns (s: Suit)
    requires BestPairScore(hand, suits) != 0
    ensures s in suits && |SuitCards(hand, s)| >= 2
    ensures BestPairScore(hand, suits) == TopTwoSum(Values(SuitCards(hand, s))) + 20
  {
    var n := |suits| - 1;
    var init := suits[..n];
    var prev := BestPairScore(hand, init);
    var cards := SuitCards(hand, suits[n]);
    if |cards| >= 2 && TopTwoSum(Values(cards)) + 20 >= prev {
      s := suits[n];
    } else {
      s := BestPairScoreWitness(hand, init);
      assert init[..] <= suits;
    }
  }

  /**
   * What the Envido value means: when some suit holds two or more cards it is
   * the best "two highest values of one suit plus 20"; otherwise it is the
   * highest single card value.
   */
  lemma EnvidoCharacterization(hand: seq<Card>)
    ensures (exists s :: |SuitCards(hand, s)| >= 2) ==>
      && 20 <= EnvidoValue(hand)
      && (forall s :: |SuitCards(hand, s)| >= 2 ==> TopTwoSum(Values(SuitCards(hand, s))) + 20 <= EnvidoValue(hand))
      && (exists s :: |SuitCards(hand, s)| >= 2 && EnvidoValue(hand) == TopTwoSum(Values(SuitCards(hand, s))) + 20)
    ensures (forall s :: |SuitCards(hand, s)| < 2) ==> EnvidoValue(hand) == HighestValue(hand)
  {
    var order := SuitOrder(hand);
    forall s | |SuitCards(hand, s)| >= 2
      ensures 0 <= TopTwoSum(Values(SuitCards(hand, s)))
      ensures TopTwoSum(Values(SuitCards(hand, s))) + 20 <= BestPairScore(hand, order)
    {
      SuitOrderMembers(hand, s);
      TopTwoIsBestPair(Values(SuitCards(hand, s)));
      BestPairScoreUpper(hand, order, s);
    }
    if BestPairScore(hand, order) != 0 {
      var s := BestPairScoreWitness(hand, order);
    }
  }

  lemma {:induction false} SuitCardsDistinct(hand: seq<Card>, s: Suit)
    requires DistinctFaces(hand)
    ensures DistinctFaces(SuitCards(hand, s))
  {
    if hand != [] {
      var n := |hand| - 1;
      var init, last := hand[..n], hand[n];
      assert DistinctFaces(init) by {
        forall i, j | 0 <= i < j < |init| ensures Face(init[i]) != Face(init[j]) {
          assert init[i] == hand[i] && init[j] == hand[j];
        }
      }
      SuitCardsDistinct(init, s);
      var prev := SuitCards(init, s);
      if last.suit == s {
        forall c | c in prev ensures Face(c) != Face(last) {
          var k :| 0 <= k < n && init[k] == c;
          assert hand[k] == c;
        }
        var r := prev + [last];
        forall i, j | 0 <= i < j < |r| ensures Face(r[i]) != Face(r[j]) {
          if j == |prev| {
            assert r[i] in prev;
          } else {
            assert r[i] == prev[i] && r[j] == prev[j];
          }
        }
      }
    }
  }

  /** On a non-empty hand whose cards have distinct faces the Envido value is in 0..33. */
  lemma EnvidoRange(hand: seq<Card>)
    requires hand != []
    requires DistinctFaces(hand)
    ensures 0 <= EnvidoValue(hand) <= 33
  {
    var order := SuitOrder(hand);
    var m := BestPairScore(hand, order);
    if m != 0 {
      var s := BestPairScoreWitness(hand, order);
      var cards := SuitCards(hand, s);
      var vs := Values(cards);
      SuitCardsDistinct(hand, s);
      var ih, il := TopTwoWitness(vs);
      assert cards[ih] in cards && cards[il] in cards;
      assert Face(cards[ih]) != Face(cards[il]) by {
        if ih < il { } else { }
      }
      assert vs[ih] + vs[il] <= 13;
    }
  }

  /** The Envido value is negative exactly for an empty hand, and then it is -1. */
  lemma EnvidoNegativeOnlyEmpty(hand: seq<Card>)
    ensures EnvidoValue(hand) >= -1
    ensures EnvidoValue(hand) < 0 <==> hand == []
  {
    if hand == [] {
      EmptyHandNoPair(SuitOrder(hand));
    }
  }

  /** An empty hand has no pair in any suit. */
  lemma {:induction false} EmptyHandNoPair(suits: seq<Suit>)
    ensures BestPairScore([], suits) == 0
  {
    if suits != [] {
      EmptyHandNoPair(suits[..|suits| - 1]);
    }
  }

  // ---------------------------------------------------------------------
  // Flor

  /** Some suit holds exactly three cards of the hand. */
  function HasFlor(hand: seq<Card>): bool {
    || |SuitCards(hand, Espadas)| == 3
    || |SuitCards(hand, Bastos)| == 3
    || |SuitCards(hand, Oros)| == 3
    || |SuitCards(hand, Copas)| == 3
  }

  lemma HasFlorMeaning(hand: seq<Card>)
    ensures HasFlor(hand) ==> exists s :: |SuitCards(hand, s)| == 3
    ensures (exists s :: |SuitCards(hand, s)| == 3) ==> HasFlor(hand)
  {
    forall s | |SuitCards(hand, s)| == 3 ensures HasFlor(hand) {
      match s
      case Espadas =>
      case Bastos =>
      case Oros =>
      case Copas =>
    }
    if HasFlor(hand) {
      var s :| s in Suits && |SuitCards(hand, s)| == 3;
    }
  }

  /** The first suit of `order` with exactly three cards scores its sum plus 20; none scores 0. */
  function FirstFlorValue(hand: seq<Card>, order: seq<Suit>): int {
    if order == [] then 0
    else
      var cards := SuitCards(hand, order[0]);
      if |cards| == 3 then Sum(Values(cards)) + 20 else FirstFlorValue(hand, order[1..])
  }

  /** The specification of `calculateFlorPoints`. */
  function FlorValue(hand: seq<Card>): int {
    FirstFlorValue(hand, SuitOrder(hand))
  }

  lemma {:induction false} SumNonNegative(vs: seq<int>)
    requires forall k :: 0 <= k < |vs| ==> vs[k] >= 0
    ensures Sum(vs) >= 0
  {
    if vs != [] {
      SumNonNegative(vs[..|vs| - 1]);
    }
  }

  lemma {:induction false} FirstFlorValueSpec(hand: seq<Card>, order: seq<Suit>)
    ensures (forall s :: s in order ==> |SuitCards(hand, s)| != 3) ==> FirstFlorValue(hand, order) == 0
    ensures (exists s :: s in order && |SuitCards(hand, s)| == 3) ==>
      exists s :: s in order && |SuitCards(hand, s)| == 3 &&
        FirstFlorValue(hand, order) == Sum(Values(SuitCards(hand, s))) + 20
  {
    if order != [] {
      FirstFlorValueSpec(hand, order[1..]);
      assert forall s :: s in order ==> s == order[0] || s in order[1..];
      assert forall s :: s in order[1..] ==> s in order;
    }
  }

  /**
   * What the Flor value means: with a suit of exactly three cards it is that
   * suit's summed values plus 20 (at least 20); without one it is 0.
   */
  lemma FlorCharacterization(hand: seq<Card>)
    ensures HasFlor(hand) ==>
      exists s :: |SuitCards(hand, s)| == 3 && FlorValue(hand) == Sum(Values(SuitCards(hand, s))) + 20
    ensures HasFlor(hand) ==> FlorValue(hand) >= 20
    ensures !HasFlor(hand) ==> FlorValue(hand) == 0
  {
    var order := SuitOrder(hand);
    FirstFlorValueSpec(hand, order);
    HasFlorMeaning(hand);
    if HasFlor(hand) {
      var s :| |SuitCards(hand, s)| == 3;
      SuitOrderMembers(hand, s);
      var t :| t in order && |SuitCards(hand, t)| == 3 && FlorValue(hand) == Sum(Values(SuitCards(hand, t))) + 20;
      SumNonNegative(Values(SuitCards(hand, t)));
    }
  }

  lemma {:induction false} SuitCardsFull(hand: seq<Card>, s: Suit)
    requires |SuitCards(hand, s)| == |hand|
    ensures SuitCards(hand, s) == hand
  {
    if hand != [] {
      var init := hand[..|hand| - 1];
      assert hand[|hand| - 1].suit == s;
      SuitCardsFull(init, s);
      assert hand == init + [hand[|hand| - 1]];
    }
  }

  /** A three-card hand with Flor scores the sum of all its values plus 20. */
  lemma FlorOfThreeCards(hand: seq<Card>)
    requires |hand| == 3 && HasFlor(hand)
    ensures FlorValue(hand) == Sum(Values(hand)) + 20
  {
    FlorCharacterization(hand);
    var s :| |SuitCards(hand, s)| == 3 && FlorValue(hand) == Sum(Values(SuitCards(hand, s))) + 20;
    SuitCardsFull(hand, s);
  }

  // ---------------------------------------------------------------------
  // The source's loops

  /** The source's `suitGroups` loop: one group per suit present, in hand order. */
  method GroupBySuit(hand: seq<Card>) returns (groups: map<Suit, seq<Card>>, order: seq<Suit>)
    ensures order == SuitOrder(hand)
    ensures forall s :: s in groups <==> s in order
    ensures forall s :: s in groups ==> groups[s] == SuitCards(hand, s)
  {
    groups, order := map[], [];
    for i := 0 to |hand|
      invariant order == SuitOrder(hand[..i])
      invariant forall s :: s in groups <==> s in order
      invariant forall s :: s in groups ==> groups[s] == SuitCards(hand[..i], s)
      invariant forall s :: s !in groups ==> SuitCards(hand[..i], s) == []
    {
      assert hand[..i + 1][..i] == hand[..i];
      var c := hand[i];
      if c.suit !in groups {
        groups := groups[c.suit := []];
        order := order + [c.suit];
      }
      groups := groups[c.suit := groups[c.suit] + [c]];
    }
    assert hand[..|hand|] == hand;
  }

  method CalculateEnvidoPoints(hand: seq<Card>) returns (points: int)
    ensures points == EnvidoValue(hand)
  {
    var groups, order := GroupBySuit(hand);
    var maxPoints := 0;
    for k := 0 to |order|
      invariant maxPoints == BestPairScore(hand, order[..k])
    {
      assert order[..k + 1][..k] == order[..k];
      var cards := groups[order[k]];
      if |cards| >= 2 {
        var suitPoints := TopTwoSum(Values(cards)) + 20;
        maxPoints := Max(maxPoints, suitPoints);
      }
    }
    assert order[..|order|] == order;
    if maxPoints == 0 {
      maxPoints := HighestValue(hand);
    }
    points := maxPoints;
  }

  method CalculateFlorPoints(hand: seq<Card>) returns (points: int)
    ensures points == FlorValue(hand)
  {
    var groups, order := GroupBySuit(hand);
    for k := 0 to |order|
      invariant FirstFlorValue(hand, order[k..]) == FlorValue(hand)
    {
      assert order[k..][1..] == order[k + 1..];
      var cards := groups[order[k]];
      if |cards| == 3 {
        return Sum(Values(cards)) + 20;
      }
    }
    return 0;
  }
}
