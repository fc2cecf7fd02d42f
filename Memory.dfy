/** The memory game: a deck of Italian and Polish cards for up to eight
    ingredient pairs, turned over two at a time; a matching couple stays
    open and scores a point. */
module Memory {
  import opened Text
  import opened Catalog
  import opened Shuffling
  import opened Scores

  /** `numPairs`: how many pairs the deck is built from at most. */
  const NumPairs: nat := 8

  /** A card: its id, the word shown on it and the word of its partner. */
  datatype Card = Card(id: string, text: string, matchText: string)

  /** The Italian card of a pair. */
  function ItCard(p: Ingredient): Card
  {
    Card(p.it + "_it", p.it, p.pl)
  }

  /** The Polish card of a pair. */
  function PlCard(p: Ingredient): Card
  {
    Card(p.pl + "_pl", p.pl, p.it)
  }

  /** The cards pushed for the chosen pairs: for each pair its Italian card,
      then its Polish card. */
  function CardsOf(pairs: seq<Ingredient>): (cards: seq<Card>)
    ensures |cards| == 2 * |pairs|
  {
    if pairs == [] then []
    else CardsOf(pairs[..|pairs| - 1]) + [ItCard(pairs[|pairs| - 1]), PlCard(pairs[|pairs| - 1])]
  }

  /** Card positions 2i and 2i+1 are the two cards of pair i. */
  lemma {:induction false} CardsOfAt(pairs: seq<Ingredient>, i: nat)
    requires i < |pairs|
    ensures CardsOf(pairs)[2 * i] == ItCard(pairs[i]) && CardsOf(pairs)[2 * i + 1] == PlCard(pairs[i])
  {
    var n := |pairs| - 1;
    if i < n {
      CardsOfAt(pairs[..n], i);
    }
  }

  /** `checkMatch`'s test: each card shows the other's partner word. */
  predicate Matches(a: Card, b: Card)
  {
    a.text == b.matchText && b.text == a.matchText
  }

  /** The two cards of a pair match each other, and they are different
      cards (their ids carry different suffixes). */
  lemma PairCardsMatch(p: Ingredient)
    ensures Matches(ItCard(p), PlCard(p)) && Matches(PlCard(p), ItCard(p))
    ensures ItCard(p) != PlCard(p)
  {
    var a := ItCard(p).id;
    assert a[|a| - 1] == 't';
  }

  /** Every card of a deck built from some pairs has a different card in the
      deck that it matches. */
  lemma DeckCardsHavePartners(deck: seq<Card>, pairs: seq<Ingredient>)
    requires multiset(deck) == multiset(CardsOf(pairs))
    ensures forall c :: c in deck ==> exists c2 :: c2 in deck && c2 != c && Matches(c, c2)
  {
    var cards := CardsOf(pairs);
    forall c | c in deck
      ensures exists c2 :: c2 in deck && c2 != c && Matches(c, c2)
    {
      assert c in multiset(cards);
      var k :| 0 <= k < |cards| && cards[k] == c;
      var other := CardPartner(pairs, k);
      assert other in multiset(cards);
      assert other in multiset(deck);
    }
  }

  /** The other card of the pair a card was made for. */
  lemma CardPartner(pairs: seq<Ingredient>, k: nat) returns (other: Card)
    requires k < |CardsOf(pairs)|
    ensures other in CardsOf(pairs) && other != CardsOf(pairs)[k] && Matches(CardsOf(pairs)[k], other)
  {
    var i := k / 2;
    CardsOfAt(pairs, i);
    PairCardsMatch(pairs[i]);
    if k == 2 * i {
      other := CardsOf(pairs)[k + 1];
    } else {
      other := CardsOf(pairs)[k - 1];
    }
  }

  /** The deck of `startMemoryGame`: the first `numPairs` pairs of a shuffled
      copy, two cards each, shuffled. */
  method BuildDeck(pairs: seq<Ingredient>) returns (deck: seq<Card>, chosen: seq<Ingredient>)
    ensures |chosen| == Min(NumPairs, |pairs|)
    ensures multiset(chosen) <= multiset(pairs)
    ensures |deck| == 2 * |chosen|
    ensures multiset(deck) == multiset(CardsOf(chosen))
  {
    var shuffled := ShuffledCopy(pairs);
    var n := Min(NumPairs, |shuffled|);
    chosen := shuffled[..n];
    assert shuffled == chosen + shuffled[n..];
    assert multiset(shuffled) == multiset(chosen) + multiset(shuffled[n..]);
    var cards: seq<Card> := [];
    var i := 0;
    while i < |chosen|
      invariant 0 <= i <= |chosen|
      invariant cards == CardsOf(chosen[..i])
    {
      assert chosen[..i + 1][..i] == chosen[..i];
      cards := cards + [ItCard(chosen[i]), PlCard(chosen[i])];
      i := i + 1;
    }
    assert chosen[..i] == chosen;
    deck := ShuffledCopy(cards);
  }

  /** The number of set flags. */
  function CountTrue(s: seq<bool>): nat
  {
    if s == [] then 0 else CountTrue(s[..|s| - 1]) + (if s[|s| - 1] then 1 else 0)
  }

  lemma {:induction false} CountTrueBounds(s: seq<bool>)
    ensures CountTrue(s) <= |s|
    ensures CountTrue(s) == |s| <==> forall i :: 0 <= i < |s| ==> s[i]
  {
    if s != [] {
      var init := s[..|s| - 1];
      CountTrueBounds(init);
      assert forall i :: 0 <= i < |init| ==> init[i] == s[i];
    }
  }

  lemma {:induction false} CountTrueUpdate(s: seq<bool>, k: nat, b: bool)
    requires k < |s|
    ensures CountTrue(s[k := b]) == CountTrue(s) - (if s[k] then 1 else 0) + (if b then 1 else 0)
  {
    var n := |s| - 1;
    if k < n {
      assert s[k := b][..n] == s[..n][k := b];
      CountTrueUpdate(s[..n], k, b);
    } else {
      assert s[k := b][..n] == s[..n];
    }
  }

  lemma CountTrueNone(n: nat)
    ensures CountTrue(seq(n, _ => false)) == 0
  {
    if n > 0 {
      assert seq(n, _ => false)[..n - 1] == seq(n - 1, _ => false);
      CountTrueNone(n - 1);
    }
  }

  /** The end-of-game test as written: the matched count against
      `numPairs`. */
  predicate EndCheckAsWritten(matchedCount: nat)
  {
    matchedCount == NumPairs
  }

  /** A deck of one pair, both cards matched: the game is complete, yet the
      test as written does not fire. */
  lemma EndCheckAsWrittenMissesSmallDeck()
    ensures CountTrue([true, true]) == |CardsOf([Ingredient("sale", "sól")])|
    ensures !EndCheckAsWritten(CountTrue([true, true]) / 2)
  {
    assert [true, true][..1] == [true];
    assert [true][..0] == [];
  }

  /** The consistency of the board: matched cards stay face up, the face-up
      cards that are not matched are exactly the selected ones, a second
      card is only selected after a first one and locks the board, and two
      matched cards count as one matched pair. */
  ghost predicate Board(n: nat, revealed: seq<bool>, matched: seq<bool>, first: Option<nat>, second: Option<nat>, lock: bool, count: nat)
  {
    && |revealed| == n && |matched| == n
    && (forall i :: 0 <= i < n && matched[i] ==> revealed[i])
    && (first.Some? ==> first.value < n && revealed[first.value] && !matched[first.value])
    && (second.Some? ==>
          first.Some? && second.value < n && second.value != first.value && revealed[second.value] && !matched[second.value])
    && (lock <==> second.Some?)
    && (forall i :: 0 <= i < n && revealed[i] && !matched[i] ==> first == Some(i) || second == Some(i))
    && CountTrue(matched) == 2 * count
  }

  /** A matching couple marked matched, then the pair reset. */
  lemma SettleMatchBoard(n: nat, revealed: seq<bool>, matched: seq<bool>, f: nat, s: nat, count: nat)
    requires Board(n, revealed, matched, Some(f), Some(s), true, count)
    ensures Board(n, revealed, matched[f := true][s := true], None, None, false, count + 1)
  {
    CountTrueUpdate(matched, f, true);
    CountTrueUpdate(matched[f := true], s, true);
  }

  /** A couple that does not match turned back, then the pair reset. */
  lemma SettleMissBoard(n: nat, revealed: seq<bool>, matched: seq<bool>, f: nat, s: nat, count: nat)
    requires Board(n, revealed, matched, Some(f), Some(s), true, count)
    ensures Board(n, revealed[f := false][s := false], matched, None, None, false, count)
  {
  }

  /** The state `startMemoryGame` keeps for one game. */
  class MemoryGame {
    var deckPairs: seq<Ingredient>
    var deck: seq<Card>
    /** `dataset.revealed === 'true'` per card */
    var revealed: seq<bool>
    /** the `matched` class per card */
    var matched: seq<bool>
    var firstCard: Option<nat>
    var secondCard: Option<nat>
    var lockBoard: bool
    var matchedCount: nat
    /** whether the end-of-game message has been shown */
    var finished: bool

    ghost predicate Valid()
      reads this
    {
      && |deck| == 2 * |deckPairs|
      && Board(|deck|, revealed, matched, firstCard, secondCard, lockBoard, matchedCount)
      && (finished ==> matchedCount == |deckPairs|)
    }

    /** A new game: the deck built from the pairs, every card face down. */
    constructor(pairs: seq<Ingredient>)
      ensures Valid()
      ensures |deckPairs| == Min(NumPairs, |pairs|) && multiset(deckPairs) <= multiset(pairs)
      ensures multiset(deck) == multiset(CardsOf(deckPairs))
      ensures forall i :: 0 <= i < |deck| ==> !revealed[i] && !matched[i]
      ensures firstCard == None && secondCard == None && !lockBoard && matchedCount == 0 && !finished
    {
      var d, chosen := BuildDeck(pairs);
      deckPairs := chosen;
      deck := d;
      revealed := seq(|d|, _ => false);
      matched := seq(|d|, _ => false);
      firstCard := None;
      secondCard := None;
      lockBoard := false;
      matchedCount := 0;
      finished := false;
      CountTrueNone(|d|);
    }

    /** A click on card i: ignored while the board is locked or the card is
        face up; otherwise the card is turned, and becomes the first card, or
        the second one, which starts `checkMatch` and locks the board. */
    method Click(i: nat)
      requires Valid() && i < |deck|
      modifies this
      ensures Valid()
      ensures deck == old(deck) && deckPairs == old(deckPairs) && matched == old(matched)
      ensures matchedCount == old(matchedCount) && finished == old(finished)
      ensures old(lockBoard) || old(revealed[i]) ==>
        revealed == old(revealed) && firstCard == old(firstCard) && secondCard == old(secondCard) && lockBoard == old(lockBoard)
      ensures !old(lockBoard) && !old(revealed[i]) ==>
        && revealed == old(revealed)[i := true]
        && (old(firstCard).None? ==> firstCard == Some(i) && secondCard == None && !lockBoard)
        && (old(firstCard).Some? ==> firstCard == old(firstCard) && secondCard == Some(i) && lockBoard)
    {
      if lockBoard || revealed[i] {
        return;
      }
      revealed := revealed[i := true];
      if firstCard.None? {
        firstCard := Some(i);
      } else {
        secondCard := Some(i);
        lockBoard := true;
      }
    }

    /** `resetPair`: both selections cleared, the board unlocked. */
    method ResetPair()
      modifies this
      ensures firstCard == None && secondCard == None && !lockBoard
      ensures deck == old(deck) && deckPairs == old(deckPairs) && revealed == old(revealed) && matched == old(matched)
      ensures matchedCount == old(matchedCount) && finished == old(finished)
    {
      firstCard, secondCard := None, None;
      lockBoard := false;
    }

    /** The delayed part of `checkMatch`: a matching couple is marked
        matched, counts, scores a point through `addPoints(1)` and ends the
        game once every pair is matched; a couple that does not match is
        turned back. Either way the pair is reset. */
    method Settle(store: ScoreStore, currentPlayer: Option<string>) returns (wasMatch: bool)
      requires Valid() && lockBoard
      modifies this, store
      ensures Valid()
      ensures firstCard == None && secondCard == None && !lockBoard
      ensures deck == old(deck) && deckPairs == old(deckPairs)
      ensures wasMatch <==> Matches(deck[old(firstCard).value], deck[old(secondCard).value])
      ensures wasMatch ==>
        && matched == old(matched)[old(firstCard).value := true][old(secondCard).value := true]
        && revealed == old(revealed)
        && matchedCount == old(matchedCount) + 1
        && (currentPlayer == None || currentPlayer == Some("") ==> store.stored == old(store.stored))
        && (currentPlayer.Some? && currentPlayer.value != "" ==>
              store.stored == StoredAfterAdd(old(store.stored), currentPlayer.value, 1))
        && (finished <==> old(finished) || forall i :: 0 <= i < |deck| ==> matched[i])
      ensures !wasMatch ==>
        && matched == old(matched)
        && revealed == old(revealed)[old(firstCard).value := false][old(secondCard).value := false]
        && matchedCount == old(matchedCount) && finished == old(finished)
        && store.stored == old(store.stored)
    {
      var f := firstCard.value;
      var s := secondCard.value;
      wasMatch := Matches(deck[f], deck[s]);
      if wasMatch {
        SettleMatchBoard(|deck|, revealed, matched, f, s, matchedCount);
        matched := matched[f := true][s := true];
        matchedCount := matchedCount + 1;
        store.AddPoints(currentPlayer, 1);
        ResetPair();
        CountTrueBounds(matched);
        if matchedCount == |deckPairs| {
          finished := true;
        }
      } else {
        SettleMissBoard(|deck|, revealed, matched, f, s, matchedCount);
        revealed := revealed[f := false][s := false];
        ResetPair();
      }
    }
  }

  /** In every consistent game dealt with fewer than `numPairs` pairs, the
      test as written never fires, even once every card is matched: such a
      game never shows its end message. */
  lemma AsWrittenNeverEndsSmallDeck(g: MemoryGame)
    requires g.Valid() && |g.deckPairs| < NumPairs
    ensures !EndCheckAsWritten(g.matchedCount)
  {
    CountTrueBounds(g.matched);
  }
}
