/** The landing page's feature carousel: three cards, one shown at a time,
    with next and previous buttons that move an index around the ring. */
module FeatureCarousel {

  const Items: seq<string> := ["code", "music", "social"]

  /** JavaScript's `%` on integers: it truncates toward zero, so the result
      takes the sign of the dividend (Dafny's `%` never goes negative). */
  function JsRem(a: int, n: int): (r: int)
    requires n > 0
    ensures a >= 0 ==> r == a % n
    ensures a < 0 ==> r == -((-a) % n)
    ensures -n < r < n
  {
    if a >= 0 then a % n else -((-a) % n)
  }

  /** nextCard's updater: `(prev + 1) % items.length`. */
  function NextIndex(prev: int): (r: int)
    ensures 0 <= prev < |Items| ==> 0 <= r < |Items|
    ensures 0 <= prev < |Items| - 1 ==> r == prev + 1
    ensures prev == |Items| - 1 ==> r == 0
  {
    JsRem(prev + 1, |Items|)
  }

  /** prevCard's updater: `(prev - 1 + items.length) % items.length`. */
  function PrevIndex(prev: int): (r: int)
    ensures 0 <= prev < |Items| ==> 0 <= r < |Items|
    ensures 0 < prev < |Items| ==> r == prev - 1
    ensures prev == 0 ==> r == |Items| - 1
  {
    JsRem(prev - 1 + |Items|, |Items|)
  }

  /** The `+ items.length` is what keeps prevCard in range: without it the
      first card's predecessor would be -1, which names no card. */
  lemma PrevNeedsOffset()
    ensures JsRem(0 - 1, |Items|) == -1
  {
  }

  /** Next and previous undo each other. */
  lemma NextPrevInverse(i: int)
    requires 0 <= i < |Items|
    ensures PrevIndex(NextIndex(i)) == i
    ensures NextIndex(PrevIndex(i)) == i
  {
  }

  /** Pressing next once per card brings the carousel back where it was. */
  lemma FullTurnReturns(i: int)
    requires 0 <= i < |Items|
    ensures NextIndex(NextIndex(NextIndex(i))) == i
  {
  }

  datatype Move = Next | Prev

  /** The index after pressing the buttons in order. */
  function Apply(i: int, moves: seq<Move>): int
    decreases moves
  {
    if moves == [] then i
    else Apply(if moves[0] == Next then NextIndex(i) else PrevIndex(i), moves[1..])
  }

  function CountOf(moves: seq<Move>, m: Move): nat {
    if moves == [] then 0 else (if moves[0] == m then 1 else 0) + CountOf(moves[1..], m)
  }

  /** Any sequence of presses keeps the index on a card, and where it lands
      depends only on how many of each button were pressed. */
  lemma {:induction false} ApplyLands(i: int, moves: seq<Move>)
    requires 0 <= i < |Items|
    ensures 0 <= Apply(i, moves) < |Items|
    ensures Apply(i, moves) == (i + CountOf(moves, Next) - CountOf(moves, Prev)) % |Items|
    decreases moves
  {
    if moves != [] {
      var j := if moves[0] == Next then NextIndex(i) else PrevIndex(i);
      ApplyLands(j, moves[1..]);
    }
  }

  /** `items.map((item, i) => i !== index ? null : <card/>)`, null cards
      dropped, from position `from` on. */
  function CardsFrom(items: seq<string>, index: int, from: nat): seq<string>
    decreases |items| - from
  {
    if from >= |items| then []
    else (if from == index then [items[from]] else []) + CardsFrom(items, index, from + 1)
  }

  function RenderedCards(items: seq<string>, index: int): seq<string> {
    CardsFrom(items, index, 0)
  }

  lemma {:induction false} CardsFromPast(items: seq<string>, index: int, from: nat)
    requires index < from
    ensures CardsFrom(items, index, from) == []
    decreases |items| - from
  {
    if from < |items| {
      CardsFromPast(items, index, from + 1);
    }
  }

  lemma {:induction false} CardsFromBefore(items: seq<string>, index: int, from: nat)
    requires from <= index < |items|
    ensures CardsFrom(items, index, from) == [items[index]]
    decreases |items| - from
  {
    if from == index {
      CardsFromPast(items, index, from + 1);
    } else {
      CardsFromBefore(items, index, from + 1);
    }
  }

  /** Exactly one card is on screen, the one at `index`; an index off the
      ring would show none. */
  lemma RenderedCardIsTheIndexedOne(items: seq<string>, index: int)
    ensures 0 <= index < |items| ==> RenderedCards(items, index) == [items[index]]
    ensures !(0 <= index < |items|) ==> RenderedCards(items, index) == []
  {
    if 0 <= index < |items| {
      CardsFromBefore(items, index, 0);
    } else if index < 0 {
      CardsFromPast(items, index, 0);
    } else {
      CardsFromAbsent(items, index, 0);
    }
  }

  lemma {:induction false} CardsFromAbsent(items: seq<string>, index: int, from: nat)
    requires index >= |items|
    ensures CardsFrom(items, index, from) == []
    decreases |items| - from
  {
    if from < |items| {
      CardsFromAbsent(items, index, from + 1);
    }
  }

  class FeatureStack {
    var index: int

    ghost predicate Valid()
      reads this
    {
      0 <= index < |Items|
    }

    constructor ()
      ensures Valid() && index == 0
    {
      index := 0;
    }

    method NextCard()
      requires Valid()
      modifies this`index
      ensures Valid() && index == NextIndex(old(index))
    {
      index := NextIndex(index);
    }

    method PrevCard()
      requires Valid()
      modifies this`index
      ensures Valid() && index == PrevIndex(old(index))
    {
      index := PrevIndex(index);
    }

    /** What the component renders: the card at the current index, alone. */
    function Rendered(): (r: seq<string>)
      reads this
      ensures Valid() ==> r == [Items[index]]
    {
      RenderedCardIsTheIndexedOne(Items, index);
      RenderedCards(Items, index)
    }
  }

  /** Clicking around the carousel always shows one card, and next then
      previous puts the first card back. */
  method BrowseFlow() {
    var stack := new FeatureStack();
    stack.PrevCard();
    assert stack.index == 2;
    assert stack.Rendered() == ["social"];
    stack.NextCard();
    assert stack.index == 0;
    stack.NextCard();
    stack.PrevCard();
    assert stack.index == 0;
  }
}
