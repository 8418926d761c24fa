/** Index arithmetic shared by the page's rotating widgets: a current position in
    a non-empty list that moves forward or back with wrap-around, and the row of
    indicator dots that highlights it. */
module Carousel {

  /** `(i + 1) % n`: one step forward, wrapping from the last item to the first. */
  function NextIndex(i: nat, n: nat): (r: nat)
    requires i < n
    ensures r < n
    ensures r == if i == n - 1 then 0 else i + 1
  {
    (i + 1) % n
  }

  /** `(i - 1 + n) % n`: one step back, wrapping from the first item to the last.
      The operand is never negative, so JavaScript's `%` and Dafny's agree. */
  function PrevIndex(i: nat, n: nat): (r: nat)
    requires i < n
    ensures r < n
    ensures r == if i == 0 then n - 1 else i - 1
  {
    (i - 1 + n) % n
  }

  /** Stepping back after stepping forward returns to the same item. */
  lemma PrevAfterNext(i: nat, n: nat)
    requires i < n
    ensures PrevIndex(NextIndex(i, n), n) == i
  {
  }

  /** Stepping forward after stepping back returns to the same item. */
  lemma NextAfterPrev(i: nat, n: nat)
    requires i < n
    ensures NextIndex(PrevIndex(i, n), n) == i
  {
  }

  /** The position after `k` forward steps from `i`. */
  function Advance(i: nat, k: nat, n: nat): (r: nat)
    requires i < n
    ensures r < n
  {
    if k == 0 then i else NextIndex(Advance(i, k - 1, n), n)
  }

  /** Up to one full turn, `k` steps move `k` places, wrapping once. */
  lemma {:induction false} AdvanceWithinTurn(i: nat, k: nat, n: nat)
    requires i < n && k <= n
    ensures Advance(i, k, n) == if i + k < n then i + k else i + k - n
  {
    if k > 0 {
      AdvanceWithinTurn(i, k - 1, n);
    }
  }

  /** After `n` steps the position is back where it started. */
  lemma FullTurn(i: nat, n: nat)
    requires i < n
    ensures Advance(i, n, n) == i
  {
    AdvanceWithinTurn(i, n, n);
  }

  /** Every item is reached within fewer than `n` steps from any start. */
  lemma EveryItemReached(i: nat, j: nat, n: nat)
    requires i < n && j < n
    ensures exists k :: 0 <= k < n && Advance(i, k, n) == j
  {
    var k := if i <= j then j - i else j + n - i;
    AdvanceWithinTurn(i, k, n);
    assert Advance(i, k, n) == j;
  }

  /** The indicator dots: one per item, lit exactly at the current index. */
  function Dots(current: nat, n: nat): (dots: seq<bool>)
    requires current < n
    ensures |dots| == n && dots[current]
    ensures CountLit(dots) == 1
  {
    var dots := seq(n, k => k == current);
    CountLitOfMarker(dots, current);
    dots
  }

  function CountLit(dots: seq<bool>): nat {
    if dots == [] then 0 else (if dots[0] then 1 else 0) + CountLit(dots[1..])
  }

  /** A row lit exactly at position `c` has one lit dot when `c` is inside it. */
  lemma {:induction false} CountLitOfMarker(dots: seq<bool>, c: int)
    requires forall k :: 0 <= k < |dots| ==> dots[k] == (k == c)
    ensures CountLit(dots) == if 0 <= c < |dots| then 1 else 0
  {
    if dots != [] {
      CountLitOfMarker(dots[1..], c - 1);
    }
  }
}

/** The supplication carousel (`dua-section.tsx`): previous and next buttons
    move through a fixed list of seven supplications. */
module DuaSection {
  import opened Carousel

  /** Number of entries in the `duas` list. */
  const DuaCount: nat := 7

  class DuaCarousel {
    var currentIndex: nat

    ghost predicate Valid()
      reads this
    {
      currentIndex < DuaCount
    }

    constructor ()
      ensures Valid() && currentIndex == 0
    {
      currentIndex := 0;
    }

    method NextDua()
      requires Valid()
      modifies this
      ensures Valid() && currentIndex == NextIndex(old(currentIndex), DuaCount)
    {
      currentIndex := NextIndex(currentIndex, DuaCount);
    }

    method PrevDua()
      requires Valid()
      modifies this
      ensures Valid() && currentIndex == PrevIndex(old(currentIndex), DuaCount)
    {
      currentIndex := PrevIndex(currentIndex, DuaCount);
    }

    /** The dots under the carousel: only the current supplication's is lit. */
    function Indicators(): (dots: seq<bool>)
      reads this
      requires Valid()
      ensures |dots| == DuaCount && dots[currentIndex] && CountLit(dots) == 1
    {
      Dots(currentIndex, DuaCount)
    }
  }
}

/** The rotating remembrance phrases (`adhkar-rotation.tsx`): an interval timer
    advances through ten phrases every five seconds. */
module AdhkarRotation {
  import opened Carousel

  /** Number of entries in the `adhkar` list. */
  const AdhkarCount: nat := 10

  class Rotation {
    var currentIndex: nat

    ghost predicate Valid()
      reads this
    {
      currentIndex < AdhkarCount
    }

    constructor ()
      ensures Valid() && currentIndex == 0
    {
      currentIndex := 0;
    }

    /** One firing of the interval callback. */
    method Tick()
      requires Valid()
      modifies this
      ensures Valid() && currentIndex == NextIndex(old(currentIndex), AdhkarCount)
    {
      currentIndex := NextIndex(currentIndex, AdhkarCount);
    }

    /** The dots under the phrase: only the current phrase's is lit. */
    function Indicators(): (dots: seq<bool>)
      reads this
      requires Valid()
      ensures |dots| == AdhkarCount && dots[currentIndex] && CountLit(dots) == 1
    {
      Dots(currentIndex, AdhkarCount)
    }
  }
}
