/** Both crawlers visit pages 1, 2, 3, … in turn and lay down, per page, a
    block of output (books, quotes, effects). This module is about such
    page-ordered concatenations, independent of what a block holds. */
module Paging {

  /** The blocks of pages `from..until-1`, concatenated in page order. */
  function Concat<T>(block: int -> seq<T>, from: int, until: int): seq<T>
    decreases until - from
  {
    if until <= from then [] else Concat(block, from, until - 1) + block(until - 1)
  }

  /** Concatenation over consecutive page ranges. */
  lemma {:induction false} ConcatSplit<T>(block: int -> seq<T>, from: int, mid: int, until: int)
    requires from <= mid <= until
    ensures Concat(block, from, until) == Concat(block, from, mid) + Concat(block, mid, until)
    decreases until - mid
  {
    if mid < until {
      ConcatSplit(block, from, mid, until - 1);
    }
  }

  /** The length of a concatenation is bounded by its blocks' lengths. */
  lemma {:induction false} ConcatLength<T>(block: int -> seq<T>, from: int, until: int, lo: nat, hi: nat)
    requires from <= until
    requires forall p :: from <= p < until ==> lo <= |block(p)| <= hi
    ensures lo * (until - from) <= |Concat(block, from, until)| <= hi * (until - from)
    decreases until - from
  {
    if from < until {
      ConcatLength(block, from, until - 1, lo, hi);
      Step(lo, from, until);
      Step(hi, from, until);
    }
  }

  /** One more page adds one more block's bound. */
  lemma Step(c: int, from: int, until: int)
    ensures c * (until - from) == c * (until - 1 - from) + c
  {
  }

  /** The page whose block holds position `i` of a concatenation. */
  function PageAt<T>(block: int -> seq<T>, from: int, until: int, i: int): (p: int)
    requires 0 <= i < |Concat(block, from, until)|
    ensures from <= p < until
    ensures |Concat(block, from, p)| <= i < |Concat(block, from, p)| + |block(p)|
    decreases until - from
  {
    if i < |Concat(block, from, until - 1)| then PageAt(block, from, until - 1, i) else until - 1
  }

  /** Position `i` of a concatenation is the corresponding position of the
      block of page PageAt(i). */
  lemma {:induction false} PageAtElement<T>(block: int -> seq<T>, from: int, until: int, i: int)
    requires 0 <= i < |Concat(block, from, until)|
    ensures var p := PageAt(block, from, until, i);
      Concat(block, from, until)[i] == block(p)[i - |Concat(block, from, p)|]
    decreases until - from
  {
    if i < |Concat(block, from, until - 1)| {
      PageAtElement(block, from, until - 1, i);
    }
  }

  /** Later positions belong to the same or later pages. */
  lemma {:induction false} PageAtMonotone<T>(block: int -> seq<T>, from: int, until: int, i: int, j: int)
    requires 0 <= i <= j < |Concat(block, from, until)|
    ensures PageAt(block, from, until, i) <= PageAt(block, from, until, j)
    decreases until - from
  {
    if j < |Concat(block, from, until - 1)| {
      PageAtMonotone(block, from, until - 1, i, j);
    }
  }
}
