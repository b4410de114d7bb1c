/**
 A value model of Python's collections.deque created with a maxlen: a
 bounded FIFO that, when full, drops its leftmost (oldest) element to make
 room for the one appended on the right.
 */
module Deques {

  function Min(a: int, b: int): int { if a <= b then a else b }

  datatype Deque<T> = Deque(maxlen: nat, items: seq<T>)
  {
    /** A deque never holds more than maxlen elements. */
    predicate Bounded() { |items| <= maxlen }

    /** deque.append: a full deque first drops its oldest element. */
    function Append(x: T): (d: Deque<T>)
      ensures d.maxlen == maxlen && d.Bounded()
      ensures Bounded() ==> |d.items| == Min(|items| + 1, maxlen)
      ensures maxlen >= 1 ==> d.items != [] && d.items[|d.items| - 1] == x
    {
      if |items| < maxlen then Deque(maxlen, items + [x])
      else if maxlen == 0 then Deque(0, [])
      else Deque(maxlen, items[|items| + 1 - maxlen..] + [x])
    }
  }

  /** Appending with room left keeps every element; appending to a full deque evicts the oldest. */
  lemma AppendEvictsOldest<T>(d: Deque<T>, x: T)
    requires d.Bounded()
    ensures |d.items| < d.maxlen ==> d.Append(x).items == d.items + [x]
    ensures 1 <= |d.items| == d.maxlen ==> d.Append(x).items == d.items[1..] + [x]
  {
  }

  /** The deque after appending every element of xs in order. */
  function Fill<T>(d: Deque<T>, xs: seq<T>): (r: Deque<T>)
    ensures r.maxlen == d.maxlen
    decreases |xs|
  {
    if xs == [] then d else Fill(d, xs[..|xs| - 1]).Append(xs[|xs| - 1])
  }

  /** The last min(|xs|, c) elements of xs, in order. */
  function Latest<T>(xs: seq<T>, c: nat): seq<T>
  {
    if |xs| <= c then xs else xs[|xs| - c..]
  }

  /** Every element of Latest(xs, c) is an element of xs. */
  lemma LatestWithin<T>(xs: seq<T>, c: nat, i: nat)
    requires i < |Latest(xs, c)|
    ensures Latest(xs, c)[i] in xs
  {
    if |xs| > c {
      assert Latest(xs, c)[i] == xs[|xs| - c + i];
    }
  }

  /** Appending x to a deque that holds the latest of xs leaves it holding the latest of xs + [x]. */
  lemma AppendKeepsLatest<T>(d: Deque<T>, xs: seq<T>, x: T)
    requires d.items == Latest(xs, d.maxlen)
    ensures d.Append(x).items == Latest(xs + [x], d.maxlen)
  {
    var c := d.maxlen;
    if |d.items| < c {
      assert |xs| < c;
    } else if c != 0 {
      var n := |xs|;
      assert |xs| >= c;
      var ys := xs + [x];
      assert d.Append(x).items == xs[n - c..][1..] + [x];
      assert xs[n - c..][1..] == ys[n + 1 - c..n];
    }
  }

  /** A deque of length c fed with xs holds exactly the last min(|xs|, c) of them. */
  lemma {:induction false} FillHoldsLatest<T>(c: nat, xs: seq<T>)
    ensures Fill(Deque(c, []), xs).items == Latest(xs, c)
    decreases |xs|
  {
    if xs != [] {
      var p, x := xs[..|xs| - 1], xs[|xs| - 1];
      assert xs == p + [x];
      FillHoldsLatest(c, p);
      AppendKeepsLatest(Fill(Deque(c, []), p), p, x);
    }
  }

  /** Which input the front holds after n appends to a fresh deque of length c. */
  function DelayIndex(n: nat, c: nat): nat
  {
    if n >= c then n - c else 0
  }

  /**
   The FIFO delay law: after the inputs xs, the front of a deque of length c
   is the input c - 1 calls before the last one, or the very first input
   while fewer than c calls have been made.
   */
  lemma DelayLaw<T>(c: nat, xs: seq<T>)
    requires c >= 1 && xs != []
    ensures Fill(Deque(c, []), xs).items != []
    ensures Fill(Deque(c, []), xs).items[0] == xs[DelayIndex(|xs|, c)]
  {
    FillHoldsLatest(c, xs);
  }
}
