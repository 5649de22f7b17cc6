/** The sample filters of the touchpad driver. */
module Filters {
  import opened CInt
  import opened Options

  function Sum(xs: seq<int>): (s: int) {
    if xs == [] then 0 else xs[0] + Sum(xs[1..])
  }

  lemma {:induction false} SumConcat(xs: seq<int>, ys: seq<int>)
    ensures Sum(xs + ys) == Sum(xs) + Sum(ys)
  {
    if xs == [] {
      assert xs + ys == ys;
    } else {
      assert (xs + ys)[1..] == xs[1..] + ys;
      SumConcat(xs[1..], ys);
    }
  }

  /** A sliding window of at most `n` samples. */
  function Push<T>(window: seq<T>, n: nat, x: T): (r: seq<T>)
    requires n > 0
    ensures r != [] && r[|r| - 1] == x
    ensures |window| <= n ==> |r| <= n
  {
    if |window| < n then window + [x] else window[1..] + [x]
  }

  function PushAll<T>(window: seq<T>, n: nat, xs: seq<T>): (r: seq<T>)
    requires n > 0
    decreases |xs|
  {
    if xs == [] then window else PushAll(Push(window, n, xs[0]), n, xs[1..])
  }

  function Last<T>(n: nat, xs: seq<T>): (r: seq<T>) {
    if |xs| <= n then xs else xs[|xs| - n..]
  }

  lemma {:induction false} PushIsLast<T>(past: seq<T>, n: nat, x: T)
    requires n > 0
    ensures Push(Last(n, past), n, x) == Last(n, past + [x])
  {
    if |past| >= n {
      assert Last(n, past)[1..] == past[|past| - n + 1..];
    }
  }

  /** After any samples the window is the last `n` of them. */
  lemma {:induction false} WindowIsLast<T>(past: seq<T>, n: nat, xs: seq<T>)
    requires n > 0
    ensures PushAll(Last(n, past), n, xs) == Last(n, past + xs)
    decreases |xs|
  {
    if xs == [] {
      assert past + xs == past;
    } else {
      assert past + [xs[0]] + xs[1..] == past + xs;
      PushIsLast(past, n, xs[0]);
      WindowIsLast(past + [xs[0]], n, xs[1..]);
    }
  }

  lemma {:induction false} SumBounded(xs: seq<int>, lo: int, hi: int)
    requires forall i :: 0 <= i < |xs| ==> lo <= xs[i] <= hi
    ensures lo * |xs| <= Sum(xs) <= hi * |xs|
  {
    if xs != [] {
      SumBounded(xs[1..], lo, hi);
      assert lo * |xs| == lo + lo * |xs[1..]| && hi * |xs| == hi + hi * |xs[1..]|;
    }
  }

  lemma {:induction false} QuotBounded(s: int, n: int, lo: int, hi: int)
    requires n > 0 && lo * n <= s <= hi * n
    ensures lo <= Quot(s, n) <= hi
  {
    QuotRem(s, n);
    var q := Quot(s, n);
    AddScaled(hi, 1, n);
    AddScaled(lo, -1, n);
    if q > hi {
      Scale(hi + 1, q, n);
    }
    if q < lo {
      Scale(q, lo - 1, n);
    }
  }

  /** The average of the window lies between any bounds of its samples, negative ones included. */
  lemma {:induction false} AverageBounded(xs: seq<int>, lo: int, hi: int)
    requires xs != [] && forall i :: 0 <= i < |xs| ==> lo <= xs[i] <= hi
    ensures lo <= Quot(Sum(xs), |xs|) <= hi
  {
    SumBounded(xs, lo, hi);
    QuotBounded(Sum(xs), |xs|, lo, hi);
  }

  /** A running average over a circular buffer, with the sum kept up to date sample by sample. */
  class SimpleAverage {
    const buffer: array<int>
    var count: nat
    var sum: int
    var index: nat

    ghost predicate Valid()
      reads this, buffer
    {
      && 0 < buffer.Length && count <= buffer.Length && index < buffer.Length
      && (count < buffer.Length ==> index == count)
      && sum == Sum(Window())
    }

    /** The samples in the buffer, oldest first. */
    ghost function Window(): seq<int>
      requires count <= buffer.Length && index < buffer.Length
      reads this, buffer
    {
      if count < buffer.Length then buffer[..count] else buffer[index..] + buffer[..index]
    }

    constructor (n: nat)
      requires n > 0
      ensures Valid() && fresh(buffer) && buffer.Length == n && Window() == []
    {
      buffer := new int[n];
      count, sum, index := 0, 0, 0;
    }

    method Reset()
      requires Valid()
      modifies this
      ensures Valid() && Window() == []
    {
      count, sum, index := 0, 0, 0;
    }

    method Filter(data: int) returns (average: int)
      requires Valid()
      modifies this, buffer
      ensures Valid() && Window() == Push(old(Window()), buffer.Length, data)
      ensures Window() != [] && average == Quot(Sum(Window()), |Window()|)
    {
      ghost var before := Window();
      ghost var after := Push(before, buffer.Length, data);
      SumAfterPush(before, buffer.Length, data);
      sum := sum + data;
      if count == buffer.Length {
        assert before[0] == buffer[index];
        sum := sum - buffer[index];
      }
      buffer[index] := data;
      index := index + 1;
      if index >= buffer.Length {
        index := 0;
      }
      if count < buffer.Length {
        count := count + 1;
      }
      assert Window() == after;
      average := Quot(sum, count);
    }

    method Oldest() returns (x: int)
      requires Valid()
      ensures x == if Window() == [] then 0 else Window()[0]
    {
      if count == 0 {
        return 0;
      }
      x := if count < buffer.Length then buffer[0] else buffer[index];
    }

    method Newest() returns (x: int)
      requires Valid()
      ensures x == if Window() == [] then 0 else Window()[|Window()| - 1]
    {
      if count == 0 {
        return 0;
      }
      var i := index - 1;
      if i < 0 {
        i := count - 1;
      }
      x := buffer[i];
    }

    method Average() returns (x: int)
      requires Valid()
      ensures x == if Window() == [] then 0 else Quot(Sum(Window()), |Window()|)
    {
      if count == 0 {
        return 0;
      }
      x := Quot(sum, count);
    }
  }

  lemma {:induction false} SumAfterPush(window: seq<int>, n: nat, x: int)
    requires n > 0 && |window| <= n
    ensures Sum(Push(window, n, x)) == Sum(window) + x - if |window| == n then window[0] else 0
  {
    assert Sum([x]) == x by {
      assert [x][1..] == [];
    }
    SumConcat(window, [x]);
    if |window| == n {
      SumConcat(window[1..], [x]);
    }
  }

  // ----- The decaying average that the pad applies, and its inverse

  /** Half of the sample and half of the last result. */
  function Decay(last: Option<int>, x: int): (r: int) {
    if last.None? then x else Quot(x, 2) + Quot(last.value, 2)
  }

  /** Twice the sample minus the last sample. */
  function Undecay(last: Option<int>, x: int): (r: int) {
    if last.None? then x else Quot(x * 2, 1) - Quot(last.value, 1)
  }

  /** One filter object each; they differ only in what they keep. */
  class DecayingAverage {
    var last: Option<int>

    constructor ()
      ensures last == None
    {
      last := None;
    }

    method Filter(data: int) returns (r: int)
      modifies this
      ensures r == Decay(old(last), data) && last == Some(r)
    {
      r := data;
      if last.Some? {
        r := Quot(r, 2) + Quot(last.value, 2);
      }
      last := Some(r);
    }
  }

  class UndecayAverage {
    var last: Option<int>

    constructor ()
      ensures last == None
    {
      last := None;
    }

    method Filter(data: int) returns (r: int)
      modifies this
      ensures r == Undecay(old(last), data) && last == Some(data)
    {
      r := data;
      if last.Some? {
        r := Quot(r * 2, 1) - Quot(last.value, 1);
      }
      last := Some(data);
    }
  }

  function DecayAll(last: Option<int>, xs: seq<int>): (r: seq<int>)
    ensures |r| == |xs|
    decreases |xs|
  {
    if xs == [] then [] else [Decay(last, xs[0])] + DecayAll(Some(Decay(last, xs[0])), xs[1..])
  }

  function UndecayAll(last: Option<int>, ys: seq<int>): (r: seq<int>)
    ensures |r| == |ys|
    decreases |ys|
  {
    if ys == [] then [] else [Undecay(last, ys[0])] + UndecayAll(Some(ys[0]), ys[1..])
  }

  /** The decaying average is halfway between the sample and the last result, to within the rounding of two halves; and
      the first sample is taken as it is. */
  lemma {:induction false} DecayIsHalfway(last: Option<int>, x: int)
    ensures last.Some? ==> Abs(2 * Decay(last, x) - (x + last.value)) <= 2
    ensures last.None? ==> Decay(last, x) == x
  {
  }

  /** Undoing the decay gives every sample back within 2, however many samples there are. */
  lemma {:induction false} UndecayRecovers(last: Option<int>, xs: seq<int>, i: nat)
    requires i < |xs|
    ensures Abs(UndecayAll(last, DecayAll(last, xs))[i] - xs[i]) <= 2
    decreases |xs|
  {
    var y := Decay(last, xs[0]);
    var ys := DecayAll(last, xs);
    assert ys[0] == y && ys[1..] == DecayAll(Some(y), xs[1..]);
    if i > 0 {
      UndecayRecovers(Some(y), xs[1..], i - 1);
    }
  }
}
