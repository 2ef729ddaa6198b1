/**
 * The two computations every selection goes through: the inclusive time
 * window `xs.filter(x => time(x) >= lo && time(x) <= hi)` and the mean of the
 * values a field holds where it holds a number,
 * `valid.reduce((a, b) => a + b[k], 0) / valid.length`.
 */
module Stats {
  import opened JsValue

  // ---------------------------------------------------------------------------
  // Inclusive time windows
  // ---------------------------------------------------------------------------

  /** The elements whose time lies in `[lo, hi]`, in their original order. */
  function Window<T>(xs: seq<T>, time: T -> Number, lo: Number, hi: Number): seq<T>
    decreases |xs|
  {
    if xs == [] then []
    else
      var init := Window(xs[..|xs| - 1], time, lo, hi);
      if InRange(time(xs[|xs| - 1]), lo, hi) then init + [xs[|xs| - 1]] else init
  }

  /**
   * An element is kept iff its time is a number inside the window; an element
   * whose time is NaN, and every element when a bound is NaN, is dropped.
   */
  lemma {:induction false} WindowSpec<T>(xs: seq<T>, time: T -> Number, lo: Number, hi: Number)
    ensures |Window(xs, time, lo, hi)| <= |xs|
    ensures forall x :: x in Window(xs, time, lo, hi) <==> x in xs && InRange(time(x), lo, hi)
    ensures forall x :: x in Window(xs, time, lo, hi) ==> time(x).Finite? && lo.Finite? && hi.Finite?
    ensures forall k :: 0 <= k < |Window(xs, time, lo, hi)| ==> Window(xs, time, lo, hi)[k] in xs
    decreases |xs|
  {
    if xs != [] {
      var init := xs[..|xs| - 1];
      WindowSpec(init, time, lo, hi);
      assert xs == init + [xs[|xs| - 1]];
    }
  }

  /** A window that holds every element returns the sequence unchanged. */
  lemma {:induction false} WindowAll<T>(xs: seq<T>, time: T -> Number, lo: Number, hi: Number)
    requires forall k :: 0 <= k < |xs| ==> InRange(time(xs[k]), lo, hi)
    ensures Window(xs, time, lo, hi) == xs
    decreases |xs|
  {
    if xs != [] {
      var init := xs[..|xs| - 1];
      WindowAll(init, time, lo, hi);
      assert xs == init + [xs[|xs| - 1]];
    }
  }

  /** A window that holds no element is empty. */
  lemma {:induction false} WindowNone<T>(xs: seq<T>, time: T -> Number, lo: Number, hi: Number)
    requires forall k :: 0 <= k < |xs| ==> !InRange(time(xs[k]), lo, hi)
    ensures Window(xs, time, lo, hi) == []
    decreases |xs|
  {
    if xs != [] {
      WindowNone(xs[..|xs| - 1], time, lo, hi);
    }
  }

  /**
   * Filtering the result of a wider window by a narrower one gives what the
   * narrower window gives on its own.
   */
  lemma {:induction false} WindowNarrowing<T>(xs: seq<T>, time: T -> Number, lo: Number, hi: Number, lo': Number, hi': Number)
    requires Le(lo, lo') && Le(hi', hi)
    ensures Window(Window(xs, time, lo, hi), time, lo', hi') == Window(xs, time, lo', hi')
    decreases |xs|
  {
    if xs != [] {
      var init := xs[..|xs| - 1];
      var x := xs[|xs| - 1];
      WindowNarrowing(init, time, lo, hi, lo', hi');
      var w := Window(init, time, lo, hi);
      if InRange(time(x), lo, hi) {
        assert (w + [x])[..|w|] == w;
      } else {
        assert !InRange(time(x), lo', hi');
      }
    }
  }

  /** Times that never decrease, none of them NaN. */
  predicate SortedBy<T>(xs: seq<T>, time: T -> Number)
  {
    forall i, j :: 0 <= i <= j < |xs| ==> Le(time(xs[i]), time(xs[j]))
  }

  /** A window of time-sorted elements is time-sorted. */
  lemma {:induction false} WindowSorted<T>(xs: seq<T>, time: T -> Number, lo: Number, hi: Number)
    requires SortedBy(xs, time)
    ensures SortedBy(Window(xs, time, lo, hi), time)
    decreases |xs|
  {
    if xs != [] {
      var init := xs[..|xs| - 1];
      var x := xs[|xs| - 1];
      WindowSorted(init, time, lo, hi);
      WindowSpec(init, time, lo, hi);
      var w := Window(init, time, lo, hi);
      assert forall i :: 0 <= i < |w| ==> w[i] in init;
      if InRange(time(x), lo, hi) {
        forall i, j | 0 <= i <= j < |w| + 1
          ensures Le(time((w + [x])[i]), time((w + [x])[j]))
        {
          if j == |w| {
            assert (w + [x])[j] == x;
            if i < |w| {
              var k :| 0 <= k < |init| && init[k] == w[i];
              assert xs[k] == w[i];
            } else {
              assert Le(time(xs[|xs| - 1]), time(xs[|xs| - 1]));
            }
          } else {
            assert (w + [x])[i] == w[i] && (w + [x])[j] == w[j];
          }
        }
      }
    }
  }

  // ---------------------------------------------------------------------------
  // Means
  // ---------------------------------------------------------------------------

  /** `rs.filter(r => typeof r[k] === "number")`, read at `k`. */
  function NumbersAt(rs: seq<Record>, k: string): seq<Number>
    decreases |rs|
  {
    if rs == [] then []
    else
      var init := NumbersAt(rs[..|rs| - 1], k);
      var v := Get(rs[|rs| - 1], k);
      if IsNumber(v) then init + [v.n] else init
  }

  /** `reduce((a, b) => a + b, 0)`: a NaN anywhere makes the sum NaN. */
  function Sum(xs: seq<Number>): Number
    decreases |xs|
  {
    if xs == [] then Finite(0.0) else Add(Sum(xs[..|xs| - 1]), xs[|xs| - 1])
  }

  /** The mean over the records holding a number at `k`, or `None` when there are none. */
  function Mean(rs: seq<Record>, k: string): Option<Number>
  {
    var xs := NumbersAt(rs, k);
    if xs == [] then None else Some(Div(Sum(xs), |xs| as real))
  }

  /** The values read are exactly the numbers the records hold at `k`, in order. */
  lemma {:induction false} NumbersAtSpec(rs: seq<Record>, k: string)
    ensures |NumbersAt(rs, k)| <= |rs|
    ensures forall x :: x in NumbersAt(rs, k) <==> exists j :: 0 <= j < |rs| && Get(rs[j], k) == Num(x)
    decreases |rs|
  {
    if rs != [] {
      var init := rs[..|rs| - 1];
      NumbersAtSpec(init, k);
      assert forall j :: 0 <= j < |init| ==> rs[j] == init[j];
      forall x | exists j :: 0 <= j < |rs| && Get(rs[j], k) == Num(x)
        ensures x in NumbersAt(rs, k)
      {
        var j :| 0 <= j < |rs| && Get(rs[j], k) == Num(x);
        if j < |init| {
          assert Get(init[j], k) == Num(x);
        }
      }
    }
  }

  lemma {:induction false} SumNaN(xs: seq<Number>)
    ensures Sum(xs).NaN? <==> NaN in xs
    decreases |xs|
  {
    if xs != [] {
      var init := xs[..|xs| - 1];
      SumNaN(init);
      assert xs == init + [xs[|xs| - 1]];
    }
  }

  /** `n * c`, written as repeated addition so that the bounds below stay linear. */
  function Times(n: nat, c: real): real
  {
    if n == 0 then 0.0 else Times(n - 1, c) + c
  }

  lemma {:induction false} TimesIsProduct(n: nat, c: real)
    ensures Times(n, c) == n as real * c
  {
    if n > 0 {
      TimesIsProduct(n - 1, c);
      assert n as real * c == (n - 1) as real * c + c;
    }
  }

  lemma {:induction false} SumBounds(xs: seq<Number>, lo: real, hi: real)
    requires forall k :: 0 <= k < |xs| ==> xs[k].Finite? && lo <= xs[k].v <= hi
    ensures Sum(xs).Finite?
    ensures Times(|xs|, lo) <= Sum(xs).v <= Times(|xs|, hi)
    decreases |xs|
  {
    if xs != [] {
      var init := xs[..|xs| - 1];
      assert forall k :: 0 <= k < |init| ==> init[k] == xs[k];
      SumBounds(init, lo, hi);
    }
  }

  lemma DivBounds(s: real, n: real, lo: real, hi: real)
    requires n > 0.0 && n * lo <= s <= n * hi
    ensures lo <= s / n <= hi
  {
  }

  /** Without a number at `k` there is no mean; a NaN among the numbers makes the mean NaN. */
  lemma MeanDefined(rs: seq<Record>, k: string)
    ensures Mean(rs, k).None? <==> forall j :: 0 <= j < |rs| ==> !IsNumber(Get(rs[j], k))
    ensures (exists j :: 0 <= j < |rs| && Get(rs[j], k) == Num(NaN)) ==> Mean(rs, k) == Some(NaN)
  {
    var xs := NumbersAt(rs, k);
    NumbersAtSpec(rs, k);
    SumNaN(xs);
    if xs != [] {
      assert xs[0] in xs;
    }
    if exists j :: 0 <= j < |rs| && IsNumber(Get(rs[j], k)) {
      var j :| 0 <= j < |rs| && IsNumber(Get(rs[j], k));
      assert Get(rs[j], k).n in xs;
    }
  }

  /** When every number at `k` is finite and lies in `[lo, hi]`, so does the mean. */
  lemma MeanWithin(rs: seq<Record>, k: string, lo: real, hi: real)
    requires forall j :: 0 <= j < |rs| && IsNumber(Get(rs[j], k)) ==>
      Get(rs[j], k).n.Finite? && lo <= Get(rs[j], k).n.v <= hi
    ensures Mean(rs, k).Some? ==> Mean(rs, k).value.Finite? && lo <= Mean(rs, k).value.v <= hi
  {
    var xs := NumbersAt(rs, k);
    NumbersAtSpec(rs, k);
    if xs != [] {
      forall n | 0 <= n < |xs|
        ensures xs[n].Finite? && lo <= xs[n].v <= hi
      {
        assert xs[n] in xs;
        var j :| 0 <= j < |rs| && Get(rs[j], k) == Num(xs[n]);
      }
      SumBounds(xs, lo, hi);
      TimesIsProduct(|xs|, lo);
      TimesIsProduct(|xs|, hi);
      var n := |xs| as real;
      var s := Sum(xs).v;
      DivBounds(s, n, lo, hi);
    }
  }
}
