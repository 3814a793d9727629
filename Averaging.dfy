/**
 * The sentinel-skipping mean of the raw-sample buffer.
 *
 * A slot still holding 0.0 counts as "never written": it is left out of both
 * the sum and the count, so during warm-up the mean is taken over the samples
 * received so far. A genuine reading of exactly 0.0 is skipped in the same way.
 */
module Averaging {
  import opened RingBuffers

  /** The readings among the slots, in slot order, with every 0.0 slot dropped. */
  function NonZero(s: seq<real>): (r: seq<real>)
    ensures |r| <= |s|
    decreases |s|
  {
    if s == [] then []
    else NonZero(s[..|s| - 1]) + (if s[|s| - 1] != 0.0 then [s[|s| - 1]] else [])
  }

  /** A value is a reading exactly when some slot holds it and it is not the sentinel. */
  lemma {:induction false} NonZeroMembers(s: seq<real>, x: real)
    ensures x in NonZero(s) <==> x in s && x != 0.0
    decreases |s|
  {
    if s != [] {
      var init := s[..|s| - 1];
      NonZeroMembers(init, x);
      assert s == init + [s[|s| - 1]];
    }
  }

  /** Sum of a sequence, accumulated front to back. */
  function Sum(s: seq<real>): real
    decreases |s|
  {
    if s == [] then 0.0 else Sum(s[..|s| - 1]) + s[|s| - 1]
  }

  /** The mean of the readings: defined once at least one slot is non-zero. */
  function Mean(s: seq<real>): real
    requires |NonZero(s)| > 0
  {
    Sum(NonZero(s)) / (|NonZero(s)| as real)
  }

  /** Appending one slot appends it to the readings exactly when it is not the sentinel. */
  lemma NonZeroSnoc(s: seq<real>, x: real)
    ensures NonZero(s + [x]) == NonZero(s) + (if x != 0.0 then [x] else [])
  {
    assert (s + [x])[..|s|] == s;
  }

  /** Appending one value adds it to the sum. */
  lemma SumSnoc(t: seq<real>, x: real)
    ensures Sum(t + [x]) == Sum(t) + x
  {
    assert (t + [x])[..|t|] == t;
  }

  /** Dropping sentinels distributes over concatenation. */
  lemma {:induction false} NonZeroConcat(a: seq<real>, b: seq<real>)
    ensures NonZero(a + b) == NonZero(a) + NonZero(b)
    decreases |b|
  {
    if b != [] {
      var b' := b[..|b| - 1];
      assert (a + b)[..|a + b| - 1] == a + b';
      NonZeroConcat(a, b');
    } else {
      assert a + b == a;
    }
  }

  /** Zero-filled slots contribute no reading. */
  lemma {:induction false} NonZeroOfZeros(n: nat)
    ensures NonZero(seq(n, _ => 0.0)) == []
  {
    if n > 0 {
      assert seq(n, _ => 0.0)[..n - 1] == seq(n - 1, _ => 0.0);
      NonZeroOfZeros(n - 1);
    }
  }

  /** `n` copies of `v` added up. */
  function Times(n: nat, v: real): real
  {
    if n == 0 then 0.0 else Times(n - 1, v) + v
  }

  /** Repeated addition is multiplication. */
  lemma {:induction false} TimesIsProduct(n: nat, v: real)
    ensures Times(n, v) == (n as real) * v
  {
    if n > 0 {
      TimesIsProduct(n - 1, v);
      assert (n as real) * v == ((n - 1) as real) * v + v;
    }
  }

  /** A total of at least `n` copies of `v`, shared out `n` ways, gives at least `v` each. */
  lemma DivideAtLeast(x: real, n: nat, v: real)
    requires 0 < n && Times(n, v) <= x
    ensures v <= x / (n as real)
  {
    TimesIsProduct(n, v);
    var c := n as real;
    assert c * (x / c - v) == x - c * v;
  }

  /** A total of at most `n` copies of `v`, shared out `n` ways, gives at most `v` each. */
  lemma DivideAtMost(x: real, n: nat, v: real)
    requires 0 < n && x <= Times(n, v)
    ensures x / (n as real) <= v
  {
    TimesIsProduct(n, v);
    var c := n as real;
    assert c * (v - x / c) == c * v - x;
  }

  /** A sum of values in [lo, hi] lies between |t| copies of lo and |t| copies of hi. */
  lemma {:induction false} SumBounds(t: seq<real>, lo: real, hi: real)
    requires forall i :: 0 <= i < |t| ==> lo <= t[i] <= hi
    ensures Times(|t|, lo) <= Sum(t) <= Times(|t|, hi)
    decreases |t|
  {
    if t != [] {
      SumBounds(t[..|t| - 1], lo, hi);
    }
  }

  /** Every reading kept by NonZero lies in the range the non-zero slots lie in. */
  lemma ReadingsWithin(s: seq<real>, lo: real, hi: real)
    requires forall i :: 0 <= i < |s| && s[i] != 0.0 ==> lo <= s[i] <= hi
    ensures forall k :: 0 <= k < |NonZero(s)| ==> lo <= NonZero(s)[k] <= hi
  {
    var t := NonZero(s);
    forall k | 0 <= k < |t|
      ensures lo <= t[k] <= hi
    {
      assert t[k] in t;
      NonZeroMembers(s, t[k]);
      var i :| 0 <= i < |s| && s[i] == t[k];
    }
  }

  /** The mean lies between the smallest and the largest reading. */
  lemma MeanBounds(s: seq<real>, lo: real, hi: real)
    requires |NonZero(s)| > 0
    requires forall i :: 0 <= i < |s| && s[i] != 0.0 ==> lo <= s[i] <= hi
    ensures lo <= Mean(s) <= hi
  {
    var t := NonZero(s);
    var x, n := Sum(t), |t|;
    assert Times(n, lo) <= x <= Times(n, hi) by {
      ReadingsWithin(s, lo, hi);
      SumBounds(t, lo, hi);
    }
    DivideAtLeast(x, n, lo);
    DivideAtMost(x, n, hi);
  }

  /** Writing a non-zero sample into any slot leaves at least one reading to average. */
  lemma ReadingPresent(s: seq<real>, i: int, t: real)
    requires 0 <= i < |s| && t != 0.0
    ensures |NonZero(s[i := t])| > 0
  {
    assert s[i := t][i] == t;
    NonZeroMembers(s[i := t], t);
  }

  /** A single sample in an otherwise zero-filled buffer is the only reading, so it is the mean. */
  lemma SingleReading(n: nat, i: nat, t: real)
    requires i < n && t != 0.0
    ensures NonZero(seq(n, _ => 0.0)[i := t]) == [t]
    ensures Mean(seq(n, _ => 0.0)[i := t]) == t
  {
    var before, after := seq(i, _ => 0.0), seq(n - i - 1, _ => 0.0);
    assert seq(n, _ => 0.0)[i := t] == before + [t] + after;
    assert NonZero(before + [t] + after) == [t] by {
      NonZeroConcat(before + [t], after);
      NonZeroSnoc(before, t);
      NonZeroOfZeros(i);
      NonZeroOfZeros(n - i - 1);
    }
    assert Sum([t]) == t by {
      assert [t][..0] == [];
    }
  }

  /** Three samples 10, 20, 30 into a fresh 100-slot buffer average to 20; the 97 empty slots are ignored. */
  lemma ThreeSampleMean()
    ensures |NonZero(Fill(100, [10.0, 20.0, 30.0]))| == 3
    ensures Mean(Fill(100, [10.0, 20.0, 30.0])) == 20.0
  {
    var vs := [10.0, 20.0, 30.0];
    var f := Fill(100, vs);
    assert f == vs + seq(97, _ => 0.0) by {
      FillWarmUp(100, vs);
    }
    assert NonZero(f) == vs by {
      NonZeroConcat(vs, seq(97, _ => 0.0));
      NonZeroOfZeros(97);
      assert vs[..2] == [10.0, 20.0] && vs[..2][..1] == [10.0] && [10.0][..0] == [];
    }
    assert Sum(vs) == 60.0 by {
      assert vs[..2] == [10.0, 20.0] && vs[..2][..1] == [10.0] && [10.0][..0] == [];
    }
    assert Mean(f) == 60.0 / 3.0;
  }
}
