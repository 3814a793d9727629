/**
 * Fixed-capacity, overwrite-on-wrap ring buffers of temperatures.
 *
 * The controller owns four of them (raw samples, averages, sample deltas and
 * target deltas). An insert overwrites the slot under the write cursor and
 * advances the cursor modulo the capacity; the storage starts zero-filled, as
 * C globals do, and 0.0 doubles as the "never written" sentinel.
 */
module RingBuffers {

  /** Slot contents after inserting `vs`, in order, into a zero-filled buffer of capacity `n`. */
  ghost function Fill(n: nat, vs: seq<real>): (s: seq<real>)
    requires 0 < n
    ensures |s| == n
    decreases |vs|
  {
    if vs == [] then seq(n, _ => 0.0)
    else Fill(n, vs[..|vs| - 1])[(|vs| - 1) % n := vs[|vs| - 1]]
  }

  /** The slots read from the write cursor onwards, wrapping around: oldest value first. */
  function Rotate(s: seq<real>, c: nat): (r: seq<real>)
    requires c <= |s|
    ensures |r| == |s|
    ensures forall k :: 0 <= k < |s| - c ==> r[k] == s[c + k]
    ensures forall k :: |s| - c <= k < |s| ==> r[k] == s[c + k - |s|]
  {
    s[c..] + s[..c]
  }

  /** A non-zero multiple of `n` is at least `n` away from zero. */
  lemma MulAwayFromZero(d: int, n: int)
    requires 0 < n
    ensures d >= 1 ==> d * n >= n
    ensures d <= -1 ==> d * n <= -n
  {
  }

  /** Euclidean remainder is determined by any quotient/remainder decomposition. */
  lemma ModOfDecomposition(x: int, q: int, r: int, n: int)
    requires 0 < n && 0 <= r < n && x == q * n + r
    ensures x % n == r
  {
    var q', r' := x / n, x % n;
    assert x == q' * n + r';
    assert (q - q') * n == r' - r;
    MulAwayFromZero(q - q', n);
  }

  /** Two positions less than `n` apart never share a slot. */
  lemma ModDistinct(a: int, b: int, n: int)
    requires 0 < n && a < b < a + n
    ensures a % n != b % n
  {
    var q := a / n;
    if a % n + (b - a) < n {
      ModOfDecomposition(b, q, a % n + (b - a), n);
    } else {
      ModOfDecomposition(b, q + 1, a % n + (b - a) - n, n);
    }
  }

  /** Advancing the cursor modulo `n` tracks the insert count modulo `n`. */
  lemma ModSucc(k: nat, n: nat)
    requires 0 < n
    ensures (k % n + 1) % n == (k + 1) % n
  {
    if k % n + 1 < n {
      ModOfDecomposition(k + 1, k / n, k % n + 1, n);
      ModOfDecomposition(k % n + 1, 0, k % n + 1, n);
    } else {
      ModOfDecomposition(k + 1, k / n + 1, 0, n);
      ModOfDecomposition(k % n + 1, 1, 0, n);
    }
  }

  /** Each of the last `n` inserted values sits in the slot its insert position maps to. */
  lemma {:induction false} FillRecent(n: nat, vs: seq<real>, j: int)
    requires 0 < n && 0 <= j < |vs| && |vs| - n <= j
    ensures Fill(n, vs)[j % n] == vs[j]
    decreases |vs|
  {
    var m := |vs| - 1;
    if j < m {
      var init := vs[..m];
      FillRecent(n, init, j);
      ModDistinct(j, m, n);
      assert Fill(n, vs)[j % n] == Fill(n, init)[j % n];
    }
  }

  /** A slot beyond the number of inserts so far still holds the zero sentinel. */
  lemma {:induction false} FillUnwritten(n: nat, vs: seq<real>, i: int)
    requires 0 < n && |vs| <= i < n
    ensures Fill(n, vs)[i] == 0.0
    decreases |vs|
  {
    if vs != [] {
      var m := |vs| - 1;
      FillUnwritten(n, vs[..m], i);
      ModOfDecomposition(m, 0, m, n);
    }
  }

  /** Warm-up: after at most `n` inserts the buffer is the inserted values followed by zeros. */
  lemma FillWarmUp(n: nat, vs: seq<real>)
    requires 0 < n && |vs| <= n
    ensures Fill(n, vs) == vs + seq(n - |vs|, _ => 0.0)
  {
    var s := Fill(n, vs);
    var t := vs + seq(n - |vs|, _ => 0.0);
    forall i | 0 <= i < n
      ensures s[i] == t[i]
    {
      if i < |vs| {
        FillRecent(n, vs, i);
        ModOfDecomposition(i, 0, i, n);
      } else {
        FillUnwritten(n, vs, i);
      }
    }
  }

  /**
   * Wrap: once at least `n` values were inserted, reading the buffer from the
   * cursor `|vs| % n` onwards gives exactly the last `n` inserted values, oldest first.
   */
  lemma FillLastN(n: nat, vs: seq<real>)
    requires 0 < n <= |vs|
    ensures Rotate(Fill(n, vs), |vs| % n) == vs[|vs| - n..]
  {
    var r := Rotate(Fill(n, vs), |vs| % n);
    forall k | 0 <= k < n
      ensures r[k] == vs[|vs| - n + k]
    {
      FillLastNAt(n, vs, k);
    }
  }

  /** One position of FillLastN: the k-th oldest of the last `n` values. */
  lemma FillLastNAt(n: nat, vs: seq<real>, k: int)
    requires 0 < n <= |vs| && 0 <= k < n
    ensures Rotate(Fill(n, vs), |vs| % n)[k] == vs[|vs| - n + k]
  {
    var c := |vs| % n;
    var q := |vs| / n;
    var j := |vs| - n + k;
    assert |vs| == q * n + c;
    FillRecent(n, vs, j);
    if k < n - c {
      assert (q - 1) * n == q * n - n;
      ModOfDecomposition(j, q - 1, c + k, n);
      assert Rotate(Fill(n, vs), c)[k] == Fill(n, vs)[c + k];
    } else {
      ModOfDecomposition(j, q, c + k - n, n);
      assert Rotate(Fill(n, vs), c)[k] == Fill(n, vs)[c + k - n];
    }
  }

  /** One ring buffer: `data` is the storage, `cursor` the index of the next write. */
  class RingBuffer {
    const capacity: nat
    const data: array<real>
    var cursor: nat
    /** Every value inserted since construction, oldest first. */
    ghost var inserted: seq<real>

    ghost predicate Valid()
      reads this, data
    {
      && 0 < capacity
      && data.Length == capacity
      && cursor == |inserted| % capacity
      && data[..] == Fill(capacity, inserted)
    }

    /** A zero-filled buffer with the cursor at slot 0. */
    constructor (n: nat)
      requires 0 < n
      ensures Valid() && fresh(data)
      ensures capacity == n && cursor == 0 && inserted == []
      ensures forall i :: 0 <= i < n ==> data[i] == 0.0
    {
      capacity := n;
      data := new real[n](_ => 0.0);
      cursor := 0;
      inserted := [];
    }

    /** Overwrite the slot under the cursor with `v` and advance the cursor modulo the capacity. */
    method Insert(v: real)
      requires Valid()
      modifies this, data
      ensures Valid()
      ensures data[..] == old(data[..])[old(cursor) := v]
      ensures cursor == (old(cursor) + 1) % capacity
      ensures inserted == old(inserted) + [v]
    {
      data[cursor] := v;
      ModSucc(|inserted|, capacity);
      cursor := (cursor + 1) % capacity;
      inserted := inserted + [v];
      assert inserted[..|inserted| - 1] == old(inserted);
    }
  }
}
