/**
 The provided-buffer ring of src/proactor/buf_ring.rs and the code that hands its buffers
 back, src/connection_state.rs:2386-2465.
 */
module Ring {
  import opened Bits

  /** The tail is a 16-bit counter. */
  const TAIL_MODULUS := 0x1_0000

  predicate ValidEntries(n: nat) {
    PowerOfTwo(n) && n <= 0x8000
  }

  // ---- powers of two and the 16-bit counter -----------------------------------------------

  lemma {:induction false} SmallerDivides(n: nat, m: nat) returns (k: nat)
    requires PowerOfTwo(n) && PowerOfTwo(m) && n <= m
    ensures m == n * k
    decreases n
  {
    if n == 1 {
      k := m;
    } else {
      k := SmallerDivides(n / 2, m / 2);
      assert m == 2 * (n / 2 * k) == 2 * (n / 2) * k;
    }
  }

  lemma Distribute(a: int, b: int, n: int)
    ensures (a + b) * n == a * n + b * n
  {
  }

  /** Wrapping at 16 bits does not disturb the position in the ring. */
  lemma WrapKeepsSlot(x: nat, n: nat)
    requires ValidEntries(n)
    ensures (x % 0x1_0000) % n == x % n
  {
    assert PowerOfTwo(0x1_0000);
    var k := SmallerDivides(n, TAIL_MODULUS);
    var q, w := x / TAIL_MODULUS, x % TAIL_MODULUS;
    assert q * TAIL_MODULUS == (q * k) * n;
    RemainderPlus(q * k, w, n);
  }

  lemma RemainderPlus(q: nat, w: nat, n: nat)
    requires n > 0
    ensures (q * n + w) % n == w % n
  {
    var p, r := w / n, w % n;
    DivMod(w, n);
    Distribute(q, p, n);
    assert q * n + w == (q + p) * n + r;
    UniqueRemainder(q * n + w, n, q + p, r);
  }

  lemma DivMod(a: nat, n: nat)
    requires n > 0
    ensures a == a / n * n + a % n
  {
  }

  lemma AddInsideMod(a: nat, b: nat, n: nat)
    requires n > 0
    ensures (a % n + b) % n == (a + b) % n
  {
    var q, r := a / n, a % n;
    DivMod(a, n);
    RemainderPlus(q, r + b, n);
    SameRemainder(q * n + (r + b), a + b, n);
  }

  lemma SameRemainder(x: nat, y: nat, n: nat)
    requires n > 0 && x == y
    ensures x % n == y % n
  {
  }

  lemma FullTurn(a: nat, n: nat)
    requires n > 0
    ensures (n + a) % n == a % n
  {
    AddInsideMod(n, a, n);
    UniqueRemainder(n, n, 1, 0);
  }

  lemma DistinctInTurn(a: nat, b: nat, n: nat)
    requires n > 0 && a < b < a + n
    ensures a % n != b % n
  {
    if a % n == b % n {
      var p, q := a / n, b / n;
      DivMod(a, n);
      DivMod(b, n);
      Distribute(q - p, p, n);
      AtLeastOne(q - p, n);
      assert false;
    }
  }

  // ---- what recycling does to the ring ----------------------------------------------------

  /** The buffer id in each slot, and the tail. */
  datatype RingView = RingView(slots: seq<nat>, tail: nat)

  function RecycleInto(v: RingView, bid: nat): (r: RingView)
    requires |v.slots| > 0
    ensures |r.slots| == |v.slots|
  {
    RingView(v.slots[v.tail % |v.slots| := bid], (v.tail + 1) % TAIL_MODULUS)
  }

  /** Recycling start, start + 1, ... in the ring's own arithmetic. */
  function RecycleRun(v: RingView, start: nat, count: nat): (r: RingView)
    requires |v.slots| > 0
    ensures |r.slots| == |v.slots|
  {
    if count == 0 then v
    else RecycleInto(RecycleRun(v, start, count - 1), (start + (count - 1)) % |v.slots|)
  }

  /** Every slot holds its own number, and the tail has counted every return. */
  ghost predicate Aligned(v: RingView, returned: nat) {
    && ValidEntries(|v.slots|)
    && (forall s :: 0 <= s < |v.slots| ==> v.slots[s] == s)
    && v.tail == (|v.slots| + returned) % TAIL_MODULUS
  }

  lemma RecycleKeepsAligned(v: RingView, returned: nat)
    requires Aligned(v, returned)
    ensures Aligned(RecycleInto(v, returned % |v.slots|), returned + 1)
  {
    var n := |v.slots|;
    WrapKeepsSlot(n + returned, n);
    FullTurn(returned, n);
    AddInsideMod(n + returned, 1, TAIL_MODULUS);
  }

  /** Returning buffers in the order in which they were taken keeps slot s on buffer s, for ever. */
  lemma {:induction false} RunKeepsAligned(v: RingView, returned: nat, count: nat)
    requires Aligned(v, returned)
    ensures Aligned(RecycleRun(v, returned % |v.slots|, count), returned + count)
    decreases count
  {
    if count > 0 {
      RunKeepsAligned(v, returned, count - 1);
      RecycleKeepsAligned(RecycleRun(v, returned % |v.slots|, count - 1), returned + (count - 1));
      AddInsideMod(returned, count - 1, |v.slots|);
    }
  }

  /** Order matters: only the buffer whose turn it is keeps the ring aligned, and no other ever does. */
  lemma OnlyInOrderKeepsAligned(v: RingView, returned: nat, bid: nat)
    requires Aligned(v, returned) && bid < |v.slots|
    ensures Aligned(RecycleInto(v, bid), returned + 1) <==> bid == returned % |v.slots|
    ensures bid != returned % |v.slots| ==> forall m: nat :: !Aligned(RecycleInto(v, bid), m)
  {
    var n := |v.slots|;
    WrapKeepsSlot(n + returned, n);
    FullTurn(returned, n);
    RecycleKeepsAligned(v, returned);
    assert RecycleInto(v, bid).slots[returned % n] == bid;
  }

  // ---- slices of a receive completion -----------------------------------------------------

  datatype RecvMode = Multishot | MultishotBundle

  function Ceil(a: nat, b: nat): (r: nat)
    requires b > 0
  {
    if a % b == 0 then a / b else a / b + 1
  }

  function SliceCount(mode: RecvMode, total: nat, bufSize: nat): (c: nat)
    requires bufSize > 0
  {
    if mode.Multishot? then 1 else Ceil(total, bufSize)
  }

  function SliceLen(total: nat, bufSize: nat, i: nat): (len: nat)
    requires i * bufSize <= total
  {
    if total - i * bufSize <= bufSize then total - i * bufSize else bufSize
  }

  /** Slices 0 .. count - 1 are full except the last and add up to the total. */
  lemma SlicesAddUp(total: nat, bufSize: nat)
    requires bufSize > 0 && total > 0
    ensures var count := Ceil(total, bufSize);
            && count > 0
            && (count - 1) * bufSize < total <= count * bufSize
            && (forall i: nat :: i < count - 1 ==> i * bufSize <= total && SliceLen(total, bufSize, i) == bufSize)
            && (count - 1) * bufSize + SliceLen(total, bufSize, count - 1) == total
  {
    var q, r := total / bufSize, total % bufSize;
    assert total == q * bufSize + r;
    var count := Ceil(total, bufSize);
    if r == 0 {
      assert q > 0 by { AtLeastOne(q, bufSize); }
      assert (count - 1) * bufSize == q * bufSize - bufSize;
    } else {
      assert count * bufSize == q * bufSize + bufSize;
    }
    forall i: nat | i < count - 1
      ensures i * bufSize <= total && SliceLen(total, bufSize, i) == bufSize
    {
      assert (count - 1 - i) * bufSize >= bufSize by { AtLeastOne(count - 1 - i, bufSize); }
      assert (count - 1) * bufSize - i * bufSize == (count - 1 - i) * bufSize;
    }
  }

  /** The buffers of one completion are distinct. */
  lemma BundleBidsDistinct(start: nat, i: nat, j: nat, n: nat)
    requires n > 0 && i < j < n
    ensures (start + i) % n != (start + j) % n
  {
    DistinctInTurn(start + i, start + j, n);
  }
}
