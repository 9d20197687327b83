/** BufferRing, written in place, and the loops over the buffers of a completion. */
module BufRing {
  import opened Bytes
  import opened Bits
  import opened Ring

  /** What the kernel reads: where the buffer is, how long it is, and its id. */
  datatype RingEntry = RingEntry(offset: nat, len: nat, bid: nat)

  datatype SliceResult = SlicesOk(count: nat) | SliceFailed | SlicesInvalid

  function BidAt(start: nat, i: nat, n: nat): (bid: nat)
    requires n > 0
    ensures bid < n
  {
    (start + i) % n
  }

  /** The bytes of slice i of a completion that starts at buffer `start`. */
  function SliceAt(buffers: seq<bytes>, bufSize: nat, start: nat, total: nat, i: nat): (s: bytes)
    requires |buffers| > 0 && (forall b <- buffers :: |b| == bufSize) && i * bufSize <= total
    ensures |s| == SliceLen(total, bufSize, i)
  {
    var len := SliceLen(total, bufSize, i);
    buffers[BidAt(start, i, |buffers|)][..len]
  }

  /** All slices of a completion. */
  function Slices(buffers: seq<bytes>, bufSize: nat, start: nat, total: nat, count: nat): (r: seq<bytes>)
    requires |buffers| > 0 && (forall b <- buffers :: |b| == bufSize)
    requires forall i: nat :: i < count ==> i * bufSize <= total
    ensures |r| == count
  {
    seq(count, i requires 0 <= i < count => SliceAt(buffers, bufSize, start, total, i))
  }

  class BufferRing {
    const entries: nat
    const bufSize: nat
    const ring: array<RingEntry>
    var buffers: seq<bytes>
    var localTail: nat
    var sharedTail: nat

    ghost predicate Valid()
      reads this, ring
      ensures Valid() ==> ring.Length == entries > 0 && bufSize > 0
      ensures Valid() ==> |buffers| == entries && forall b <- buffers :: |b| == bufSize
    {
      && ValidEntries(entries) && bufSize > 0
      && ring.Length == entries && |buffers| == entries && (forall b <- buffers :: |b| == bufSize)
      && localTail < TAIL_MODULUS && sharedTail == localTail
      && (forall s :: 0 <= s < entries ==>
            ring[s].bid < entries && ring[s].offset == ring[s].bid * bufSize && ring[s].len == bufSize)
    }

    ghost function View(): (v: RingView)
      requires ring.Length == entries
      reads this, ring
      ensures |v.slots| == entries
    {
      RingView(seq(entries, i requires 0 <= i < entries reads ring => ring[i].bid), localTail)
    }

    /** new, once the arguments are checked: slot i offers buffer i, and all are published. */
    constructor (entries: nat, bufSize: nat)
      requires ValidEntries(entries) && bufSize > 0
      ensures Valid() && fresh(ring) && this.entries == entries && this.bufSize == bufSize
      ensures Aligned(View(), 0)
    {
      this.entries, this.bufSize := entries, bufSize;
      ring := new RingEntry[entries](i requires 0 <= i => RingEntry(i * bufSize, bufSize, i));
      buffers := seq(entries, _ => seq(bufSize, _ => 0));
      localTail, sharedTail := entries, entries;
    }

    /** recycle: publishes buffer `bid` behind the others. */
    method Recycle(bid: nat)
      requires Valid() && bid < entries
      modifies this`localTail, this`sharedTail, ring
      ensures Valid() && View() == RecycleInto(old(View()), bid)
      ensures localTail == (old(localTail) + 1) % 0x1_0000
      ensures forall s :: 0 <= s < entries ==>
                ring[s] == if s == old(localTail) % entries then RingEntry(bid * bufSize, bufSize, bid)
                           else old(ring[s])
    {
      AndMask(localTail, entries);
      var slot := And(localTail, entries - 1);
      ring[slot] := RingEntry(bid * bufSize, bufSize, bid);
      localTail := (localTail + 1) % TAIL_MODULUS;
      sharedTail := localTail;
      assert View().slots == old(View()).slots[slot := bid];
    }

    /** start_bid.wrapping_add(index) & mask. */
    method BundleBid(start: nat, index: nat) returns (bid: nat)
      requires Valid() && start < entries && index < entries
      ensures bid == BidAt(start, index, entries)
    {
      bid := And((start + index) % TAIL_MODULUS, entries - 1);
      AndMask((start + index) % TAIL_MODULUS, entries);
      WrapKeepsSlot(start + index, entries);
    }

    /** recycle_recv_buffers: used for completions that arrive after the connection has closed. */
    method RecycleRecvBuffers(mode: RecvMode, start: nat, total: nat)
      requires Valid() && start < entries
      modifies this`localTail, this`sharedTail, ring
      ensures Valid() && View() == RecycleRun(old(View()), start, DiscardCount(mode, total, bufSize, entries))
    {
      hide Valid, View, RecycleInto, SliceCount;
      var count := DiscardCount(mode, total, bufSize, entries);
      for index := 0 to count
        invariant Valid() && View() == RecycleRun(old(View()), start, index)
      {
        var bid := BundleBid(start, index);
        Recycle(bid);
      }
    }

    /**
     for_each_recv_slice: hands out the slices until the callback fails (accept says how its i-th
     call ends), and gives back every buffer of the completion either way.
     */
    method ForEachRecvSlice(mode: RecvMode, start: nat, total: nat, accept: nat -> bool)
      returns (r: SliceResult, delivered: seq<bytes>)
      requires Valid() && start < entries
      modifies this`localTail, this`sharedTail, ring
      ensures Valid()
      ensures total == 0 ==> r == SlicesOk(0) && delivered == [] && View() == RecycleRun(old(View()), start, 1)
      ensures r.SlicesInvalid? <==>
                total > 0 && ((mode.Multishot? && total > bufSize) || SliceCount(mode, total, bufSize) > entries)
      ensures r.SlicesInvalid? ==> delivered == [] && View() == old(View())
      ensures !r.SlicesInvalid? && total > 0 ==>
                var count := SliceCount(mode, total, bufSize);
                && (forall i: nat :: i < count ==> i * bufSize <= total)
                && View() == RecycleRun(old(View()), start, count)
                && Handed(accept, Slices(buffers, bufSize, start, total, count), delivered, count, r.SliceFailed?)
                && (r.SlicesOk? ==> r.count == count)
    {
      hide Valid, View, RecycleRun, Handed;
      if total == 0 {
        Recycle(start);
        RecycleOne(old(View()), start);
        return SlicesOk(0), [];
      }
      delivered := [];
      var count := SliceCount(mode, total, bufSize);
      if (mode.Multishot? && total > bufSize) || count > entries {
        return SlicesInvalid, [];
      }
      SliceBounds(mode, total, bufSize);
      var failed;
      failed, delivered := DeliverSlices(start, total, count, accept);
      r := if failed then SliceFailed else SlicesOk(count);
    }

    method DeliverSlices(start: nat, total: nat, count: nat, accept: nat -> bool)
      returns (failed: bool, delivered: seq<bytes>)
      requires Valid() && start < entries && count <= entries
      requires forall i: nat :: i < count ==> i * bufSize <= total
      modifies this`localTail, this`sharedTail, ring
      ensures Valid() && View() == RecycleRun(old(View()), start, count)
      ensures Handed(accept, Slices(buffers, bufSize, start, total, count), delivered, count, failed)
    {
      hide Valid, View, Handed, RecycleInto, RecycleRun, SliceLen, Rest, Slices, BidAt;
      RestOfAll(total, bufSize);
      ghost var all := Slices(buffers, bufSize, start, total, count);
      var remaining := total;
      failed, delivered := false, [];
      HandedNothing(accept, all);
      RunOfNothing(View(), start);
      for index := 0 to count
        invariant Valid()
        invariant View() == RecycleRun(old(View()), start, index)
        invariant index < count ==> remaining == Rest(total, bufSize, index)
        invariant Handed(accept, all, delivered, index, failed)
      {
        NextSlice(total, bufSize, index, count);
        var bid := BundleBid(start, index);
        var len := if remaining <= bufSize then remaining else bufSize;
        var slice := buffers[bid][..len];
        SliceIs(buffers, bufSize, start, total, count, index);
        HandedOneMore(accept, all, delivered, index, failed);
        if !failed {
          delivered := delivered + [slice];
          failed := !accept(index);
        }
        Recycle(bid);
        RunOneMore(old(View()), start, index);
        remaining := remaining - len;
      }
    }
  }

  /** The callback saw the first slices in order, up to and including the one it failed on. */
  ghost predicate Handed(accept: nat -> bool, all: seq<bytes>, delivered: seq<bytes>, index: nat, failed: bool)
    requires index <= |all|
  {
    && delivered <= all[..index]
    && (!failed ==> |delivered| == index && forall i: nat :: i < index ==> accept(i))
    && (failed ==>
          |delivered| > 0 && !accept(|delivered| - 1) && forall i: nat :: i < |delivered| - 1 ==> accept(i))
  }

  lemma HandedNothing(accept: nat -> bool, all: seq<bytes>)
    ensures Handed(accept, all, [], 0, false)
  {
  }

  lemma HandedOneMore(accept: nat -> bool, all: seq<bytes>, delivered: seq<bytes>, index: nat, failed: bool)
    requires index < |all| && Handed(accept, all, delivered, index, failed)
    ensures if failed then Handed(accept, all, delivered, index + 1, true)
            else Handed(accept, all, delivered + [all[index]], index + 1, !accept(index))
  {
    assert all[..index + 1] == all[..index] + [all[index]];
  }

  /** The bytes of a completion from slice i on. */
  function Rest(total: nat, bufSize: nat, i: nat): (r: int) {
    total - i * bufSize
  }

  lemma RestOfAll(total: nat, bufSize: nat)
    ensures Rest(total, bufSize, 0) == total
  {
  }

  lemma NextSlice(total: nat, bufSize: nat, index: nat, count: nat)
    requires index < count && forall i: nat :: i < count ==> i * bufSize <= total
    ensures var rest := Rest(total, bufSize, index);
            && 0 <= rest && SliceLen(total, bufSize, index) == (if rest <= bufSize then rest else bufSize)
            && (index + 1 < count ==> Rest(total, bufSize, index + 1) == rest - SliceLen(total, bufSize, index))
  {
    Distribute(index, 1, bufSize);
    assert index * bufSize <= total;
    if index + 1 < count {
      assert (index + 1) * bufSize <= total;
    }
  }

  lemma RunOfNothing(v: RingView, start: nat)
    requires |v.slots| > 0
    ensures RecycleRun(v, start, 0) == v
  {
  }

  lemma RunOneMore(v: RingView, start: nat, index: nat)
    requires |v.slots| > 0
    ensures RecycleRun(v, start, index + 1) == RecycleInto(RecycleRun(v, start, index), BidAt(start, index, |v.slots|))
  {
  }

  lemma SliceIs(buffers: seq<bytes>, bufSize: nat, start: nat, total: nat, count: nat, i: nat)
    requires |buffers| > 0 && (forall b <- buffers :: |b| == bufSize)
    requires i < count && forall j: nat :: j < count ==> j * bufSize <= total
    ensures SliceLen(total, bufSize, i) <= bufSize
    ensures Slices(buffers, bufSize, start, total, count)[i]
         == buffers[BidAt(start, i, |buffers|)][..SliceLen(total, bufSize, i)]
  {
  }

  lemma RecycleOne(v: RingView, start: nat)
    requires start < |v.slots|
    ensures RecycleRun(v, start, 1) == RecycleInto(v, start)
  {
    assert RecycleRun(v, start, 0) == v;
    UniqueRemainder(start, |v.slots|, 0, start);
  }

  /** The number of buffers that recycle_recv_buffers gives back. */
  function DiscardCount(mode: RecvMode, total: nat, bufSize: nat, entries: nat): (c: nat)
    requires bufSize > 0
  {
    var c := SliceCount(mode, total, bufSize);
    Min(if c == 0 then 1 else c, entries)
  }

  lemma SliceBounds(mode: RecvMode, total: nat, bufSize: nat)
    requires bufSize > 0 && total > 0 && (mode.Multishot? ==> total <= bufSize)
    ensures forall i: nat :: i < SliceCount(mode, total, bufSize) ==> i * bufSize <= total
    ensures SliceCount(mode, total, bufSize) == Ceil(total, bufSize)
  {
    SlicesAddUp(total, bufSize);
    if mode.Multishot? {
      OneSlice(total, bufSize);
    }
  }

  lemma OneSlice(total: nat, bufSize: nat)
    requires 0 < total <= bufSize
    ensures Ceil(total, bufSize) == 1
  {
    if total == bufSize {
      UniqueRemainder(total, bufSize, 1, 0);
    } else {
      UniqueRemainder(total, bufSize, 0, total);
    }
  }

  /** Discarding gives back exactly the buffers that delivering does, for every length in range. */
  lemma DiscardMatchesDelivery(mode: RecvMode, total: nat, bufSize: nat, entries: nat)
    requires bufSize > 0 && entries > 0
    requires SliceCount(mode, total, bufSize) <= entries
    ensures DiscardCount(mode, total, bufSize, entries) ==
            if total == 0 then 1 else SliceCount(mode, total, bufSize)
  {
    if mode.MultishotBundle? {
      if total == 0 {
        UniqueRemainder(0, bufSize, 0, 0);
      } else {
        SlicesAddUp(total, bufSize);
      }
    }
  }

  /** The slices of a completion, put together, are as many bytes as it announced. */
  lemma {:induction false} SlicesTotal(buffers: seq<bytes>, bufSize: nat, start: nat, total: nat, k: nat)
    requires |buffers| > 0 && (forall b <- buffers :: |b| == bufSize) && bufSize > 0 && total > 0
    requires k <= Ceil(total, bufSize)
    requires forall i: nat :: i < Ceil(total, bufSize) ==> i * bufSize <= total
    ensures |Concat(Slices(buffers, bufSize, start, total, Ceil(total, bufSize))[..k])| == Min(k * bufSize, total)
    decreases k
  {
    SlicesAddUp(total, bufSize);
    var count := Ceil(total, bufSize);
    var all := Slices(buffers, bufSize, start, total, count);
    if k > 0 {
      SlicesTotal(buffers, bufSize, start, total, k - 1);
      ConcatAppend(all[..k - 1], all[k - 1]);
      assert all[..k] == all[..k - 1] + [all[k - 1]];
      Distribute(k - 1, 1, bufSize);
    }
  }
}
