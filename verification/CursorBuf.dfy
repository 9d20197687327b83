/** A byte queue with lazy compaction, src/cursor_buf.rs. */
module CursorBuffer {
  import opened Bytes

  class CursorBuf {
    var data: bytes
    var head: nat
    var capacity: nat

    ghost predicate Valid()
      reads this
    {
      head <= |data| <= capacity
    }

    /** The readable bytes, oldest first. */
    function AsSlice(): (s: bytes)
      requires head <= |data|
      reads this
    {
      data[head..]
    }

    constructor WithCapacity(cap: nat)
      ensures Valid() && AsSlice() == []
    {
      data, head, capacity := [], 0, cap;
    }

    predicate IsEmpty()
      requires Valid()
      reads this
      ensures IsEmpty() <==> AsSlice() == []
    {
      head == |data|
    }

    method ExtendFromSlice(s: bytes)
      requires Valid()
      modifies this
      ensures Valid() && AsSlice() == old(AsSlice()) + s
    {
      if s == [] {
        return;
      }
      if |data| + |s| > capacity && head > 0 {
        Compact();
      }
      data := data + s;
      if |data| > capacity {
        var grown: nat :| grown >= |data|;
        capacity := grown;
      }
    }

    method Consume(n: nat)
      requires Valid() && n <= |AsSlice()|
      modifies this
      ensures Valid() && AsSlice() == old(AsSlice())[n..]
    {
      head := head + n;
      if head == |data| {
        data, head := [], 0;
      }
    }

    method Compact()
      requires Valid()
      modifies this
      ensures Valid() && head == 0
      ensures AsSlice() == old(AsSlice()) && capacity == old(capacity)
    {
      data, head := data[head..], 0;
    }
  }
}
