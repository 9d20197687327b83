/** Bytes, byte strings and the integers they spell. */
module Bytes {
  import Bits

  type byte = x: int | 0 <= x < 256

  type bytes = seq<byte>

  datatype Option<+T> = None | Some(value: T)

  function Min(a: nat, b: nat): nat { if a <= b then a else b }

  // ---- big-endian integers ---------------------------------------------------

  /** 256 to the power n: the number of values that n bytes can spell. */
  function Pow256(n: nat): (p: nat)
    ensures p > 0
  {
    if n == 0 then 1 else 256 * Pow256(n - 1)
  }

  /** The big-endian value of s. */
  function FromBE(s: bytes): (v: nat)
    ensures v < Pow256(|s|)
  {
    if s == [] then 0 else FromBE(s[..|s| - 1]) * 256 + s[|s| - 1]
  }

  /** Equally long spellings of one value are the same. */
  lemma {:induction false} FromBEInjective(s: bytes, t: bytes)
    requires |s| == |t| && FromBE(s) == FromBE(t)
    ensures s == t
  {
    if s != [] {
      var n := |s| - 1;
      SameDigits(FromBE(s[..n]), s[n], FromBE(t[..n]), t[n]);
      FromBEInjective(s[..n], t[..n]);
      assert s == s[..n] + [s[n]] && t == t[..n] + [t[n]];
    }
  }

  lemma SameDigits(a: nat, x: byte, b: nat, y: byte)
    requires a * 256 + x == b * 256 + y
    ensures a == b && x == y
  {
  }

  lemma {:induction false} FromBEOnto(v: nat, n: nat) returns (s: bytes)
    requires v < Pow256(n)
    ensures |s| == n && FromBE(s) == v
  {
    if n == 0 {
      s := [];
    } else {
      var front := FromBEOnto(v / 256, n - 1);
      s := front + [v % 256];
      assert s[..n - 1] == front;
    }
  }

  /** The n-byte big-endian spelling of v. */
  ghost function ToBE(v: nat, n: nat): (s: bytes)
    requires v < Pow256(n)
    ensures |s| == n && FromBE(s) == v
  {
    assert exists t: bytes :: |t| == n && FromBE(t) == v by {
      var t := FromBEOnto(v, n);
    }
    var s: bytes :| |s| == n && FromBE(s) == v;
    s
  }

  /** to_be_bytes, digit by digit from the last one. */
  method WriteBE(v: nat, n: nat) returns (s: bytes)
    requires v < Pow256(n)
    ensures s == ToBE(v, n)
  {
    s := [];
    var left: nat, m: nat := v, n;
    assert ToBE(left, m) + s == ToBE(v, n);
    while m > 0
      invariant m <= n && |s| == n - m
      invariant left < Pow256(m)
      invariant FromBE(ToBE(left, m) + s) == v
    {
      ghost var front := ToBE(left, m);
      ghost var shorter := ToBE(left / 256, m - 1);
      assert shorter + [left % 256] == front by {
        assert (shorter + [left % 256])[..m - 1] == shorter;
        FromBEInjective(shorter + [left % 256], front);
      }
      assert shorter + ([left % 256] + s) == front + s;
      s := [left % 256] + s;
      left, m := left / 256, m - 1;
    }
    assert ToBE(left, 0) + s == s;
    FromBEInjective(s, ToBE(v, n));
  }

  // ---- which byte comes first ----------------------------------------------------------------

  lemma FromBEOne(x: byte)
    ensures FromBE([x]) == x
  {
    assert [x][..0] == [];
  }

  /** In a big-endian spelling, what comes first counts more. */
  lemma {:induction false} FromBEJoin(a: bytes, b: bytes)
    ensures FromBE(a + b) == FromBE(a) * Pow256(|b|) + FromBE(b)
    decreases |b|
  {
    if b == [] {
      assert a + b == a;
    } else {
      var n := |b| - 1;
      assert (a + b)[..|a + b| - 1] == a + b[..n] && (a + b)[|a + b| - 1] == b[n];
      FromBEJoin(a, b[..n]);
      Shift(FromBE(a), Pow256(n), FromBE(b[..n]), b[n]);
    }
  }

  lemma Shift(v: nat, p: nat, low: nat, x: byte)
    ensures (v * p + low) * 256 + x == v * (256 * p) + (low * 256 + x)
  {
    assert (v * p) * 256 == v * (256 * p);
  }

  /** Byte i of the n-byte spelling of v: the first is the most significant one. */
  lemma BEDigit(v: nat, n: nat, i: nat)
    requires v < Pow256(n) && i < n
    ensures ToBE(v, n)[i] == (v / Pow256(n - 1 - i)) % 256
  {
    var s := ToBE(v, n);
    var a, x, b := s[..i], s[i], s[i + 1..];
    assert s == (a + [x]) + b;
    FromBEJoin(a + [x], b);
    FromBEJoin(a, [x]);
    FromBEOne(x);
    assert Pow256(1) == 256;
    var front := FromBE(a) * 256 + x;
    assert v == front * Pow256(|b|) + FromBE(b);
    Bits.UniqueRemainder(v, Pow256(|b|), front, FromBE(b));
    Bits.UniqueRemainder(front, 256, FromBE(a), x);
  }

  /** s holds the n base-256 digits of v, the most significant one first. */
  ghost predicate Spells(s: bytes, v: nat, n: nat) {
    && |s| == n
    && (forall i :: 0 <= i < n ==> s[i] == v / Pow256(n - 1 - i) % 256)
  }

  lemma BEDigits(v: nat, n: nat)
    requires v < Pow256(n)
    ensures Spells(ToBE(v, n), v, n)
  {
    hide FromBE, Pow256;
    var s := ToBE(v, n);
    forall i | 0 <= i < n
      ensures s[i] == v / Pow256(n - 1 - i) % 256
    {
      BEDigit(v, n, i);
    }
  }

  /** The two bytes of a 16-bit number. */
  lemma BETwo(v: nat)
    requires v < 0x1_0000
    ensures Pow256(2) == 0x1_0000 && ToBE(v, 2) == [v / 256, v % 256]
  {
    assert Pow256(1) == 256 && Pow256(0) == 1;
    Pow256Values();
    BEDigit(v, 2, 0);
    BEDigit(v, 2, 1);
  }

  lemma BETwoBack(s: bytes)
    requires |s| == 2
    ensures FromBE(s) == (s[0] as nat) * 256 + s[1]
  {
    FromBEOne(s[0]);
    assert s[..1] == [s[0]];
  }

  lemma Pow256Values()
    ensures Pow256(2) == 0x1_0000 && Pow256(8) == 0x1_0000_0000_0000_0000
  {
  }

  lemma Associative<T>(a: seq<T>, b: seq<T>, c: seq<T>)
    ensures (a + b) + c == a + (b + c)
  {
  }

  lemma SplitAt<T>(s: seq<T>, n: nat)
    requires n <= |s|
    ensures s[..n] + s[n..] == s
  {
  }

  lemma DropAppend<T>(s: seq<T>, n: nat, more: seq<T>)
    requires n <= |s|
    ensures (s + more)[n..] == s[n..] + more
  {
  }

  /** The pieces of a byte stream, put together again. */
  function Concat(chunks: seq<bytes>): (s: bytes) {
    if chunks == [] then [] else chunks[0] + Concat(chunks[1..])
  }

  lemma {:induction false} ConcatAppend(chunks: seq<bytes>, last: bytes)
    ensures Concat(chunks + [last]) == Concat(chunks) + last
  {
    if chunks == [] {
      assert Concat([last]) == last + Concat([]);
    } else {
      assert (chunks + [last])[1..] == chunks[1..] + [last];
      ConcatAppend(chunks[1..], last);
    }
  }
}
