/** The canonical binary codec (internal/v2/codec/codec.go). */
module Codec {
  import opened Prelude

  function Power256(n: nat): nat {
    if n == 0 then 1 else 256 * Power256(n - 1)
  }

  /** The low n bytes of v, most significant first. */
  function BigEndian(v: nat, n: nat): (r: Bytes)
    ensures |r| == n
  {
    if n == 0 then [] else BigEndian(v / 256, n - 1) + [(v % 256) as byte]
  }

  function FromBigEndian(s: Bytes): nat {
    if s == [] then 0 else FromBigEndian(s[..|s| - 1]) * 256 + s[|s| - 1] as int
  }

  lemma {:induction false} DecodeEncode(v: nat, n: nat)
    requires v < Power256(n)
    ensures FromBigEndian(BigEndian(v, n)) == v
  {
    if n > 0 {
      DecodeEncode(v / 256, n - 1);
      assert BigEndian(v, n)[..n - 1] == BigEndian(v / 256, n - 1);
    }
  }

  lemma {:induction false} EncodeDecode(s: Bytes)
    ensures FromBigEndian(s) < Power256(|s|)
    ensures BigEndian(FromBigEndian(s), |s|) == s
  {
    if s != [] {
      EncodeDecode(s[..|s| - 1]);
      assert s == s[..|s| - 1] + [s[|s| - 1]];
    }
  }

  lemma Widths()
    ensures Power256(4) == U32_LIMIT && Power256(8) == U64_LIMIT
  {
    assert Power256(2) == 65536;
    assert Power256(4) == U32_LIMIT;
    assert Power256(6) == 65536 * U32_LIMIT;
  }

  function U32Bytes(v: u32): (r: Bytes) ensures |r| == 4 { BigEndian(v, 4) }
  function U64Bytes(v: u64): (r: Bytes) ensures |r| == 8 { BigEndian(v, 8) }

  function U64From(s: Bytes): (v: u64)
    requires |s| == 8
    ensures U64Bytes(v) == s
  {
    EncodeDecode(s);
    Widths();
    FromBigEndian(s)
  }

  function U32From(s: Bytes): (v: u32)
    requires |s| == 4
    ensures U32Bytes(v) == s
  {
    EncodeDecode(s);
    Widths();
    FromBigEndian(s)
  }

  /** Fixed-width integers have exactly one encoding. */
  lemma U64RoundTrip(v: u64)
    ensures U64From(U64Bytes(v)) == v
  {
    Widths();
    DecodeEncode(v, 8);
  }

  lemma U32RoundTrip(v: u32)
    ensures U32From(U32Bytes(v)) == v
  {
    Widths();
    DecodeEncode(v, 4);
  }

  /** A length-prefixed field, as Writer.Bytes lays it out. */
  function Framed(s: Bytes): (r: Bytes)
    requires |s| < U32_LIMIT
    ensures |r| == 4 + |s|
  {
    U32Bytes(|s|) + s
  }

  /** The framed field of at most `limit` bytes that starts at `off`, if there is one. */
  function FrameAt(data: Bytes, off: nat, limit: u32): (r: Option<Bytes>)
    requires off <= |data|
    ensures r.Some? ==> |r.value| <= limit && off + 4 + |r.value| <= |data|
    ensures r.Some? ==> Framed(r.value) == data[off..off + 4 + |r.value|]
  {
    if off + 4 > |data| then None
    else
      var n := U32From(data[off..off + 4]);
      if n > limit || off + 4 + n > |data| then None
      else
        assert data[off..off + 4 + n] == data[off..off + 4] + data[off + 4..off + 4 + n];
        Some(data[off + 4..off + 4 + n])
  }

  /** Reading a frame returns exactly what was framed. */
  lemma FrameReads(data: Bytes, off: nat, limit: u32, s: Bytes)
    requires |s| <= limit && off + 4 + |s| <= |data|
    requires data[off..off + 4 + |s|] == Framed(s)
    ensures FrameAt(data, off, limit) == Some(s)
  {
    assert data[off..off + 4] == data[off..off + 4 + |s|][..4] == U32Bytes(|s|);
    assert data[off + 4..off + 4 + |s|] == data[off..off + 4 + |s|][4..] == s;
    U32RoundTrip(|s|);
  }

  class Writer {
    var buf: Bytes

    constructor ()
      ensures buf == []
    {
      buf := [];
    }

    method U32(v: u32)
      modifies this
      ensures buf == old(buf) + U32Bytes(v)
    {
      buf := buf + U32Bytes(v);
    }

    method U64(v: u64)
      modifies this
      ensures buf == old(buf) + U64Bytes(v)
    {
      buf := buf + U64Bytes(v);
    }

    method Fixed(s: Bytes)
      modifies this
      ensures buf == old(buf) + s
    {
      buf := buf + s;
    }

    method Frame(s: Bytes)
      requires |s| < U32_LIMIT
      modifies this
      ensures buf == old(buf) + Framed(s)
    {
      U32(|s|);
      Fixed(s);
    }
  }

  /** A cursor over a byte slice; every read either consumes exactly its field or fails in place. */
  class Reader {
    const data: Bytes
    var off: nat

    ghost predicate Valid() reads this { off <= |data| }

    constructor (data: Bytes)
      ensures Valid() && this.data == data && off == 0
    {
      this.data := data;
      off := 0;
    }

    method Take(n: nat) returns (r: Option<Bytes>)
      requires Valid()
      modifies this`off
      ensures Valid()
      ensures r.Some? <==> old(off) + n <= |data|
      ensures r.Some? ==> off == old(off) + n && r.value == data[old(off)..off]
      ensures r.None? ==> off == old(off)
    {
      if off + n > |data| {
        return None;
      }
      r := Some(data[off..off + n]);
      off := off + n;
    }

    method U64() returns (r: Option<u64>)
      requires Valid()
      modifies this`off
      ensures Valid()
      ensures r.Some? <==> old(off) + 8 <= |data|
      ensures r.Some? ==> off == old(off) + 8 && U64Bytes(r.value) == data[old(off)..off]
      ensures r.Some? ==> r.value == U64From(data[old(off)..off])
      ensures r.None? ==> off == old(off)
    {
      var raw := Take(8);
      r := if raw.Some? then Some(U64From(raw.value)) else None;
    }

    method U32() returns (r: Option<u32>)
      requires Valid()
      modifies this`off
      ensures Valid()
      ensures r.Some? <==> old(off) + 4 <= |data|
      ensures r.Some? ==> off == old(off) + 4 && U32Bytes(r.value) == data[old(off)..off]
      ensures r.Some? ==> r.value == U32From(data[old(off)..off])
      ensures r.None? ==> off == old(off)
    {
      var raw := Take(4);
      r := if raw.Some? then Some(U32From(raw.value)) else None;
    }

    method Frame(limit: u32) returns (r: Option<Bytes>)
      requires Valid()
      modifies this`off
      ensures Valid() && old(off) <= off
      ensures r == FrameAt(data, old(off), limit)
      ensures r.Some? ==> off == old(off) + 4 + |r.value|
    {
      var n := U32();
      if n.None? || n.value > limit {
        return None;
      }
      r := Take(n.value);
    }
  }
}
