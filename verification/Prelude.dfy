/** Machine integers, byte strings and finite sums shared by every part of the model. */
module Prelude {

  const U64_LIMIT: int := 0x1_0000_0000_0000_0000
  const MAX_U64: int := U64_LIMIT - 1
  const U32_LIMIT: int := 0x1_0000_0000

  type u64 = n: int | 0 <= n < U64_LIMIT
  type u32 = n: int | 0 <= n < U32_LIMIT
  newtype byte = b: int | 0 <= b < 256

  /** Go's unsigned 64-bit addition. */
  function WrapAdd(a: u64, b: u64): (r: u64)
    ensures a + b < U64_LIMIT ==> r == a + b
  {
    if a + b < U64_LIMIT then a + b else a + b - U64_LIMIT
  }

  /** Exact products and quotients, as big.Int computes them on non-negative numbers. */
  function Times(a: nat, b: nat): nat {
    a * b
  }

  function Quotient(a: nat, d: nat): nat
    requires d > 0
  {
    a / d
  }

  type Bytes = seq<byte>

  function ZeroBytes(n: nat): (r: Bytes)
    ensures |r| == n && forall i :: 0 <= i < n ==> r[i] == 0
  {
    seq(n, i => 0)
  }

  /** 32-byte identifiers and digests. */
  type Bytes32 = s: seq<byte> | |s| == 32 witness ZeroBytes(32)
  const ZERO32: Bytes32 := ZeroBytes(32)

  /** Identifiers told apart by their first byte, for examples. */
  function Name(b: byte): (r: Bytes32)
    ensures r[0] == b
  {
    [b] + ZeroBytes(31)
  }

  lemma Named(b: byte)
    ensures b != 0 ==> Name(b) != ZERO32
    ensures Name(b)[0] == b
  {
    assert b != 0 ==> Name(b)[0] != ZERO32[0];
  }

  function Point(b: bool): nat {
    if b then 1 else 0
  }

  datatype Option<+T> = None | Some(value: T)

  /** A value or the error a Go function returned instead. */
  datatype Fallible<+T, +E> = Ok(value: T) | Err(error: E)

  /** The elements of a sequence as a set. */
  function Elements<T>(s: seq<T>): set<T> {
    set x | x in s
  }

  ghost predicate Distinct<T>(s: seq<T>) {
    forall i, j :: 0 <= i < j < |s| ==> s[i] != s[j]
  }

  /** The sum of the values of a finite map. */
  ghost function MapSum<K>(m: map<K, nat>): nat {
    SumOver(m, m.Keys)
  }

  ghost function SumOver<K>(m: map<K, nat>, keys: set<K>): nat
    requires keys <= m.Keys
  {
    if keys == {} then 0
    else
      var k :| k in keys;
      m[k] + SumOver(m, keys - {k})
  }

  /** Any key may be taken out first: the sum does not depend on iteration order. */
  lemma {:induction false} SumOverTake<K>(m: map<K, nat>, keys: set<K>, k: K)
    requires k in keys && keys <= m.Keys
    ensures SumOver(m, keys) == m[k] + SumOver(m, keys - {k})
    decreases keys
  {
    var c :| c in keys && SumOver(m, keys) == m[c] + SumOver(m, keys - {c});
    if c != k {
      SumOverTake(m, keys - {c}, k);
      SumOverTake(m, keys - {k}, c);
      assert keys - {c} - {k} == keys - {k} - {c};
    }
  }

  /** The sum only reads the values at its keys. */
  lemma {:induction false} SumOverSame<K>(m: map<K, nat>, n: map<K, nat>, keys: set<K>)
    requires keys <= m.Keys && keys <= n.Keys
    requires forall k :: k in keys ==> m[k] == n[k]
    ensures SumOver(m, keys) == SumOver(n, keys)
    decreases keys
  {
    if keys != {} {
      var k :| k in keys;
      SumOverTake(m, keys, k);
      SumOverTake(n, keys, k);
      SumOverSame(m, n, keys - {k});
    }
  }

  lemma MapSumTake<K>(m: map<K, nat>, k: K)
    requires k in m
    ensures MapSum(m) == m[k] + MapSum(m - {k})
  {
    SumOverTake(m, m.Keys, k);
    assert (m - {k}).Keys == m.Keys - {k};
    SumOverSame(m, m - {k}, m.Keys - {k});
  }

  lemma MapSumPut<K>(m: map<K, nat>, k: K, v: nat)
    ensures MapSum(m[k := v]) == v + MapSum(m - {k})
    ensures MapSum(m[k := v]) == MapSum(m) - (if k in m then m[k] else 0) + v
  {
    MapSumTake(m[k := v], k);
    assert m[k := v] - {k} == m - {k};
    if k in m {
      MapSumTake(m, k);
    } else {
      assert m - {k} == m;
    }
  }

  lemma MapSumBound<K>(m: map<K, nat>, k: K)
    requires k in m
    ensures m[k] <= MapSum(m)
  {
    MapSumTake(m, k);
  }
}
