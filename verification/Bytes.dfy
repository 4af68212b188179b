/** Bytes and big-endian 16-bit numbers, as the wire formats use them. */
module Bytes {

  newtype byte = x: int | 0 <= x < 256

  function U16(data: seq<byte>, pos: nat): (n: nat)
    requires pos + 2 <= |data|
    ensures n < 0x1_0000
  {
    data[pos] as int * 256 + data[pos + 1] as int
  }

  function Be16(n: nat): (s: seq<byte>)
    requires n < 0x1_0000
    ensures |s| == 2
  {
    [(n / 256) as byte, (n % 256) as byte]
  }

  /** The bytes written are the bytes read. */
  lemma U16Reads(data: seq<byte>, pos: nat, n: nat)
    requires n < 0x1_0000 && pos + 2 <= |data| && data[pos..pos + 2] == Be16(n)
    ensures U16(data, pos) == n
  {
    assert data[pos] == data[pos..pos + 2][0] && data[pos + 1] == data[pos..pos + 2][1];
  }

  /** `part` stands in data at pos. */
  predicate Holds(data: seq<byte>, pos: nat, part: seq<byte>) {
    pos + |part| <= |data| && data[pos..pos + |part|] == part
  }

  lemma HoldsConcat(data: seq<byte>, pos: nat, a: seq<byte>, b: seq<byte>)
    ensures Holds(data, pos, a + b) <==> Holds(data, pos, a) && Holds(data, pos + |a|, b)
  {
    if pos + |a| + |b| <= |data| {
      var w := data[pos..pos + |a + b|];
      assert w == data[pos..pos + |a|] + data[pos + |a|..pos + |a| + |b|];
      assert w[..|a|] == data[pos..pos + |a|] && w[|a|..] == data[pos + |a|..pos + |a| + |b|];
      assert (a + b)[..|a|] == a && (a + b)[|a|..] == b;
    }
  }

  lemma SliceSplit(data: seq<byte>, from: nat, mid: nat, to: nat)
    requires from <= mid <= to <= |data|
    ensures data[from..to] == data[from..mid] + data[mid..to]
  {
  }

  lemma HoldsAt(data: seq<byte>, pos: nat, part: seq<byte>, i: nat)
    requires Holds(data, pos, part) && i < |part|
    ensures data[pos + i] == part[i]
  {
    assert data[pos..pos + |part|][i] == data[pos + i];
  }
}
