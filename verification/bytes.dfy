/** Byte strings and the few list facts that every other module leans on. */
module Bytes {
  type byte = b: int | 0 <= b < 256
  type bytes = seq<byte>

  const ESC: byte := 0x1B

  function Concat(parts: seq<bytes>): bytes {
    if parts == [] then [] else parts[0] + Concat(parts[1..])
  }

  lemma {:induction false} ConcatAppend(a: seq<bytes>, b: seq<bytes>)
    ensures Concat(a + b) == Concat(a) + Concat(b)
  {
    if a == [] {
      assert a + b == b;
    } else {
      assert (a + b)[1..] == a[1..] + b;
      ConcatAppend(a[1..], b);
    }
  }

  lemma ConcatSnoc(a: seq<bytes>, x: bytes)
    ensures Concat(a + [x]) == Concat(a) + x
  {
    ConcatAppend(a, [x]);
    assert Concat([x]) == x + Concat([]);
  }

  /** The code units of an ASCII literal. */
  function Ascii(s: string): (r: bytes)
    ensures |r| == |s|
  {
    seq(|s|, i requires 0 <= i < |s| => if s[i] < 128 as char then s[i] as int else 0)
  }

  /**
   * Appends to the first `len` bytes of an array the way a slice grows: in
   * place while there is capacity, else in a larger array.
   */
  method AppendSlice(arr: array<byte>, len: nat, data: bytes) returns (out: array<byte>)
    requires len <= arr.Length
    modifies arr
    ensures out == arr || fresh(out)
    ensures len + |data| <= out.Length
    ensures out[..len + |data|] == old(arr[..len]) + data
  {
    var need := len + |data|;
    out := arr;
    if need > arr.Length {
      out := new byte[2 * need];
      for i := 0 to len
        modifies out
        invariant out[..i] == arr[..i]
      {
        out[i] := arr[i];
      }
    }
    ghost var before := out[..len];
    for i := 0 to |data|
      modifies out
      invariant out[..len] == before
      invariant out[len..len + i] == data[..i]
    {
      out[len + i] := data[i];
    }
    JoinSlices(out[..need], len, before, data);
  }

  lemma JoinSlices(s: bytes, n: nat, a: bytes, b: bytes)
    requires n <= |s| && s[..n] == a && s[n..] == b
    ensures s == a + b
  {
    assert s == s[..n] + s[n..];
  }
}
