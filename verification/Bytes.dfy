/** The octet type shared by every wire format in the project, and copying into memory. */
module Bytes {
  newtype byte = b: int | 0 <= b < 0x100

  function Min(a: nat, b: nat): nat {
    if a < b then a else b
  }

  // Memory after data has been written at a position.
  function Overwrite(mem: seq<byte>, start: nat, data: seq<byte>): (r: seq<byte>)
    requires start + |data| <= |mem|
    ensures |r| == |mem| && r[..start] == mem[..start] && r[start..start + |data|] == data
  {
    mem[..start] + data + mem[start + |data|..]
  }

  lemma {:induction false} OverwriteNothing(mem: seq<byte>, start: nat)
    requires start <= |mem|
    ensures Overwrite(mem, start, []) == mem
  {
  }

  // Adjacent pieces are written as one.
  lemma {:induction false} OverwriteTwice(mem: seq<byte>, start: nat, a: seq<byte>, b: seq<byte>)
    requires start + |a| + |b| <= |mem|
    ensures Overwrite(Overwrite(mem, start, a), start + |a|, b) == Overwrite(mem, start, a + b)
  {
    var once := Overwrite(mem, start, a);
    assert once[..start + |a|] == mem[..start] + a;
    assert once[start + |a| + |b|..] == mem[start + |a| + |b|..];
  }

  // Copies data into an array.
  method Copy(buf: array<byte>, start: nat, data: seq<byte>)
    requires start + |data| <= buf.Length
    modifies buf
    ensures buf[..] == Overwrite(old(buf[..]), start, data)
  {
    forall k | 0 <= k < |data| {
      buf[start + k] := data[k];
    }
  }
}
