/** Byte strings and fixed-width integers, big and little endian. */
module Bytes {
  type Byte = b: int | 0 <= b < 256
  type Data = seq<Byte>

  function Pow256(width: nat): nat
    ensures Pow256(width) > 0
  {
    if width == 0 then 1 else 256 * Pow256(width - 1)
  }

  function BigEndian(d: Data): nat {
    if d == [] then 0 else 256 * BigEndian(d[..|d| - 1]) + d[|d| - 1]
  }

  function LittleEndian(d: Data): nat {
    if d == [] then 0 else d[0] + 256 * LittleEndian(d[1..])
  }

  function ToBigEndian(n: nat, width: nat): (d: Data)
    ensures |d| == width
  {
    if width == 0 then [] else ToBigEndian(n / 256, width - 1) + [n % 256]
  }

  function ToLittleEndian(n: nat, width: nat): (d: Data)
    ensures |d| == width
  {
    if width == 0 then [] else [n % 256] + ToLittleEndian(n / 256, width - 1)
  }

  lemma {:induction false} BigEndianRead(n: nat, width: nat)
    requires n < Pow256(width)
    ensures BigEndian(ToBigEndian(n, width)) == n
  {
    if width > 0 {
      BigEndianRead(n / 256, width - 1);
      assert ToBigEndian(n, width)[..width - 1] == ToBigEndian(n / 256, width - 1);
    }
  }

  lemma {:induction false} BigEndianWritten(d: Data)
    ensures BigEndian(d) < Pow256(|d|)
    ensures ToBigEndian(BigEndian(d), |d|) == d
  {
    if d != [] {
      BigEndianWritten(d[..|d| - 1]);
    }
  }

  lemma {:induction false} LittleEndianRead(n: nat, width: nat)
    requires n < Pow256(width)
    ensures LittleEndian(ToLittleEndian(n, width)) == n
  {
    if width > 0 {
      LittleEndianRead(n / 256, width - 1);
    }
  }

  lemma {:induction false} LittleEndianWritten(d: Data)
    ensures LittleEndian(d) < Pow256(|d|)
    ensures ToLittleEndian(LittleEndian(d), |d|) == d
  {
    if d != [] {
      LittleEndianWritten(d[1..]);
    }
  }

  lemma Widths()
    ensures Pow256(2) == 0x1_0000 && Pow256(4) == 0x1_0000_0000
  {
  }

  lemma DropPrefix(p: Data, x: Data)
    ensures (p + x)[..|p|] == p && (p + x)[|p|..] == x
  {
  }

  lemma Associate(a: Data, b: Data, c: Data)
    ensures (a + b) + c == a + (b + c)
  {
  }

  lemma SliceOfSuffix(data: Data, pos: nat, i: nat, j: nat)
    requires pos + j <= |data| && i <= j
    ensures data[pos..][i..j] == data[pos + i..pos + j]
    ensures data[pos..][i..] == data[pos + i..]
  {
  }
}
