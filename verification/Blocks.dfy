/** Disk blocks as 512 bytes, and the little-endian 32-bit words the kernel overlays on them
    (the log header, the indirect block, the on-disk inode). */
module Blocks {
  import opened Param

  const BSIZE: nat := 512

  type Block = b: seq<Byte> | |b| == 512 witness seq(512, i => 0)

  type Disk = seq<Block>

  function Pow256(k: nat): (p: nat)
    ensures p >= 1
  {
    if k == 0 then 1 else 0x100 * Pow256(k - 1)
  }

  /** The number that little-endian bytes denote. */
  function Join(bytes: seq<Byte>): nat {
    if bytes == [] then 0
    else var b0: int := bytes[0]; b0 + 0x100 * Join(bytes[1..])
  }

  lemma {:induction false} JoinBound(bytes: seq<Byte>)
    ensures Join(bytes) < Pow256(|bytes|)
  {
    if bytes != [] {
      JoinBound(bytes[1..]);
    }
  }

  /** The k little-endian bytes of a number. */
  function Split(v: nat, k: nat): (bytes: seq<Byte>)
    ensures |bytes| == k
  {
    if k == 0 then [] else [v % 0x100] + Split(v / 0x100, k - 1)
  }

  /** Byte k of a 32-bit word in memory, the least significant first. */
  function ByteOf(v: nat, k: nat): Byte {
    (if k == 0 then v else if k == 1 then v / 0x100 else if k == 2 then v / 0x1_0000 else v / 0x100_0000) % 0x100
  }

  lemma SplitBytes(v: nat, k: nat)
    requires k < 4
    ensures Split(v, 4)[k] == ByteOf(v, k)
  {
    assert Split(v, 4) == [v % 0x100] + Split(v / 0x100, 3) && Split(v / 0x100, 3) == [v / 0x100 % 0x100] + Split(v / 0x100 / 0x100, 2);
    assert Split(v / 0x100 / 0x100, 2) == [v / 0x100 / 0x100 % 0x100] + Split(v / 0x100 / 0x100 / 0x100, 1);
    assert Split(v / 0x100 / 0x100 / 0x100, 1) == [v / 0x100 / 0x100 / 0x100 % 0x100] + Split(v / 0x100 / 0x100 / 0x100 / 0x100, 0);
  }

  /** What a store of a word does to the bytes of a block. */
  lemma PutBytes(b: Block, i: nat, v: nat, o: nat)
    requires i < 128 && v < U32 && o < 512
    ensures PutWord(b, i, v)[o] == if 4 * i <= o < 4 * i + 4 then ByteOf(v, o - 4 * i) else b[o]
  {
    if 4 * i <= o < 4 * i + 4 {
      SplitBytes(v, o - 4 * i);
    }
  }

  /** And what a word loaded from a block says of its bytes. */
  lemma GetBytes(b: Block, i: nat, k: nat)
    requires i < 128 && k < 4
    ensures b[4 * i + k] == ByteOf(GetWord(b, i), k)
  {
    SplitJoin(b[4 * i..4 * i + 4]);
    SplitBytes(GetWord(b, i), k);
  }

  lemma {:induction false} JoinSplit(v: nat, k: nat)
    requires v < Pow256(k)
    ensures Join(Split(v, k)) == v
  {
    if k > 0 {
      assert v / 0x100 < Pow256(k - 1);
      JoinSplit(v / 0x100, k - 1);
    }
  }

  lemma {:induction false} SplitJoin(bytes: seq<Byte>)
    ensures Split(Join(bytes), |bytes|) == bytes
  {
    if bytes != [] {
      SplitJoin(bytes[1..]);
      var b0: int := bytes[0];
      assert (b0 + 0x100 * Join(bytes[1..])) / 0x100 == Join(bytes[1..]);
    }
  }

  lemma {:induction false} JoinZeros(bytes: seq<Byte>)
    requires forall i :: 0 <= i < |bytes| ==> bytes[i] == 0
    ensures Join(bytes) == 0
  {
    if bytes != [] {
      JoinZeros(bytes[1..]);
    }
  }

  lemma PowU32()
    ensures Pow256(4) == U32
  {
    assert Pow256(4) == 0x100 * Pow256(3) && Pow256(3) == 0x100 * Pow256(2);
    assert Pow256(2) == 0x100 * Pow256(1) && Pow256(1) == 0x100 * Pow256(0);
  }

  /** The uint at index i of a block viewed as an array of uint. */
  function GetWord(b: Block, i: nat): (v: nat)
    requires i < 128
    ensures v < U32
  {
    PowU32();
    JoinBound(b[4 * i..4 * i + 4]);
    Join(b[4 * i..4 * i + 4])
  }

  function PutWord(b: Block, i: nat, v: nat): Block
    requires i < 128 && v < U32
  {
    b[..4 * i] + Split(v, 4) + b[4 * i + 4..]
  }

  /** A word written into a block reads back, and no other word changes. */
  lemma GetPut(b: Block, i: nat, v: nat, j: nat)
    requires i < 128 && j < 128 && v < U32
    ensures GetWord(PutWord(b, i, v), j) == if i == j then v else GetWord(b, j)
  {
    var p := PutWord(b, i, v);
    if i == j {
      assert p[4 * i..4 * i + 4] == Split(v, 4);
      PowU32();
      JoinSplit(v, 4);
    } else {
      assert p[4 * j..4 * j + 4] == b[4 * j..4 * j + 4];
    }
  }

  /** Writing the word that is already there changes nothing. */
  lemma PutGet(b: Block, i: nat)
    requires i < 128
    ensures PutWord(b, i, GetWord(b, i)) == b
  {
    SplitJoin(b[4 * i..4 * i + 4]);
    assert b == b[..4 * i] + b[4 * i..4 * i + 4] + b[4 * i + 4..];
  }

  lemma ZeroWord(b: Block, i: nat)
    requires i < 128 && forall k :: 0 <= k < 512 ==> b[k] == 0
    ensures GetWord(b, i) == 0
  {
    JoinZeros(b[4 * i..4 * i + 4]);
  }
}
