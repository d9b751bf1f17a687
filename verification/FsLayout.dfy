/** The on-disk format of fs.c: superblock numbers, bitmap bits, inode slots and block pointers. */
module FsLayout {
  import opened Param
  import opened Blocks

  const NDIRECT: nat := 12
  const NINDIRECT: nat := 128
  const MAXFILE: nat := NDIRECT + NINDIRECT
  const BPB: nat := 4096
  const IPB: nat := 8
  const NSLOTS: nat := MAXFILE + 1

  /** The superblock; blocks below nmeta are boot, super, log, inode and bitmap blocks. */
  datatype Super = Super(size: nat, ninodes: nat, inodestart: nat, bmapstart: nat, nmeta: nat) {
    ghost predicate Valid() {
      && inodestart + ninodes / IPB + 1 <= bmapstart
      && bmapstart + size / BPB + 1 <= nmeta <= size < U32
    }

    function IBlock(inum: nat): nat {
      inum / IPB + inodestart
    }

    function BBlock(b: nat): nat {
      b / BPB + bmapstart
    }
  }

  /** The fields a dinode holds; addrs is NDIRECT block numbers and then the indirect block's. */
  datatype Inode = Inode(kind: nat, major: nat, minor: nat, nlink: nat, size: nat, addrs: seq<nat>) {
    ghost predicate Valid() {
      && kind < 0x1_0000 && major < 0x1_0000 && minor < 0x1_0000 && nlink < 0x1_0000
      && size <= MAXFILE * BSIZE && |addrs| == NDIRECT + 1 && forall k :: 0 <= k <= NDIRECT ==> addrs[k] < U32
    }
  }

  // ------------------------------------------------------------ bitmap bits

  /** (x & (1 << k)) != 0 */
  function Bit(x: nat, k: nat): bool {
    if k == 0 then x % 2 == 1 else Bit(x / 2, k - 1)
  }

  /** x | (1 << k) */
  function SetBit(x: nat, k: nat): nat {
    if k == 0 then x / 2 * 2 + 1 else SetBit(x / 2, k - 1) * 2 + x % 2
  }

  /** x & ~(1 << k) */
  function ClearBit(x: nat, k: nat): nat {
    if k == 0 then x / 2 * 2 else ClearBit(x / 2, k - 1) * 2 + x % 2
  }

  function Pow2(w: nat): nat {
    if w == 0 then 1 else 2 * Pow2(w - 1)
  }

  lemma {:induction false} BitFits(x: nat, k: nat, w: nat)
    requires x < Pow2(w) && k < w
    ensures SetBit(x, k) < Pow2(w) && ClearBit(x, k) < Pow2(w)
  {
    if k > 0 {
      BitFits(x / 2, k - 1, w - 1);
    }
  }

  /** Setting or clearing a bit changes that bit and no other. */
  lemma {:induction false} BitAfter(x: nat, k: nat, j: nat)
    ensures Bit(SetBit(x, k), j) <==> j == k || Bit(x, j)
    ensures Bit(ClearBit(x, k), j) <==> j != k && Bit(x, j)
  {
    if k == 0 {
      assert j > 0 ==> SetBit(x, k) / 2 == x / 2 && ClearBit(x, k) / 2 == x / 2;
    } else {
      assert SetBit(x, k) / 2 == SetBit(x / 2, k - 1) && SetBit(x, k) % 2 == x % 2;
      assert ClearBit(x, k) / 2 == ClearBit(x / 2, k - 1) && ClearBit(x, k) % 2 == x % 2;
      if j > 0 {
        BitAfter(x / 2, k - 1, j - 1);
      }
    }
  }

  function SetByte(x: Byte, k: nat): Byte
    requires k < 8
  {
    BitFits(x, k, 8);
    SetBit(x, k)
  }

  function ClearByte(x: Byte, k: nat): Byte
    requires k < 8
  {
    BitFits(x, k, 8);
    ClearBit(x, k)
  }

  ghost predicate OnDisk(sb: Super, blocks: Disk) {
    sb.Valid() && |blocks| == sb.size
  }

  /** Whether block b is marked in the bitmap. */
  function Used(sb: Super, blocks: Disk, b: nat): bool
    requires OnDisk(sb, blocks) && b < sb.size
  {
    Bit(blocks[sb.BBlock(b)][b % BPB / 8], b % 8)
  }

  function MarkUsed(sb: Super, blocks: Disk, b: nat): Disk
    requires OnDisk(sb, blocks) && b < sb.size
  {
    var data := blocks[sb.BBlock(b)];
    blocks[sb.BBlock(b) := data[b % BPB / 8 := SetByte(data[b % BPB / 8], b % 8)]]
  }

  function MarkFree(sb: Super, blocks: Disk, b: nat): Disk
    requires OnDisk(sb, blocks) && b < sb.size
  {
    var data := blocks[sb.BBlock(b)];
    blocks[sb.BBlock(b) := data[b % BPB / 8 := ClearByte(data[b % BPB / 8], b % 8)]]
  }

  /** Marking a block changes no other block's mark. */
  lemma MarkOne(sb: Super, blocks: Disk, b: nat, c: nat)
    requires OnDisk(sb, blocks) && b < sb.size && c < sb.size
    ensures Used(sb, MarkUsed(sb, blocks, b), c) <==> c == b || Used(sb, blocks, c)
    ensures Used(sb, MarkFree(sb, blocks, b), c) <==> c != b && Used(sb, blocks, c)
  {
    SamePlace(b, c);
    BitAfter(blocks[sb.BBlock(b)][b % BPB / 8], b % 8, c % 8);
  }

  /** Two blocks share a bitmap block, byte and bit only if they are the same block. */
  lemma SamePlace(b: nat, c: nat)
    ensures b / BPB == c / BPB && b % BPB / 8 == c % BPB / 8 && b % 8 == c % 8 ==> b == c
  {
    assert b % BPB == b % BPB / 8 * 8 + b % BPB % 8 && c % BPB == c % BPB / 8 * 8 + c % BPB % 8;
    LowBits(b);
    LowBits(c);
  }

  lemma LowBits(b: nat)
    ensures b % BPB % 8 == b % 8
  {}

  lemma UsedElsewhere(sb: Super, d: Disk, e: Disk, c: nat)
    requires OnDisk(sb, d) && OnDisk(sb, e) && c < sb.size && d[sb.BBlock(c)] == e[sb.BBlock(c)]
    ensures Used(sb, d, c) == Used(sb, e, c)
  {}

  // ----------------------------------------------------------- block pointers

  /** The pointers of an inode in one row: NDIRECT direct blocks, the indirect block, and the
      NINDIRECT entries of the indirect block. */
  function Slot(blocks: Disk, ip: Inode, s: nat): nat
    requires ip.Valid() && ip.addrs[NDIRECT] < |blocks| && s < NSLOTS
  {
    if s <= NDIRECT then ip.addrs[s]
    else if ip.addrs[NDIRECT] == 0 then 0
    else GetWord(blocks[ip.addrs[NDIRECT]], s - NDIRECT - 1)
  }

  /** The slot that holds file block bn. */
  function DataSlot(bn: nat): nat {
    if bn < NDIRECT then bn else bn + 1
  }

  /** How many slots a file of so many blocks fills. */
  function SlotsFor(nb: nat): nat {
    if nb <= NDIRECT then nb else nb + 1
  }

  function BlocksFor(size: nat): nat {
    (size + BSIZE - 1) / BSIZE
  }

  // ------------------------------------------------------------ on-disk inode

  function InodeWords(ip: Inode): seq<nat>
    requires ip.Valid()
  {
    [ip.kind + 0x1_0000 * ip.major, ip.minor + 0x1_0000 * ip.nlink, ip.size] + ip.addrs
  }

  function PutWords(b: Block, at: nat, ws: seq<nat>): Block
    requires at + |ws| <= 128 && forall i :: 0 <= i < |ws| ==> ws[i] < U32
  {
    if ws == [] then b else PutWord(PutWords(b, at, ws[..|ws| - 1]), at + |ws| - 1, ws[|ws| - 1])
  }

  lemma {:induction false} PutWordsAt(b: Block, at: nat, ws: seq<nat>, j: nat)
    requires at + |ws| <= 128 && j < 128 && forall i :: 0 <= i < |ws| ==> ws[i] < U32
    ensures GetWord(PutWords(b, at, ws), j) == if at <= j < at + |ws| then ws[j - at] else GetWord(b, j)
  {
    if ws != [] {
      PutWordsAt(b, at, ws[..|ws| - 1], j);
      GetPut(PutWords(b, at, ws[..|ws| - 1]), at + |ws| - 1, ws[|ws| - 1], j);
    }
  }

  /** The dinode of inum on the disk holds the same fields as ip. */
  ghost predicate Written(sb: Super, blocks: Disk, inum: nat, ip: Inode)
    requires OnDisk(sb, blocks) && inum < sb.ninodes && ip.Valid()
  {
    forall j :: 0 <= j < 16 ==> GetWord(blocks[sb.IBlock(inum)], inum % IPB * 16 + j) == InodeWords(ip)[j]
  }

  function PutInode(sb: Super, blocks: Disk, inum: nat, ip: Inode): Disk
    requires OnDisk(sb, blocks) && inum < sb.ninodes && ip.Valid()
  {
    blocks[sb.IBlock(inum) := PutWords(blocks[sb.IBlock(inum)], inum % IPB * 16, InodeWords(ip))]
  }

  /** Writing one inode back leaves the other inodes of its block alone. */
  lemma PutInodeOne(sb: Super, blocks: Disk, inum: nat, ip: Inode, other: nat, op: Inode)
    requires OnDisk(sb, blocks) && inum < sb.ninodes && other < sb.ninodes && ip.Valid() && op.Valid()
    requires other != inum ==> Written(sb, blocks, other, op)
    requires other == inum ==> op == ip
    ensures Written(sb, PutInode(sb, blocks, inum, ip), other, op)
  {
    forall j | 0 <= j < 16
      ensures GetWord(PutInode(sb, blocks, inum, ip)[sb.IBlock(other)], other % IPB * 16 + j) == InodeWords(op)[j]
    {
      PutWordsAt(blocks[sb.IBlock(inum)], inum % IPB * 16, InodeWords(ip), other % IPB * 16 + j);
    }
  }

  /** The inode that ilock reads from the disk. */
  function ReadInode(sb: Super, blocks: Disk, inum: nat): Inode
    requires OnDisk(sb, blocks) && inum < sb.ninodes
  {
    var data, at := blocks[sb.IBlock(inum)], inum % IPB * 16;
    var addrs: seq<nat> := seq<nat>(NDIRECT + 1, k requires 0 <= k <= NDIRECT => GetWord(data, at + 3 + k));
    Inode(GetWord(data, at) % 0x1_0000, GetWord(data, at) / 0x1_0000, GetWord(data, at + 1) % 0x1_0000, GetWord(data, at + 1) / 0x1_0000,
          GetWord(data, at + 2), addrs)
  }

  lemma HalfWords(lo: nat, hi: nat)
    requires lo < 0x1_0000
    ensures (lo + 0x1_0000 * hi) % 0x1_0000 == lo && (lo + 0x1_0000 * hi) / 0x1_0000 == hi
  {}

  lemma WrittenReadsBack(sb: Super, blocks: Disk, inum: nat, ip: Inode)
    requires OnDisk(sb, blocks) && inum < sb.ninodes && ip.Valid() && Written(sb, blocks, inum, ip)
    ensures ReadInode(sb, blocks, inum) == ip
  {
    hide GetWord;
    var data, at, ws, r := blocks[sb.IBlock(inum)], inum % IPB * 16, InodeWords(ip), ReadInode(sb, blocks, inum);
    HalfWords(ip.kind, ip.major);
    HalfWords(ip.minor, ip.nlink);
    assert GetWord(data, at + 0) == ws[0] && GetWord(data, at + 1) == ws[1] && GetWord(data, at + 2) == ws[2];
    forall k | 0 <= k <= NDIRECT ensures r.addrs[k] == ip.addrs[k] {
      assert GetWord(data, at + (3 + k)) == ws[3 + k];
    }
  }

  lemma ReadBackWritten(sb: Super, blocks: Disk, inum: nat, ip: Inode)
    requires OnDisk(sb, blocks) && inum < sb.ninodes && ip.Valid() && ReadInode(sb, blocks, inum) == ip
    ensures Written(sb, blocks, inum, ip)
  {
    hide GetWord;
    var data, at, ws, r := blocks[sb.IBlock(inum)], inum % IPB * 16, InodeWords(ip), ReadInode(sb, blocks, inum);
    HalfWords(ip.kind, ip.major);
    HalfWords(ip.minor, ip.nlink);
    forall j | 0 <= j < 16 ensures GetWord(data, at + j) == ws[j] {
      if j >= 3 {
        assert r.addrs[j - 3] == GetWord(data, at + 3 + (j - 3));
      }
    }
  }

  /** What iupdate has written is what ilock reads back, and nothing else is. */
  lemma WrittenReads(sb: Super, blocks: Disk, inum: nat, ip: Inode)
    requires OnDisk(sb, blocks) && inum < sb.ninodes && ip.Valid()
    ensures Written(sb, blocks, inum, ip) <==> ReadInode(sb, blocks, inum) == ip
  {
    hide Written, ReadInode;
    if Written(sb, blocks, inum, ip) {
      WrittenReadsBack(sb, blocks, inum, ip);
    }
    if ReadInode(sb, blocks, inum) == ip {
      ReadBackWritten(sb, blocks, inum, ip);
    }
  }
}
