/** What is where on the disk, byte by byte: inodes, bitmap bits and the blocks of a file. */
module DiskBytes {
  import opened Param
  import opened Blocks
  import opened FsLayout
  import opened FsImage

  // ---------------------------------------------------------------- inodes

  /** Byte o of the 64 bytes of an inode on the disk: type, major, minor and nlink as 16-bit numbers,
      then size and the thirteen block addresses as 32-bit ones. */
  function DinodeByte(ip: Inode, o: nat): Byte
    requires o < 64 && |ip.addrs| == 13
  {
    if o < 2 then ByteOf(ip.kind, o)
    else if o < 4 then ByteOf(ip.major, o - 2)
    else if o < 6 then ByteOf(ip.minor, o - 4)
    else if o < 8 then ByteOf(ip.nlink, o - 6)
    else if o < 12 then ByteOf(ip.size, o - 8)
    else ByteOf(ip.addrs[(o - 12) / 4], (o - 12) % 4)
  }

  lemma HalfBytes(lo: nat, hi: nat, k: nat)
    requires lo < 0x1_0000 && hi < 0x1_0000 && k < 4
    ensures ByteOf(lo + 0x1_0000 * hi, k) == if k < 2 then ByteOf(lo, k) else ByteOf(hi, k - 2)
  {
    HalfWords(lo, hi);
    var v := lo + 0x1_0000 * hi;
    assert v / 0x100 == lo / 0x100 + 0x100 * hi;
    assert v / 0x100_0000 == hi / 0x100;
    assert v == lo % 0x100 + 0x100 * (lo / 0x100 + 0x100 * hi);
  }

  lemma WordBytes(ip: Inode, o: nat)
    requires ip.Valid() && o < 64
    ensures ByteOf(InodeWords(ip)[o / 4], o % 4) == DinodeByte(ip, o)
  {
    hide ByteOf;
    if o < 4 {
      HalfBytes(ip.kind, ip.major, o % 4);
    } else if o < 8 {
      HalfBytes(ip.minor, ip.nlink, o % 4);
    }
  }

  lemma {:induction false} PutWordsBytes(b: Block, at: nat, ws: seq<nat>, o: nat)
    requires at + |ws| <= 128 && o < 512 && forall i :: 0 <= i < |ws| ==> ws[i] < U32
    ensures PutWords(b, at, ws)[o] == if 4 * at <= o < 4 * (at + |ws|) then ByteOf(ws[o / 4 - at], o % 4) else b[o]
  {
    hide ByteOf, PutWord;
    if ws != [] {
      var n := |ws| - 1;
      PutWordsBytes(b, at, ws[..n], o);
      PutBytes(PutWords(b, at, ws[..n]), at + n, ws[n], o);
    }
  }

  /** iupdate's store changes the inode's own 64 bytes and nothing else on the disk. */
  lemma InodePlace(sb: Super, blocks: Disk, i: nat, ip: Inode, b: nat, o: nat)
    requires OnDisk(sb, blocks) && i < sb.ninodes && ip.Valid() && b < |blocks| && o < 512
    ensures PutInode(sb, blocks, i, ip)[b][o] ==
            if b == sb.inodestart + i / 8 && i % 8 * 64 <= o < i % 8 * 64 + 64 then DinodeByte(ip, o - i % 8 * 64) else blocks[b][o]
  {
    hide ByteOf, PutWords;
    if b == sb.inodestart + i / 8 {
      PutWordsBytes(blocks[b], i % 8 * 16, InodeWords(ip), o);
      if i % 8 * 64 <= o < i % 8 * 64 + 64 {
        WordBytes(ip, o - i % 8 * 64);
      }
    }
  }

  /** Nothing on the disk differs but the bytes of inode i, which are ip's. */
  ghost predicate InodeStored(sb: Super, blocks: Disk, blocks': Disk, i: nat, ip: Inode)
    requires |ip.addrs| == 13
  {
    && |blocks'| == |blocks|
    && forall b: nat, o: nat :: b < |blocks| && o < 512 ==>
         blocks'[b][o] == if b == sb.inodestart + i / 8 && i % 8 * 64 <= o < i % 8 * 64 + 64 then DinodeByte(ip, o - i % 8 * 64)
                          else blocks[b][o]
  }

  lemma PutInodeStores(sb: Super, blocks: Disk, i: nat, ip: Inode)
    requires OnDisk(sb, blocks) && i < sb.ninodes && ip.Valid()
    ensures InodeStored(sb, blocks, PutInode(sb, blocks, i, ip), i, ip)
  {
    hide PutWords, DinodeByte;
    forall b: nat, o: nat | b < |blocks| && o < 512
      ensures PutInode(sb, blocks, i, ip)[b][o] == if b == sb.inodestart + i / 8 && i % 8 * 64 <= o < i % 8 * 64 + 64
                                                   then DinodeByte(ip, o - i % 8 * 64) else blocks[b][o]
    {
      InodePlace(sb, blocks, i, ip, b, o);
    }
  }

  /** These inodes are what the bytes of the disk say. */
  ghost predicate InodesFrom(sb: Super, blocks: Disk, inodes: seq<Inode>) {
    forall i: nat, o: nat :: i < |inodes| && o < 64 ==>
      && |inodes[i].addrs| == 13 && sb.inodestart + i / 8 < |blocks|
      && blocks[sb.inodestart + i / 8][i % 8 * 64 + o] == DinodeByte(inodes[i], o)
  }

  lemma ReadsInodes(sb: Super, blocks: Disk)
    requires OnDisk(sb, blocks) && forall i: nat :: i < sb.ninodes ==> ReadInode(sb, blocks, i).Valid()
    ensures InodesFrom(sb, blocks, seq(sb.ninodes, i requires 0 <= i < sb.ninodes => ReadInode(sb, blocks, i)))
  {
    hide ReadInode, DinodeByte;
    forall i: nat, o: nat | i < sb.ninodes && o < 64
      ensures blocks[sb.inodestart + i / 8][i % 8 * 64 + o] == DinodeByte(ReadInode(sb, blocks, i), o)
    {
      InodeFrom(sb, blocks, i, o);
    }
  }

  /** ilock reads the inode from those bytes. */
  lemma InodeFrom(sb: Super, blocks: Disk, i: nat, o: nat)
    requires OnDisk(sb, blocks) && i < sb.ninodes && ReadInode(sb, blocks, i).Valid() && o < 64
    ensures blocks[sb.inodestart + i / 8][i % 8 * 64 + o] == DinodeByte(ReadInode(sb, blocks, i), o)
  {
    hide ByteOf, GetWord, ReadInode;
    var ip := ReadInode(sb, blocks, i);
    ReadBackWritten(sb, blocks, i, ip);
    var w := i % 8 * 16 + o / 4;
    GetBytes(blocks[sb.inodestart + i / 8], w, o % 4);
    WordBytes(ip, o);
    assert GetWord(blocks[sb.IBlock(i)], i % IPB * 16 + o / 4) == InodeWords(ip)[o / 4];
  }

  // ---------------------------------------------------------------- bitmap

  /** 1 << k */
  function Weight(k: nat): nat
    requires k < 8
  {
    [1, 2, 4, 8, 16, 32, 64, 128][k]
  }

  lemma {:induction false} BitIs(x: nat, k: nat)
    requires k < 8
    ensures Bit(x, k) <==> x / Weight(k) % 2 == 1
    ensures SetBit(x, k) == if Bit(x, k) then x else x + Weight(k)
    ensures ClearBit(x, k) == if Bit(x, k) then x - Weight(k) else x
  {
    if k > 0 {
      BitIs(x / 2, k - 1);
      Halved(x, k);
    }
  }

  lemma Halved(x: nat, k: nat)
    requires 0 < k < 8
    ensures Weight(k) == 2 * Weight(k - 1) && x / 2 / Weight(k - 1) == x / Weight(k)
  {
    match k
    case 1 => assert x / 2 / 1 == x / 2;
    case 2 => assert x / 2 / 2 == x / 4;
    case 3 => assert x / 2 / 4 == x / 8;
    case 4 => assert x / 2 / 8 == x / 16;
    case 5 => assert x / 2 / 16 == x / 32;
    case 6 => assert x / 2 / 32 == x / 64;
    case _ => assert x / 2 / 64 == x / 128;
  }

  /** Bit b of the bitmap is set on the disk. */
  predicate BitOn(sb: Super, blocks: Disk, b: nat)
    requires sb.bmapstart + b / 4096 < |blocks|
  {
    blocks[sb.bmapstart + b / 4096][b % 4096 / 8] / Weight(b % 8) % 2 == 1
  }

  /** These two disks differ in bit b of the bitmap at most, which the second has set or clear. */
  ghost predicate OneBit(sb: Super, blocks: Disk, blocks': Disk, b: nat, on: bool) {
    && |blocks'| == |blocks| && sb.bmapstart + b / 4096 < |blocks|
    && forall c: nat, o: nat :: c < |blocks| && o < 512 ==>
         blocks'[c][o] == if c == sb.bmapstart + b / 4096 && o == b % 4096 / 8
                          then (if on == BitOn(sb, blocks, b) then blocks[c][o] as int
                                else if on then blocks[c][o] + Weight(b % 8) else blocks[c][o] - Weight(b % 8))
                          else blocks[c][o]
  }

  /** Block b has become used: its bit was clear and is set, and it is all zeros; nothing else differs. */
  ghost predicate Granted(sb: Super, blocks: Disk, blocks': Disk, b: nat) {
    && |blocks'| == |blocks| && sb.bmapstart + b / 4096 < |blocks| && !BitOn(sb, blocks, b)
    && forall c: nat, o: nat :: c < |blocks| && o < 512 ==>
         blocks'[c][o] == if c == b then 0
                          else if c == sb.bmapstart + b / 4096 && o == b % 4096 / 8 then blocks[c][o] + Weight(b % 8)
                          else blocks[c][o]
  }

  lemma MarkGrants(sb: Super, blocks: Disk, b: nat)
    requires OnDisk(sb, blocks) && sb.nmeta <= b < sb.size && !Used(sb, blocks, b)
    ensures Granted(sb, blocks, MarkUsed(sb, blocks, b)[b := Zero()], b)
  {
    hide MarkUsed, Used, Weight;
    UsedIsBit(sb, blocks, b);
    MarksOneBit(sb, blocks, b);
    var blocks' := MarkUsed(sb, blocks, b);
    forall c: nat, o: nat | c < |blocks| && o < 512
      ensures blocks'[b := Zero()][c][o] == if c == b then 0
                                            else if c == sb.bmapstart + b / 4096 && o == b % 4096 / 8 then blocks[c][o] + Weight(b % 8)
                                            else blocks[c][o]
    {
      assert c != b ==> blocks'[b := Zero()][c] == blocks'[c];
    }
  }

  lemma UsedIsBit(sb: Super, blocks: Disk, b: nat)
    requires OnDisk(sb, blocks) && b < sb.size
    ensures Used(sb, blocks, b) <==> BitOn(sb, blocks, b)
  {
    BitIs(blocks[sb.bmapstart + b / 4096][b % 4096 / 8], b % 8);
  }

  /** Marking and freeing a block set and clear its bit in the bitmap and nothing else. */
  lemma MarksOneBit(sb: Super, blocks: Disk, b: nat)
    requires OnDisk(sb, blocks) && b < sb.size
    ensures OneBit(sb, blocks, MarkUsed(sb, blocks, b), b, true) && OneBit(sb, blocks, MarkFree(sb, blocks, b), b, false)
  {
    hide SetBit, ClearBit, Bit;
    BitIs(blocks[sb.bmapstart + b / 4096][b % 4096 / 8], b % 8);
  }

  // ----------------------------------------------------------------- files

  /** The little-endian 32-bit number at byte at of a block. */
  function Number(b: Block, at: nat): nat
    requires at + 4 <= 512
  {
    var b0: int, b1: int, b2: int, b3: int := b[at], b[at + 1], b[at + 2], b[at + 3];
    b0 + 0x100 * b1 + 0x1_0000 * b2 + 0x100_0000 * b3
  }

  lemma WordIsNumber(b: Block, i: nat)
    requires i < 128
    ensures GetWord(b, i) == Number(b, 4 * i)
  {
    var s := b[4 * i..4 * i + 4];
    var s1, s2, s3 := s[1..], s[2..], s[3..];
    assert s1[1..] == s2 && s2[1..] == s3 && s3[1..] == [];
    assert Join(s3) == s3[0] && Join(s2) == s2[0] + 0x100 * Join(s3) && Join(s1) == s1[0] + 0x100 * Join(s2);
  }

  /** The disk block with block bn of a file: a direct one, or one whose number is in the indirect block. */
  function BlockOfFile(blocks: Disk, ip: Inode, bn: nat): nat
    requires bn < 140 && |ip.addrs| == 13 && (bn >= 12 ==> ip.addrs[12] < |blocks|)
  {
    if bn < 12 then ip.addrs[bn] else Number(blocks[ip.addrs[12]], 4 * (bn - 12))
  }

  /** Where byte o of a file is: 512 bytes to a block. */
  lemma FilePlace(im: Image, m: seq<nat>, owner: Owner, i: nat, o: nat)
    requires Good(im, m, owner) && i < |im.inodes| && o < im.inodes[i].size
    ensures o < 71680 && (o / 512 >= 12 ==> im.inodes[i].addrs[12] < |im.blocks|)
    ensures var a := BlockOfFile(im.blocks, im.inodes[i], o / 512);
            im.sb.nmeta <= a < |im.blocks| && FileByte(im, i, o) == im.blocks[a][o % 512]
  {
    hide Marked, SyncedBut, Number;
    var s := DataSlot(o / BSIZE);
    assert s < m[i];
    assert At(im, i, s) in owner;
    if o / 512 >= 12 {
      assert At(im, i, NDIRECT) in owner;
      WordIsNumber(im.blocks[im.inodes[i].addrs[12]], o / 512 - 12);
    }
  }
}
