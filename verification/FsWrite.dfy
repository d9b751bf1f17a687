/** The meaning of a write in progress: what a file system image holds when writei has stored the
    bytes from off0 up to off and has the rest still to do. */
module FsWrite {
  import opened Param
  import opened Blocks
  import opened FsLayout
  import opened FsImage

  /** Only file i's pointers, its data and the bitmap have changed since im0. */
  ghost predicate OnlyFile(im0: Image, m0: seq<nat>, im: Image, m: seq<nat>, i: nat) {
    && im.sb == im0.sb && |im.inodes| == |im0.inodes| && |m0| == |im0.inodes| && |m| == |m0| && |im.blocks| == |im0.blocks| && i < |m|
    && im.inodes == im0.inodes[i := im0.inodes[i].(addrs := im.inodes[i].addrs)]
    && m0[i] <= m[i] && m == m0[i := m[i]]
    && forall b :: 0 <= b < im.sb.bmapstart && b < |im.blocks| ==> im.blocks[b] == im0.blocks[b]
  }

  /** The bytes of every file below a bound are those of im0, except src at off0 up to off in file i. */
  ghost predicate Bytes(im0: Image, m0: seq<nat>, im: Image, i: nat, off0: nat, off: nat, src: seq<Byte>)
    requires Shape(im0) && Shape(im) && |im.inodes| == |im0.inodes| == |m0| && i < |m0|
    requires off0 <= off <= off0 + |src|
  {
    && (forall j, o :: 0 <= j < |m0| && j != i && 0 <= o < im0.inodes[j].size ==> FileByte(im, j, o) == FileByte(im0, j, o))
    && (forall o :: 0 <= o < Max(im0.inodes[i].size, off) && o < MAXFILE * BSIZE ==>
          FileByte(im, i, o) == if off0 <= o < off then src[o - off0] else FileByte(im0, i, o))
  }

  ghost predicate Writing(im0: Image, m0: seq<nat>, im: Image, m: seq<nat>, owner: Owner, i: nat, off0: nat, off: nat, src: seq<Byte>) {
    && Shape(im0) && OnlyFile(im0, m0, im, m, i) && GoodBut(im, m, owner, i)
    && off0 <= off <= off0 + |src| <= MAXFILE * BSIZE && off0 <= im0.inodes[i].size
    && m[i] == SlotsFor(BlocksFor(Max(im0.inodes[i].size, off)))
    && Bytes(im0, m0, im, i, off0, off, src)
  }

  lemma WritingFacts(im0: Image, m0: seq<nat>, im: Image, m: seq<nat>, owner: Owner, i: nat, off0: nat, off: nat, src: seq<Byte>)
    requires Writing(im0, m0, im, m, owner, i, off0, off, src)
    ensures GoodBut(im, m, owner, i) && i < |im.inodes| == |im0.inodes| == |m| && off0 + |src| <= MAXFILE * BSIZE
    ensures off0 <= off <= off0 + |src| && im.inodes[i].size == im0.inodes[i].size
    ensures m[i] == SlotsFor(BlocksFor(Max(im0.inodes[i].size, off))) == SlotsTo(im0, i, off)
  {}

  /** The slots that file i needs to be written up to end. */
  ghost function SlotsTo(im: Image, i: nat, end: nat): nat
    requires i < |im.inodes|
  {
    SlotsFor(BlocksFor(Max(im.inodes[i].size, end)))
  }

  lemma SlotsAfter(im: Image, i: nat, off: nat, k: nat, mi: nat)
    requires i < |im.inodes| && mi == SlotsTo(im, i, off) && 0 < k && off % BSIZE + k <= BSIZE
    ensures SlotsTo(im, i, off + k) == if DataSlot(off / BSIZE) < mi then mi else DataSlot(off / BSIZE) + 1
  {
    AfterBlock(im.inodes[i].size, off, k, mi, if DataSlot(off / BSIZE) < mi then mi else DataSlot(off / BSIZE) + 1);
  }

  lemma SlotsGrow(im: Image, i: nat, a: nat, b: nat)
    requires i < |im.inodes| && a <= b
    ensures SlotsTo(im, i, a) <= SlotsTo(im, i, b)
  {}

  lemma WritingStart(im: Image, m: seq<nat>, owner: Owner, i: nat, off: nat, src: seq<Byte>)
    requires Good(im, m, owner) && i < |im.inodes| && off <= im.inodes[i].size && off + |src| <= MAXFILE * BSIZE
    ensures Shape(im) && |m| == |im.inodes|
    ensures Writing(im, m, im, m, owner, i, off, off, src)
  {}

  /** Every byte a file has is mapped. */
  lemma MappedByte(m: seq<nat>, i: nat, size: nat, o: nat)
    requires i < |m| && o < size <= MAXFILE * BSIZE && m[i] >= SlotsFor(BlocksFor(size))
    ensures DataSlot(o / BSIZE) < m[i]
  {}

  /** bmap grows the file and changes no byte. */
  lemma GrowKeepsBytes(im0: Image, m0: seq<nat>, im: Image, m: seq<nat>, owner: Owner, im1: Image, m1: seq<nat>, owner1: Owner,
                       i: nat, off0: nat, off: nat, src: seq<Byte>)
    requires Writing(im0, m0, im, m, owner, i, off0, off, src) && Grown(im, m, owner, im1, m1, owner1, i)
    ensures OnlyFile(im0, m0, im1, m1, i) && Bytes(im0, m0, im1, i, off0, off, src)
  {
    forall j, o | 0 <= j < |m0| && j != i && 0 <= o < im0.inodes[j].size
      ensures FileByte(im1, j, o) == FileByte(im0, j, o)
    {
      Mapped(im, m, j, o);
      GrownBytes(im, m, owner, im1, m1, owner1, i, j, o);
    }
    forall o | 0 <= o < Max(im0.inodes[i].size, off)
      ensures FileByte(im1, i, o) == FileByte(im, i, o)
    {
      MappedByte(m, i, Max(im0.inodes[i].size, off), o);
      GrownBytes(im, m, owner, im1, m1, owner1, i, i, o);
    }
  }

  /** The part of src that falls in the block that holds off, laid over that block. */
  function Patch(blk: Block, off: nat, part: seq<Byte>): Block
    requires off % BSIZE + |part| <= BSIZE
  {
    blk[..off % BSIZE] + part + blk[off % BSIZE + |part|..]
  }

  lemma PatchAt(blk: Block, off: nat, part: seq<Byte>, p: nat)
    requires off % BSIZE + |part| <= BSIZE && p < BSIZE
    ensures Patch(blk, off, part)[p] == if off % BSIZE <= p < off % BSIZE + |part| then part[p - off % BSIZE] else blk[p]
  {}

  /** The image with k bytes of src stored at off, in the block that holds off. */
  ghost predicate Patched(im1: Image, im2: Image, i: nat, off0: nat, off: nat, k: nat, src: seq<Byte>)
    requires Shape(im1) && i < |im1.inodes| && off < MAXFILE * BSIZE
    requires off0 <= off && off + k <= off0 + |src| && off % BSIZE + k <= BSIZE
  {
    var a := At(im1, i, DataSlot(off / BSIZE));
    a < |im1.blocks| && im2 == im1.(blocks := im1.blocks[a := Patch(im1.blocks[a], off, src[off - off0..off - off0 + k])])
  }

  ghost predicate SameSlots(im1: Image, im2: Image, n: nat)
    requires Shape(im1) && Shape(im2) && n <= |im1.inodes| && n <= |im2.inodes|
  {
    forall j, s :: 0 <= j < n && 0 <= s < NSLOTS ==> At(im2, j, s) == At(im1, j, s)
  }

  lemma PatchByte(im1: Image, m1: seq<nat>, owner1: Owner, im2: Image, i: nat, off0: nat, off: nat, k: nat, src: seq<Byte>, j: nat, o: nat)
    requires Shape(im1) && Shape(im2) && Owned(im1, m1, owner1) && i < |m1| && j < |m1| && |im2.inodes| == |m1|
    requires off0 <= off && off + k <= off0 + |src| <= MAXFILE * BSIZE && 0 < k && off % BSIZE + k <= BSIZE
    requires Patched(im1, im2, i, off0, off, k, src) && SameSlots(im1, im2, |m1|)
    requires DataSlot(off / BSIZE) < m1[i] && o < MAXFILE * BSIZE && DataSlot(o / BSIZE) < m1[j]
    ensures FileByte(im2, j, o) == if j == i && off <= o < off + k then src[o - off0] else FileByte(im1, j, o)
  {
    var bn := off / BSIZE;
    var a := At(im1, i, DataSlot(bn));
    var part := src[off - off0..off - off0 + k];
    WriteDataBytes(im1, im2, m1, owner1, i, bn, Patch(im1.blocks[a], off, part), j, o);
    if j == i && o / BSIZE == bn {
      SameBlock(off, o);
      PatchAt(im1.blocks[a], off, part, o % BSIZE);
    }
  }

  lemma PatchKeepsBytes(im0: Image, m0: seq<nat>, im1: Image, m1: seq<nat>, owner1: Owner, im2: Image,
                        i: nat, off0: nat, off: nat, k: nat, src: seq<Byte>)
    requires Shape(im0) && OnlyFile(im0, m0, im1, m1, i) && GoodBut(im1, m1, owner1, i) && Shape(im2)
    requires off0 <= off && off + k <= off0 + |src| <= MAXFILE * BSIZE && 0 < k && off % BSIZE + k <= BSIZE
    requires m1[i] >= SlotsFor(BlocksFor(Max(im0.inodes[i].size, off + k))) && DataSlot(off / BSIZE) < m1[i]
    requires Bytes(im0, m0, im1, i, off0, off, src)
    requires Patched(im1, im2, i, off0, off, k, src) && SameSlots(im1, im2, |m1|)
    ensures Bytes(im0, m0, im2, i, off0, off + k, src)
  {
    hide FileByte, Owned, Marked, SameSlots;
    forall j, o | 0 <= j < |m0| && j != i && 0 <= o < im0.inodes[j].size
      ensures FileByte(im2, j, o) == FileByte(im0, j, o)
    {
      Mapped(im1, m1, j, o);
      PatchByte(im1, m1, owner1, im2, i, off0, off, k, src, j, o);
    }
    forall o | 0 <= o < Max(im0.inodes[i].size, off + k)
      ensures FileByte(im2, i, o) == if off0 <= o < off + k then src[o - off0] else FileByte(im0, i, o)
    {
      MappedByte(m1, i, Max(im0.inodes[i].size, off + k), o);
      PatchByte(im1, m1, owner1, im2, i, off0, off, k, src, i, o);
    }
  }

  /** Positions inside one block differ as the offsets do. */
  lemma SameBlock(off: nat, o: nat)
    requires off / BSIZE == o / BSIZE
    ensures o - off == o % BSIZE - off % BSIZE
  {}

  lemma AfterBlock(size0: nat, off: nat, k: nat, m: nat, m1: nat)
    requires m == SlotsFor(BlocksFor(Max(size0, off))) && 0 < k && off % BSIZE + k <= BSIZE
    requires m1 == if DataSlot(off / BSIZE) < m then m else DataSlot(off / BSIZE) + 1
    ensures m1 == SlotsFor(BlocksFor(Max(size0, off + k)))
  {
    var bn := off / BSIZE;
    assert BlocksFor(off + k) == bn + 1;
    assert bn <= BlocksFor(off) <= bn + 1;
  }

  /** One round of writei's loop. */
  lemma WritingStep(im0: Image, m0: seq<nat>, im: Image, m: seq<nat>, owner: Owner, im1: Image, m1: seq<nat>, owner1: Owner,
                    im2: Image, i: nat, off0: nat, off: nat, k: nat, src: seq<Byte>)
    requires Writing(im0, m0, im, m, owner, i, off0, off, src) && Grown(im, m, owner, im1, m1, owner1, i)
    requires 0 < k && off % BSIZE + k <= BSIZE && off + k <= off0 + |src|
    requires DataSlot(off / BSIZE) < m1[i] == if DataSlot(off / BSIZE) < m[i] then m[i] else DataSlot(off / BSIZE) + 1
    requires Patched(im1, im2, i, off0, off, k, src)
    ensures Writing(im0, m0, im2, m1, owner1, i, off0, off + k, src)
  {
    hide Bytes, FileByte, Slot, Used, SlotsFor, BlocksFor, Patch, OnlyFile;
    var a := At(im1, i, DataSlot(off / BSIZE));
    GrowKeepsBytes(im0, m0, im, m, owner, im1, m1, owner1, i, off0, off, src);
    AtOwned(im1, m1, owner1, i, DataSlot(off / BSIZE));
    WriteDataKeeps(im1, im2, m1, owner1, i, a, Patch(im1.blocks[a], off, src[off - off0..off - off0 + k]));
    AfterBlock(im0.inodes[i].size, off, k, m[i], m1[i]);
    PatchKeepsBytes(im0, m0, im1, m1, owner1, im2, i, off0, off, k, src);
    OnlyFileStill(im0, m0, im1, m1, im2, i, a);
  }

  lemma OnlyFileStill(im0: Image, m0: seq<nat>, im1: Image, m1: seq<nat>, im2: Image, i: nat, a: nat)
    requires OnlyFile(im0, m0, im1, m1, i) && im1.sb.bmapstart <= a < |im1.blocks| && a < |im2.blocks|
    requires im2 == im1.(blocks := im1.blocks[a := im2.blocks[a]])
    ensures OnlyFile(im0, m0, im2, m1, i)
  {}

  /** A file's bytes with src laid over them at off, longer if src reaches past the end. */
  function Spliced(c: seq<Byte>, off: nat, src: seq<Byte>): seq<Byte>
    requires off <= |c|
  {
    c[..off] + src + if off + |src| < |c| then c[off + |src|..] else []
  }

  /** What a completed write has done, and that it has done nothing else. */
  ghost predicate Wrote(im0: Image, im: Image, i: nat, off: nat, src: seq<Byte>) {
    && Shape(im0) && Shape(im) && im.sb == im0.sb && |im.inodes| == |im0.inodes| && i < |im.inodes| && off <= im0.inodes[i].size
    && im.inodes == im0.inodes[i := im0.inodes[i].(addrs := im.inodes[i].addrs, size := Max(im0.inodes[i].size, if src == [] then 0 else off + |src|))]
    && Content(im, i) == Spliced(Content(im0, i), off, src)
    && forall j :: 0 <= j < |im.inodes| && j != i ==> Content(im, j) == Content(im0, j)
  }

  ghost predicate Extends(owner0: Owner, owner: Owner) {
    forall c :: c in owner0 ==> c in owner && owner[c] == owner0[c]
  }

  /** A file that maps no more than before has the same pointers. */
  lemma SameAddrs(im0: Image, m0: seq<nat>, owner0: Owner, im: Image, m: seq<nat>, owner: Owner, i: nat)
    requires Shape(im0) && Shape(im) && Owned(im0, m0, owner0) && Owned(im, m, owner) && Extends(owner0, owner)
    requires i < |m0| && |m| == |m0| && m[i] == m0[i]
    ensures im.inodes[i].addrs == im0.inodes[i].addrs
  {
    forall s | 0 <= s <= NDIRECT ensures im.inodes[i].addrs[s] == im0.inodes[i].addrs[s] {
      assert At(im, i, s) == im.inodes[i].addrs[s] && At(im0, i, s) == im0.inodes[i].addrs[s];
      if s < m[i] {
        assert owner[At(im0, i, s)] == (i, s);
      }
    }
  }

  lemma BytesToContent(im0: Image, m0: seq<nat>, im: Image, i: nat, off0: nat, src: seq<Byte>)
    requires Shape(im0) && Shape(im) && |im.inodes| == |im0.inodes| == |m0| && i < |m0|
    requires off0 <= im0.inodes[i].size && off0 + |src| <= MAXFILE * BSIZE
    requires Bytes(im0, m0, im, i, off0, off0 + |src|, src)
    requires im.inodes[i].size == Max(im0.inodes[i].size, if src == [] then 0 else off0 + |src|)
    requires forall j :: 0 <= j < |m0| && j != i ==> im.inodes[j].size == im0.inodes[j].size
    ensures Content(im, i) == Spliced(Content(im0, i), off0, src)
    ensures forall j :: 0 <= j < |im.inodes| && j != i ==> Content(im, j) == Content(im0, j)
  {
    hide FileByte;
    forall j | 0 <= j < |im.inodes| && j != i
      ensures Content(im, j) == Content(im0, j)
    {
      forall o | 0 <= o < im.inodes[j].size ensures Content(im, j)[o] == Content(im0, j)[o] {}
    }
    var c, s := Content(im0, i), Spliced(Content(im0, i), off0, src);
    assert |s| == im.inodes[i].size;
    forall o | 0 <= o < |s| ensures Content(im, i)[o] == s[o] {
      SplicedAt(c, off0, src, o);
      assert o < |c| ==> c[o] == FileByte(im0, i, o);
    }
  }

  lemma SplicedAt(c: seq<Byte>, off: nat, src: seq<Byte>, o: nat)
    requires off <= |c| && o < |Spliced(c, off, src)|
    ensures Spliced(c, off, src)[o] == if off <= o < off + |src| then src[o - off] else c[o]
    ensures !(off <= o < off + |src|) ==> o < |c|
  {}

  lemma WroteSizes(im0: Image, im: Image, i: nat, off: nat, src: seq<Byte>)
    requires Wrote(im0, im, i, off, src)
    ensures Shape(im) && |im.inodes| == |im0.inodes| && i < |im.inodes| && off <= im0.inodes[i].size && im.inodes[i].kind == im0.inodes[i].kind
    ensures im.inodes[i].size == Max(im0.inodes[i].size, if src == [] then 0 else off + |src|) <= MAXFILE * BSIZE
  {}

  /** The write ended inside the file: nothing but data has changed. */
  lemma WriteInside(im0: Image, m0: seq<nat>, owner0: Owner, im: Image, m: seq<nat>, owner: Owner, i: nat, off0: nat, src: seq<Byte>)
    requires Good(im0, m0, owner0) && Extends(owner0, owner)
    requires Writing(im0, m0, im, m, owner, i, off0, off0 + |src|, src) && off0 + |src| <= im0.inodes[i].size
    ensures Good(im, m, owner) && Wrote(im0, im, i, off0, src)
  {
    SameAddrs(im0, m0, owner0, im, m, owner, i);
    assert im.inodes == im0.inodes;
    SyncedKept(im0, im, -1);
    BytesToContent(im0, m0, im, i, off0, src);
  }

  lemma SizeKeeps(im: Image, im': Image, m: seq<nat>, owner: Owner, i: nat, size: nat)
    requires GoodBut(im, m, owner, i) && i < |m| && size <= MAXFILE * BSIZE && m[i] == SlotsFor(BlocksFor(size))
    requires im' == im.(inodes := im.inodes[i := im.inodes[i].(size := size)])
    ensures GoodBut(im', m, owner, i) && NoHoles(im'.inodes[i], m[i])
    ensures forall j, s :: 0 <= j < |m| && 0 <= s < NSLOTS ==> At(im', j, s) == At(im, j, s)
  {
    OwnedKept(im, im', m, owner);
    MarkedKept(im, im', owner, {});
  }

  /** The write went past the end: with the new size written back the image is whole again. */
  lemma WritePast(im0: Image, m0: seq<nat>, owner0: Owner, im: Image, m: seq<nat>, owner: Owner, im1: Image, im2: Image,
                  i: nat, off0: nat, src: seq<Byte>)
    requires Good(im0, m0, owner0) && src != []
    requires Writing(im0, m0, im, m, owner, i, off0, off0 + |src|, src) && off0 + |src| > im0.inodes[i].size
    requires im1 == im.(inodes := im.inodes[i := im.inodes[i].(size := off0 + |src|)])
    requires Shape(im1) && im2 == im1.(blocks := PutInode(im1.sb, im1.blocks, i, im1.inodes[i]))
    ensures Good(im2, m, owner) && Wrote(im0, im2, i, off0, src)
  {
    hide Bytes, FileByte, Content, Slot, Used, SlotsFor, BlocksFor, Spliced;
    SizeKeeps(im, im1, m, owner, i, off0 + |src|);
    SyncedKept(im0, im1, i);
    WriteBackKeeps(im1, im2, m, owner, i);
    SameBytes(im0, m0, im, m, owner, im2, i, off0, src);
    BytesToContent(im0, m0, im2, i, off0, src);
  }

  /** With the same pointers and the same blocks past the bitmap, a byte is the same. */
  lemma SameByte(im: Image, m: seq<nat>, owner: Owner, im2: Image, j: nat, o: nat)
    requires Shape(im) && Owned(im, m, owner) && Shape(im2) && im2.sb == im.sb && |im2.inodes| == |im.inodes|
    requires SameSlots(im, im2, |m|) && |im2.blocks| == |im.blocks|
    requires forall b :: im.sb.bmapstart <= b < im.sb.size ==> im2.blocks[b] == im.blocks[b]
    requires j < |m| && o < MAXFILE * BSIZE && DataSlot(o / BSIZE) < m[j]
    ensures FileByte(im2, j, o) == FileByte(im, j, o)
  {
    hide At;
    AtOwned(im, m, owner, j, DataSlot(o / BSIZE));
    assert im.sb.nmeta <= At(im, j, DataSlot(o / BSIZE));
  }

  lemma SameBytes(im0: Image, m0: seq<nat>, im: Image, m: seq<nat>, owner: Owner, im2: Image, i: nat, off0: nat, src: seq<Byte>)
    requires Writing(im0, m0, im, m, owner, i, off0, off0 + |src|, src) && Shape(im2) && im2.sb == im.sb && |im2.inodes| == |im.inodes|
    requires SameSlots(im, im2, |m|) && |im2.blocks| == |im.blocks|
    requires forall b :: im.sb.bmapstart <= b < im.sb.size ==> im2.blocks[b] == im.blocks[b]
    ensures Bytes(im0, m0, im2, i, off0, off0 + |src|, src)
  {
    hide FileByte, SameSlots, Owned, Marked;
    forall j, o | 0 <= j < |m0| && j != i && 0 <= o < im0.inodes[j].size
      ensures FileByte(im2, j, o) == FileByte(im, j, o)
    {
      Mapped(im, m, j, o);
      SameByte(im, m, owner, im2, j, o);
    }
    forall o | 0 <= o < Max(im0.inodes[i].size, off0 + |src|)
      ensures FileByte(im2, i, o) == FileByte(im, i, o)
    {
      MappedByte(m, i, Max(im0.inodes[i].size, off0 + |src|), o);
      SameByte(im, m, owner, im2, i, o);
    }
  }

  lemma ExtendsSelf(o: Owner)
    ensures Extends(o, o)
  {}

  lemma ExtendsTwice(o: Owner, o1: Owner, o2: Owner)
    requires Extends(o, o1) && Extends(o1, o2)
    ensures Extends(o, o2)
  {}

  lemma GrownFacts(im: Image, m: seq<nat>, owner: Owner, im': Image, m': seq<nat>, owner': Owner, i: nat)
    requires Grown(im, m, owner, im', m', owner', i)
    ensures Shape(im') && i < |im'.inodes| == |m'| && Extends(owner, owner') && GoodBut(im', m', owner', i)
  {}

  lemma PatchedIs(im1: Image, im2: Image, i: nat, off0: nat, off: nat, k: nat, src: seq<Byte>)
    requires Shape(im1) && i < |im1.inodes| && off < MAXFILE * BSIZE
    requires off0 <= off && off + k <= off0 + |src| && off % BSIZE + k <= BSIZE
    requires var a := At(im1, i, DataSlot(off / BSIZE));
             a < |im1.blocks| && im2 == im1.(blocks := im1.blocks[a := Patch(im1.blocks[a], off, src[off - off0..off - off0 + k])])
    ensures Patched(im1, im2, i, off0, off, k, src)
  {}
}
