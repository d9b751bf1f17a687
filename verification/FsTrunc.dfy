/** The meaning of a truncation in progress: which of one file's blocks have been given back. */
module FsTrunc {
  import opened Collections
  import opened Blocks
  import opened FsLayout
  import opened FsImage

  /** A block that im0 gives to one of the slots in done of file i. */
  ghost predicate Freed(owner0: Owner, i: nat, done: set<nat>, b: nat) {
    b in owner0 && owner0[b].0 == i && owner0[b].1 in done
  }

  /** Since im0 only marks have been cleared, those of the slots in done, and only file i's
      own pointers have changed. */
  ghost predicate Truncating(im0: Image, m0: seq<nat>, owner0: Owner, im: Image, i: nat, done: set<nat>) {
    && Good(im0, m0, owner0) && Shape(im) && i < |im0.inodes| == |im.inodes| && im.sb == im0.sb
    && im.inodes == im0.inodes[i := im0.inodes[i].(addrs := im.inodes[i].addrs)]
    && (forall b :: 0 <= b < im.sb.size && !(im.sb.bmapstart <= b < im.sb.nmeta) ==> im.blocks[b] == im0.blocks[b])
    && forall b :: 0 <= b < im.sb.size ==>
         (Used(im.sb, im.blocks, b) <==> b < im.sb.nmeta || (b in owner0 && !Freed(owner0, i, done, b)))
  }

  lemma TruncStart(im: Image, m: seq<nat>, owner: Owner, i: nat)
    requires Good(im, m, owner) && i < |im.inodes|
    ensures Truncating(im, m, owner, im, i, {})
  {}

  /** What bfree meets: a block still marked, which it unmarks, or a slot that was never mapped. */
  lemma TruncSlot(im0: Image, m0: seq<nat>, owner0: Owner, im: Image, im': Image, i: nat, done: set<nat>, s: nat)
    requires Truncating(im0, m0, owner0, im, i, done) && s < NSLOTS && s !in done
    requires var a := At(im0, i, s);
             if a == 0 then im' == im
             else a < im.sb.size && im' == im.(blocks := MarkFree(im.sb, im.blocks, a))
    ensures Truncating(im0, m0, owner0, im', i, done + {s})
  {
    hide Used, Freed;
    var a := At(im0, i, s);
    if s < m0[i] {
      SlotFreed(im0, m0, owner0, i, done, s);
      forall b | 0 <= b < im.sb.size
        ensures Used(im'.sb, im'.blocks, b) <==> b < im.sb.nmeta || (b in owner0 && !Freed(owner0, i, done + {s}, b))
      {
        MarkOne(im.sb, im.blocks, a, b);
      }
    } else {
      SlotEmpty(im0, m0, owner0, i, done, s);
    }
  }

  lemma SlotFreed(im0: Image, m0: seq<nat>, owner0: Owner, i: nat, done: set<nat>, s: nat)
    requires Shape(im0) && Owned(im0, m0, owner0) && i < |m0| && s < m0[i]
    ensures im0.sb.nmeta <= At(im0, i, s) < im0.sb.size && At(im0, i, s) in owner0
    ensures forall b :: Freed(owner0, i, done + {s}, b) <==> Freed(owner0, i, done, b) || b == At(im0, i, s)
  {}

  lemma SlotEmpty(im0: Image, m0: seq<nat>, owner0: Owner, i: nat, done: set<nat>, s: nat)
    requires Shape(im0) && Owned(im0, m0, owner0) && i < |m0| && m0[i] <= s < NSLOTS
    ensures At(im0, i, s) == 0 && forall b :: Freed(owner0, i, done + {s}, b) <==> Freed(owner0, i, done, b)
  {
    hide At;
  }

  /** bfree never meets a free block. */
  lemma TruncMarked(im0: Image, m0: seq<nat>, owner0: Owner, im: Image, i: nat, done: set<nat>, s: nat)
    requires Truncating(im0, m0, owner0, im, i, done) && s < NSLOTS && s !in done && At(im0, i, s) != 0
    ensures At(im0, i, s) < im.sb.size && Used(im.sb, im.blocks, At(im0, i, s))
  {}

  /** The indirect block is read while truncation is under way. */
  lemma TruncEntry(im0: Image, m0: seq<nat>, owner0: Owner, im: Image, i: nat, done: set<nat>, j: nat)
    requires Truncating(im0, m0, owner0, im, i, done) && im0.inodes[i].addrs[NDIRECT] != 0 && j < NINDIRECT
    ensures var ind := im0.inodes[i].addrs[NDIRECT];
            ind < im.sb.size && GetWord(im.blocks[ind], j) == At(im0, i, NDIRECT + 1 + j)
  {
    assert At(im0, i, NDIRECT) == im0.inodes[i].addrs[NDIRECT];
  }

  ghost predicate AllSlots(done: set<nat>) {
    forall s :: 0 <= s < NSLOTS ==> s in done
  }

  lemma TruncFacts(im0: Image, m0: seq<nat>, owner0: Owner, im: Image, i: nat, done: set<nat>)
    requires Truncating(im0, m0, owner0, im, i, done)
    ensures Shape(im0) && Shape(im) && i < |im.inodes| == |im0.inodes| == |m0| && im.sb == im0.sb
    ensures im.inodes[i].(addrs := im0.inodes[i].addrs) == im0.inodes[i]
  {}

  /** A pointer whose block has been given back is cleared. */
  lemma TruncClear(im0: Image, m0: seq<nat>, owner0: Owner, im: Image, im': Image, i: nat, done: set<nat>, k: nat)
    requires Truncating(im0, m0, owner0, im, i, done) && k <= NDIRECT
    requires im' == im.(inodes := im.inodes[i := im.inodes[i].(addrs := im.inodes[i].addrs[k := 0])])
    ensures Truncating(im0, m0, owner0, im', i, done)
  {}

  /** The owners that remain when file i is gone. */
  function Without(owner: Owner, i: nat): Owner {
    map b | b in owner && owner[b].0 != i :: owner[b]
  }

  function Emptied(ip: Inode): Inode {
    ip.(size := 0, addrs := seq(NDIRECT + 1, k => 0))
  }

  /** What a completed truncation has done: file i is empty, its blocks and no others are free, and
      the other files hold what they held. */
  ghost predicate Truncated(im0: Image, owner0: Owner, im: Image, i: nat) {
    && Shape(im0) && Shape(im) && im.sb == im0.sb && i < |im0.inodes|
    && im.inodes == im0.inodes[i := Emptied(im0.inodes[i])]
    && (forall b :: 0 <= b < im.sb.size ==>
          (Used(im.sb, im.blocks, b) <==> Used(im0.sb, im0.blocks, b) && !(b in owner0 && owner0[b].0 == i)))
    && forall j :: 0 <= j < |im.inodes| && j != i ==> Content(im, j) == Content(im0, j)
  }

  lemma TruncEnd(im0: Image, m0: seq<nat>, owner0: Owner, im: Image, im1: Image, im2: Image, i: nat, done: set<nat>)
    requires Truncating(im0, m0, owner0, im, i, done) && AllSlots(done)
    requires im1 == im.(inodes := im.inodes[i := Emptied(im.inodes[i])])
    requires Shape(im1) && im2 == im1.(blocks := PutInode(im1.sb, im1.blocks, i, im1.inodes[i]))
    ensures Good(im2, m0[i := 0], Without(owner0, i)) && Truncated(im0, owner0, im2, i)
  {
    TruncOwned(im0, m0, owner0, im1, i);
    TruncMarks(im0, m0, owner0, im, im1, i, done);
    SyncedKept(im0, im1, i);
    WriteBackKeeps(im1, im2, m0[i := 0], Without(owner0, i), i);
    TruncContents(im0, m0, owner0, im2, i);
  }

  ghost predicate Outside(im0: Image, im: Image, i: nat) {
    && Shape(im0) && Shape(im) && im.sb == im0.sb && i < |im0.inodes|
    && im.inodes == im0.inodes[i := Emptied(im0.inodes[i])]
    && forall b :: im.sb.nmeta <= b < im.sb.size ==> im.blocks[b] == im0.blocks[b]
  }

  lemma TruncAt(im0: Image, m0: seq<nat>, owner0: Owner, im: Image, i: nat, j: nat, s: nat)
    requires Outside(im0, im, i) && Owned(im0, m0, owner0) && j < |m0| && s < NSLOTS
    ensures At(im, j, s) == if j == i then 0 else At(im0, j, s)
  {
    if j != i {
      assert At(im0, j, NDIRECT) == im0.inodes[j].addrs[NDIRECT];
      AtSame(im0, im, j, s);
    }
  }

  lemma TruncOwned(im0: Image, m0: seq<nat>, owner0: Owner, im1: Image, i: nat)
    requires Outside(im0, im1, i) && Owned(im0, m0, owner0)
    ensures Owned(im1, m0[i := 0], Without(owner0, i))
  {
    forall j, s | 0 <= j < |m0| && 0 <= s < NSLOTS
      ensures At(im1, j, s) == if j == i then 0 else At(im0, j, s)
    {
      TruncAt(im0, m0, owner0, im1, i, j, s);
    }
  }

  lemma TruncMarks(im0: Image, m0: seq<nat>, owner0: Owner, im: Image, im1: Image, i: nat, done: set<nat>)
    requires Truncating(im0, m0, owner0, im, i, done) && AllSlots(done)
    requires Shape(im1) && im1.sb == im.sb && im1.blocks == im.blocks
    ensures Marked(im1, Without(owner0, i), {})
  {
    forall b | 0 <= b < im.sb.size
      ensures Used(im1.sb, im1.blocks, b) <==> b < im.sb.nmeta || b in Without(owner0, i)
    {
      assert b in owner0 && owner0[b].0 == i ==> owner0[b].1 in done;
    }
  }

  lemma TruncContents(im0: Image, m0: seq<nat>, owner0: Owner, im: Image, i: nat)
    requires Good(im0, m0, owner0) && Outside(im0, im, i) && Marked(im, Without(owner0, i), {})
    ensures Truncated(im0, owner0, im, i)
  {
    forall j | 0 <= j < |im.inodes| && j != i
      ensures Content(im, j) == Content(im0, j)
    {
      forall o | 0 <= o < im.inodes[j].size ensures FileByte(im, j, o) == FileByte(im0, j, o) {
        Mapped(im0, m0, j, o);
        AtOwned(im0, m0, owner0, j, DataSlot(o / BSIZE));
        TruncAt(im0, m0, owner0, im, i, j, DataSlot(o / BSIZE));
      }
    }
  }

  /** Without an indirect block there is nothing more to free. */
  lemma NothingIndirect(im0: Image, m0: seq<nat>, owner0: Owner, im: Image, i: nat, direct: set<nat>) returns (done: set<nat>)
    requires Truncating(im0, m0, owner0, im, i, direct) && forall s :: s in direct <==> 0 <= s < NDIRECT
    requires im0.inodes[i].addrs[NDIRECT] == 0
    ensures Truncating(im0, m0, owner0, im, i, done) && AllSlots(done)
  {
    done := Interval(0, NSLOTS);
    assert At(im0, i, NDIRECT) == 0;
    assert forall b :: Freed(owner0, i, done, b) <==> Freed(owner0, i, direct, b);
  }

  /** The blocks in the first n slots of file i. */
  function Below(owner: Owner, i: nat, n: nat): set<nat> {
    set b | b in owner && owner[b].0 == i && owner[b].1 < n
  }

  lemma {:induction false} BelowCount(im: Image, m: seq<nat>, owner: Owner, i: nat, n: nat)
    requires Shape(im) && Owned(im, m, owner) && i < |m| && n <= m[i]
    ensures |Below(owner, i, n)| == n
  {
    hide Slot, Used, Owned, Below, At;
    if n == 0 {
      BelowNone(owner, i);
    } else {
      BelowCount(im, m, owner, i, n - 1);
      BelowMore(im, m, owner, i, n - 1);
    }
  }

  lemma BelowNone(owner: Owner, i: nat)
    ensures Below(owner, i, 0) == {}
  {}

  lemma BelowMore(im: Image, m: seq<nat>, owner: Owner, i: nat, s: nat)
    requires Shape(im) && Owned(im, m, owner) && i < |m| && s < m[i]
    ensures s < NSLOTS && At(im, i, s) !in Below(owner, i, s) && Below(owner, i, s + 1) == Below(owner, i, s) + {At(im, i, s)}
  {
    hide At;
    AtOwned(im, m, owner, i, s);
    forall b ensures b in Below(owner, i, s + 1) <==> b in Below(owner, i, s) || b == At(im, i, s) {
      if b in owner && owner[b] == (i, s) {
        assert At(im, owner[b].0, owner[b].1) == b;
      }
    }
  }

  /** A file has as many blocks as slots in use. */
  lemma WithoutCount(im: Image, m: seq<nat>, owner: Owner, i: nat)
    requires Good(im, m, owner) && i < |im.inodes|
    ensures i < |m| && |Without(owner, i)| + m[i] == |owner|
  {
    BelowCount(im, m, owner, i, m[i]);
    var kept := Without(owner, i).Keys;
    assert owner.Keys == kept + Below(owner, i, m[i]) && kept !! Below(owner, i, m[i]);
    assert |owner| == |owner.Keys| && |Without(owner, i)| == |kept|;
  }
}
