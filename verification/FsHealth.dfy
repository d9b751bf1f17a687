/** The file system invariant said without its bookkeeping: what a checker of the image would check. */
module FsHealth {
  import opened Blocks
  import opened FsLayout
  import opened FsImage

  ghost predicate Holds(im: Image, i: int, s: int, b: nat)
    requires Shape(im)
  {
    0 <= i < |im.inodes| && 0 <= s < NSLOTS && At(im, i, s) == b
  }

  /** Some pointer of some inode, direct, indirect or inside an indirect block, names b. */
  ghost predicate Reachable(im: Image, b: nat)
    requires Shape(im)
  {
    exists i, s :: Holds(im, i, s, b)
  }

  /** Every file maps exactly the blocks below its size, no block is reachable twice, and the bitmap
      marks exactly the metadata and the reachable blocks. */
  ghost predicate Healthy(im: Image) {
    && Shape(im) && SyncedBut(im, -1)
    && (forall i, s :: 0 <= i < |im.inodes| && 0 <= s < NSLOTS ==>
          if s < SlotsFor(BlocksFor(im.inodes[i].size)) then im.sb.nmeta <= At(im, i, s) < im.sb.size else At(im, i, s) == 0)
    && (forall i, s, j, t, b :: b != 0 && Holds(im, i, s, b) && Holds(im, j, t, b) ==> i == j && s == t)
    && (forall b :: 0 <= b < im.sb.size ==> (Used(im.sb, im.blocks, b) <==> b < im.sb.nmeta || Reachable(im, b)))
  }

  ghost function SlotCounts(im: Image): (m: seq<nat>) {
    seq(|im.inodes|, i requires 0 <= i < |im.inodes| => SlotsFor(BlocksFor(im.inodes[i].size)))
  }

  ghost function Holder(im: Image, b: nat): (p: (nat, nat))
    requires Shape(im) && Reachable(im, b)
    ensures Holds(im, p.0, p.1, b)
  {
    var i, s :| Holds(im, i, s, b);
    (i, s)
  }

  ghost function Owners(im: Image): Owner
    requires Shape(im)
  {
    map b | im.sb.nmeta <= b < im.sb.size && Reachable(im, b) :: Holder(im, b)
  }

  lemma HealthyOwned(im: Image)
    requires Healthy(im)
    ensures Owned(im, SlotCounts(im), Owners(im))
  {
    var m, owner := SlotCounts(im), Owners(im);
    forall i, s | 0 <= i < |m| && 0 <= s < NSLOTS
      ensures if s < m[i] then At(im, i, s) in owner && owner[At(im, i, s)] == (i, s) else At(im, i, s) == 0
    {
      assert Holds(im, i, s, At(im, i, s));
    }
    forall b | b in owner ensures owner[b].0 < |m| && owner[b].1 < m[owner[b].0] && At(im, owner[b].0, owner[b].1) == b {
      assert Holds(im, owner[b].0, owner[b].1, b);
    }
  }

  lemma HealthyGood(im: Image)
    requires Healthy(im)
    ensures Good(im, SlotCounts(im), Owners(im))
  {
    HealthyOwned(im);
  }

  lemma ReachableOwned(im: Image, m: seq<nat>, owner: Owner, b: nat)
    requires Shape(im) && Owned(im, m, owner) && b != 0
    ensures Reachable(im, b) <==> b in owner
  {
    if b in owner {
      assert Holds(im, owner[b].0, owner[b].1, b);
    }
  }

  lemma GoodHealthy(im: Image, m: seq<nat>, owner: Owner)
    requires Good(im, m, owner)
    ensures Healthy(im)
  {
    hide Used, At, SlotsFor, BlocksFor;
    forall b | 0 <= b < im.sb.size
      ensures Used(im.sb, im.blocks, b) <==> b < im.sb.nmeta || Reachable(im, b)
    {
      if b != 0 {
        ReachableOwned(im, m, owner, b);
      }
    }
  }

  /** What the file system's operations keep is what the checker checks. */
  lemma HealthyExactly(im: Image)
    ensures Healthy(im) <==> exists m, owner :: Good(im, m, owner)
  {
    if Healthy(im) {
      HealthyGood(im);
    }
    if m, owner :| Good(im, m, owner) {
      GoodHealthy(im, m, owner);
    }
  }

  /** The file system on a disk, with the inodes as ilock would read them. */
  ghost function OnDiskImage(sb: Super, d: Disk): Image
    requires OnDisk(sb, d)
  {
    Image(sb, d, seq(sb.ninodes, i requires 0 <= i < sb.ninodes => ReadInode(sb, d, i)))
  }

  ghost predicate HealthyDisk(sb: Super, d: Disk) {
    OnDisk(sb, d) && Healthy(OnDiskImage(sb, d))
  }

  /** Between operations the file system that the kernel keeps is the one on the disk, and healthy. */
  lemma GoodOnDisk(im: Image, m: seq<nat>, owner: Owner)
    requires Good(im, m, owner)
    ensures OnDiskImage(im.sb, im.blocks) == im && HealthyDisk(im.sb, im.blocks)
  {
    forall i | 0 <= i < im.sb.ninodes ensures ReadInode(im.sb, im.blocks, i) == im.inodes[i] {
      assert Written(im.sb, im.blocks, i, im.inodes[i]);
      WrittenReads(im.sb, im.blocks, i, im.inodes[i]);
    }
    assert OnDiskImage(im.sb, im.blocks).inodes == im.inodes;
    GoodHealthy(im, m, owner);
  }
}
