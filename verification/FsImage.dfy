/** What a file system image means: which block belongs to which file, and what each file holds. */
module FsImage {
  import opened Collections
  import opened Param
  import opened Blocks
  import opened FsLayout

  datatype Image = Image(sb: Super, blocks: Disk, inodes: seq<Inode>)

  /** The file and the slot that each allocated block belongs to. */
  type Owner = map<nat, (nat, nat)>

  function Zero(): (z: Block)
    ensures forall k :: 0 <= k < 512 ==> z[k] == 0
  {
    seq(512, k => 0)
  }

  ghost predicate Shape(im: Image) {
    && OnDisk(im.sb, im.blocks) && |im.inodes| == im.sb.ninodes
    && forall i :: 0 <= i < |im.inodes| ==> im.inodes[i].Valid() && im.inodes[i].addrs[NDIRECT] < im.sb.size
  }

  function At(im: Image, i: nat, s: nat): nat
    requires i < |im.inodes| && s < NSLOTS && im.inodes[i].Valid() && im.inodes[i].addrs[NDIRECT] < |im.blocks|
  {
    Slot(im.blocks, im.inodes[i], s)
  }

  /** m[i] slots of file i are in use, the first ones; no block is in two slots, and owner is the
      inverse of the slots. */
  ghost predicate Owned(im: Image, m: seq<nat>, owner: Owner)
    requires Shape(im)
  {
    && |m| == |im.inodes|
    && (forall i :: 0 <= i < |m| ==> m[i] <= NSLOTS)
    && (forall i, s :: 0 <= i < |m| && 0 <= s < NSLOTS ==>
          if s < m[i] then At(im, i, s) in owner && owner[At(im, i, s)] == (i, s) else At(im, i, s) == 0)
    && (forall b :: b in owner ==>
          && im.sb.nmeta <= b < im.sb.size && owner[b].0 < |m| && owner[b].1 < m[owner[b].0]
          && At(im, owner[b].0, owner[b].1) == b)
  }

  /** The bitmap marks the metadata, the blocks of files, and nothing else. */
  ghost predicate Marked(im: Image, owner: Owner, extra: set<nat>)
    requires Shape(im)
  {
    forall b :: 0 <= b < im.sb.size ==> (Used(im.sb, im.blocks, b) <==> b < im.sb.nmeta || b in owner || b in extra)
  }

  /** A file without holes: exactly the blocks below its size are mapped. */
  predicate NoHoles(ip: Inode, slots: nat) {
    slots == SlotsFor(BlocksFor(ip.size))
  }

  /** Ownership, bitmap and no holes, except that file i, if there is one, may be in the middle of
      a change and have more mapped than its size asks for. */
  ghost predicate GoodBut(im: Image, m: seq<nat>, owner: Owner, i: int) {
    && Shape(im) && Owned(im, m, owner) && Marked(im, owner, {})
    && forall j :: 0 <= j < |m| && j != i ==> NoHoles(im.inodes[j], m[j])
  }

  /** Every inode, except perhaps i, is on the disk as it is in memory. */
  ghost predicate SyncedBut(im: Image, i: int)
    requires Shape(im)
  {
    forall j :: 0 <= j < |im.inodes| && j != i ==> Written(im.sb, im.blocks, j, im.inodes[j])
  }

  ghost predicate Good(im: Image, m: seq<nat>, owner: Owner) {
    GoodBut(im, m, owner, -1) && SyncedBut(im, -1)
  }

  function FileByte(im: Image, i: nat, o: nat): Byte
    requires i < |im.inodes| && o < MAXFILE * BSIZE && im.inodes[i].Valid() && im.inodes[i].addrs[NDIRECT] < |im.blocks|
  {
    var a := At(im, i, DataSlot(o / BSIZE));
    if a < |im.blocks| then im.blocks[a][o % BSIZE] else 0
  }

  /** The bytes of file i. */
  ghost function Content(im: Image, i: nat): (c: seq<Byte>)
    requires Shape(im) && i < |im.inodes|
    ensures |c| == im.inodes[i].size
  {
    seq(im.inodes[i].size, o requires 0 <= o < im.inodes[i].size => FileByte(im, i, o))
  }

  // ------------------------------------------------------------- the proofs

  /** The slots of a file depend on its inode and on its indirect block. */
  lemma AtSame(im: Image, im': Image, i: nat, s: nat)
    requires Shape(im) && Shape(im') && i < |im.inodes| && i < |im'.inodes| && s < NSLOTS
    requires im.inodes[i].addrs == im'.inodes[i].addrs
    requires im.inodes[i].addrs[NDIRECT] != 0 ==> im.blocks[im.inodes[i].addrs[NDIRECT]] == im'.blocks[im.inodes[i].addrs[NDIRECT]]
    ensures At(im, i, s) == At(im', i, s)
  {}

  /** Changes outside the blocks that files own keep ownership. */
  lemma OwnedKept(im: Image, im': Image, m: seq<nat>, owner: Owner)
    requires Shape(im) && Shape(im') && im.sb == im'.sb && |im.inodes| == |im'.inodes|
    requires forall i :: 0 <= i < |im.inodes| ==> im.inodes[i].addrs == im'.inodes[i].addrs
    requires forall b :: b in owner && b < |im.blocks| && owner[b].1 == NDIRECT ==> im.blocks[b] == im'.blocks[b]
    requires Owned(im, m, owner)
    ensures Owned(im', m, owner)
    ensures forall i, s :: 0 <= i < |m| && 0 <= s < NSLOTS ==> At(im, i, s) == At(im', i, s)
  {
    forall i, s | 0 <= i < |m| && 0 <= s < NSLOTS
      ensures At(im, i, s) == At(im', i, s)
    {
      assert At(im, i, NDIRECT) == im.inodes[i].addrs[NDIRECT];
      AtSame(im, im', i, s);
    }
  }

  /** The blocks that the bitmap leaves free. */
  ghost function FreeBlocks(im: Image): set<nat>
    requires Shape(im)
  {
    set b | 0 <= b < im.sb.size && !Used(im.sb, im.blocks, b)
  }

  /** Free blocks, blocks of files and metadata add up to all the blocks there are. */
  lemma BlocksAddUp(im: Image, m: seq<nat>, owner: Owner, i: int)
    requires GoodBut(im, m, owner, i)
    ensures |FreeBlocks(im)| + |owner| + im.sb.nmeta == im.sb.size
  {
    assert forall b :: b in owner ==> im.sb.nmeta <= b < im.sb.size;
    hide Owned, At;
    MarksAddUp(im, owner);
  }

  lemma MarksAddUp(im: Image, owner: Owner)
    requires Shape(im) && Marked(im, owner, {}) && forall b :: b in owner ==> im.sb.nmeta <= b < im.sb.size
    ensures |FreeBlocks(im)| + |owner| + im.sb.nmeta == im.sb.size
  {
    hide Used;
    ThreeParts(FreeBlocks(im), owner.Keys, im.sb.nmeta, im.sb.size);
    assert |owner| == |owner.Keys|;
  }

  lemma ThreeParts(a: set<nat>, b: set<nat>, n: nat, size: nat)
    requires n <= size && a !! b && forall k :: k in a + b ==> k >= n
    requires forall k :: k in a || k in b || 0 <= k < n <==> 0 <= k < size
    ensures |a| + |b| + n == size
  {
    assert Interval(0, size) == a + b + Interval(0, n);
    assert (a + b) !! Interval(0, n);
  }

  /** One more block, owned by nobody so far, becomes the next slot of file i. */
  lemma AppendSlot(im: Image, im': Image, m: seq<nat>, owner: Owner, i: nat, b: nat)
    requires Shape(im) && Shape(im') && im.sb == im'.sb && Owned(im, m, owner)
    requires i < |m| && m[i] < NSLOTS && b !in owner && im.sb.nmeta <= b < im.sb.size
    requires forall j, s :: 0 <= j < |m| && 0 <= s < NSLOTS ==>
               At(im', j, s) == if j == i && s == m[i] then b else At(im, j, s)
    ensures Owned(im', m[i := m[i] + 1], owner[b := (i, m[i])])
  {
    var m', owner' := m[i := m[i] + 1], owner[b := (i, m[i])];
    forall c | c in owner'
      ensures im.sb.nmeta <= c < im.sb.size && owner'[c].0 < |m'| && owner'[c].1 < m'[owner'[c].0]
      ensures At(im', owner'[c].0, owner'[c].1) == c
    {
    }
  }

  /** The blocks in owner hold what they held, except that indirect blocks may have new entries,
      and the blocks below the bitmap are untouched. */
  ghost predicate SameBlocks(im: Image, im': Image, owner: Owner) {
    && |im.blocks| == |im'.blocks|
    && (forall b :: 0 <= b < im.sb.bmapstart && b < |im.blocks| ==> im'.blocks[b] == im.blocks[b])
    && forall c :: c in owner && c < |im.blocks| && owner[c].1 != NDIRECT ==> im'.blocks[c] == im.blocks[c]
  }

  /** The moment after balloc: block b is marked and zeroed, and no slot holds it yet. */
  ghost predicate Pending(im: Image, m: seq<nat>, owner: Owner, i: int, b: nat) {
    && Shape(im) && Owned(im, m, owner) && Marked(im, owner, {b})
    && (forall j :: 0 <= j < |m| && j != i ==> NoHoles(im.inodes[j], m[j]))
    && im.sb.nmeta <= b < im.sb.size && b !in owner && im.blocks[b] == Zero()
  }

  lemma GoodFacts(im: Image, m: seq<nat>, owner: Owner, i: int)
    requires GoodBut(im, m, owner, i)
    ensures Shape(im) && |m| == |im.inodes| && forall b :: 0 <= b < im.sb.nmeta ==> Used(im.sb, im.blocks, b)
  {}

  /** A slot is in use exactly when it holds a block number. */
  lemma SlotMapped(im: Image, m: seq<nat>, owner: Owner, i: nat, s: nat)
    requires GoodBut(im, m, owner, i) && i < |im.inodes| && s < NSLOTS
    ensures i < |m| && (At(im, i, s) != 0 <==> s < m[i])
  {}

  lemma AllocMarked(im: Image, im': Image, owner: Owner, b: nat)
    requires Shape(im) && Shape(im') && Marked(im, owner, {}) && b < im.sb.size && !Used(im.sb, im.blocks, b)
    requires im' == im.(blocks := MarkUsed(im.sb, im.blocks, b)[b := Zero()])
    ensures im.sb.nmeta <= b && b !in owner && Marked(im', owner, {b})
  {
    forall c | 0 <= c < im.sb.size
      ensures Used(im'.sb, im'.blocks, c) <==> c < im.sb.nmeta || c in owner || c in {b}
    {
      MarkOne(im.sb, im.blocks, b, c);
      UsedElsewhere(im.sb, MarkUsed(im.sb, im.blocks, b), im'.blocks, c);
    }
  }

  lemma AllocKeeps(im: Image, im': Image, m: seq<nat>, owner: Owner, i: int, b: nat)
    requires GoodBut(im, m, owner, i) && b < im.sb.size && !Used(im.sb, im.blocks, b)
    requires im' == im.(blocks := MarkUsed(im.sb, im.blocks, b)[b := Zero()])
    ensures Pending(im', m, owner, i, b)
    ensures SameBlocks(im, im', owner)
  {
    AllocMarked(im, im', owner, b);
    AllocOwned(im, im', m, owner, b);
  }

  lemma AllocOwned(im: Image, im': Image, m: seq<nat>, owner: Owner, b: nat)
    requires Shape(im) && Owned(im, m, owner) && im.sb.nmeta <= b < im.sb.size && b !in owner
    requires im' == im.(blocks := MarkUsed(im.sb, im.blocks, b)[b := Zero()])
    ensures Shape(im') && Owned(im', m, owner) && SameBlocks(im, im', owner)
  {
    OwnedKept(im, im', m, owner);
  }

  /** What mapping more of file i may change: its pointers grow, blocks that were owned stay as they
      are, and nothing else happens. */
  ghost predicate Grown(im: Image, m: seq<nat>, owner: Owner, im': Image, m': seq<nat>, owner': Owner, i: nat) {
    && im'.sb == im.sb && |m| == |im.inodes| && i < |m| && GoodBut(im', m', owner', i)
    && |m'| == |m| && m[i] <= m'[i] && m' == m[i := m'[i]]
    && im'.inodes == im.inodes[i := im.inodes[i].(addrs := im'.inodes[i].addrs)]
    && (forall c :: c in owner ==> c in owner' && owner'[c] == owner[c])
    && SameBlocks(im, im', owner)
  }

  lemma NewIndirect(im: Image, m: seq<nat>, owner: Owner, im': Image, m': seq<nat>, owner': Owner, i: nat)
    requires Grown(im, m, owner, im', m', owner', i) && m'[i] > NDIRECT
    ensures i < |im'.inodes| && Shape(im') && At(im', i, NDIRECT) == im'.inodes[i].addrs[NDIRECT] != 0
  {
    SlotMapped(im', m', owner', i, NDIRECT);
  }

  lemma GrownSelf(im: Image, m: seq<nat>, owner: Owner, i: nat)
    requires GoodBut(im, m, owner, i) && i < |m|
    ensures Grown(im, m, owner, im, m, owner, i)
  {}

  /** Where bmap stores the block it has allocated. */
  function Placed(im: Image, i: nat, s: nat, b: nat): Image
    requires Shape(im) && i < |im.inodes| && s < NSLOTS && b < U32
  {
    if s <= NDIRECT then im.(inodes := im.inodes[i := im.inodes[i].(addrs := im.inodes[i].addrs[s := b])])
    else
      var ind := im.inodes[i].addrs[NDIRECT];
      im.(blocks := im.blocks[ind := PutWord(im.blocks[ind], s - NDIRECT - 1, b)])
  }

  lemma NewOwner(im: Image, m: seq<nat>, owner: Owner, i: nat, s: nat, b: nat)
    requires Pending(im, m, owner, i, b)
    ensures |owner[b := (i, s)]| == |owner| + 1
  {
    assert b !in owner;
  }

  /** With the block in its slot the image is whole again. */
  lemma PlacedGood(im: Image, im': Image, m: seq<nat>, owner: Owner, i: nat, b: nat)
    requires Pending(im, m, owner, i, b) && i < |m| && m[i] < NSLOTS
    requires Shape(im') && im'.sb == im.sb && |im'.inodes| == |im.inodes| && Marked(im', owner, {b})
    requires forall j :: 0 <= j < |m| && j != i ==> im'.inodes[j] == im.inodes[j]
    requires forall j, s :: 0 <= j < |m| && 0 <= s < NSLOTS ==> At(im', j, s) == if j == i && s == m[i] then b else At(im, j, s)
    ensures GoodBut(im', m[i := m[i] + 1], owner[b := (i, m[i])], i) && At(im', i, m[i]) == b
  {
    hide At, Used;
    AppendSlot(im, im', m, owner, i, b);
  }

  lemma MarkedSame(im: Image, im': Image, owner: Owner, extra: set<nat>)
    requires Shape(im) && Marked(im, owner, extra) && Shape(im') && im'.sb == im.sb && im'.blocks == im.blocks
    ensures Marked(im', owner, extra)
  {}

  lemma PlacedGrown(im: Image, im': Image, m: seq<nat>, owner: Owner, i: nat, b: nat, s: nat)
    requires i < |m| == |im.inodes| && i < |im'.inodes| && im'.sb == im.sb && b !in owner && SameBlocks(im, im', owner)
    requires im'.inodes == im.inodes[i := im.inodes[i].(addrs := im'.inodes[i].addrs)]
    requires GoodBut(im', m[i := m[i] + 1], owner[b := (i, s)], i)
    ensures Grown(im, m, owner, im', m[i := m[i] + 1], owner[b := (i, s)], i)
  {
    hide GoodBut, SameBlocks;
  }

  lemma PlaceDirect(im: Image, im': Image, m: seq<nat>, owner: Owner, i: nat, b: nat)
    requires Pending(im, m, owner, i, b) && i < |m| && m[i] < NDIRECT
    requires im' == Placed(im, i, m[i], b)
    ensures Grown(im, m, owner, im', m[i := m[i] + 1], owner[b := (i, m[i])], i) && At(im', i, m[i]) == b
  {
    hide GoodBut, Grown, Used, Marked;
    assert At(im, i, NDIRECT) == 0;
    MarkedSame(im, im', owner, {b});
    PlacedGood(im, im', m, owner, i, b);
    PlacedGrown(im, im', m, owner, i, b, m[i]);
  }

  lemma PlaceIndirect(im: Image, im': Image, m: seq<nat>, owner: Owner, i: nat, b: nat)
    requires Pending(im, m, owner, i, b) && i < |m| && m[i] == NDIRECT
    requires im' == Placed(im, i, m[i], b)
    ensures Grown(im, m, owner, im', m[i := m[i] + 1], owner[b := (i, m[i])], i) && At(im', i, m[i]) == b
  {
    hide GoodBut, Grown, Used, Marked;
    assert At(im, i, NDIRECT) == 0;
    forall j, s | 0 <= j < |m| && 0 <= s < NSLOTS
      ensures At(im', j, s) == if j == i && s == m[i] then b else At(im, j, s)
    {
      if j == i && s > NDIRECT {
        ZeroWord(Zero(), s - NDIRECT - 1);
      }
    }
    MarkedSame(im, im', owner, {b});
    PlacedGood(im, im', m, owner, i, b);
    PlacedGrown(im, im', m, owner, i, b, m[i]);
  }

  lemma PlaceEntryAt(im: Image, im': Image, m: seq<nat>, owner: Owner, i: nat, b: nat, j: nat, s: nat)
    requires Shape(im) && Shape(im') && Owned(im, m, owner) && i < |m| && NDIRECT < m[i] < NSLOTS && j < |m| && s < NSLOTS && b < U32
    requires var ind := im.inodes[i].addrs[NDIRECT];
             im' == im.(blocks := im.blocks[ind := PutWord(im.blocks[ind], m[i] - NDIRECT - 1, b)])
    ensures At(im', j, s) == if j == i && s == m[i] then b else At(im, j, s)
  {
    var ind := im.inodes[i].addrs[NDIRECT];
    assert At(im, i, NDIRECT) == ind && At(im, j, NDIRECT) == im.inodes[j].addrs[NDIRECT];
    if j == i {
      if s > NDIRECT {
        GetPut(im.blocks[ind], m[i] - NDIRECT - 1, b, s - NDIRECT - 1);
      }
    } else {
      AtSame(im, im', j, s);
    }
  }

  lemma AtIndirect(im: Image, i: nat)
    requires Shape(im) && i < |im.inodes|
    ensures At(im, i, NDIRECT) == im.inodes[i].addrs[NDIRECT]
  {}

  lemma PlaceEntryGood(im: Image, im': Image, m: seq<nat>, owner: Owner, i: nat, b: nat)
    requires Pending(im, m, owner, i, b) && i < |m| && NDIRECT < m[i] < NSLOTS
    requires im' == Placed(im, i, m[i], b)
    ensures GoodBut(im', m[i := m[i] + 1], owner[b := (i, m[i])], i) && At(im', i, m[i]) == b
    ensures var ind := im.inodes[i].addrs[NDIRECT]; ind in owner && owner[ind] == (i, NDIRECT) && im.sb.nmeta <= ind < |im.blocks|
  {
    hide Slot, GoodBut, Used;
    AtOwned(im, m, owner, i, NDIRECT);
    AtIndirect(im, i);
    forall j, s | 0 <= j < |m| && 0 <= s < NSLOTS
      ensures At(im', j, s) == if j == i && s == m[i] then b else At(im, j, s)
    {
      PlaceEntryAt(im, im', m, owner, i, b, j, s);
    }
    MarkedKept(im, im', owner, {b});
    PlacedGood(im, im', m, owner, i, b);
  }

  lemma PlaceEntry(im: Image, im': Image, m: seq<nat>, owner: Owner, i: nat, b: nat)
    requires Pending(im, m, owner, i, b) && i < |m| && NDIRECT < m[i] < NSLOTS
    requires im' == Placed(im, i, m[i], b)
    ensures Grown(im, m, owner, im', m[i := m[i] + 1], owner[b := (i, m[i])], i) && At(im', i, m[i]) == b
  {
    hide GoodBut, At, Pending, SameBlocks, Grown;
    PlaceEntryGood(im, im', m, owner, i, b);
    PendingFacts(im, m, owner, i, b);
    SlotsKept(im, im', owner, i, im.inodes[i].addrs[NDIRECT], m[i], b);
    assert im.inodes[i].(addrs := im.inodes[i].addrs) == im.inodes[i];
    PlacedGrown(im, im', m, owner, i, b, m[i]);
  }

  lemma PendingFacts(im: Image, m: seq<nat>, owner: Owner, i: int, b: nat)
    requires Pending(im, m, owner, i, b)
    ensures Shape(im) && |m| == |im.inodes| && b !in owner && b < U32
  {}

  /** A new entry changes the indirect block of its own file alone. */
  lemma SlotsKept(im: Image, im': Image, owner: Owner, i: nat, ind: nat, s: nat, b: nat)
    requires Shape(im) && i < |im.inodes| && ind in owner && owner[ind].1 == NDIRECT && im.sb.nmeta <= ind < |im.blocks|
    requires NDIRECT < s < NSLOTS && b < U32
    requires im' == im.(blocks := im.blocks[ind := PutWord(im.blocks[ind], s - NDIRECT - 1, b)])
    ensures SameBlocks(im, im', owner)
  {}

  /** Changes to blocks that hold no bitmap keep the marks. */
  lemma MarkedKept(im: Image, im': Image, owner: Owner, extra: set<nat>)
    requires Shape(im) && Shape(im') && im.sb == im'.sb && Marked(im, owner, extra)
    requires forall b :: im.sb.bmapstart <= b < im.sb.nmeta ==> im.blocks[b] == im'.blocks[b]
    ensures Marked(im', owner, extra)
  {
    forall c | 0 <= c < im.sb.size
      ensures Used(im'.sb, im'.blocks, c) == Used(im.sb, im.blocks, c)
    {
      UsedElsewhere(im.sb, im.blocks, im'.blocks, c);
    }
  }

  /** Writing a data block of a file changes no pointer, mark or inode. */
  lemma WriteDataKeeps(im: Image, im': Image, m: seq<nat>, owner: Owner, i: int, b: nat, data: Block)
    requires GoodBut(im, m, owner, i) && b in owner && owner[b].1 != NDIRECT
    requires im' == im.(blocks := im.blocks[b := data])
    ensures GoodBut(im', m, owner, i)
    ensures forall j, s :: 0 <= j < |m| && 0 <= s < NSLOTS ==> At(im', j, s) == At(im, j, s)
  {
    OwnedKept(im, im', m, owner);
    MarkedKept(im, im', owner, {});
  }

  /** Writing back file i once its size matches what it maps makes the image good again. */
  lemma WriteBackKeeps(im: Image, im': Image, m: seq<nat>, owner: Owner, i: nat)
    requires GoodBut(im, m, owner, i) && i < |m| && NoHoles(im.inodes[i], m[i])
    requires im' == im.(blocks := PutInode(im.sb, im.blocks, i, im.inodes[i])) && SyncedBut(im, i)
    ensures Good(im', m, owner)
    ensures forall j, s :: 0 <= j < |m| && 0 <= s < NSLOTS ==> At(im', j, s) == At(im, j, s)
  {
    OwnedKept(im, im', m, owner);
    forall j | 0 <= j < |m| ensures Written(im'.sb, im'.blocks, j, im'.inodes[j]) {
      PutInodeOne(im.sb, im.blocks, i, im.inodes[i], j, im.inodes[j]);
    }
    MarkedKept(im, im', owner, {});
  }

  lemma GrownTrans(im: Image, m: seq<nat>, owner: Owner, im1: Image, m1: seq<nat>, owner1: Owner,
                   im2: Image, m2: seq<nat>, owner2: Owner, i: nat)
    requires Grown(im, m, owner, im1, m1, owner1, i) && Grown(im1, m1, owner1, im2, m2, owner2, i)
    ensures Grown(im, m, owner, im2, m2, owner2, i)
  {
    hide GoodBut, SameBlocks;
    BlocksTwice(im, im1, im2, owner, owner1);
  }

  lemma BlocksTwice(im: Image, im1: Image, im2: Image, owner: Owner, owner1: Owner)
    requires im1.sb == im.sb && SameBlocks(im, im1, owner) && SameBlocks(im1, im2, owner1)
    requires forall c :: c in owner ==> c in owner1 && owner1[c] == owner[c]
    ensures SameBlocks(im, im2, owner)
  {}

  lemma GrownFrom(im: Image, im1: Image, m: seq<nat>, owner: Owner, im2: Image, m2: seq<nat>, owner2: Owner, i: nat)
    requires Shape(im) && im1 == im.(blocks := im1.blocks) && SameBlocks(im, im1, owner)
    requires Grown(im1, m, owner, im2, m2, owner2, i)
    ensures Grown(im, m, owner, im2, m2, owner2, i)
  {}

  /** balloc and the store of its result fill the next slot of file i. */
  lemma GrowOne(im: Image, im1: Image, m: seq<nat>, owner: Owner, i: nat, b: nat)
    requires GoodBut(im, m, owner, i) && i < |m| && m[i] < NSLOTS && b < im.sb.size && !Used(im.sb, im.blocks, b)
    requires im1 == im.(blocks := MarkUsed(im.sb, im.blocks, b)[b := Zero()])
    ensures Pending(im1, m, owner, i, b)
    ensures var im2 := Placed(im1, i, m[i], b);
            Grown(im, m, owner, im2, m[i := m[i] + 1], owner[b := (i, m[i])], i) && At(im2, i, m[i]) == b
  {
    AllocKeeps(im, im1, m, owner, i, b);
    var im2 := Placed(im1, i, m[i], b);
    if m[i] < NDIRECT {
      PlaceDirect(im1, im2, m, owner, i, b);
    } else if m[i] == NDIRECT {
      PlaceIndirect(im1, im2, m, owner, i, b);
    } else {
      PlaceEntry(im1, im2, m, owner, i, b);
    }
    GrownFrom(im, im1, m, owner, im2, m[i := m[i] + 1], owner[b := (i, m[i])], i);
  }

  // ------------------------------------------------------------ file contents

  /** A mapped block of a file is owned by it. */
  lemma AtOwned(im: Image, m: seq<nat>, owner: Owner, j: nat, s: nat)
    requires Shape(im) && Owned(im, m, owner) && j < |m| && s < m[j]
    ensures s < NSLOTS && At(im, j, s) in owner && owner[At(im, j, s)] == (j, s)
    ensures im.sb.inodestart <= At(im, j, s) < |im.blocks|
  {}

  lemma IndirectPlace(im: Image, m: seq<nat>, owner: Owner, i: nat)
    requires GoodBut(im, m, owner, i) && i < |m| && m[i] > NDIRECT
    ensures i < |im.inodes| && |im.inodes[i].addrs| == NDIRECT + 1 && im.sb.inodestart <= im.inodes[i].addrs[NDIRECT] < |im.blocks|
  {
    AtOwned(im, m, owner, i, NDIRECT);
    assert At(im, i, NDIRECT) == im.inodes[i].addrs[NDIRECT];
  }

  /** Mapping more of one file changes no byte of any file. */
  lemma GrownBytes(im: Image, m: seq<nat>, owner: Owner, im': Image, m': seq<nat>, owner': Owner, i: nat, j: nat, o: nat)
    requires Shape(im) && Owned(im, m, owner) && Grown(im, m, owner, im', m', owner', i)
    requires j < |m| && o < MAXFILE * BSIZE && DataSlot(o / BSIZE) < m[j]
    ensures FileByte(im', j, o) == FileByte(im, j, o)
  {
    AtOwned(im, m, owner, j, DataSlot(o / BSIZE));
    var a := At(im, j, DataSlot(o / BSIZE));
    assert owner'[a] == (j, DataSlot(o / BSIZE));
  }

  /** Overwriting one block of one file changes the bytes of that block of that file only. */
  lemma WriteDataBytes(im: Image, im': Image, m: seq<nat>, owner: Owner, i: nat, bn: nat, data: Block, j: nat, o: nat)
    requires Shape(im) && Shape(im') && Owned(im, m, owner) && i < |m| && bn < MAXFILE && DataSlot(bn) < m[i]
    requires im' == im.(blocks := im.blocks[At(im, i, DataSlot(bn)) := data])
    requires forall j, s :: 0 <= j < |m| && 0 <= s < NSLOTS ==> At(im', j, s) == At(im, j, s)
    requires j < |m| && o < MAXFILE * BSIZE && DataSlot(o / BSIZE) < m[j]
    ensures FileByte(im', j, o) == if j == i && o / BSIZE == bn then data[o % BSIZE] else FileByte(im, j, o)
  {
    AtOwned(im, m, owner, i, DataSlot(bn));
    AtOwned(im, m, owner, j, DataSlot(o / BSIZE));
  }

  /** A file without holes maps every byte below its size. */
  lemma Mapped(im: Image, m: seq<nat>, j: nat, o: nat)
    requires Shape(im) && j < |m| && |m| == |im.inodes| && o < im.inodes[j].size
    requires m[j] >= SlotsFor(BlocksFor(im.inodes[j].size))
    ensures o < MAXFILE * BSIZE && DataSlot(o / BSIZE) < m[j]
  {}

  /** The inode blocks lie below the bitmap. */
  lemma SyncedKept(im: Image, im': Image, i: int)
    requires Shape(im) && Shape(im') && im.sb == im'.sb && SyncedBut(im, i) && |im.inodes| == |im'.inodes|
    requires forall j :: 0 <= j < |im.inodes| && j != i ==> im.inodes[j] == im'.inodes[j]
    requires forall b :: 0 <= b < im.sb.bmapstart ==> im'.blocks[b] == im.blocks[b]
    ensures SyncedBut(im', i)
  {
    forall j | 0 <= j < |im.inodes| && j != i ensures Written(im'.sb, im'.blocks, j, im'.inodes[j]) {
      assert im'.blocks[im.sb.IBlock(j)] == im.blocks[im.sb.IBlock(j)];
    }
  }

  /** A run of bytes inside one block of a file. */
  lemma ContentRun(im: Image, m: seq<nat>, owner: Owner, i: nat, off: nat, k: nat)
    requires Shape(im) && Owned(im, m, owner) && i < |m| && NoHoles(im.inodes[i], m[i])
    requires off % BSIZE + k <= BSIZE && off + k <= im.inodes[i].size && 0 < k
    ensures off / BSIZE < MAXFILE && DataSlot(off / BSIZE) < m[i]
    ensures var addr := At(im, i, DataSlot(off / BSIZE));
            addr < |im.blocks| && Content(im, i)[off..off + k] == im.blocks[addr][off % BSIZE..off % BSIZE + k]
  {
    hide At, SlotsFor, BlocksFor;
    Mapped(im, m, i, off);
    AtOwned(im, m, owner, i, DataSlot(off / BSIZE));
    var addr := At(im, i, DataSlot(off / BSIZE));
    forall o | off <= o < off + k
      ensures Content(im, i)[o] == im.blocks[addr][o - off + off % BSIZE]
    {
      assert o / BSIZE == off / BSIZE && o % BSIZE == o - off + off % BSIZE;
    }
  }
}
