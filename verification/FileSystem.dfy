/** fs.c as it runs: the block allocator, bmap, itrunc, readi and writei over buffers and in-memory
    inodes changed in place. A method's first result is false when the kernel
    panics. */
module FileSystem {
  import opened Collections
  import opened Param
  import opened Blocks
  import opened FsLayout
  import opened FsImage
  import opened FsWrite
  import opened FsTrunc
  import opened FsFormat
  import opened FsHealth
  import opened DiskBytes

  const T_DEV: nat := 3

  /** What the read or write function of a device answers, if there is one for its major number. */
  datatype Device = NoDevice | Answers(r: int, data: seq<Byte>)

  class FileSystem {
    const sb: Super
    var blocks: Disk          // every block as the buffer cache shows it
    var inodes: seq<Inode>    // the in-memory inodes, by number
    var logged: set<nat>      // the blocks passed to log_write since begin_op,
    ghost var base: Disk      // and what all blocks were then
    ghost var history: seq<set<nat>>  // those of the transactions that have ended
    ghost var m: seq<nat>     // how many slots of each inode are in use
    ghost var owner: Owner

    ghost function Im(): Image
      reads this
    {
      Image(sb, blocks, inodes)
    }

    /** The file system that mkfs starts from, mounted. */
    constructor Format(sb: Super)
      requires sb.Valid()
      ensures Valid() && Im() == Formatted(sb) && logged == {} && history == []
    {
      this.sb, this.blocks, this.inodes := sb, Formatted(sb).blocks, Formatted(sb).inodes;
      this.logged, this.base, this.history, this.m, this.owner := {}, Formatted(sb).blocks, [], seq(sb.ninodes, i => 0), map[];
      FormattedGood(sb);
    }

    /** A healthy disk, mounted: the inodes are those that ilock reads from it. */
    constructor Mount(sb: Super, disk: Disk)
      requires HealthyDisk(sb, disk)
      ensures Valid() && Im() == OnDiskImage(sb, disk) && logged == {} && history == []
      ensures InodesFrom(sb, disk, inodes)
    {
      this.sb, this.blocks := sb, disk;
      this.inodes := seq(sb.ninodes, i requires 0 <= i < sb.ninodes => ReadInode(sb, disk, i));
      this.logged, this.base, this.history := {}, disk, [];
      this.m, this.owner := SlotCounts(OnDiskImage(sb, disk)), Owners(OnDiskImage(sb, disk));
      HealthyGood(OnDiskImage(sb, disk));
      MountedBytes(sb, disk);
    }

    ghost predicate Valid()
      reads this
    {
      Good(Im(), m, owner)
    }

    ghost predicate ValidBut(i: int)
      reads this
    {
      GoodBut(Im(), m, owner, i)
    }

    /** Since begin_op only blocks passed to log_write have changed, none of them before the inodes. */
    ghost predicate Framed()
      reads this`blocks, this`logged, this`base
    {
      && |base| == |blocks| && (forall b :: b in logged ==> sb.inodestart <= b < |blocks|)
      && forall b: nat :: b < |blocks| && b !in logged ==> blocks[b] == base[b]
    }

    method BeginOp()
      modifies this`logged, this`base
      ensures logged == {} && base == blocks && Framed()
    {
      logged := {};
      base := blocks;
    }

    ghost method EndOp()
      modifies this`history
      ensures history == old(history) + [logged]
    {
      history := history + [logged];
    }

    /** A changed buffer goes to log_write. */
    method LogWrite(b: nat, data: Block)
      requires sb.inodestart <= b < |blocks|
      modifies this`blocks, this`logged
      ensures blocks == old(blocks)[b := data] && logged == old(logged) + {b}
      ensures old(Framed()) ==> Framed()
    {
      blocks := blocks[b := data];
      logged := logged + {b};
    }

    ghost predicate Full()
      reads this
    {
      OnDisk(sb, blocks) && forall b :: 0 <= b < sb.size ==> Used(sb, blocks, b)
    }

    /** The blocks that are neither metadata nor some file's. */
    ghost function Room(): int
      reads this`owner
    {
      sb.size - sb.nmeta - |owner|
    }

    /** They are the free ones. */
    lemma RoomIsFree(i: int)
      requires ValidBut(i)
      ensures Shape(Im()) && Room() == |FreeBlocks(Im())| && (Full() <==> Room() == 0)
      ensures 0 <= i < |m| ==> m[i] <= Stock(i)
    {
      BlocksAddUp(Im(), m, owner, i);
      if Room() == 0 {
        assert FreeBlocks(Im()) == {};
        forall b | 0 <= b < sb.size ensures Used(sb, blocks, b) {
          assert b !in FreeBlocks(Im());
        }
      }
    }

    /** What file i has and what is free. */
    ghost function Stock(i: nat): int
      reads this`m, this`owner
      requires i < |m|
    {
      Room() + m[i]
    }

    /** The first free block, marked and zeroed; a panic exactly when there is none. */
    method Balloc() returns (ok: bool, addr: nat)
      requires OnDisk(sb, blocks) && forall b :: 0 <= b < sb.nmeta ==> Used(sb, blocks, b)
      modifies this`blocks, this`logged
      ensures !ok <==> old(Full())
      ensures !ok ==> blocks == old(blocks) && logged == old(logged)
      ensures ok ==> sb.nmeta <= addr < sb.size && !Used(sb, old(blocks), addr)
                     && (forall b :: 0 <= b < addr ==> Used(sb, old(blocks), b))
                     && blocks == MarkUsed(sb, old(blocks), addr)[addr := Zero()]
                     && logged == old(logged) + {sb.BBlock(addr), addr}
      ensures ok ==> Granted(sb, old(blocks), blocks, addr)
      ensures old(Framed()) ==> Framed()
    {
      hide Framed, Used, MarkUsed, Granted;
      var b := 0;
      while b < sb.size
        invariant old(Framed()) ==> Framed()
        invariant b % BPB == 0 && blocks == old(blocks) && logged == old(logged)
        invariant forall c :: 0 <= c < b && c < sb.size ==> Used(sb, blocks, c)
      {
        var bi := Scan(b);
        if bi < BPB && b + bi < sb.size {
          MarkGrants(sb, blocks, b + bi);
          Take(b + bi);
          return true, b + bi;
        }
        b := b + BPB;
      }
      return false, 0;
    }

    lemma PlaceOf(b: nat, bi: nat)
      requires b % BPB == 0 && bi < BPB
      ensures (b + bi) / BPB == b / BPB && (b + bi) % BPB == bi && (b + bi) % 8 == bi % 8
    {}

    /** balloc's inner loop: the first clear bit of one bitmap block. */
    method Scan(b: nat) returns (bi: nat)
      requires OnDisk(sb, blocks) && b < sb.size && b % BPB == 0
      ensures bi <= BPB && forall c :: b <= c < b + bi && c < sb.size ==> Used(sb, blocks, c)
      ensures bi < BPB && b + bi < sb.size ==> !Used(sb, blocks, b + bi)
      ensures bi < BPB ==> b + bi <= sb.size
    {
      var bp := blocks[sb.BBlock(b)];
      bi := 0;
      while bi < BPB && b + bi < sb.size
        invariant 0 <= bi <= BPB && b + bi <= sb.size
        invariant forall c :: b <= c < b + bi ==> Used(sb, blocks, c)
      {
        PlaceOf(b, bi);
        if !Bit(bp[bi / 8], bi % 8) {
          return;
        }
        bi := bi + 1;
      }
    }

    /** The free bit that balloc's scan stops at: marked, logged, and the block zeroed. */
    method Take(b: nat)
      requires OnDisk(sb, blocks) && sb.nmeta <= b < sb.size && !Used(sb, blocks, b)
      modifies this`blocks, this`logged
      ensures blocks == MarkUsed(sb, old(blocks), b)[b := Zero()] && logged == old(logged) + {sb.BBlock(b), b}
      ensures old(Framed()) ==> Framed()
    {
      hide Framed, Bit, SetByte;
      var bp, bi := blocks[sb.BBlock(b)], b % BPB;
      assert bi % 8 == b % 8;
      LogWrite(sb.BBlock(b), bp[bi / 8 := SetByte(bp[bi / 8], bi % 8)]);
      Bzero(b);
    }

    method Bzero(b: nat)
      requires sb.inodestart <= b < |blocks|
      modifies this`blocks, this`logged
      ensures blocks == old(blocks)[b := Zero()] && logged == old(logged) + {b}
      ensures old(Framed()) ==> Framed()
    {
      hide Framed;
      LogWrite(b, Zero());
    }

    /** Clears a block's mark; a panic exactly when the block is already free. */
    method Bfree(b: nat) returns (ok: bool)
      requires OnDisk(sb, blocks) && b < sb.size
      modifies this`blocks, this`logged
      ensures ok <==> Used(sb, old(blocks), b)
      ensures blocks == if ok then MarkFree(sb, old(blocks), b) else old(blocks)
      ensures logged == if ok then old(logged) + {sb.BBlock(b)} else old(logged)
      ensures (ok <==> BitOn(sb, old(blocks), b)) && (ok ==> OneBit(sb, old(blocks), blocks, b, false))
      ensures old(Framed()) ==> Framed()
    {
      hide Framed, Used, MarkFree, BitOn, OneBit;
      UsedIsBit(sb, blocks, b);
      MarksOneBit(sb, blocks, b);
      ok := Unmark(b);
    }

    /** bfree's test and store. */
    method Unmark(b: nat) returns (ok: bool)
      requires OnDisk(sb, blocks) && b < sb.size
      modifies this`blocks, this`logged
      ensures ok <==> Used(sb, old(blocks), b)
      ensures blocks == if ok then MarkFree(sb, old(blocks), b) else old(blocks)
      ensures logged == if ok then old(logged) + {sb.BBlock(b)} else old(logged)
      ensures old(Framed()) ==> Framed()
    {
      hide Framed, Bit, ClearByte;
      var bp := blocks[sb.BBlock(b)];
      var bi := b % BPB;
      assert bi % 8 == b % 8;
      if !Bit(bp[bi / 8], bi % 8) {
        return false;
      }
      LogWrite(sb.BBlock(b), bp[bi / 8 := ClearByte(bp[bi / 8], bi % 8)]);
      return true;
    }

    /** bmap stores a block number in slot s of file i: in the inode, or in the indirect block. */
    method StoreSlot(i: nat, s: nat, addr: nat)
      requires Shape(Im()) && i < |inodes| && s < NSLOTS && addr < U32 && (s > NDIRECT ==> sb.inodestart <= inodes[i].addrs[NDIRECT])
      modifies this`blocks, this`inodes, this`logged
      ensures Im() == Placed(old(Im()), i, s, addr)
      ensures s > NDIRECT ==> inodes == old(inodes)
      ensures logged == old(logged) + (if s > NDIRECT then {inodes[i].addrs[NDIRECT]} else {})
      ensures old(Framed()) ==> Framed()
    {
      hide Framed;
      if s <= NDIRECT {
        inodes := inodes[i := inodes[i].(addrs := inodes[i].addrs[s := addr])];
      } else {
        var bp := inodes[i].addrs[NDIRECT];
        LogWrite(bp, PutWord(blocks[bp], s - NDIRECT - 1, addr));
      }
    }

    /** bmap's balloc and the store of its result in slot s, the next of file i. */
    method AllocSlot(i: nat, s: nat) returns (ok: bool, addr: nat)
      requires ValidBut(i) && i < |inodes| && s == m[i] < NSLOTS
      modifies this`blocks, this`inodes, this`logged, this`m, this`owner
      ensures ok <==> old(Room()) > 0
      ensures ok ==> i < |m| && Stock(i) == old(Stock(i))
      ensures ok ==> Grown(old(Im()), old(m), old(owner), Im(), m, owner, i)
      ensures ok ==> m[i] == s + 1 && At(Im(), i, s) == addr && (s > NDIRECT ==> inodes == old(inodes))
      ensures ok ==> logged == old(logged) + {sb.BBlock(addr), addr} + (if s > NDIRECT then {inodes[i].addrs[NDIRECT]} else {})
      ensures old(Framed()) ==> Framed()
    {
      hide GoodBut, Grown, Pending, Used, Framed, Placed, MarkUsed, At, Full;
      GoodFacts(Im(), m, owner, i);
      RoomIsFree(i);
      if s > NDIRECT {
        IndirectPlace(Im(), m, owner, i);
      }
      ghost var im := Im();
      ok, addr := Balloc();
      if ok {
        GrowOne(im, Im(), m, owner, i, addr);
        FillSlot(i, s, addr);
      }
    }

    /** A block fresh from balloc becomes slot s of file i. */
    method FillSlot(i: nat, s: nat, addr: nat)
      requires Pending(Im(), m, owner, i, addr) && i < |inodes| && i < |m| && s < NSLOTS && addr < U32
      requires |inodes[i].addrs| == NDIRECT + 1 && (s > NDIRECT ==> sb.inodestart <= inodes[i].addrs[NDIRECT])
      modifies this`blocks, this`inodes, this`logged, this`m, this`owner
      ensures Shape(old(Im())) && Im() == Placed(old(Im()), i, s, addr)
      ensures m == old(m)[i := s + 1] && owner == old(owner)[addr := (i, s)] && Room() + 1 == old(Room())
      ensures i < |inodes| && |inodes[i].addrs| == NDIRECT + 1 && (s > NDIRECT ==> inodes == old(inodes))
      ensures logged == old(logged) + (if s > NDIRECT then {inodes[i].addrs[NDIRECT]} else {})
      ensures old(Framed()) ==> Framed()
    {
      hide Framed, Used, Marked, Owned, PutWord;
      NewOwner(Im(), m, owner, i, s, addr);
      StoreSlot(i, s, addr);
      m, owner := m[i := s + 1], owner[addr := (i, s)];
    }

    /** bmap loads the indirect block, allocating it if necessary. */
    method LoadIndirect(i: nat) returns (ok: bool, addr: nat, ghost bm: set<nat>)
      requires ValidBut(i) && i < |inodes| && NDIRECT <= m[i]
      modifies this`blocks, this`inodes, this`logged, this`m, this`owner
      ensures ok <==> NDIRECT < old(m[i]) || old(Room()) > 0
      ensures ok ==> i < |m| && Stock(i) == old(Stock(i))
      ensures ok ==> Grown(old(Im()), old(m), old(owner), Im(), m, owner, i) && addr == inodes[i].addrs[NDIRECT] != 0
                     && m[i] == if old(m[i]) == NDIRECT then NDIRECT + 1 else old(m[i])
      ensures ok ==> logged <= old(logged) + bm + {addr} && old(m[i]) + |bm| <= m[i]
      ensures NDIRECT < old(m[i]) ==> ok && Im() == old(Im()) && logged == old(logged) && m == old(m) && owner == old(owner)
      ensures old(Framed()) ==> Framed()
    {
      hide Framed, GoodBut, Grown;
      GoodFacts(Im(), m, owner, i);
      SlotMapped(Im(), m, owner, i, NDIRECT);
      GrownSelf(Im(), m, owner, i);
      ok, addr, bm := true, inodes[i].addrs[NDIRECT], {};
      assert addr == At(Im(), i, NDIRECT);
      if addr == 0 {
        ok, addr := AllocSlot(i, NDIRECT);
        bm := {sb.BBlock(addr)};
        if ok {
          NewIndirect(old(Im()), old(m), old(owner), Im(), m, owner, i);
        }
      }
    }

    /** The block that holds file block bn, allocated if bn is the first block past those mapped. */
    method Bmap(i: nat, bn: nat) returns (ok: bool, addr: nat, ghost bm: set<nat>)
      requires ValidBut(i) && i < |inodes| && (bn < MAXFILE ==> DataSlot(bn) <= m[i] || (bn == NDIRECT == m[i]))
      modifies this`blocks, this`inodes, this`logged, this`m, this`owner
      ensures ok <==> bn < MAXFILE && (DataSlot(bn) < old(m[i]) || DataSlot(bn) < old(Stock(i)))
      ensures ok ==> i < |m| && Stock(i) == old(Stock(i))
      ensures ok ==> bn < MAXFILE && Grown(old(Im()), old(m), old(owner), Im(), m, owner, i)
                     && DataSlot(bn) < m[i] && addr == At(Im(), i, DataSlot(bn))
                     && m[i] == if DataSlot(bn) < old(m[i]) then old(m[i]) else DataSlot(bn) + 1
      ensures ok ==> logged <= old(logged) + {addr} + bm + (if m[i] > NDIRECT then {inodes[i].addrs[NDIRECT]} else {})
                     && old(m[i]) + |bm| <= m[i]
      ensures bn < MAXFILE && DataSlot(bn) < old(m[i]) ==> ok && Im() == old(Im()) && logged == old(logged) && m == old(m) && owner == old(owner)
      ensures old(Framed()) ==> Framed()
    {
      hide Framed, GoodBut, Grown;
      bm := {};
      GoodFacts(Im(), m, owner, i);
      GrownSelf(Im(), m, owner, i);
      if bn < NDIRECT {
        addr := inodes[i].addrs[bn];
        assert addr == At(Im(), i, bn);
        SlotMapped(Im(), m, owner, i, bn);
        if addr == 0 {
          ok, addr := AllocSlot(i, bn);
          return ok, addr, {sb.BBlock(addr)};
        }
        return true, addr, {};
      }
      if bn - NDIRECT < NINDIRECT {
        ok, addr, bm := BmapIndirect(i, bn);
        return;
      }
      return false, 0, {};
    }

    /** bmap's second half: the entry of the indirect block at ind, allocated if necessary. */
    method LoadEntry(i: nat, bn: nat, ind: nat, ghost im0: Image, ghost m0: seq<nat>, ghost owner0: Owner)
      returns (ok: bool, addr: nat, ghost bm: set<nat>)
      requires Grown(im0, m0, owner0, Im(), m, owner, i) && NDIRECT <= bn < MAXFILE && bn + 1 <= m[i]
      requires ind == inodes[i].addrs[NDIRECT] != 0
      modifies this`blocks, this`inodes, this`logged, this`m, this`owner
      ensures ok <==> bn + 1 < old(m[i]) || old(Room()) > 0
      ensures ok ==> i < |m| && Stock(i) == old(Stock(i))
      ensures ok ==> Grown(im0, m0, owner0, Im(), m, owner, i) && inodes == old(inodes)
      ensures ok ==> m[i] == (if bn + 1 < old(m[i]) then old(m[i]) else bn + 2) && addr == At(Im(), i, bn + 1)
      ensures ok ==> logged <= old(logged) + {addr, ind} + bm && old(m[i]) + |bm| <= m[i]
      ensures bn + 1 < old(m[i]) ==> ok && blocks == old(blocks) && logged == old(logged) && m == old(m) && owner == old(owner)
      ensures old(Framed()) ==> Framed()
    {
      hide Grown, GoodBut, Full, Extends, Framed;
      GrownFacts(im0, m0, owner0, Im(), m, owner, i);
      SlotMapped(Im(), m, owner, i, bn + 1);
      ok, addr, bm := true, GetWord(blocks[ind], bn - NDIRECT), {};
      assert addr == At(Im(), i, bn + 1);
      if addr == 0 {
        ghost var im1, m1, owner1 := Im(), m, owner;
        ok, addr := AllocSlot(i, bn + 1);
        if ok {
          GrownTrans(im0, m0, owner0, im1, m1, owner1, Im(), m, owner, i);
          bm := {sb.BBlock(addr)};
        }
      }
    }

    /** bmap past the direct blocks. */
    method BmapIndirect(i: nat, bn: nat) returns (ok: bool, addr: nat, ghost bm: set<nat>)
      requires ValidBut(i) && i < |inodes| && NDIRECT <= bn < MAXFILE && (DataSlot(bn) <= m[i] || (bn == NDIRECT == m[i]))
      modifies this`blocks, this`inodes, this`logged, this`m, this`owner
      ensures ok <==> DataSlot(bn) < old(m[i]) || DataSlot(bn) < old(Stock(i))
      ensures ok ==> i < |m| && Stock(i) == old(Stock(i))
      ensures ok ==> Grown(old(Im()), old(m), old(owner), Im(), m, owner, i)
                     && bn + 1 < m[i] && addr == At(Im(), i, bn + 1)
                     && m[i] == if bn + 1 < old(m[i]) then old(m[i]) else bn + 2
      ensures ok ==> logged <= old(logged) + {addr} + bm + {inodes[i].addrs[NDIRECT]} && old(m[i]) + |bm| <= m[i]
      ensures bn + 1 < old(m[i]) ==> ok && Im() == old(Im()) && logged == old(logged) && m == old(m) && owner == old(owner)
      ensures old(Framed()) ==> Framed()
    {
      hide Grown, GoodBut, Framed;
      ghost var more;
      ok, addr, bm := LoadIndirect(i);
      if ok {
        ok, addr, more := LoadEntry(i, bn, addr, old(Im()), old(m), old(owner));
        bm := bm + more;
      }
    }

    /** iupdate: the in-memory inode goes to its place in its inode block. */
    method Iupdate(i: nat)
      requires Shape(Im()) && i < |inodes|
      modifies this`blocks, this`logged
      ensures blocks == PutInode(sb, old(blocks), i, inodes[i]) && logged == old(logged) + {sb.IBlock(i)}
      ensures InodeStored(sb, old(blocks), blocks, i, inodes[i])
      ensures old(Framed()) ==> Framed()
    {
      hide Framed, InodeStored;
      PutInodeStores(sb, blocks, i, inodes[i]);
      var ip := inodes[i];
      var dip := PutWords(blocks[sb.IBlock(i)], i % IPB * 16, InodeWords(ip));
      LogWrite(sb.IBlock(i), dip);
    }

    /** Gives back the block at addr, if there is one; itrunc never meets a block already free. */
    method FreeSlot(i: nat, addr: nat, ghost im0: Image, ghost m0: seq<nat>, ghost owner0: Owner, ghost done: set<nat>, ghost s: nat)
      returns (ok: bool)
      requires Truncating(im0, m0, owner0, Im(), i, done) && s < NSLOTS && s !in done && addr == At(im0, i, s)
      modifies this`blocks, this`logged
      ensures ok && Truncating(im0, m0, owner0, Im(), i, done + {s})
      ensures forall b :: b in logged ==> b in old(logged) || sb.bmapstart <= b < sb.nmeta
      ensures old(Framed()) ==> Framed()
    {
      hide Truncating, Used, MarkFree, Framed;
      ok := true;
      ghost var im := Im();
      TruncFacts(im0, m0, owner0, im, i, done);
      if addr != 0 {
        TruncMarked(im0, m0, owner0, im, i, done, s);
        ok := Bfree(addr);
      }
      TruncSlot(im0, m0, owner0, im, Im(), i, done, s);
    }

    /** itrunc: file i becomes empty and its blocks, and no others, become free. */
    method Itrunc(i: nat) returns (ok: bool)
      requires Valid() && i < |inodes|
      modifies this`blocks, this`inodes, this`logged, this`m, this`owner
      ensures ok && Valid() && Truncated(old(Im()), old(owner), Im(), i)
      ensures m == old(m)[i := 0] && owner == Without(old(owner), i) && Stock(i) == old(Stock(i))
      ensures forall b :: b in logged ==> b in old(logged) || sb.bmapstart <= b < sb.nmeta || b == sb.IBlock(i)
      ensures old(Framed()) ==> Framed()
    {
      hide Truncating, Good, GoodBut, Truncated, Framed, PutInode, At, Without, Used;
      ghost var im0, done := Im(), {};
      WithoutCount(im0, m, owner, i);
      TruncStart(im0, m, owner, i);
      ok, done := FreeDirect(i, im0);
      ok, done := FreeIndirect(i, im0, done);
      ClearSize(i, im0, done);
    }

    /** itrunc's last statements: the size, and the inode to the disk. */
    method ClearSize(i: nat, ghost im0: Image, ghost done: set<nat>)
      requires Truncating(im0, m, owner, Im(), i, done) && AllSlots(done) && i < |inodes| && Shape(Im()) && i < |im0.inodes|
      requires inodes[i].addrs == Emptied(inodes[i]).addrs
      modifies this`blocks, this`inodes, this`logged, this`m, this`owner
      ensures Valid() && Truncated(im0, old(owner), Im(), i) && i < |old(m)|
      ensures m == old(m)[i := 0] && owner == Without(old(owner), i) && logged == old(logged) + {sb.IBlock(i)}
      ensures old(Framed()) ==> Framed()
    {
      hide Truncating, Good, GoodBut, Truncated, Framed, PutInode, At, Without, Used;
      TruncFacts(im0, m, owner, Im(), i, done);
      ghost var im := Im();
      inodes := inodes[i := inodes[i].(size := 0)];
      Iupdate(i);
      TruncEnd(im0, m, owner, im, im.(inodes := inodes), Im(), i, done);
      m, owner := m[i := 0], Without(owner, i);
    }

    /** itrunc's first loop. */
    method FreeDirect(i: nat, ghost im0: Image) returns (ok: bool, ghost done: set<nat>)
      requires Truncating(im0, m, owner, Im(), i, {}) && Im() == im0
      modifies this`blocks, this`inodes, this`logged
      ensures ok && Truncating(im0, m, owner, Im(), i, done) && forall s :: s in done <==> 0 <= s < NDIRECT
      ensures i < |inodes| && i < |im0.inodes| && Shape(im0) && Shape(Im())
      ensures forall k :: 0 <= k <= NDIRECT ==> inodes[i].addrs[k] == if k < NDIRECT then 0 else im0.inodes[i].addrs[k]
      ensures forall b :: b in logged ==> b in old(logged) || sb.bmapstart <= b < sb.nmeta
      ensures old(Framed()) ==> Framed()
    {
      hide Truncating, Framed;
      TruncFacts(im0, m, owner, Im(), i, {});
      ok, done := true, {};
      var k := 0;
      while k < NDIRECT
        invariant old(Framed()) ==> Framed()
        invariant 0 <= k <= NDIRECT && ok && Truncating(im0, m, owner, Im(), i, done)
        invariant forall s :: s in done <==> 0 <= s < k
        invariant i < |inodes| == |im0.inodes| && Shape(im0) && Shape(Im())
        invariant forall j :: 0 <= j <= NDIRECT ==> inodes[i].addrs[j] == if j < k then 0 else im0.inodes[i].addrs[j]
        invariant forall b :: b in logged ==> b in old(logged) || sb.bmapstart <= b < sb.nmeta
      {
        if inodes[i].addrs[k] != 0 {
          assert inodes[i].addrs[k] == At(im0, i, k);
        }
        ok := FreeSlot(i, inodes[i].addrs[k], im0, m, owner, done, k);
        done := done + {k};
        TruncClear(im0, m, owner, Im(), Im().(inodes := inodes[i := inodes[i].(addrs := inodes[i].addrs[k := 0])]), i, done, k);
        inodes := inodes[i := inodes[i].(addrs := inodes[i].addrs[k := 0])];
        TruncFacts(im0, m, owner, Im(), i, done);
        k := k + 1;
      }
    }

    /** itrunc's second half: the entries of the indirect block, and then the block itself. */
    method FreeIndirect(i: nat, ghost im0: Image, ghost direct: set<nat>) returns (ok: bool, ghost done: set<nat>)
      requires Truncating(im0, m, owner, Im(), i, direct) && forall s :: s in direct <==> 0 <= s < NDIRECT
      requires i < |inodes| && i < |im0.inodes| && Shape(im0) && Shape(Im())
      requires inodes[i].addrs[NDIRECT] == im0.inodes[i].addrs[NDIRECT]
      modifies this`blocks, this`inodes, this`logged
      ensures ok && Truncating(im0, m, owner, Im(), i, done) && AllSlots(done)
      ensures i < |inodes| && Shape(Im()) && inodes[i].addrs == old(inodes[i].addrs)[NDIRECT := 0]
      ensures forall b :: b in logged ==> b in old(logged) || sb.bmapstart <= b < sb.nmeta
      ensures old(Framed()) ==> Framed()
    {
      hide Truncating, Framed;
      ok, done := true, direct;
      if inodes[i].addrs[NDIRECT] != 0 {
        var j := 0;
        while j < NINDIRECT
          invariant old(Framed()) ==> Framed()
          invariant 0 <= j <= NINDIRECT && ok && Truncating(im0, m, owner, Im(), i, done) && inodes == old(inodes) && Shape(Im())
          invariant forall s :: s in done <==> 0 <= s < NDIRECT || NDIRECT < s < NDIRECT + 1 + j
          invariant forall b :: b in logged ==> b in old(logged) || sb.bmapstart <= b < sb.nmeta
        {
          TruncEntry(im0, m, owner, Im(), i, done, j);
          ok := FreeSlot(i, GetWord(blocks[inodes[i].addrs[NDIRECT]], j), im0, m, owner, done, NDIRECT + 1 + j);
          done := done + {NDIRECT + 1 + j};
          TruncFacts(im0, m, owner, Im(), i, done);
          j := j + 1;
        }
        ok := FreeSlot(i, inodes[i].addrs[NDIRECT], im0, m, owner, done, NDIRECT);
        done := done + {NDIRECT};
        TruncClear(im0, m, owner, Im(), Im().(inodes := inodes[i := inodes[i].(addrs := inodes[i].addrs[NDIRECT := 0])]), i, done, NDIRECT);
        inodes := inodes[i := inodes[i].(addrs := inodes[i].addrs[NDIRECT := 0])];
        TruncFacts(im0, m, owner, Im(), i, done);
      } else {
        done := NothingIndirect(im0, m, owner, Im(), i, direct);
      }
    }

    /** Reads n bytes of file i at off; -1 when the range does not start in the file or wraps around.
        A device inode gives what its device answers. */
    method Readi(i: nat, off: nat, n: nat, dev: Device) returns (ok: bool, r: int, dst: seq<Byte>)
      requires Valid() && i < |inodes| && off < U32 && n < U32
      modifies this`blocks, this`inodes, this`logged, this`m, this`owner
      ensures ok && Im() == old(Im()) && logged == old(logged) && Valid()
      ensures inodes[i].kind == T_DEV ==> if dev == NoDevice then r == -1 else r == dev.r && dst == dev.data
      ensures inodes[i].kind != T_DEV ==> (r == -1 <==> off > inodes[i].size || off + n >= U32)
      ensures inodes[i].kind != T_DEV && r != -1 ==>
                r == (if off + n > inodes[i].size then inodes[i].size - off else n) && dst == Content(Im(), i)[off..off + r]
      ensures old(Framed()) ==> Framed()
    {
      hide Framed;
      if inodes[i].kind == T_DEV {
        match dev {
          case NoDevice => return true, -1, [];
          case Answers(k, data) => return true, k, data;
        }
      }
      if off > inodes[i].size || (off + n) % U32 < off {
        return true, -1, [];
      }
      r := if off + n > inodes[i].size then inodes[i].size - off else n;
      ok, dst := ReadLoop(i, off, r);
    }

    method ReadLoop(i: nat, off0: nat, n: nat) returns (ok: bool, dst: seq<Byte>)
      requires Valid() && i < |inodes| && off0 + n <= inodes[i].size
      modifies this`blocks, this`inodes, this`logged, this`m, this`owner
      ensures ok && Im() == old(Im()) && logged == old(logged) && m == old(m) && owner == old(owner)
      ensures dst == old(Content(Im(), i))[off0..off0 + n]
      ensures old(Framed()) ==> Framed()
    {
      hide Framed, GoodBut, Content;
      GoodFacts(Im(), m, owner, -1);
      var tot, off := 0, off0;
      ok, dst := true, [];
      ghost var c := Content(Im(), i);
      while tot < n
        invariant old(Framed()) ==> Framed()
        invariant ok && Im() == old(Im()) && logged == old(logged) && m == old(m) && owner == old(owner)
        invariant tot <= n && off == off0 + tot && dst == c[off0..off]
      {
        var k := Portion(off, n - tot);
        var more;
        ok, more := ReadBlock(i, off, k);
        SliceJoin(c, off0, off, off + k);
        dst := dst + more;
        tot, off := tot + k, off + k;
      }
    }

    /** The body of readi's loop: k bytes inside one block. */
    method ReadBlock(i: nat, off: nat, k: nat) returns (ok: bool, more: seq<Byte>)
      requires Valid() && i < |inodes| && off + k <= inodes[i].size && off % BSIZE + k <= BSIZE && 0 < k
      modifies this`blocks, this`inodes, this`logged, this`m, this`owner
      ensures ok && Im() == old(Im()) && logged == old(logged) && m == old(m) && owner == old(owner)
      ensures more == old(Content(Im(), i))[off..off + k]
      ensures old(Framed()) ==> Framed()
    {
      hide Framed;
      ContentRun(Im(), m, owner, i, off, k);
      ghost var bm;
      var addr;
      ok, addr, bm := Bmap(i, off / BSIZE);
      more := blocks[addr][off % BSIZE..off % BSIZE + k];
    }

    ghost predicate Has(i: nat)
      reads this
    {
      i < |inodes| && i < |m| && inodes[i].Valid()
    }

    /** The indirect block of file i, once it has one. */
    ghost function Ind(i: nat): set<nat>
      reads this
      requires Has(i)
    {
      if m[i] > NDIRECT then {inodes[i].addrs[NDIRECT]} else {}
    }

    /** bmap as writei calls it, with the file mapped as far as it goes. */
    method MapFor(i: nat, off: nat, ghost size: nat) returns (ok: bool, addr: nat, ghost bm: set<nat>)
      requires ValidBut(i) && i < |inodes| && m[i] == SlotsFor(BlocksFor(Max(size, off))) && off < MAXFILE * BSIZE
      modifies this`blocks, this`inodes, this`logged, this`m, this`owner
      ensures ok <==> DataSlot(off / BSIZE) < old(m[i]) || DataSlot(off / BSIZE) < old(Stock(i))
      ensures ok ==> i < |m| && Stock(i) == old(Stock(i))
      ensures ok ==> Grown(old(Im()), old(m), old(owner), Im(), m, owner, i)
      ensures ok ==> sb.inodestart <= addr < |blocks| && Has(i) && inodes[i].addrs[NDIRECT] < |blocks|
      ensures ok ==> m[i] == (if DataSlot(off / BSIZE) < old(m[i]) then old(m[i]) else DataSlot(off / BSIZE) + 1)
                     && DataSlot(off / BSIZE) < m[i] && addr == At(Im(), i, DataSlot(off / BSIZE))
      ensures ok ==> logged <= old(logged) + {addr} + bm + Ind(i) && old(m[i]) + |bm| <= m[i]
      ensures ok ==> old(Ind(i)) <= Ind(i)
      ensures old(Framed()) ==> Framed()
    {
      hide Stock, Room, SlotsFor, BlocksFor, Framed, Used, Slot;
      ghost var im, m_, owner_ := Im(), m, owner;
      BmapReady(size, off);
      ok, addr, bm := Bmap(i, off / BSIZE);
      if ok {
        IndKept(im, m_, owner_, Im(), m, owner, i);
        AtOwned(Im(), m, owner, i, DataSlot(off / BSIZE));
      }
    }

    /** The body of writei's loop: k bytes inside one block. */
    method WriteBlock(i: nat, off: nat, part: seq<Byte>, ghost im0: Image, ghost m0: seq<nat>, ghost off0: nat, ghost src: seq<Byte>)
      returns (ok: bool, addr: nat, ghost bm: set<nat>)
      requires Writing(im0, m0, Im(), m, owner, i, off0, off, src)
      requires 0 < |part| && off % BSIZE + |part| <= BSIZE && off + |part| <= off0 + |src|
      requires part == src[off - off0..off - off0 + |part|]
      modifies this`blocks, this`inodes, this`logged, this`m, this`owner
      ensures i < |old(m)| && (ok <==> SlotsTo(im0, i, off + |part|) <= old(Stock(i)))
      ensures ok ==> i < |m| && Stock(i) == old(Stock(i))
      ensures ok ==> Writing(im0, m0, Im(), m, owner, i, off0, off + |part|, src)
      ensures ok ==> Extends(old(owner), owner) && Has(i)
      ensures ok ==> logged <= old(logged) + {addr} + bm + Ind(i) && old(m[i]) + |bm| <= m[i]
      ensures ok ==> old(Ind(i)) <= Ind(i)
      ensures old(Framed()) ==> Framed()
    {
      hide Writing, GoodBut, Grown, Extends, Patched, BlocksFor, SlotsFor, DataSlot, Full, SlotsTo, Shape, At, Max, Stock, Room, Framed;
      ghost var im, m_, owner_ := Im(), m, owner;
      WritingFacts(im0, m0, im, m, owner, i, off0, off, src);
      RoomIsFree(i);
      SlotsAfter(im0, i, off, |part|, m[i]);
      ok, addr, bm := MapFor(i, off, im0.inodes[i].size);
      if ok {
        ghost var im1 := Im();
        GrownFacts(im, m_, owner_, im1, m, owner, i);
        LogWrite(addr, Patch(blocks[addr], off, part));
        assert Patched(im1, Im(), i, off0, off, |part|, src) by {
          PatchedIs(im1, Im(), i, off0, off, |part|, src);
        }
        WritingStep(im0, m0, im, m_, owner_, im1, m, owner, Im(), i, off0, off, |part|, src);
      }
    }

    /** Writes src into file i at off. Only the blocks in more are logged, and when src is no longer
        than three blocks there are at most MAXOPBLOCKS of them, wherever it starts. */
    method Writei(i: nat, src: seq<Byte>, off: nat, dev: Device) returns (ok: bool, r: int, ghost more: set<nat>)
      requires Valid() && i < |inodes| && off < U32 && |src| < U32
      modifies this`blocks, this`inodes, this`logged, this`m, this`owner
      ensures ok <==> r == -1 || old(inodes[i].kind) == T_DEV || SlotsTo(old(Im()), i, off + |src|) <= old(Stock(i))
      ensures ok ==> i < |m| && Stock(i) == old(Stock(i))
      ensures ok ==> Valid()
      ensures old(inodes[i].kind) == T_DEV ==> ok && r == (if dev == NoDevice then -1 else dev.r) && Im() == old(Im()) && logged == old(logged)
      ensures old(inodes[i].kind) != T_DEV ==> (r == -1 <==> off > old(inodes[i].size) || off + |src| > MAXFILE * BSIZE)
      ensures ok && old(inodes[i].kind) != T_DEV && r == -1 ==> Im() == old(Im()) && logged == old(logged)
      ensures ok && old(inodes[i].kind) != T_DEV && r != -1 ==> r == |src| && Wrote(old(Im()), Im(), i, off, src)
      ensures ok ==> logged <= old(logged) + more && (|src| <= 3 * BSIZE ==> |more| <= MAXOPBLOCKS)
      ensures old(Framed()) ==> Framed()
    {
      hide Framed;
      more := {};
      if inodes[i].kind == T_DEV {
        return true, if dev == NoDevice then -1 else dev.r, more;
      }
      if off > inodes[i].size || (off + |src|) % U32 < off {
        return true, -1, more;
      }
      if (off + |src|) % U32 > MAXFILE * BSIZE {
        return true, -1, more;
      }
      r := |src|;
      ok, more := WriteRange(i, src, off);
    }

    /** writei once its checks have passed. */
    method WriteRange(i: nat, src: seq<Byte>, off: nat) returns (ok: bool, ghost more: set<nat>)
      requires Valid() && i < |inodes| && off <= inodes[i].size && off + |src| <= MAXFILE * BSIZE
      modifies this`blocks, this`inodes, this`logged, this`m, this`owner
      ensures ok <==> SlotsTo(old(Im()), i, off + |src|) <= old(Stock(i))
      ensures ok ==> i < |m| && Stock(i) == old(Stock(i))
      ensures ok ==> Valid() && Wrote(old(Im()), Im(), i, off, src)
      ensures ok ==> logged <= old(logged) + more && (|src| <= 3 * BSIZE ==> |more| <= MAXOPBLOCKS)
      ensures old(Framed()) ==> Framed()
    {
      hide Writing, Good, GoodBut, Wrote, Full, BlocksFor, SlotsTo, Stock, Room, Framed;
      ghost var D, B;
      WritingStart(Im(), m, owner, i, off, src);
      ok, D, B := WriteLoop(i, src, off, Im(), m);
      more := {};
      if ok {
        WritingFacts(old(Im()), old(m), Im(), m, owner, i, off, off + |src|, src);
        more := D + B + Ind(i) + {sb.IBlock(i)};
        if |src| <= 3 * BSIZE {
          MoreFits(old(Im()), old(m), old(owner), Im(), m, owner, i, off, src, D, B, Ind(i), sb.IBlock(i));
        }
        if |src| > 0 && off + |src| > inodes[i].size {
          GrowFile(i, off + |src|, old(Im()), old(m), old(owner), off, src);
        } else {
          WriteInside(old(Im()), old(m), old(owner), Im(), m, owner, i, off, src);
        }
      }
    }

    /** writei's last statement: the new size, in memory and on the disk. */
    method GrowFile(i: nat, size: nat, ghost im0: Image, ghost m0: seq<nat>, ghost owner0: Owner, ghost off: nat, ghost src: seq<Byte>)
      requires Good(im0, m0, owner0) && src != [] && size == off + |src| && i < |im0.inodes| && size > im0.inodes[i].size
      requires Writing(im0, m0, Im(), m, owner, i, off, size, src)
      modifies this`blocks, this`inodes, this`logged
      ensures Valid() && Wrote(im0, Im(), i, off, src) && logged == old(logged) + {sb.IBlock(i)}
      ensures old(Framed()) ==> Framed()
    {
      hide Writing, Good, GoodBut, Wrote, Framed;
      ghost var im := Im();
      WritingFacts(im0, m0, im, m, owner, i, off, size, src);
      inodes := inodes[i := inodes[i].(size := size)];
      ghost var im1 := Im();
      SizeKeeps(im, im1, m, owner, i, size);
      GoodFacts(im1, m, owner, i);
      Iupdate(i);
      WritePast(im0, m0, owner0, im, m, owner, im1, Im(), i, off, src);
    }

    method WriteLoop(i: nat, src: seq<Byte>, off0: nat, ghost im0: Image, ghost m0: seq<nat>)
      returns (ok: bool, ghost D: set<nat>, ghost B: set<nat>)
      requires Writing(im0, m0, Im(), m, owner, i, off0, off0, src) && Has(i) && i < |m0| && m0[i] == m[i]
      modifies this`blocks, this`inodes, this`logged, this`m, this`owner
      ensures i < |im0.inodes| && i < |old(m)| && (ok <==> SlotsTo(im0, i, off0 + |src|) <= old(Stock(i)))
      ensures ok ==> i < |m| && Stock(i) == old(Stock(i))
      ensures ok ==> Writing(im0, m0, Im(), m, owner, i, off0, off0 + |src|, src) && Extends(old(owner), owner) && Has(i)
      ensures ok ==> logged <= old(logged) + D + B + Ind(i)
                     && |D| <= BlocksDone(off0, |src|) && old(m[i]) + |B| <= m[i]
      ensures old(Framed()) ==> Framed()
    {
      hide Writing, BlocksFor, Full, BlockEnd, SlotsTo, GoodBut, BlocksDone, SlotsFor, Extends, Shape, Portion, Max, At, Stock, Room, Framed;
      NoneDone(off0);
      ExtendsSelf(owner);
      WritingFacts(im0, m0, Im(), m, owner, i, off0, off0, src);
      RoomIsFree(i);
      ghost var stock := Stock(i);
      var tot, off, n := 0, off0, |src|;
      ok, D, B := true, {}, {};
      while ok && tot < n
        invariant old(Framed()) ==> Framed()
        invariant 0 <= tot <= n == |src| && off == off0 + tot
        invariant if ok then i < |m| && Stock(i) == stock && SlotsTo(im0, i, off) <= stock else SlotsTo(im0, i, off0 + n) > stock
        invariant ok ==> Writing(im0, m0, Im(), m, owner, i, off0, off, src) && Extends(old(owner), owner) && Has(i)
        invariant ok ==> logged <= old(logged) + D + B + Ind(i) && m0[i] + |B| <= m[i]
        invariant |D| <= BlocksDone(off0, tot)
        invariant tot == 0 || tot == n || BlockEnd(off)
        decreases n - tot
      {
        NextPortion(off0, off, tot, n);
        var k := Portion(off, n - tot);
        var addr;
        ghost var bm;
        SlotsGrow(im0, i, off + k, off0 + |src|);
        ghost var owner1 := owner;
        ok, addr, bm := WriteBlock(i, off, src[tot..tot + k], im0, m0, off0, src);
        if ok {
          ExtendsTwice(old(owner), owner1, owner);
        }
        CardTwo(D, {addr});
        CardTwo(B, bm);
        D, B := D + {addr}, B + bm;
        tot, off := tot + k, off + k;
      }
    }
  }

  /** The inodes of a healthy disk are what its bytes say. */
  lemma MountedBytes(sb: Super, disk: Disk)
    requires HealthyDisk(sb, disk)
    ensures InodesFrom(sb, disk, OnDiskImage(sb, disk).inodes)
  {
    hide InodesFrom;
    forall i: nat | i < sb.ninodes ensures ReadInode(sb, disk, i).Valid() {
      assert OnDiskImage(sb, disk).inodes[i] == ReadInode(sb, disk, i);
    }
    ReadsInodes(sb, disk);
  }

  /** How many blocks the first tot bytes from off0 touch. */
  function BlocksDone(off0: nat, tot: nat): int {
    if tot == 0 then 0 else BlocksFor(off0 + tot) - off0 / BSIZE
  }

  /** As much of a transfer as the block that holds off can take. */
  function Portion(off: nat, left: nat): nat {
    if left < BSIZE - off % BSIZE then left else BSIZE - off % BSIZE
  }

  lemma NextPortion(off0: nat, off: nat, tot: nat, n: nat)
    requires off == off0 + tot && tot < n && (tot == 0 || BlockEnd(off))
    ensures var k := Portion(off, n - tot);
            && 0 < k && tot + k <= n && off % BSIZE + k <= BSIZE && BlocksDone(off0, tot + k) == BlocksDone(off0, tot) + 1
            && (tot + k == n || BlockEnd(off + k))
  {
    OneMoreBlock(off0, off, Portion(off, n - tot), tot);
  }

  lemma NoneDone(off0: nat)
    ensures BlocksDone(off0, 0) == 0
  {}

  lemma OneMoreBlock(off0: nat, off: nat, k: nat, tot: nat)
    requires off == off0 + tot && (tot == 0 || BlockEnd(off)) && 0 < k && off % BSIZE + k <= BSIZE
    ensures BlocksDone(off0, tot + k) == BlocksDone(off0, tot) + 1
    ensures off % BSIZE + k == BSIZE ==> BlockEnd(off + k)
  {}

  predicate BlockEnd(off: nat) {
    off % BSIZE == 0
  }

  /** Where a write has got to, bmap can always map the next block. */
  lemma BmapReady(size: nat, off: nat)
    ensures var mi := SlotsFor(BlocksFor(Max(size, off)));
            DataSlot(off / BSIZE) <= mi || (off / BSIZE == NDIRECT == mi)
  {}

  lemma IndKept(im: Image, m: seq<nat>, owner: Owner, im': Image, m': seq<nat>, owner': Owner, i: nat)
    requires Shape(im) && Owned(im, m, owner) && Grown(im, m, owner, im', m', owner', i)
    ensures m[i] > NDIRECT ==> im'.inodes[i].addrs[NDIRECT] == im.inodes[i].addrs[NDIRECT]
  {
    if m[i] > NDIRECT {
      assert At(im, i, NDIRECT) == im.inodes[i].addrs[NDIRECT];
      assert owner'[At(im, i, NDIRECT)] == (i, NDIRECT);
      assert At(im', i, NDIRECT) == im'.inodes[i].addrs[NDIRECT];
    }
  }

  /** The blocks a write of at most three blocks' worth of bytes logs: the data blocks it touches, a
      bitmap block for each block it allocates, an indirect block and an inode block. */
  lemma Budget(size: nat, off: nat, n: nat)
    requires off <= size && n <= 3 * BSIZE
    ensures BlocksDone(off, n) + (SlotsFor(BlocksFor(Max(size, off + n))) - SlotsFor(BlocksFor(size))) + 2 <= MAXOPBLOCKS
  {}

  lemma MoreFits(im0: Image, m0: seq<nat>, owner0: Owner, im: Image, m: seq<nat>, owner: Owner, i: nat, off: nat, src: seq<Byte>,
                 D: set<nat>, B: set<nat>, ind: set<nat>, iblock: nat)
    requires Good(im0, m0, owner0) && Writing(im0, m0, im, m, owner, i, off, off + |src|, src) && |src| <= 3 * BSIZE
    requires |D| <= BlocksDone(off, |src|) && m0[i] + |B| <= m[i] && |ind| <= 1
    ensures |D + B + ind + {iblock}| <= MAXOPBLOCKS
  {
    Budget(im0.inodes[i].size, off, |src|);
    CardFour(D, B, ind, {iblock});
  }

  lemma SliceJoin<T>(s: seq<T>, a: nat, b: nat, c: nat)
    requires a <= b <= c <= |s|
    ensures s[a..c] == s[a..b] + s[b..c]
  {}
}
