/** fs.c over log.c: an operation of the file system between begin_op and end_op, what a crash at any
    instant of it leaves, and the reboot after that. One process runs at a time. */
module Transaction {
  import opened Collections
  import opened Param
  import opened Blocks
  import opened LogFormat
  import opened LogCore
  import opened LogCode
  import opened FsLayout
  import opened FsImage
  import opened FsWrite
  import opened FsTrunc
  import opened FsHealth
  import opened FileSystem
  import Crash = CrashConsistency

  /** Between operations: the log is empty, and the disk has what the file system shows. */
  ghost predicate Mounted(log: LogSystem, fs: FileSystem)
    reads log, log.block, fs
  {
    && log.Valid() && fs.Valid() && Crash.Placed(log.l, fs.sb) && MAXOPBLOCKS < log.l.size
    && log.phase == Idle && log.outstanding == 0 && log.n == 0 && CoreInv(log.l, log.Here(), fs.blocks, fs.blocks)
  }

  /** Disk d, mounted, has the files of im. */
  ghost predicate HasFiles(sb: Super, d: Disk, im: Image) {
    && HealthyDisk(sb, d) && FsImage.Shape(im) && OnDiskImage(sb, d).inodes == im.inodes
    && forall j :: 0 <= j < |im.inodes| ==> Content(OnDiskImage(sb, d), j) == Content(im, j)
  }

  /** Whichever write to the disk is the last before a crash, recovery finds the files of im0 if the
      log's header was not yet written, and those of im1 if it was. */
  ghost predicate Survives(l: Layout, sb: Super, path: seq<Core>, im0: Image, im1: Image) {
    forall k :: 0 <= k < |path| ==>
      GoodDisk(l, path[k].disk) && HasFiles(sb, Recovered(l, path[k].disk), if BeforeHead(path[k].phase) then im0 else im1)
  }

  lemma SameByte(l: Layout, sb: Super, d: Disk, e: Disk, j: nat, o: nat)
    requires Crash.Placed(l, sb) && SameHome(l, d, e) && HealthyDisk(sb, d) && HealthyDisk(sb, e)
    requires j < sb.ninodes && o < OnDiskImage(sb, d).inodes[j].size
    ensures OnDiskImage(sb, e).inodes[j] == OnDiskImage(sb, d).inodes[j]
    ensures FileByte(OnDiskImage(sb, e), j, o) == FileByte(OnDiskImage(sb, d), j, o)
  {
    Crash.SameInodes(l, sb, d, e);
    var im := OnDiskImage(sb, d);
    var s := DataSlot(o / BSIZE);
    Crash.SamePointers(l, sb, d, e, j, s);
    assert s < SlotsFor(BlocksFor(im.inodes[j].size));
    assert l.Home(At(im, j, s));
  }

  lemma SameFiles(l: Layout, sb: Super, d: Disk, e: Disk)
    requires Crash.Placed(l, sb) && SameHome(l, d, e) && HealthyDisk(sb, d)
    ensures HasFiles(sb, e, OnDiskImage(sb, d))
  {
    hide HealthyDisk, FileByte;
    Crash.SameHealth(l, sb, d, e);
    Crash.SameInodes(l, sb, d, e);
    HealthyShape(sb, d);
    HealthyShape(sb, e);
    var im, im' := OnDiskImage(sb, d), OnDiskImage(sb, e);
    forall j | 0 <= j < |im.inodes| ensures Content(im', j) == Content(im, j) {
      forall o | 0 <= o < im.inodes[j].size ensures FileByte(im', j, o) == FileByte(im, j, o) {
        SameByte(l, sb, d, e, j, o);
      }
    }
  }

  lemma HealthyShape(sb: Super, d: Disk)
    requires HealthyDisk(sb, d)
    ensures OnDisk(sb, d) && FsImage.Shape(OnDiskImage(sb, d))
  {}

  /** A crash now leaves the files that dur has. */
  lemma CrashNow(l: Layout, sb: Super, c: Core, dur: Image, cur: Disk, m: seq<nat>, owner: Owner)
    requires Crash.Placed(l, sb) && CoreInv(l, c, dur.blocks, cur) && Good(dur, m, owner) && dur.sb == sb
    ensures GoodDisk(l, c.disk) && HasFiles(sb, Recovered(l, c.disk), dur)
  {
    hide Good, HealthyDisk, Recovered, PhaseInv;
    GoodOnDisk(dur, m, owner);
    SameFiles(l, sb, dur.blocks, Recovered(l, c.disk));
  }

  lemma PathSurvives(l: Layout, sb: Super, path: seq<Core>, im0: Image, m0: seq<nat>, owner0: Owner, im1: Image, m1: seq<nat>, owner1: Owner)
    requires Crash.Placed(l, sb) && CrashSafe(l, path, im0.blocks, im1.blocks)
    requires Good(im0, m0, owner0) && Good(im1, m1, owner1) && im0.sb == im1.sb == sb
    ensures Survives(l, sb, path, im0, im1)
  {
    hide Good, CoreInv, HasFiles, Recovered;
    forall k | 0 <= k < |path|
      ensures GoodDisk(l, path[k].disk) && HasFiles(sb, Recovered(l, path[k].disk), if BeforeHead(path[k].phase) then im0 else im1)
    {
      assert CommitInv(l, path[k], im0.blocks, im1.blocks);
      if BeforeHead(path[k].phase) {
        CrashNow(l, sb, path[k], im0, im1.blocks, m0, owner0);
      } else {
        CrashNow(l, sb, path[k], im1, im1.blocks, m1, owner1);
      }
    }
  }

  /** The blocks with those in rest as they were. */
  ghost function Mixed(base: Disk, blocks: Disk, rest: set<nat>): Disk
    requires |base| == |blocks|
  {
    seq(|blocks|, b requires 0 <= b < |blocks| => if b in rest then base[b] else blocks[b])
  }

  lemma MixedOne(base: Disk, blocks: Disk, rest: set<nat>, b: nat)
    requires |base| == |blocks| && b < |blocks|
    ensures Mixed(base, blocks, rest - {b}) == Mixed(base, blocks, rest)[b := blocks[b]]
  {}

  lemma MixedEnds(fs: FileSystem)
    requires fs.Framed()
    ensures |fs.base| == |fs.blocks| && Mixed(fs.base, fs.blocks, fs.logged) == fs.base && Mixed(fs.base, fs.blocks, {}) == fs.blocks
  {}

  lemma Logged(fs: FileSystem, l: Layout, b: nat)
    requires fs.Framed() && b in fs.logged && Crash.Placed(l, fs.sb) && |fs.blocks| == l.disksize
    ensures b < |fs.blocks| && l.Home(b)
  {}

  lemma CheckPasses(l: Layout, c: Core)
    requires |c.lh| < LOGSIZE && |c.lh| + 1 < l.size && c.outstanding == 1
    ensures CheckCore(l, c).Next?
  {}

  lemma AppendLonger(c: Core, b: nat, data: Block)
    ensures |AppendCore(c, b, data).lh| <= |c.lh| + 1
  {}

  /** These blocks together fit into the log. */
  ghost predicate InLog(l: Layout, logged: set<nat>) {
    |logged| <= LOGSIZE && |logged| < l.size
  }

  /** The operation's log_write calls, each block as it is in the end. */
  method LogAll(log: LogSystem, fs: FileSystem)
    requires log.Valid() && log.phase == Idle && log.outstanding == 1 && log.n == 0
    requires fs.Framed() && Crash.Placed(log.l, fs.sb) && |fs.blocks| == log.l.disksize && InLog(log.l, fs.logged)
    requires CoreInv(log.l, log.Here(), fs.base, fs.base)
    modifies log`n, log`cache, log`from, log`path, log.block
    ensures log.Valid() && log.n <= |fs.logged| && CoreInv(log.l, log.Here(), fs.base, fs.blocks)
  {
    hide CoreInv, Follows, GoodDisk, fs.Framed, CheckCore, AppendCore, Crash.Placed;
    MixedEnds(fs);
    var rest := fs.logged;
    while rest != {}
      invariant rest <= fs.logged && log.Valid() && log.n + |rest| <= |fs.logged| && |fs.base| == |fs.blocks|
      invariant CoreInv(log.l, log.Here(), fs.base, Mixed(fs.base, fs.blocks, rest))
      decreases |rest|
    {
      var b :| b in rest;
      Logged(fs, log.l, b);
      ghost var here := log.Here();
      CheckPasses(log.l, here);
      var ok := log.LogWrite(b, fs.blocks[b]);
      AppendLonger(here, b, fs.blocks[b]);
      AppendCoreInv(log.l, here, fs.base, Mixed(fs.base, fs.blocks, rest), b, fs.blocks[b]);
      MixedOne(fs.base, fs.blocks, rest, b);
      rest := rest - {b};
    }
  }

  /** end_op, after which nothing of the operation is left undone. */
  method EndTransaction(log: LogSystem, fs: FileSystem, ghost im0: Image, ghost m0: seq<nat>, ghost owner0: Owner)
    requires log.Valid() && log.phase == Idle && log.outstanding == 1 && log.n == 0 && MAXOPBLOCKS < log.l.size
    requires fs.Framed() && fs.Valid() && Crash.Placed(log.l, fs.sb) && InLog(log.l, fs.logged)
    requires Good(im0, m0, owner0) && im0.sb == fs.sb && im0.blocks == fs.base && CoreInv(log.l, log.Here(), fs.base, fs.base)
    modifies log, log.block, fs`history
    ensures Mounted(log, fs) && Survives(log.l, fs.sb, log.path, im0, fs.Im())
    ensures fs.history == old(fs.history) + [fs.logged]
  {
    hide CoreInv, Follows, GoodDisk, Good, fs.Framed, Crash.Placed, CrashSafe, Survives;
    Sizes(fs, log.l);
    LogAll(log, fs);
    var ok := log.EndOp(fs.base, fs.blocks);
    fs.EndOp();
    PathSurvives(log.l, fs.sb, log.path, im0, m0, owner0, fs.Im(), fs.m, fs.owner);
  }

  lemma Sizes(fs: FileSystem, l: Layout)
    requires fs.Valid() && Crash.Placed(l, fs.sb)
    ensures |fs.blocks| == l.disksize
  {}

  /** begin_op with no other operation about. */
  method BeginTransaction(log: LogSystem, fs: FileSystem)
    requires Mounted(log, fs)
    modifies log`outstanding, log`from, log`path, fs`logged, fs`base
    ensures log.Valid() && log.phase == Idle && log.outstanding == 1 && log.n == 0 && CoreInv(log.l, log.Here(), fs.blocks, fs.blocks)
    ensures fs.logged == {} && fs.base == fs.blocks && fs.Framed()
  {
    hide Good, PhaseInv, Recovered, Follows;
    var admitted := log.BeginOp();
    BeginKeeps(log.l, old(log.Here()), fs.blocks);
    fs.BeginOp();
  }

  lemma BeginKeeps(l: Layout, c: Core, d: Disk)
    requires CoreInv(l, c, d, d) && c.phase == Idle && c.outstanding == 0 && c.lh == []
    ensures BeginCore(c) == LogCore.Outcome.Next(c.(outstanding := 1)) && CoreInv(l, c.(outstanding := 1), d, d)
  {}

  /** A write of up to three blocks, as filewrite makes them. It is refused, or it panics for want of
      blocks, or it is done; and whenever the machine stops, the files are those of before or after. */
  method Write(log: LogSystem, fs: FileSystem, i: nat, src: seq<Byte>, off: nat) returns (ok: bool, r: int)
    requires Mounted(log, fs) && i < |fs.inodes| && fs.inodes[i].kind != T_DEV && off < U32 && |src| <= 3 * BSIZE
    modifies log, log.block, fs
    ensures r == -1 <==> off > old(fs.inodes[i].size) || off + |src| > MAXFILE * BSIZE
    ensures ok <==> r == -1 || SlotsTo(old(fs.Im()), i, off + |src|) <= old(fs.Stock(i))
    ensures ok ==> Mounted(log, fs) && Survives(log.l, fs.sb, log.path, old(fs.Im()), fs.Im())
    ensures ok ==> if r == -1 then fs.Im() == old(fs.Im()) else r == |src| && Wrote(old(fs.Im()), fs.Im(), i, off, src)
    ensures !ok ==> GoodDisk(log.l, log.disk) && HasFiles(fs.sb, Recovered(log.l, log.disk), old(fs.Im()))
  {
    hide CoreInv, Follows, Good, fs.Framed, Crash.Placed, Survives, HasFiles, Wrote, SlotsTo;
    ghost var im0, m0, owner0 := fs.Im(), fs.m, fs.owner;
    CrashNow(log.l, fs.sb, log.Here(), im0, im0.blocks, m0, owner0);
    BeginTransaction(log, fs);
    ghost var more;
    ok, r, more := fs.Writei(i, src, off, NoDevice);
    if ok {
      SubsetCard(fs.logged, more);
      EndTransaction(log, fs, im0, m0, owner0);
    }
  }

  /** itrunc as a transaction, for a bitmap that fits into the log with room to spare for the inode. */
  method Truncate(log: LogSystem, fs: FileSystem, i: nat)
    requires Mounted(log, fs) && i < |fs.inodes| && fs.sb.nmeta - fs.sb.bmapstart + 1 < Min(LOGSIZE, log.l.size - 1)
    modifies log, log.block, fs
    ensures Mounted(log, fs) && Survives(log.l, fs.sb, log.path, old(fs.Im()), fs.Im())
    ensures Truncated(old(fs.Im()), old(fs.owner), fs.Im(), i)
  {
    hide CoreInv, Follows, Good, fs.Framed, Crash.Placed, Survives, Truncated;
    ghost var im0, m0, owner0 := fs.Im(), fs.m, fs.owner;
    BeginTransaction(log, fs);
    var ok := fs.Itrunc(i);
    FewMarks(log.l, fs.sb, fs.logged, fs.sb.IBlock(i));
    EndTransaction(log, fs, im0, m0, owner0);
  }

  lemma FewMarks(l: Layout, sb: Super, logged: set<nat>, ib: nat)
    requires l.size > 1 && sb.nmeta - sb.bmapstart + 1 < Min(LOGSIZE, l.size - 1)
    requires forall b :: b in logged ==> sb.bmapstart <= b < sb.nmeta || b == ib
    ensures InLog(l, logged)
  {
    var marks := Interval(sb.bmapstart, Max(sb.bmapstart, sb.nmeta));
    CardTwo(marks, {ib});
    SubsetCard(logged, marks + {ib});
  }

  /** After a crash: recovery, and the file system mounted from what it leaves. */
  method Reboot(l: Layout, sb: Super, disk: Disk) returns (log: LogSystem, fs: FileSystem)
    requires GoodDisk(l, disk) && Crash.Placed(l, sb) && MAXOPBLOCKS < l.size && HealthyDisk(sb, Recovered(l, disk))
    ensures fresh(log) && fresh(log.block) && fresh(fs) && log.l == l && fs.sb == sb
    ensures Mounted(log, fs) && fs.Im() == OnDiskImage(sb, Recovered(l, disk))
  {
    hide HealthyDisk, Follows, Good, Resumable;
    log := new LogSystem(l, disk);
    log.RecoverFromLog();
    RecoveredFacts(l, disk);
    fs := new FileSystem.Mount(sb, log.disk);
    RebootInv(l, log.Here());
  }

  lemma RebootInv(l: Layout, c: Core)
    requires GoodDisk(l, c.disk) && HeadOf(c.disk[l.start]) == [] && c.cache == map[] && c.lh == []
    requires c.phase == Idle && c.outstanding == 0 && !c.committing
    ensures CoreInv(l, c, c.disk, c.disk)
  {
    RecoveredIdle(l, c.disk);
  }
}
