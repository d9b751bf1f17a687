/** log.c as it runs: struct log and its loops, each proved to make exactly the protocol's disk
    writes in the protocol's order, so that a crash between any two of them is covered. */
module LogCode {
  import opened Param
  import opened Blocks
  import opened LogFormat
  import opened LogCore

  ghost predicate OneWrite(l: Layout, c: Core, c': Core) {
    CanAdvance(l, c) && c' == AdvanceCore(l, c)
  }

  ghost function Last(c: Core, path: seq<Core>): Core {
    if path == [] then c else path[|path| - 1]
  }

  /** A sequence of states, each one disk write (or the final unlock of end_op) after the one before. */
  ghost predicate Follows(l: Layout, c: Core, path: seq<Core>) {
    path != [] ==>
      var rest := path[..|path| - 1];
      Follows(l, c, rest) && OneWrite(l, Last(c, rest), path[|path| - 1])
  }

  lemma CopyIsOneWrite(l: Layout, c: Core)
    requires CanAdvance(l, c) && c.phase.CopyLog?
    ensures var t := c.phase.tail;
            OneWrite(l, c, c.(disk := c.disk[l.start + t + 1 := CacheRead(c, c.lh[t])],
                              phase := if t + 1 < |c.lh| then CopyLog(t + 1) else CommitHead))
  {}

  lemma InstallIsOneWrite(l: Layout, c: Core)
    requires CanAdvance(l, c) && c.phase.InstallHome?
    ensures var t := c.phase.tail;
            OneWrite(l, c, c.(disk := c.disk[c.lh[t] := c.disk[l.start + t + 1]], cache := c.cache - {c.lh[t]},
                              phase := if t + 1 < |c.lh| then InstallHome(t + 1, c.phase.boot) else EraseHead(c.phase.boot)))
  {}

  lemma HeadIsOneWrite(l: Layout, c: Core)
    requires CanAdvance(l, c) && (c.phase == CommitHead || c.phase.EraseHead?)
    ensures var lh := if c.phase == CommitHead then c.lh else [];
            OneWrite(l, c, c.(lh := lh, disk := c.disk[l.start := PutHead(c.disk[l.start], lh)],
                              phase := if c.phase == CommitHead then InstallHome(0, false) else if c.phase.boot then Idle else Finish))
  {}

  lemma ReadIsOneWrite(l: Layout, c: Core)
    requires GoodDisk(l, c.disk) && c.lh == [] && c.phase == ReadHead
    ensures l.start < |c.disk| && GetWord(c.disk[l.start], 0) < 127
    ensures var lh := HeadOf(c.disk[l.start]);
            && l.Fits(lh) && |lh| == GetWord(c.disk[l.start], 0)
            && OneWrite(l, c, c.(lh := lh, phase := if lh == [] then EraseHead(true) else InstallHome(0, true)))
  {}

  lemma NoneYet(l: Layout, c: Core)
    ensures Follows(l, c, []) && Last(c, []) == c
  {}

  lemma FollowsOne(l: Layout, c: Core, path: seq<Core>, c': Core)
    requires Follows(l, c, path) && OneWrite(l, Last(c, path), c')
    ensures Follows(l, c, path + [c'])
  {
    assert (path + [c'])[..|path|] == path;
  }

  predicate BeforeHead(p: Phase) {
    p.CopyLog? || p == CommitHead
  }

  /** A commit under way: until the header is written a crash leaves dur, from then on cur. */
  ghost predicate CommitInv(l: Layout, c: Core, dur: Disk, cur: Disk) {
    CoreInv(l, c, if BeforeHead(c.phase) then dur else cur, cur)
  }

  lemma CommitStep(l: Layout, c: Core, c': Core, dur: Disk, cur: Disk)
    requires CommitInv(l, c, dur, cur) && OneWrite(l, c, c')
    ensures CommitInv(l, c', dur, cur)
  {
    AdvanceCoreInv(l, c, if BeforeHead(c.phase) then dur else cur, cur);
  }

  lemma {:induction false} FollowsCommit(l: Layout, c: Core, path: seq<Core>, dur: Disk, cur: Disk, i: nat)
    requires CommitInv(l, c, dur, cur) && Follows(l, c, path) && i < |path|
    ensures CommitInv(l, path[i], dur, cur)
  {
    hide CommitInv, OneWrite;
    var rest := path[..|path| - 1];
    if i < |rest| {
      FollowsCommit(l, c, rest, dur, cur, i);
    } else if rest == [] {
      CommitStep(l, c, path[i], dur, cur);
    } else {
      FollowsCommit(l, c, rest, dur, cur, i - 1);
      CommitStep(l, rest[i - 1], path[i], dur, cur);
    }
  }

  /** A recovery under way or just over, which will end, or has ended, in r. */
  ghost predicate RecoveryInv(l: Layout, c: Core, r: Disk) {
    && CoreInv(l, c, r, r) && Recovered(l, c.disk) == r
    && (Booting(c.phase) || (c.phase == Idle && c.disk == r))
  }

  lemma RecoveryStep(l: Layout, c: Core, c': Core, r: Disk)
    requires RecoveryInv(l, c, r) && OneWrite(l, c, c')
    ensures RecoveryInv(l, c', r)
  {
    AdvanceCoreInv(l, c, r, r);
    if c.phase.EraseHead? {
      EraseCoreInv(l, c, r, r);
    }
  }

  lemma {:induction false} FollowsRecovery(l: Layout, c: Core, path: seq<Core>, r: Disk, i: nat)
    requires RecoveryInv(l, c, r) && Follows(l, c, path) && i < |path|
    ensures RecoveryInv(l, path[i], r)
  {
    hide RecoveryInv, OneWrite;
    var rest := path[..|path| - 1];
    if i < |rest| {
      FollowsRecovery(l, c, rest, r, i);
    } else if rest == [] {
      RecoveryStep(l, c, path[i], r);
    } else {
      FollowsRecovery(l, c, rest, r, i - 1);
      RecoveryStep(l, rest[i - 1], path[i], r);
    }
  }

  lemma BootInv(l: Layout, c: Core)
    requires GoodDisk(l, c.disk) && c == CrashCore(c)
    ensures RecoveryInv(l, c, Recovered(l, c.disk))
  {}

  /** A crash at any point of the path is followed by a recovery that ends in r. */
  ghost predicate Resumable(l: Layout, path: seq<Core>, r: Disk) {
    forall i :: 0 <= i < |path| ==> RecoveryInv(l, path[i], r)
  }

  lemma FollowsRecoveryAll(l: Layout, c: Core, path: seq<Core>, r: Disk)
    requires RecoveryInv(l, c, r) && Follows(l, c, path)
    ensures Resumable(l, path, r) && RecoveryInv(l, Last(c, path), r)
  {
    forall i | 0 <= i < |path| ensures RecoveryInv(l, path[i], r) {
      FollowsRecovery(l, c, path, r, i);
    }
  }

  /** Once recovery is back in Idle the disk is the recovered one. */
  lemma RecoveryOver(l: Layout, c: Core, path: seq<Core>, r: Disk)
    requires RecoveryInv(l, c, r) && Follows(l, c, path) && Last(c, path).phase == Idle
    ensures Last(c, path).disk == r && (Last(c, path).lh == [] ==> Last(c, path).cache == map[])
  {
    FollowsRecoveryAll(l, c, path, r);
  }

  /** A crash at any point of the path leaves dur if the header was not yet written, cur if it was. */
  ghost predicate CrashSafe(l: Layout, path: seq<Core>, dur: Disk, cur: Disk) {
    forall i :: 0 <= i < |path| ==> CommitInv(l, path[i], dur, cur)
  }

  lemma FollowsCommitAll(l: Layout, c: Core, path: seq<Core>, dur: Disk, cur: Disk)
    requires CommitInv(l, c, dur, cur) && Follows(l, c, path)
    ensures CrashSafe(l, path, dur, cur) && CommitInv(l, Last(c, path), dur, cur)
  {
    if path != [] {
      FollowsCommit(l, c, path, dur, cur, |path| - 1);
    }
    forall i | 0 <= i < |path| ensures CommitInv(l, path[i], dur, cur) {
      FollowsCommit(l, c, path, dur, cur, i);
    }
  }

  lemma EndCommits(l: Layout, c: Core, dur: Disk, cur: Disk)
    requires CoreInv(l, c, dur, cur) && c.outstanding > 0
    ensures !c.committing && c.phase == Idle && l.Fits(c.lh)
    ensures c.outstanding == 1 ==> CommitInv(l, EndCore(c).state, dur, cur)
  {
    EndCoreInv(l, c, dur, cur);
    RecoveredIdle(l, c.disk);
  }

  lemma NothingYet(l: Layout, c: Core, dur: Disk, cur: Disk)
    ensures Follows(l, c, []) && CrashSafe(l, [], dur, cur)
  {}

  lemma UnlockIsOneWrite(l: Layout, c: Core)
    requires GoodDisk(l, c.disk) && l.Fits(c.lh) && c.phase == Finish
    ensures OneWrite(l, c, c.(committing := false, phase := Idle))
  {}

  lemma AfterCommit(l: Layout, c: Core, path: seq<Core>, dur: Disk, cur: Disk)
    requires CommitInv(l, c, dur, cur) && Follows(l, c, path) && Last(c, path).phase == Idle
    ensures CoreInv(l, Last(c, path), cur, cur)
  {
    FollowsCommitAll(l, c, path, dur, cur);
  }

  lemma AppendFits(l: Layout, c: Core, b: nat, data: Block)
    requires CheckCore(l, c).Next? && l.Names(c.lh) && l.Home(b)
    ensures l.Fits(AppendCore(c, b, data).lh)
  {}

  class LogSystem {
    const l: Layout
    var disk: Disk               // every bwrite reaches it before bwrite returns
    var cache: map<nat, Block>   // the buffers pinned by B_DIRTY
    var n: nat                   // log.lh.n
    const block: array<nat>      // log.lh.block
    var outstanding: nat
    var committing: bool
    ghost var phase: Phase
    ghost var from: Core         // the state when the log was last unlocked,
    ghost var path: seq<Core>    // and the state after each disk write since

    ghost predicate Shape()
      reads this, block
    {
      && block.Length == LOGSIZE && n <= LOGSIZE
      && GoodDisk(l, disk) && l.Names(block[..n])
      && forall b :: b in cache ==> l.Home(b)
    }

    ghost function Here(): Core
      reads this, block
      requires Shape()
    {
      Core(disk, cache, block[..n], outstanding, committing, phase)
    }

    ghost predicate Valid()
      reads this, block
    {
      Shape() && Follows(l, from, path) && Last(from, path) == Here()
    }

    constructor (l: Layout, disk: Disk)
      requires GoodDisk(l, disk)
      ensures Valid() && fresh(block) && this.l == l && path == []
      ensures Here() == Core(disk, map[], [], 0, false, Phase.ReadHead)
    {
      this.l, this.disk, this.cache, this.n := l, disk, map[], 0;
      this.block := new nat[LOGSIZE];
      this.outstanding, this.committing, this.phase := 0, false, Phase.ReadHead;
      new;
      assert block[..n] == [];
      from, path := Here(), [];
    }

    /** One pass of the loop in begin_op: true when the operation is admitted, false when it sleeps. */
    method BeginOp() returns (admitted: bool)
      requires Valid()
      modifies this`outstanding, this`from, this`path
      ensures Valid() && from == Here()
      ensures admitted <==> BeginCore(old(Here())).Next?
      ensures if admitted then LogCore.Outcome.Next(Here()) == BeginCore(old(Here())) else Here() == old(Here())
    {
      admitted := false;
      if committing {
        // sleep(&log, &log.lock)
      } else if n + (outstanding + 1) * MAXOPBLOCKS > LOGSIZE {
        // sleep(&log, &log.lock)
      } else {
        outstanding := outstanding + 1;
        admitted := true;
      }
      from, path := Here(), [];
    }

    /** log_write's tests, which read the log without its lock. */
    method LogCheck() returns (ok: bool)
      requires Valid()
      ensures ok <==> CheckCore(l, Here()).Next?
    {
      ok := !(n >= LOGSIZE || n as int >= l.size - 1 || outstanding < 1);
    }

    /** The rest of log_write, under the lock: the caller's buffer for block b holds data. Others may
        have logged blocks since the tests, so that the log itself may be full; the array is not as
        long as operations keep their budgets. */
    method LogAppend(b: nat, data: Block)
      requires Valid() && l.Home(b) && (b in block[..n] || n < LOGSIZE)
      modifies this`n, this`cache, this`from, this`path, block
      ensures Valid() && from == Here() && path == [] && Here() == AppendCore(old(Here()), b, data)
    {
      hide HeadOf, GoodDisk, Follows;
      ghost var lh := block[..n];
      var i := FindSlot(b);
      block[i] := b;
      if i == n {
        n := n + 1;
        assert block[..n] == lh + [b];
      } else {
        assert lh[i] == b;
        assert block[..n] == lh;
      }
      cache := cache[b := data];
      from, path := Here(), [];
      NoneYet(l, from);
    }

    /** log_write with nobody in between: a panic in exactly the cases of the tests, and room in the log
        for the block when there is none. */
    method LogWrite(b: nat, data: Block) returns (ok: bool)
      requires Valid() && l.Home(b)
      modifies this`n, this`cache, this`from, this`path, block
      ensures Valid() && from == Here() && path == []
      ensures ok <==> CheckCore(l, old(Here())).Next?
      ensures if ok then Here() == AppendCore(old(Here()), b, data) && l.Fits(block[..n]) else Here() == old(Here())
    {
      hide HeadOf, GoodDisk, Follows;
      from, path := Here(), [];
      NoneYet(l, from);
      ok := LogCheck();
      if ok {
        LogAppend(b, data);
        AppendFits(l, old(Here()), b, data);
      }
    }

    /** log_write's search: the block's place in the log, or the next one. */
    method FindSlot(b: nat) returns (i: nat)
      requires n <= block.Length
      ensures i <= n && (i < n ==> block[i] == b) && (i == n <==> b !in block[..n])
    {
      i := 0;
      while i < n && block[i] != b
        invariant i <= n && forall j :: 0 <= j < i ==> block[j] != b
      {
        i := i + 1;
      }
    }

    /** A synchronous bwrite: when it returns the disk holds the block and B_DIRTY is clear. */
    method Bwrite(b: nat, data: Block)
      requires Shape() && b < |disk|
      requires b == l.start ==> GetWord(data, 0) < 127 && l.Fits(HeadOf(data))
      modifies this`disk, this`cache
      ensures Shape() && disk == old(disk)[b := data] && cache == old(cache) - {b}
    {
      if b != l.start {
        SameHead(l, disk, disk[b := data]);
      }
      disk := disk[b := data];
      cache := cache - {b};
    }

    /** The protocol's account of the write just made. */
    ghost method Record(next: Phase)
      requires Shape() && Follows(l, from, path) && OneWrite(l, Last(from, path), Here().(phase := next))
      modifies this`phase, this`path
      ensures Valid() && |path| == old(|path|) + 1 && phase == next
    {
      hide Follows, OneWrite, GoodDisk, HeadOf;
      FollowsOne(l, from, path, Here().(phase := next));
      phase := next;
      path := path + [Here()];
    }

    method WriteLog()
      requires Valid() && l.Fits(block[..n]) && phase == CopyLog(0) && n > 0
      modifies this`disk, this`cache, this`phase, this`path
      ensures Valid() && phase == CommitHead && |path| == old(|path|) + n
    {
      var tail := 0;
      while tail < n
        invariant 0 <= tail <= n && Valid() && |path| == old(|path|) + tail
        invariant phase == if tail < n then CopyLog(tail) else CommitHead
      {
        CopyBlock(tail);
        tail := tail + 1;
      }
    }

    /** The body of write_log's loop. */
    method CopyBlock(tail: nat)
      requires Valid() && l.Fits(block[..n]) && phase == CopyLog(tail) && tail < n
      modifies this`disk, this`cache, this`phase, this`path
      ensures Valid() && phase == (if tail + 1 < n then CopyLog(tail + 1) else CommitHead) && |path| == old(|path|) + 1
    {
      hide HeadOf, Follows, OneWrite, Recovered, Install;
      assert l.Home(block[..n][tail]) && !l.Home(l.start) && !l.Home(l.start + tail + 1);
      var from := if block[tail] in cache then cache[block[tail]] else disk[block[tail]];
      assert cache - {l.start + tail + 1} == cache;
      CopyIsOneWrite(l, Here());
      Bwrite(l.start + tail + 1, from);
      Record(if tail + 1 < n then CopyLog(tail + 1) else CommitHead);
    }

    /** write_head: n and the first n block numbers go into the header block in one disk write. */
    method WriteHead(ghost next: Phase)
      requires Shape() && l.Fits(block[..n]) && Follows(l, from, path)
      requires forall i :: 0 <= i < n ==> block[i] < U32
      requires OneWrite(l, Last(from, path), Core(disk[l.start := PutHead(disk[l.start], block[..n])], cache, block[..n], outstanding, committing, next))
      modifies this`disk, this`cache, this`phase, this`path
      ensures Valid() && |path| == old(|path|) + 1 && phase == next
    {
      hide Follows, OneWrite, Install, Recovered, HeadOf, PutHead;
      var hb := FillHead(disk[l.start]);
      HeadRoundTrip(disk[l.start], block[..n]);
      assert !l.Home(l.start);
      assert cache - {l.start} == cache;
      Bwrite(l.start, hb);
      Record(next);
    }

    /** write_head's loop over the block numbers. */
    method FillHead(hdr: Block) returns (hb: Block)
      requires n <= block.Length && n <= LOGSIZE && forall i :: 0 <= i < n ==> block[i] < U32
      ensures hb == PutHead(hdr, block[..n])
    {
      hb := PutWord(hdr, 0, n);
      var i := 0;
      while i < n
        invariant 0 <= i <= n && hb == PutBlocks(PutWord(hdr, 0, n), block[..i])
      {
        hb := PutWord(hb, i + 1, block[i]);
        assert block[..i + 1][..i] == block[..i];
        i := i + 1;
      }
    }

    method InstallTrans()
      requires Valid() && l.Fits(block[..n]) && phase.InstallHome? && phase.tail == 0 && n > 0
      modifies this`disk, this`cache, this`phase, this`path
      ensures Valid() && phase == EraseHead(old(phase.boot)) && |path| == old(|path|) + n
    {
      var tail := 0;
      while tail < n
        invariant 0 <= tail <= n && Valid() && |path| == old(|path|) + tail
        invariant phase == if tail < n then InstallHome(tail, old(phase.boot)) else EraseHead(old(phase.boot))
      {
        InstallBlock(tail);
        tail := tail + 1;
      }
    }

    /** The body of install_trans's loop. */
    method InstallBlock(tail: nat)
      requires Valid() && l.Fits(block[..n]) && phase.InstallHome? && phase.tail == tail < n
      modifies this`disk, this`cache, this`phase, this`path
      ensures Valid() && |path| == old(|path|) + 1
      ensures phase == if tail + 1 < n then InstallHome(tail + 1, old(phase.boot)) else EraseHead(old(phase.boot))
    {
      hide HeadOf, Follows, OneWrite, Recovered, Install;
      assert l.Home(block[..n][tail]) && !l.Home(l.start);
      InstallIsOneWrite(l, Here());
      Bwrite(block[tail], disk[l.start + tail + 1]);
      Record(if tail + 1 < n then InstallHome(tail + 1, phase.boot) else EraseHead(phase.boot));
    }

    /** commit() with something in the log: 2n + 2 disk writes, the one after the first n being the commit point. */
    method Commit()
      requires Valid() && l.Fits(block[..n]) && phase == CopyLog(0) && n > 0
      modifies this`n, this`disk, this`cache, this`phase, this`path
      ensures Valid() && phase == Finish && n == 0 && |path| == old(|path|) + 2 * old(n) + 2
    {
      hide Follows, OneWrite, HeadOf, Install;
      WriteLog();
      HeadNumbers();
      HeadIsOneWrite(l, Here());
      WriteHead(InstallHome(0, false));
      InstallTrans();
      HeadIsOneWrite(l, Here());
      n := 0;
      assert block[..n] == [];
      WriteHead(Finish);
    }

    lemma HeadNumbers()
      requires Shape()
      ensures forall i :: 0 <= i < n ==> block[i] < U32
    {
      assert forall i :: 0 <= i < n ==> l.Home(block[..n][i]);
    }

    method ReadHead()
      requires Valid() && phase == Phase.ReadHead && n == 0
      modifies this`n, this`phase, this`path, block
      ensures Valid() && l.Fits(block[..n]) && phase == (if n == 0 then EraseHead(true) else InstallHome(0, true))
    {
      hide Follows, HeadOf, OneWrite;
      assert block[..n] == [];
      ReadIsOneWrite(l, Here());
      ghost var here := Here();
      LoadHead(disk[l.start]);
      assert |block[..n]| == n && Here() == here.(lh := block[..n]);
      Record(if n == 0 then EraseHead(true) else InstallHome(0, true));
    }

    /** read_head's loop over the block numbers. */
    method LoadHead(buf: Block)
      requires GetWord(buf, 0) <= block.Length && GetWord(buf, 0) < 127
      modifies this`n, block
      ensures n == GetWord(buf, 0) && block[..n] == HeadOf(buf)
    {
      n := GetWord(buf, 0);
      var i := 0;
      while i < n
        invariant 0 <= i <= n && block[..i] == HeadOf(buf)[..i]
        modifies block
      {
        block[i] := GetWord(buf, i + 1);
        i := i + 1;
      }
    }

    /** recover_from_log, at boot: it ends in the recovered disk, and a recovery started over from
        the disk of any instant of it would end in the same. */
    method RecoverFromLog()
      requires Valid() && path == [] && Here() == CrashCore(Here())
      modifies this`n, this`disk, this`cache, this`phase, this`path, block
      ensures Valid() && phase == Idle && n == 0 && cache == map[] && disk == Recovered(l, old(disk))
      ensures Resumable(l, path, Recovered(l, old(disk)))
    {
      hide Follows, RecoveryInv, Resumable, OneWrite, HeadOf, Install;
      BootInv(l, from);
      ReadHead();
      if n > 0 {
        InstallTrans();
      }
      HeadIsOneWrite(l, Here());
      n := 0;
      assert block[..n] == [];
      WriteHead(Idle);
      RecoveryOver(l, from, path, Recovered(l, old(disk)));
      FollowsRecoveryAll(l, from, path, Recovered(l, old(disk)));
    }

    /** end_op with the commit that the last operation out performs; dur is what a crash now would
        leave of the home blocks, cur what readers see. Whatever instant a crash picks, recovery
        yields one or the other, the old one until the header is written and the new one after. */
    method EndOp(ghost dur: Disk, ghost cur: Disk) returns (ok: bool)
      requires Valid() && outstanding > 0 && CoreInv(l, Here(), dur, cur)
      modifies this`n, this`disk, this`cache, this`outstanding, this`committing, this`phase, this`from, this`path
      ensures ok && Valid()
      ensures old(outstanding) > 1 ==> path == [] && EndCore(old(Here())) == LogCore.Outcome.Next(Here())
      ensures old(outstanding) == 1 ==>
                && CoreInv(l, Here(), cur, cur) && phase == Idle && n == 0 && !committing && outstanding == 0
                && |path| == (if old(n) == 0 then 1 else 2 * old(n) + 3)
      ensures CrashSafe(l, path, dur, cur)
    {
      hide CoreInv, CommitInv, Follows, CrashSafe, HeadOf;
      EndCoreInv(l, Here(), dur, cur);
      EndCommits(l, Here(), dur, cur);
      outstanding := outstanding - 1;
      if committing {
        return false;
      }
      if outstanding > 0 {
        from, path := Here(), [];
        NothingYet(l, Here(), dur, cur);
        return true;
      }
      committing := true;
      phase := if n == 0 then Finish else CopyLog(0);
      from, path := Here(), [];
      NothingYet(l, Here(), dur, cur);
      CommitOp(dur, cur);
      return true;
    }

    /** end_op's second half: commit, and let the others back in. */
    method CommitOp(ghost dur: Disk, ghost cur: Disk)
      requires Valid() && path == [] && CommitInv(l, Here(), dur, cur)
      requires l.Fits(block[..n]) && phase == if n == 0 then Finish else CopyLog(0)
      modifies this`n, this`disk, this`cache, this`committing, this`phase, this`path
      ensures Valid() && CoreInv(l, Here(), cur, cur) && phase == Idle && n == 0 && !committing
      ensures |path| == if old(n) == 0 then 1 else 2 * old(n) + 3
      ensures CrashSafe(l, path, dur, cur)
    {
      hide CoreInv, CommitInv, Follows, CrashSafe, HeadOf, OneWrite;
      if n > 0 {
        Commit();
      }
      UnlockIsOneWrite(l, Here());
      committing := false;
      Record(Idle);
      AfterCommit(l, from, path, dur, cur);
      FollowsCommitAll(l, from, path, dur, cur);
    }
  }
}
