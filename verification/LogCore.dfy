/** log.c one step at a time: begin_op, log_write and end_op, and commit and recovery cut at
    their disk writes. */
module LogCore {
  import opened Param
  import opened Blocks
  import opened LogFormat

  /** Where the one process inside commit or recovery stands: the next disk write it will make. */
  datatype Phase =
    | Idle
    | CopyLog(tail: nat)
    | CommitHead
    | InstallHome(tail: nat, boot: bool)
    | EraseHead(boot: bool)
    | Finish
    | ReadHead

  /** What the kernel holds: the disk, the pinned dirty buffers, and the fields of struct log. */
  datatype Core = Core(disk: Disk, cache: map<nat, Block>, lh: seq<nat>, outstanding: nat, committing: bool, phase: Phase)

  datatype Outcome<T> = Next(state: T) | Sleep | Panic(message: string)

  /** One round of begin_op's loop. */
  function BeginCore(c: Core): Outcome<Core> {
    if c.committing then Sleep
    else if |c.lh| + (c.outstanding + 1) * MAXOPBLOCKS > LOGSIZE then Sleep
    else Next(c.(outstanding := c.outstanding + 1))
  }

  /** log_write's tests, made before it takes log.lock. */
  function CheckCore(l: Layout, c: Core): Outcome<Core> {
    if |c.lh| >= LOGSIZE || |c.lh| as int >= l.size - 1 then Panic("too big a transaction")
    else if c.outstanding < 1 then Panic("log_write outside of trans")
    else Next(c)
  }

  /** The rest of log_write, under log.lock: the caller's buffer for block b holds data, and b is in
      the log. Nothing here tests for room again. */
  function AppendCore(c: Core, b: nat, data: Block): Core {
    c.(lh := if b in c.lh then c.lh else c.lh + [b], cache := c.cache[b := data])
  }

  /** end_op up to the call of commit. */
  function EndCore(c: Core): Outcome<Core>
    requires c.outstanding > 0
  {
    if c.committing then Panic("log.committing")
    else if c.outstanding > 1 then Next(c.(outstanding := c.outstanding - 1))
    else Next(c.(outstanding := 0, committing := true,
                 phase := if c.lh == [] then Finish else CopyLog(0)))
  }

  /** Whether the numbers the next step of commit or recovery follows lie on the disk; the log may
      have run over its end. */
  ghost predicate CanAdvance(l: Layout, c: Core) {
    && l.Valid() && |c.disk| == l.disksize && GetWord(c.disk[l.start], 0) < 127
    && l.Names(c.lh) && l.start + |c.lh| < l.disksize
    && match c.phase
       case Idle => false
       case CopyLog(t) => t < |c.lh|
       case InstallHome(t, _) => t < |c.lh|
       case ReadHead => l.Names(HeadOf(c.disk[l.start]))
       case _ => true
  }

  function CacheRead(c: Core, b: nat): Block
    requires b < |c.disk|
  {
    if b in c.cache then c.cache[b] else c.disk[b]
  }

  /** One disk write of write_log, write_head or install_trans, and the step to the next. */
  function AdvanceCore(l: Layout, c: Core): Core
    requires CanAdvance(l, c)
  {
    match c.phase
    case CopyLog(t) =>
      c.(disk := c.disk[l.start + t + 1 := CacheRead(c, c.lh[t])],
         phase := if t + 1 < |c.lh| then CopyLog(t + 1) else CommitHead)
    case CommitHead =>
      c.(disk := c.disk[l.start := PutHead(c.disk[l.start], c.lh)],
         phase := InstallHome(0, false))
    case InstallHome(t, boot) =>
      c.(disk := c.disk[c.lh[t] := c.disk[l.start + t + 1]],
         cache := c.cache - {c.lh[t]},
         phase := if t + 1 < |c.lh| then InstallHome(t + 1, boot) else EraseHead(boot))
    case EraseHead(boot) =>
      c.(lh := [], disk := c.disk[l.start := PutHead(c.disk[l.start], [])],
         phase := if boot then Idle else Finish)
    case Finish =>
      c.(committing := false, phase := Idle)
    case ReadHead =>
      var lh := HeadOf(c.disk[l.start]);
      c.(lh := lh, phase := if lh == [] then EraseHead(true) else InstallHome(0, true))
  }

  /** A crash keeps the disk and nothing else; the machine comes back in initlog. */
  function CrashCore(c: Core): Core {
    Core(c.disk, map[], [], 0, false, ReadHead)
  }

  predicate Booting(p: Phase) {
    p == ReadHead || ((p.InstallHome? || p.EraseHead?) && p.boot)
  }

  predicate Committing(p: Phase) {
    p != Idle && !Booting(p)
  }

  ghost predicate SameHome(l: Layout, d: Disk, e: Disk) {
    |d| == |e| == l.disksize && forall b: nat :: l.Home(b) ==> d[b] == e[b]
  }

  /** The home blocks as readers see them: pinned buffers over the disk. */
  ghost predicate Shows(l: Layout, c: Core, cur: Disk) {
    |c.disk| == |cur| == l.disksize && forall b: nat :: l.Home(b) ==> CacheRead(c, b) == cur[b]
  }

  ghost predicate Pinned(c: Core) {
    forall b :: b in c.cache <==> b in c.lh
  }

  ghost predicate Copied(l: Layout, c: Core, t: nat)
    requires t <= |c.lh| && l.start + |c.lh| < |c.disk| && Pinned(c)
  {
    forall i :: 0 <= i < t ==> c.disk[l.start + 1 + i] == c.cache[c.lh[i]]
  }

  ghost function Rest(lh: seq<nat>, t: nat): set<nat> {
    set i | t <= i < |lh| :: lh[i]
  }

  /** The header names lh, and copying the first t log blocks home once more would change nothing. */
  ghost predicate Installed(l: Layout, d: Disk, lh: seq<nat>, t: nat)
    requires GoodDisk(l, d)
  {
    HeadOf(d[l.start]) == lh && t <= |lh| && Install(l, d, lh, t) == d
  }

  /** The disk and the buffers at each point of commit and recovery. cur is what the file system
      looks like to its users, dur what a crash now would leave of it. */
  ghost predicate PhaseInv(l: Layout, c: Core, dur: Disk, cur: Disk)
    requires GoodDisk(l, c.disk) && l.Fits(c.lh)
  {
    var onDisk := HeadOf(c.disk[l.start]);
    match c.phase
    case Idle => onDisk == [] && Pinned(c) && Shows(l, c, cur)
    case CopyLog(t) => onDisk == [] && Pinned(c) && Shows(l, c, cur) && t < |c.lh| && Copied(l, c, t)
    case CommitHead => onDisk == [] && Pinned(c) && Shows(l, c, cur) && Copied(l, c, |c.lh|) && c.lh != []
    case InstallHome(t, _) =>
      && dur == cur && t < |c.lh| && Installed(l, c.disk, c.lh, t)
      && c.cache.Keys <= Rest(c.lh, t)
    case EraseHead(_) =>
      dur == cur && Installed(l, c.disk, c.lh, |c.lh|) && c.cache == map[]
    case Finish => onDisk == [] && c.lh == [] && c.cache == map[] && SameHome(l, c.disk, cur)
    case ReadHead => c.lh == [] && c.cache == map[] && dur == cur
  }

  ghost predicate CoreInv(l: Layout, c: Core, dur: Disk, cur: Disk) {
    && GoodDisk(l, c.disk) && l.Fits(c.lh)
    && (c.committing <==> Committing(c.phase))
    && (c.outstanding > 0 ==> c.phase == Idle)
    && SameHome(l, Recovered(l, c.disk), dur)
    && PhaseInv(l, c, dur, cur)
  }

  /** What one more disk write makes durable: the header write adds all that is pending, no other adds anything. */
  ghost function NextDurable(c: Core, dur: Disk, cur: Disk): Disk {
    if c.phase == CommitHead || c.phase == Finish then cur else dur
  }

  // ------------------------------------------------------------- the proofs

  /** With no transaction on it, a disk recovers to itself as far as home blocks go. */
  lemma RecoveredIdle(l: Layout, d: Disk)
    requires GoodDisk(l, d) && HeadOf(d[l.start]) == []
    ensures SameHome(l, Recovered(l, d), d)
  {}

  lemma SameHead(l: Layout, d: Disk, e: Disk)
    requires GoodDisk(l, d) && |e| == |d| && d[l.start] == e[l.start]
    ensures GoodDisk(l, e) && HeadOf(e[l.start]) == HeadOf(d[l.start])
  {}

  lemma AppendCoreInv(l: Layout, c: Core, dur: Disk, cur: Disk, b: nat, data: Block)
    requires CoreInv(l, c, dur, cur) && c.outstanding > 0 && l.Home(b) && l.Fits(AppendCore(c, b, data).lh)
    ensures CoreInv(l, AppendCore(c, b, data), dur, cur[b := data])
  {
    assert Shows(l, AppendCore(c, b, data), cur[b := data]);
  }

  /** Log blocks are not home blocks, and the header is not the block a copy goes to. */
  lemma CopyKeeps(l: Layout, c: Core, cur: Disk)
    requires GoodDisk(l, c.disk) && l.Fits(c.lh) && c.phase.CopyLog? && c.phase.tail < |c.lh| && Pinned(c)
    requires Shows(l, c, cur) && Copied(l, c, c.phase.tail)
    ensures var c' := AdvanceCore(l, c);
            && Shows(l, c', cur) && Copied(l, c', c.phase.tail + 1) && c'.disk[l.start] == c.disk[l.start] && |c'.disk| == |c.disk|
  {
    var c' := AdvanceCore(l, c);
    assert !l.Home(l.start + c.phase.tail + 1);
    forall b: nat | l.Home(b) ensures CacheRead(c', b) == cur[b] {
      assert CacheRead(c, b) == cur[b];
    }
  }

  lemma CopyCoreInv(l: Layout, c: Core, dur: Disk, cur: Disk)
    requires CoreInv(l, c, dur, cur) && c.phase.CopyLog?
    ensures CoreInv(l, AdvanceCore(l, c), dur, cur)
  {
    hide HeadOf, Recovered, CacheRead;
    var c' := AdvanceCore(l, c);
    CopyKeeps(l, c, cur);
    SameHead(l, c.disk, c'.disk);
    RecoveredIdle(l, c.disk);
    RecoveredIdle(l, c'.disk);
    assert !l.Home(l.start + c.phase.tail + 1);
  }

  /** Once the header is on the disk, recovery would install what the pinned buffers show. */
  lemma HeadRecovered(l: Layout, c: Core, cur: Disk, d: Disk)
    requires GoodDisk(l, c.disk) && l.Fits(c.lh) && Pinned(c) && Shows(l, c, cur) && Copied(l, c, |c.lh|)
    requires d == c.disk[l.start := PutHead(c.disk[l.start], c.lh)]
    ensures GoodDisk(l, d) && HeadOf(d[l.start]) == c.lh && SameHome(l, Recovered(l, d), cur)
  {
    HeadRoundTrip(c.disk[l.start], c.lh);
    assert c.lh[..|c.lh|] == c.lh;
    forall b: nat | l.Home(b)
      ensures Recovered(l, d)[b] == cur[b]
    {
      if b in c.lh {
        InstallValue(l, d, c.lh, |c.lh|, b, c.cache[b]);
      } else {
        InstallElsewhere(l, d, c.lh, |c.lh|, b);
      }
    }
  }

  lemma HeadCoreInv(l: Layout, c: Core, dur: Disk, cur: Disk)
    requires CoreInv(l, c, dur, cur) && c.phase == CommitHead
    ensures CoreInv(l, AdvanceCore(l, c), cur, cur)
  {
    hide HeadOf, Recovered, PutHead;
    HeadRecovered(l, c, cur, AdvanceCore(l, c).disk);
    RestAll(c.lh);
  }

  lemma RestAll(lh: seq<nat>)
    ensures forall b :: b in lh ==> b in Rest(lh, 0)
  {}

  lemma InstallStep(l: Layout, c: Core)
    requires GoodDisk(l, c.disk) && l.Fits(c.lh) && CanAdvance(l, c) && c.phase.InstallHome? && Installed(l, c.disk, c.lh, c.phase.tail)
    ensures var d := AdvanceCore(l, c).disk;
            && GoodDisk(l, d) && Recovered(l, d) == Recovered(l, c.disk)
            && Installed(l, d, c.lh, c.phase.tail + 1)
  {
    hide HeadOf, Recovered, Install;
    var d := AdvanceCore(l, c).disk;
    assert !l.Home(l.start);
    SameHead(l, c.disk, d);
    RecoveredAgree(l, c.disk, d);
    InstallOneMore(l, c.disk, c.lh, c.phase.tail);
  }

  lemma RestSplit(lh: seq<nat>, t: nat)
    requires t < |lh|
    ensures Rest(lh, t) - {lh[t]} <= Rest(lh, t + 1) && Rest(lh, |lh|) == {}
  {}

  lemma InstallCache(c: Core, t: nat)
    requires t < |c.lh| && c.cache.Keys <= Rest(c.lh, t)
    ensures (c.cache - {c.lh[t]}).Keys <= Rest(c.lh, t + 1)
    ensures t + 1 == |c.lh| ==> c.cache - {c.lh[t]} == map[]
  {
    RestSplit(c.lh, t);
  }

  lemma InstallPhase(l: Layout, c: Core, dur: Disk, cur: Disk)
    requires GoodDisk(l, c.disk) && l.Fits(c.lh) && CanAdvance(l, c) && PhaseInv(l, c, dur, cur) && c.phase.InstallHome?
    ensures GoodDisk(l, AdvanceCore(l, c).disk) && PhaseInv(l, AdvanceCore(l, c), dur, cur)
    ensures Recovered(l, AdvanceCore(l, c).disk) == Recovered(l, c.disk)
  {
    hide HeadOf, Recovered, Installed, Rest;
    InstallStep(l, c);
    InstallCache(c, c.phase.tail);
  }

  lemma InstallCoreInv(l: Layout, c: Core, dur: Disk, cur: Disk)
    requires CoreInv(l, c, dur, cur) && c.phase.InstallHome?
    ensures CoreInv(l, AdvanceCore(l, c), dur, cur)
    ensures Recovered(l, AdvanceCore(l, c).disk) == Recovered(l, c.disk)
  {
    InstallPhase(l, c, dur, cur);
  }

  lemma EraseCoreInv(l: Layout, c: Core, dur: Disk, cur: Disk)
    requires CoreInv(l, c, dur, cur) && c.phase.EraseHead?
    ensures CoreInv(l, AdvanceCore(l, c), dur, cur)
    ensures AdvanceCore(l, c).disk == Recovered(l, c.disk)
    ensures Recovered(l, AdvanceCore(l, c).disk) == Recovered(l, c.disk)
  {
    hide HeadOf, Install;
    RecoveredErased(l, AdvanceCore(l, c).disk, c.disk[l.start]);
  }

  lemma FinishCoreInv(l: Layout, c: Core, dur: Disk, cur: Disk)
    requires CoreInv(l, c, dur, cur) && c.phase == Finish
    ensures CoreInv(l, AdvanceCore(l, c), cur, cur)
  {
    RecoveredIdle(l, c.disk);
  }

  lemma ReadCoreInv(l: Layout, c: Core, dur: Disk, cur: Disk)
    requires CoreInv(l, c, dur, cur) && c.phase == ReadHead
    ensures CoreInv(l, AdvanceCore(l, c), dur, cur)
    ensures Recovered(l, AdvanceCore(l, c).disk) == Recovered(l, c.disk)
  {
    hide Recovered, HeadOf;
  }

  lemma Movable(l: Layout, c: Core, dur: Disk, cur: Disk)
    requires CoreInv(l, c, dur, cur) && c.phase != Idle
    ensures CanAdvance(l, c)
  {
    hide Recovered, HeadOf;
  }

  /** Every disk write of commit and recovery keeps the invariant; only the header write changes what a crash would leave. */
  lemma AdvanceCoreInv(l: Layout, c: Core, dur: Disk, cur: Disk)
    requires CoreInv(l, c, dur, cur) && c.phase != Idle
    ensures CanAdvance(l, c) && CoreInv(l, AdvanceCore(l, c), NextDurable(c, dur, cur), cur)
    ensures Booting(c.phase) || c.phase.InstallHome? || c.phase.EraseHead?
            ==> Recovered(l, AdvanceCore(l, c).disk) == Recovered(l, c.disk)
  {
    hide CoreInv, CanAdvance, AdvanceCore, Recovered;
    Movable(l, c, dur, cur);
    match c.phase
    case CopyLog(_) => CopyCoreInv(l, c, dur, cur);
    case CommitHead => HeadCoreInv(l, c, dur, cur);
    case InstallHome(_, _) => InstallCoreInv(l, c, dur, cur);
    case EraseHead(_) => EraseCoreInv(l, c, dur, cur);
    case Finish => FinishCoreInv(l, c, dur, cur);
    case ReadHead => ReadCoreInv(l, c, dur, cur);
  }

  lemma CrashCoreInv(l: Layout, c: Core, dur: Disk, cur: Disk)
    requires CoreInv(l, c, dur, cur)
    ensures CoreInv(l, CrashCore(c), dur, dur)
  {}

  lemma EndCoreInv(l: Layout, c: Core, dur: Disk, cur: Disk)
    requires CoreInv(l, c, dur, cur) && c.outstanding > 0
    ensures EndCore(c).Next? && CoreInv(l, EndCore(c).state, dur, cur)
  {}
}
