/** One run of the process table's machine from boot to the end of a process, so that what `ProcTable`
    proves of all runs is not proved of none. */
module ProcLife {
  import opened ProcTable

  ghost predicate Leads(s: State, a: Action, s': State) {
    Enabled(s, a) && s' == Next(s, a)
  }

  function Init(status: Status, pc: PC, cpu: int): Proc {
    Proc(status, NOBODY, NOBODY, false, true, pc, false, false, false, cpu)
  }

  function Child(status: Status, parent: int, kstack: bool, pc: PC, cpu: int): Proc {
    Proc(status, parent, NOBODY, false, kstack, pc, false, false, false, cpu)
  }

  function Machine(a: Proc, b: Proc, c: Cpu, d: Cpu, lock: int): State {
    State([a, b], [c, d], lock)
  }

  /** A CPU that holds ptable.lock, and one that holds no lock. */
  function OneLock(mode: Mode, proc: int): Cpu {
    Cpu(mode, proc, 1, false, true)
  }

  function NoLock(mode: Mode, proc: int): Cpu {
    Cpu(mode, proc, 0, true, true)
  }

  function Start(): Cpu {
    Cpu(Idle, NOBODY, 0, false, false)
  }

  function User0(): Proc {
    Init(RUNNING, User, 0)
  }

  function Dying(cpu: int, intena: bool): Proc {
    Proc(ZOMBIE, INIT, NOBODY, false, true, Exited, false, true, intena, cpu)
  }

  /** From boot until init has forked. */
  function Youth(k: nat): State {
    match k
    case 0 => Machine(Init(RUNNABLE, New, NOBODY), Child(UNUSED, NOBODY, false, User, NOBODY), Start(), Start(), NOBODY)
    case 1 => Machine(Init(RUNNABLE, New, NOBODY), Child(UNUSED, NOBODY, false, User, NOBODY), OneLock(Picking, NOBODY), Start(), 0)
    case 2 => Machine(Init(RUNNING, New, 0), Child(UNUSED, NOBODY, false, User, NOBODY), OneLock(On, 0), Start(), 0)
    case 3 => Machine(User0(), Child(UNUSED, NOBODY, false, User, NOBODY), NoLock(On, 0), Start(), NOBODY)
    case 4 => Machine(Init(RUNNING, Unstacked(1), 0), Child(EMBRYO, NOBODY, false, User, NOBODY), NoLock(On, 0), Start(), NOBODY)
    case 5 => Machine(Init(RUNNING, Stacked(1), 0), Child(EMBRYO, NOBODY, true, User, NOBODY), NoLock(On, 0), Start(), NOBODY)
    case _ => Machine(Init(RUNNING, Parented(1), 0), Child(EMBRYO, INIT, true, User, NOBODY), NoLock(On, 0), Start(), NOBODY)
  }

  /** Until the child is about to end. */
  function Prime(k: nat): State {
    match k
    case 7 => Machine(User0(), Child(RUNNABLE, INIT, true, New, NOBODY), NoLock(On, 0), Start(), NOBODY)
    case 8 => Machine(User0(), Child(RUNNABLE, INIT, true, New, NOBODY), NoLock(On, 0), OneLock(Picking, NOBODY), 1)
    case 9 => Machine(User0(), Child(RUNNING, INIT, true, New, 1), NoLock(On, 0), OneLock(On, 1), 1)
    case 10 => Machine(User0(), Child(RUNNING, INIT, true, User, 1), NoLock(On, 0), NoLock(On, 1), NOBODY)
    case _ => Machine(User0(), Child(RUNNING, INIT, true, ExitScan(if k == 11 then 0 else if k == 12 then 1 else 2), 1), NoLock(On, 0), OneLock(On, 1), 1)
  }

  /** Until it is reaped. */
  function Age(k: nat): State {
    match k
    case 14 => Machine(User0(), Dying(1, false), NoLock(On, 0), OneLock(On, 1), 1)
    case 15 => Machine(User0(), Dying(1, true), NoLock(On, 0), OneLock(Left, 1), 1)
    case 16 => Machine(User0(), Dying(NOBODY, true), NoLock(On, 0), OneLock(Done, NOBODY), 1)
    case 17 => Machine(User0(), Dying(NOBODY, true), NoLock(On, 0), NoLock(Idle, NOBODY), NOBODY)
    case 18 => Machine(Init(RUNNING, WaitScan(0, false), 0), Dying(NOBODY, true), OneLock(On, 0), NoLock(Idle, NOBODY), 0)
    case 19 => Machine(Init(RUNNING, WaitScan(1, false), 0), Dying(NOBODY, true), OneLock(On, 0), NoLock(Idle, NOBODY), 0)
    case _ => Machine(User0(), Child(UNUSED, NOBODY, false, User, NOBODY).(intena := true), NoLock(On, 0), NoLock(Idle, NOBODY), NOBODY)
  }

  /** A whole life on a machine of two CPUs: init gets the first, forks, and waits; the child gets the
      second, exits, and is reaped. */
  function Life(k: nat): State {
    if k < 7 then Youth(k) else if k < 14 then Prime(k) else Age(k)
  }

  function Deed(k: nat): Action {
    match k
    case 0 => SchedLock(0) case 1 => Dispatch(0, 0) case 2 => Resume(0)
    case 3 => Alloc(0, 1) case 4 => GetStack(0) case 5 => SetParent(0) case 6 => Ready(0)
    case 7 => SchedLock(1) case 8 => Dispatch(1, 1) case 9 => Resume(1)
    case 10 => Exit(1) case 11 => ExitStep(1) case 12 => ExitStep(1) case 13 => ExitEnd(1)
    case 14 => Swtch(1) case 15 => Clear(1) case 16 => SchedUnlock(1)
    case 17 => Wait(0) case 18 => WaitStep(0) case _ => Reap(0)
  }

  /** A step of a machine of two processes and two CPUs, field by field. */
  lemma LeadsTo(s: State, a: Action, s': State)
    requires |s.procs| == |s'.procs| == 2 && |s.cpus| == |s'.cpus| == 2 && Enabled(s, a) && !OfNone(a) && a.c < 2
    requires s'.procs[0] == NextProc(s, a, 0) && s'.procs[1] == NextProc(s, a, 1)
    requires s'.cpus == s.cpus[a.c := NextCpu(s, a)] && s'.lock == NextLock(s, a)
    ensures Leads(s, a, s')
  {
    hide NextProc, NextCpu, NextLock, Enabled;
    NextAt(s, a, 0);
    NextAt(s, a, 1);
    assert s'.procs == Next(s, a).procs;
  }

  lemma BootPicks()
    ensures Leads(Life(0), Deed(0), Life(1))
  {
    hide Next, Leads, CanSleep, CanFork, CanExit, CanWait;
    LeadsTo(Life(0), Deed(0), Life(1));
  }

  lemma InitStarts()
    ensures Leads(Life(1), Deed(1), Life(2))
  {
    hide Next, Leads, CanSleep, CanFork, CanExit, CanWait;
    LeadsTo(Life(1), Deed(1), Life(2));
  }

  lemma InitResumes()
    ensures Leads(Life(2), Deed(2), Life(3))
  {
    hide Next, Leads, CanSched, CanFork, CanExit, CanWait;
    LeadsTo(Life(2), Deed(2), Life(3));
  }

  lemma InitAllocates()
    ensures Leads(Life(3), Deed(3), Life(4))
  {
    hide Next, Leads, CanSched, CanSleep, CanExit, CanWait;
    LeadsTo(Life(3), Deed(3), Life(4));
  }

  lemma InitStacks()
    ensures Leads(Life(4), Deed(4), Life(5))
  {
    hide Next, Leads, CanSched, CanSleep, CanExit, CanWait;
    LeadsTo(Life(4), Deed(4), Life(5));
  }

  lemma InitParents()
    ensures Leads(Life(5), Deed(5), Life(6))
  {
    hide Next, Leads, CanSched, CanSleep, CanExit, CanWait;
    LeadsTo(Life(5), Deed(5), Life(6));
  }

  lemma InitReadies()
    ensures Leads(Life(6), Deed(6), Life(7))
  {
    hide Next, Leads, CanSched, CanSleep, CanExit, CanWait;
    LeadsTo(Life(6), Deed(6), Life(7));
  }

  lemma CpuPicks()
    ensures Leads(Life(7), Deed(7), Life(8))
  {
    hide Next, Leads, CanSleep, CanFork, CanExit, CanWait;
    LeadsTo(Life(7), Deed(7), Life(8));
  }

  lemma ChildStarts()
    ensures Leads(Life(8), Deed(8), Life(9))
  {
    hide Next, Leads, CanSleep, CanFork, CanExit, CanWait;
    LeadsTo(Life(8), Deed(8), Life(9));
  }

  lemma ChildResumes()
    ensures Leads(Life(9), Deed(9), Life(10))
  {
    hide Next, Leads, CanSched, CanFork, CanExit, CanWait;
    LeadsTo(Life(9), Deed(9), Life(10));
  }

  lemma ChildExits()
    ensures Leads(Life(10), Deed(10), Life(11))
  {
    hide Next, Leads, CanSched, CanSleep, CanFork, CanWait;
    LeadsTo(Life(10), Deed(10), Life(11));
  }

  lemma ChildScans()
    ensures Leads(Life(11), Deed(11), Life(12))
  {
    hide Next, Leads, CanSched, CanSleep, CanFork, CanWait;
    LeadsTo(Life(11), Deed(11), Life(12));
  }

  lemma ChildScansOn()
    ensures Leads(Life(12), Deed(12), Life(13))
  {
    hide Next, Leads, CanSched, CanSleep, CanFork, CanWait;
    LeadsTo(Life(12), Deed(12), Life(13));
  }

  lemma ChildEnds()
    ensures Leads(Life(13), Deed(13), Life(14))
  {
    hide Next, Leads, CanSched, CanSleep, CanFork, CanWait;
    LeadsTo(Life(13), Deed(13), Life(14));
  }

  lemma ChildSwitches()
    ensures Leads(Life(14), Deed(14), Life(15))
  {
    hide Next, Leads, CanSleep, CanFork, CanExit, CanWait;
    LeadsTo(Life(14), Deed(14), Life(15));
  }

  lemma CpuClears()
    ensures Leads(Life(15), Deed(15), Life(16))
  {
    hide Next, Leads, CanSleep, CanFork, CanExit, CanWait;
    LeadsTo(Life(15), Deed(15), Life(16));
  }

  lemma CpuIdles()
    ensures Leads(Life(16), Deed(16), Life(17))
  {
    hide Next, Leads, CanSleep, CanFork, CanExit, CanWait;
    LeadsTo(Life(16), Deed(16), Life(17));
  }

  lemma InitWaits()
    ensures Leads(Life(17), Deed(17), Life(18))
  {
    hide Next, Leads, CanSched, CanSleep, CanFork, CanExit;
    LeadsTo(Life(17), Deed(17), Life(18));
  }

  lemma InitScans()
    ensures Leads(Life(18), Deed(18), Life(19))
  {
    hide Next, Leads, CanSched, CanSleep, CanFork, CanExit;
    LeadsTo(Life(18), Deed(18), Life(19));
  }

  lemma InitReaps()
    ensures Leads(Life(19), Deed(19), Life(20))
  {
    hide Next, Leads, CanSched, CanSleep, CanFork, CanExit;
    LeadsTo(Life(19), Deed(19), Life(20));
  }

  lemma LifeStep(k: nat)
    requires k < 20
    ensures Leads(Life(k), Deed(k), Life(k + 1))
  {
    hide Leads, Life, Deed;
    match k
    case 0 => BootPicks(); case 1 => InitStarts(); case 2 => InitResumes(); case 3 => InitAllocates();
    case 4 => InitStacks(); case 5 => InitParents(); case 6 => InitReadies(); case 7 => CpuPicks();
    case 8 => ChildStarts(); case 9 => ChildResumes(); case 10 => ChildExits(); case 11 => ChildScans();
    case 12 => ChildScansOn(); case 13 => ChildEnds(); case 14 => ChildSwitches(); case 15 => CpuClears();
    case 16 => CpuIdles(); case 17 => InitWaits(); case 18 => InitScans(); case _ => InitReaps();
  }

  /** A process made by fork runs, exits and is reaped in some run, so that what is proved above of all
      runs is not proved of none. */
  lemma ChildIsReaped() returns (run: seq<State>, acts: seq<Action>)
    ensures Run(run, acts) && |acts| == 20 && acts[19] == Reap(0)
    ensures |run[17].procs| == |run[20].procs| == 2 && run[17].procs[1].status == ZOMBIE && run[20].procs[1].status == UNUSED
  {
    hide Enabled, Next, Life, Deed, Initial;
    run, acts := seq(21, k requires 0 <= k < 21 => Life(k)), seq(20, k requires 0 <= k < 20 => Deed(k));
    LifeEnds();
    forall i | 0 <= i < 20 ensures Enabled(run[i], acts[i]) && run[i + 1] == Next(run[i], acts[i]) {
      LifeStep(i);
    }
  }

  lemma LifeEnds()
    ensures Initial(Life(0)) && Deed(19) == Reap(0) && |Life(17).procs| == |Life(20).procs| == 2
    ensures Life(17).procs[1].status == ZOMBIE && Life(20).procs[1].status == UNUSED
  {}

  // ------------------------------------------------------ a parent that sleeps

  /** Init asleep in wait. */
  function Asleep(cpu: int, intena: bool): Proc {
    Proc(SLEEPING, NOBODY, INIT, false, true, WaitSleep, false, true, intena, cpu)
  }

  function NewChild(): Proc {
    Child(RUNNABLE, INIT, true, New, NOBODY)
  }

  /** The same machine with one CPU at work: init forks and waits, and goes to sleep; its child gets the
      CPU and exits. */
  function Nap(k: nat): State {
    if k <= 7 then Life(k) else
      match k
      case 8 => Machine(Init(RUNNING, WaitScan(0, false), 0), NewChild(), OneLock(On, 0), Start(), 0)
      case 9 => Machine(Init(RUNNING, WaitScan(1, false), 0), NewChild(), OneLock(On, 0), Start(), 0)
      case 10 => Machine(Init(RUNNING, WaitScan(2, true), 0), NewChild(), OneLock(On, 0), Start(), 0)
      case 11 => Machine(Asleep(0, false), NewChild(), OneLock(On, 0), Start(), 0)
      case 12 => Machine(Asleep(0, true), NewChild(), OneLock(Left, 0), Start(), 0)
      case 13 => Machine(Asleep(NOBODY, true), NewChild(), OneLock(Done, NOBODY), Start(), 0)
      case 14 => Machine(Asleep(NOBODY, true), NewChild(), NoLock(Idle, NOBODY), Start(), NOBODY)
      case 15 => Machine(Asleep(NOBODY, true), NewChild(), OneLock(Picking, NOBODY), Start(), 0)
      case 16 => Machine(Asleep(NOBODY, true), Child(RUNNING, INIT, true, New, 0), OneLock(On, 1), Start(), 0)
      case 17 => Machine(Asleep(NOBODY, true), Child(RUNNING, INIT, true, User, 0), NoLock(On, 1), Start(), NOBODY)
      case _ => Machine(Asleep(NOBODY, true).(status := RUNNABLE), Child(RUNNING, INIT, true, ExitScan(0), 0), OneLock(On, 1), Start(), 0)
  }

  function NapDeed(k: nat): Action {
    if k < 7 then Deed(k) else
      match k
      case 7 => Wait(0) case 8 => WaitStep(0) case 9 => WaitStep(0) case 10 => WaitEnd(0)
      case 11 => Swtch(0) case 12 => Clear(0) case 13 => SchedUnlock(0) case 14 => SchedLock(0)
      case 15 => Dispatch(0, 1) case 16 => Resume(0) case _ => Exit(0)
  }

  lemma NapWaits()
    ensures Leads(Nap(7), NapDeed(7), Nap(8))
  {
    hide Next, Leads, CanSched, CanSleep, CanFork, CanExit;
    LeadsTo(Nap(7), NapDeed(7), Nap(8));
  }

  lemma NapScans(k: nat)
    requires 8 <= k < 10
    ensures Leads(Nap(k), NapDeed(k), Nap(k + 1))
  {
    hide Next, Leads, CanSched, CanSleep, CanFork, CanExit;
    LeadsTo(Nap(k), NapDeed(k), Nap(k + 1));
  }

  lemma NapSleeps()
    ensures Leads(Nap(10), NapDeed(10), Nap(11))
  {
    hide Next, Leads, CanSched, CanSleep, CanFork, CanExit;
    LeadsTo(Nap(10), NapDeed(10), Nap(11));
  }

  lemma NapSwitches()
    ensures Leads(Nap(11), NapDeed(11), Nap(12))
  {
    hide Next, Leads, CanSleep, CanFork, CanExit, CanWait;
    LeadsTo(Nap(11), NapDeed(11), Nap(12));
  }

  lemma NapClears()
    ensures Leads(Nap(12), NapDeed(12), Nap(13))
  {
    hide Next, Leads, CanSleep, CanFork, CanExit, CanWait;
    LeadsTo(Nap(12), NapDeed(12), Nap(13));
  }

  lemma NapIdles()
    ensures Leads(Nap(13), NapDeed(13), Nap(14))
  {
    hide Next, Leads, CanSleep, CanFork, CanExit, CanWait;
    LeadsTo(Nap(13), NapDeed(13), Nap(14));
  }

  lemma NapLocks()
    ensures Leads(Nap(14), NapDeed(14), Nap(15))
  {
    hide Next, Leads, CanSleep, CanFork, CanExit, CanWait;
    LeadsTo(Nap(14), NapDeed(14), Nap(15));
  }

  lemma NapPicks()
    ensures Leads(Nap(15), NapDeed(15), Nap(16))
  {
    hide Next, Leads, CanSleep, CanFork, CanExit, CanWait;
    LeadsTo(Nap(15), NapDeed(15), Nap(16));
  }

  lemma NapResumes()
    ensures Leads(Nap(16), NapDeed(16), Nap(17))
  {
    hide Next, Leads, CanSched, CanFork, CanExit, CanWait;
    LeadsTo(Nap(16), NapDeed(16), Nap(17));
  }

  lemma NapExits()
    ensures Leads(Nap(17), NapDeed(17), Nap(18))
  {
    hide Next, Leads, CanSched, CanSleep, CanFork, CanWait;
    LeadsTo(Nap(17), NapDeed(17), Nap(18));
  }

  lemma NapStep(k: nat)
    requires k < 18
    ensures Leads(Nap(k), NapDeed(k), Nap(k + 1))
  {
    hide Leads, Life, Deed;
    if k < 7 {
      LifeStep(k);
    } else if 8 <= k < 10 {
      NapScans(k);
    } else {
      match k
      case 7 => NapWaits(); case 10 => NapSleeps(); case 11 => NapSwitches(); case 12 => NapClears();
      case 13 => NapIdles(); case 14 => NapLocks(); case 15 => NapPicks(); case 16 => NapResumes(); case _ => NapExits();
    }
  }

  /** A parent goes to sleep in wait in some run, and its child's exit wakes it. */
  lemma ExitWakesParent() returns (run: seq<State>, acts: seq<Action>)
    ensures Run(run, acts) && |acts| == 18 && acts[17] == Exit(0) && run[17].cpus != [] && run[17].cpus[0].proc == 1
    ensures |run[17].procs| == |run[18].procs| == 2 && run[17].procs[1].parent == 0
    ensures InWait(run[17].procs[0]) && run[18].procs[0].status == RUNNABLE
  {
    hide Enabled, Next, Nap, NapDeed, Initial;
    run, acts := seq(19, k requires 0 <= k < 19 => Nap(k)), seq(18, k requires 0 <= k < 18 => NapDeed(k));
    NapEnds();
    forall i | 0 <= i < 18 ensures Enabled(run[i], acts[i]) && run[i + 1] == Next(run[i], acts[i]) {
      NapStep(i);
    }
  }

  lemma NapEnds()
    ensures Initial(Nap(0)) && NapDeed(17) == Exit(0) && |Nap(17).procs| == |Nap(18).procs| == 2
    ensures Nap(17).cpus != [] && Nap(17).cpus[0].proc == 1 && Nap(17).procs[1].parent == 0
    ensures InWait(Nap(17).procs[0]) && Nap(18).procs[0].status == RUNNABLE
  {}
}
