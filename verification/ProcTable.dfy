/** proc.c's process table on many CPUs: who holds ptable.lock, which CPU runs on which kernel stack,
    what each CPU knows of its interrupts, and the life of a process from allocproc to wait, cut where
    another CPU can act. */
module ProcTable {

  datatype Status = UNUSED | EMBRYO | SLEEPING | RUNNABLE | RUNNING | ZOMBIE

  /** Where a process stands; when it is switched out, where it will go on. */
  datatype PC =
    | User                            // outside all of the below
    | Unstacked(np: nat)              // fork, clone: allocproc has found np
    | Stacked(np: nat)                // np has a kernel stack
    | Parented(np: nat)               // np->parent is set
    | New                             // about to run forkret
    | Locked                          // holds a spin lock of its own, say lk
    | Sleepy(on: int)                 // sleep(on, lk) has ptable.lock as well as lk
    | InSleep                         // sleep() on a channel that is no process, without lk
    | ExitScan(i: nat)                // exit, holding ptable.lock, has seen the first i processes
    | Exited                          // state = ZOMBIE
    | WaitScan(i: nat, kids: bool)    // wait, holding ptable.lock, has seen the first i processes
    | WaitSleep                       // sleep() in wait

  /** sched: the process has called sched() and has not come back from it; intena is then what sched
      saved. yielding: it is in yield(). */
  datatype Proc = Proc(status: Status, parent: int, chan: int, killed: bool, kstack: bool, pc: PC,
                       yielding: bool, sched: bool, intena: bool, cpu: int)

  /** Idle runs the scheduler without ptable.lock; Picking has it and looks for a process; On runs a
      process on its own kernel stack; Left is back on the scheduler's stack with c->proc not yet
      cleared, and Done has cleared it and will release the lock. */
  datatype Mode = Idle | Picking | On | Left | Done

  /** fl is the interrupt flag of the CPU. */
  datatype Cpu = Cpu(mode: Mode, proc: int, ncli: nat, fl: bool, intena: bool) {
    /** pushcli */
    function Pushed(): Cpu {
      this.(ncli := ncli + 1, fl := false, intena := if ncli == 0 then fl else intena)
    }

    /** popcli */
    function Popped(): Cpu
      requires ncli > 0
    {
      this.(ncli := ncli - 1, fl := fl || (ncli == 1 && intena))
    }
  }

  /** lock is the CPU that holds ptable.lock, or -1. */
  datatype State = State(procs: seq<Proc>, cpus: seq<Cpu>, lock: int)

  const NOBODY: int := -1
  const INIT: int := 0

  datatype Action =
    | SchedLock(c: nat) | SchedUnlock(c: nat) | Dispatch(c: nat, p: nat) | Swtch(c: nat) | Clear(c: nat)
    | Yield(c: nat) | Resume(c: nat) | TakeLk(c: nat) | DropLk(c: nat) | SleepLock(c: nat, chan: int) | SleepGo(c: nat)
    | Wakeup(chan: int) | Kill(p: nat)
    | Alloc(c: nat, np: nat) | GetStack(c: nat) | Fail(c: nat) | SetParent(c: nat) | Ready(c: nat)
    | Exit(c: nat) | ExitStep(c: nat) | ExitEnd(c: nat)
    | Wait(c: nat) | WaitStep(c: nat) | Reap(c: nat) | WaitEnd(c: nat) | WaitAgain(c: nat)

  predicate Bounded(s: State) {
    && |s.procs| > 0
    && (forall c :: 0 <= c < |s.cpus| ==> NOBODY <= s.cpus[c].proc < |s.procs|)
    && (forall p :: 0 <= p < |s.procs| ==> NOBODY <= s.procs[p].cpu < |s.cpus|)
    && NOBODY <= s.lock < |s.cpus|
  }

  /** CPU c runs a process. */
  predicate Runs(s: State, c: nat) {
    Bounded(s) && c < |s.cpus| && s.cpus[c].mode == On && s.cpus[c].proc != NOBODY
  }

  function Cur(s: State, c: nat): Proc
    requires Runs(s, c)
  {
    s.procs[s.cpus[c].proc]
  }

  /** wakeup1 */
  function Wakened(pr: Proc, chan: int): Proc {
    if pr.status == SLEEPING && pr.chan == chan then pr.(status := RUNNABLE) else pr
  }

  predicate InFork(pc: PC) {
    pc.Unstacked? || pc.Stacked? || pc.Parented?
  }

  predicate InScan(pc: PC) {
    pc.ExitScan? || pc.WaitScan?
  }

  /** Process q after process me, exiting, has looked at slot i: a child of me now belongs to init, and
      init is woken if that child is a zombie. */
  function ExitStepped(s: State, me: int, i: nat, q: nat): Proc
    requires i < |s.procs| && q < |s.procs|
  {
    var pr := s.procs[q];
    if q == me then pr.(pc := ExitScan(i + 1))
    else if s.procs[i].parent != me then pr
    else if q == i then pr.(parent := INIT)
    else if s.procs[i].status == ZOMBIE then Wakened(pr, INIT)
    else pr
  }

  predicate Free(s: State, c: nat, pc: PC) {
    Runs(s, c) && s.lock == NOBODY && Cur(s, c).pc == pc
  }

  predicate Holds(s: State, c: nat) {
    Runs(s, c) && s.lock == c
  }

  // The actions by kind: of the scheduler, of sleep and yield, of fork, of exit, of wait, and of no
  // process on any CPU in particular.

  predicate OfSched(a: Action) {
    a.SchedLock? || a.SchedUnlock? || a.Dispatch? || a.Swtch? || a.Clear?
  }

  predicate OfSleep(a: Action) {
    a.Yield? || a.Resume? || a.TakeLk? || a.DropLk? || a.SleepLock? || a.SleepGo?
  }

  predicate OfFork(a: Action) {
    a.Alloc? || a.GetStack? || a.Fail? || a.SetParent? || a.Ready?
  }

  predicate OfExit(a: Action) {
    a.Exit? || a.ExitStep? || a.ExitEnd?
  }

  predicate OfWait(a: Action) {
    a.Wait? || a.WaitStep? || a.Reap? || a.WaitEnd? || a.WaitAgain?
  }

  predicate OfNone(a: Action) {
    a.Wakeup? || a.Kill?
  }

  predicate CanSched(s: State, a: Action)
    requires Bounded(s) && OfSched(a)
  {
    a.c < |s.cpus| && match a
    case SchedLock(c) => s.cpus[c].mode == Idle && s.lock == NOBODY
    case SchedUnlock(c) => (s.cpus[c].mode == Picking || s.cpus[c].mode == Done) && s.lock == c && s.cpus[c].ncli > 0
    case Dispatch(c, p) => p < |s.procs| && s.cpus[c].mode == Picking && s.lock == c && s.procs[p].status == RUNNABLE
    case Swtch(c) => Holds(s, c) && Cur(s, c).sched
    case Clear(c) => s.cpus[c].mode == Left && s.cpus[c].proc != NOBODY
  }

  predicate CanSleep(s: State, a: Action)
    requires Bounded(s) && OfSleep(a)
  {
    Runs(s, a.c) && match a
    case Yield(c) => s.lock == NOBODY && (Cur(s, c).pc == User || InFork(Cur(s, c).pc)) && s.cpus[c].fl
    case Resume(c) => s.lock == c && Cur(s, c).status == RUNNING && (Cur(s, c).yielding || Cur(s, c).pc == InSleep || Cur(s, c).pc == New) && s.cpus[c].ncli > 0
    case TakeLk(c) => s.lock != c && Cur(s, c).pc == User
    case DropLk(c) => s.lock != c && Cur(s, c).pc == Locked && s.cpus[c].ncli > 0
    case SleepLock(c, chan) => Free(s, c, Locked) && chan >= |s.procs|
    case SleepGo(c) => s.lock == c && Cur(s, c).pc.Sleepy? && s.cpus[c].ncli > 0
  }

  predicate CanFork(s: State, a: Action)
    requires Bounded(s) && OfFork(a)
  {
    Runs(s, a.c) && s.lock != a.c && match a
    case Alloc(c, np) => Free(s, c, User) && np < |s.procs| && s.procs[np].status == UNUSED
    case GetStack(c) => Cur(s, c).pc.Unstacked? && Cur(s, c).pc.np < |s.procs|
    case Fail(c) => (Cur(s, c).pc.Unstacked? || Cur(s, c).pc.Stacked?) && Cur(s, c).pc.np < |s.procs|
    case SetParent(c) => Cur(s, c).pc.Stacked? && Cur(s, c).pc.np < |s.procs|
    case Ready(c) => s.lock == NOBODY && Cur(s, c).pc.Parented? && Cur(s, c).pc.np < |s.procs|
  }

  predicate CanExit(s: State, a: Action)
    requires Bounded(s) && OfExit(a)
  {
    Runs(s, a.c) && match a
    case Exit(c) => Free(s, c, User) && s.cpus[c].proc != INIT
    case ExitStep(c) => s.lock == c && Cur(s, c).pc.ExitScan? && Cur(s, c).pc.i < |s.procs|
    case ExitEnd(c) => s.lock == c && Cur(s, c).pc.ExitScan? && Cur(s, c).pc.i >= |s.procs|
  }

  predicate CanWait(s: State, a: Action)
    requires Bounded(s) && OfWait(a)
  {
    Runs(s, a.c) && match a
    case Wait(c) => Free(s, c, User)
    case WaitStep(c) =>
      && s.lock == c && Cur(s, c).pc.WaitScan? && Cur(s, c).pc.i < |s.procs|
      && !(s.procs[Cur(s, c).pc.i].parent == s.cpus[c].proc && s.procs[Cur(s, c).pc.i].status == ZOMBIE)
    case Reap(c) =>
      && s.lock == c && Cur(s, c).pc.WaitScan? && Cur(s, c).pc.i < |s.procs| && s.cpus[c].ncli > 0
      && s.procs[Cur(s, c).pc.i].parent == s.cpus[c].proc && s.procs[Cur(s, c).pc.i].status == ZOMBIE
    case WaitEnd(c) => s.lock == c && Cur(s, c).pc.WaitScan? && Cur(s, c).pc.i >= |s.procs| && s.cpus[c].ncli > 0
    case WaitAgain(c) => s.lock == c && Cur(s, c).pc == WaitSleep && Cur(s, c).status == RUNNING
  }

  predicate Enabled(s: State, a: Action) {
    && Bounded(s)
    && (OfSched(a) ==> CanSched(s, a))
    && (OfSleep(a) ==> CanSleep(s, a))
    && (OfFork(a) ==> CanFork(s, a))
    && (OfExit(a) ==> CanExit(s, a))
    && (OfWait(a) ==> CanWait(s, a))
    && (a.Wakeup? ==> s.lock == NOBODY && a.chan >= |s.procs|)
    && (a.Kill? ==> a.p < |s.procs| && s.lock == NOBODY)
  }

  /** Whether wait, having seen the whole table, returns -1. */
  predicate GivesUp(pr: Proc) {
    pr.pc.WaitScan? && (!pr.pc.kids || pr.killed)
  }

  /** What the process that acts has become. */
  function Acted(s: State, a: Action, pr: Proc, me: int): (r: Proc)
    requires Enabled(s, a) && !a.Wakeup? && !a.Kill?
    ensures r.kstack == pr.kstack && r.parent == pr.parent && r.killed == pr.killed && (r.cpu == pr.cpu || r.cpu == NOBODY)
    ensures Alive(pr.status) && !a.ExitEnd? && !OfNone(a) ==> Alive(r.status)
  {
    match a
    case Swtch(c) => pr.(intena := s.cpus[c].intena)
    case Clear(_) => pr.(cpu := NOBODY)
    case Yield(_) => pr.(status := RUNNABLE, yielding := true, sched := true)
    case Resume(_) => if pr.yielding then pr.(yielding := false) else if pr.pc == InSleep then pr.(pc := User, chan := NOBODY) else pr.(pc := User)
    case TakeLk(_) => pr.(pc := Locked)
    case DropLk(_) => pr.(pc := User)
    case SleepLock(_, chan) => pr.(pc := Sleepy(chan))
    case SleepGo(_) => if pr.pc.Sleepy? then pr.(status := SLEEPING, chan := pr.pc.on, pc := InSleep, sched := true) else pr
    case Alloc(_, np) => pr.(pc := Unstacked(np))
    case GetStack(_) => if pr.pc.Unstacked? then pr.(pc := Stacked(pr.pc.np)) else pr
    case Fail(_) => pr.(pc := User)
    case SetParent(_) => if pr.pc.Stacked? then pr.(pc := Parented(pr.pc.np)) else pr
    case Ready(_) => pr.(pc := User)
    case Exit(_) => pr.(pc := ExitScan(0))
    case ExitStep(_) => if pr.pc.ExitScan? then pr.(pc := ExitScan(pr.pc.i + 1)) else pr
    case ExitEnd(_) => pr.(status := ZOMBIE, pc := Exited, sched := true)
    case Wait(_) => pr.(pc := WaitScan(0, false))
    case WaitStep(_) =>
      if pr.pc.WaitScan? && pr.pc.i < |s.procs| then pr.(pc := WaitScan(pr.pc.i + 1, pr.pc.kids || s.procs[pr.pc.i].parent == me)) else pr
    case Reap(_) => pr.(pc := User)
    case WaitEnd(_) => if GivesUp(pr) then pr.(pc := User) else pr.(status := SLEEPING, chan := me, pc := WaitSleep, sched := true)
    case WaitAgain(_) => pr.(chan := NOBODY, pc := WaitScan(0, false))
    case _ => pr
  }

  /** The slot that fork is filling. */
  function Slot(s: State, a: Action): nat
    requires Enabled(s, a) && OfFork(a)
  {
    if a.Alloc? then a.np else Cur(s, a.c).pc.np
  }

  /** What that slot has become. */
  function Made(a: Action, pr: Proc, me: int): Proc {
    match a
    case Alloc(_, _) => pr.(status := EMBRYO, chan := NOBODY)
    case GetStack(_) => pr.(kstack := true)
    case Fail(_) => pr.(kstack := false, status := UNUSED)
    case SetParent(_) => pr.(parent := me)
    case Ready(_) => pr.(status := RUNNABLE, pc := New)
    case _ => pr
  }

  /** What process q has become when another has acted, or a CPU or nobody in particular. */
  function Met(s: State, a: Action, q: nat): Proc
    requires Enabled(s, a) && q < |s.procs|
  {
    var pr := s.procs[q];
    if OfFork(a) then if q == Slot(s, a) then Made(a, pr, s.cpus[a.c].proc) else pr
    else match a
    case Dispatch(c, p) => if q == p then pr.(status := RUNNING, sched := false, cpu := c) else pr
    case Wakeup(chan) => Wakened(pr, chan)
    case Kill(p) => if q == p then pr.(killed := true, status := if pr.status == SLEEPING then RUNNABLE else pr.status) else pr
    case Exit(c) => Wakened(pr, Cur(s, c).parent)
    case ExitStep(c) => ExitStepped(s, s.cpus[c].proc, Cur(s, c).pc.i, q)
    case Reap(c) =>
      if q == Cur(s, c).pc.i then pr.(kstack := false, parent := NOBODY, killed := false, status := UNUSED, pc := User, sched := false) else pr
    case _ => pr
  }

  /** The process that acts: the one that the acting CPU runs, or has just left. */
  function Actor(s: State, a: Action): int
    requires Enabled(s, a)
  {
    if a.Wakeup? || a.Kill? || a.Dispatch? || a.SchedLock? || a.SchedUnlock? then NOBODY else s.cpus[a.c].proc
  }

  function NextProc(s: State, a: Action, q: nat): Proc
    requires Enabled(s, a) && q < |s.procs|
  {
    if q == Actor(s, a) then Acted(s, a, s.procs[q], q) else Met(s, a, q)
  }

  /** What the acting CPU has become: acquire and release push and pop. */
  function NextCpu(s: State, a: Action): Cpu
    requires Enabled(s, a) && !a.Wakeup? && !a.Kill?
  {
    var cpu := s.cpus[a.c];
    match a
    case SchedLock(_) => cpu.(fl := true).Pushed().(mode := Picking)
    case SchedUnlock(_) => cpu.Popped().(mode := Idle)
    case Dispatch(_, p) => cpu.(mode := On, proc := p, intena := if s.procs[p].sched then s.procs[p].intena else cpu.intena)
    case Swtch(_) => cpu.(mode := Left)
    case Clear(_) => cpu.(mode := Done, proc := NOBODY)
    case Yield(_) => cpu.(fl := false).Pushed()
    case Resume(c) => if Cur(s, c).yielding then cpu.Popped().(fl := true) else cpu.Popped()
    case TakeLk(_) => cpu.Pushed()
    case DropLk(_) => cpu.Popped()
    case SleepLock(_, _) => cpu.Pushed()
    case SleepGo(_) => cpu.Popped()
    case Exit(_) => cpu.Pushed()
    case Wait(_) => cpu.Pushed()
    case Reap(_) => cpu.Popped()
    case WaitEnd(c) => if GivesUp(Cur(s, c)) then cpu.Popped() else cpu
    case _ => cpu
  }

  function NextLock(s: State, a: Action): int
    requires Enabled(s, a)
  {
    match a
    case SchedLock(c) => c
    case SchedUnlock(_) => NOBODY
    case Yield(c) => c
    case Resume(_) => NOBODY
    case SleepLock(c, _) => c
    case Exit(c) => c
    case Wait(c) => c
    case Reap(_) => NOBODY
    case WaitEnd(c) => if GivesUp(Cur(s, c)) then NOBODY else s.lock
    case _ => s.lock
  }

  function Next(s: State, a: Action): State
    requires Enabled(s, a)
  {
    State(seq(|s.procs|, q requires 0 <= q < |s.procs| => NextProc(s, a, q)),
          if a.Wakeup? || a.Kill? then s.cpus else s.cpus[a.c := NextCpu(s, a)],
          NextLock(s, a))
  }

  /** userinit has made init and every CPU is about to enter its scheduler. */
  ghost predicate Initial(s: State) {
    && |s.procs| > 0 && s.lock == NOBODY
    && s.procs[0] == Proc(RUNNABLE, NOBODY, NOBODY, false, true, New, false, false, false, NOBODY)
    && (forall p :: 0 < p < |s.procs| ==> s.procs[p] == Proc(UNUSED, NOBODY, NOBODY, false, false, User, false, false, false, NOBODY))
    && forall c :: 0 <= c < |s.cpus| ==> s.cpus[c] == Cpu(Idle, NOBODY, 0, false, false)
  }

  ghost predicate Run(run: seq<State>, acts: seq<Action>) {
    && |run| == |acts| + 1 && Initial(run[0])
    && forall i :: 0 <= i < |acts| ==> Enabled(run[i], acts[i]) && run[i + 1] == Next(run[i], acts[i])
  }

  // ------------------------------------------------------------ the invariant

  predicate Alive(st: Status) {
    st == SLEEPING || st == RUNNABLE || st == RUNNING
  }

  predicate InWait(pr: Proc) {
    pr.status == SLEEPING && pr.pc == WaitSleep
  }

  /** The spin locks that a process at pc holds besides ptable.lock. */
  function Extra(pc: PC): nat {
    if pc == Locked || pc.Sleepy? then 1 else 0
  }

  /** What a process's fields say about each other. */
  predicate SelfOk(p: int, pr: Proc, n: int) {
    && NOBODY <= pr.parent < n && pr.parent != p && NOBODY <= pr.cpu
    && (pr.status == UNUSED ==> pr.parent == NOBODY)
    && (pr.status == UNUSED || pr.status == EMBRYO ==> pr.cpu == NOBODY && pr.pc == User && !pr.yielding)
    && (Alive(pr.status) || pr.status == ZOMBIE ==> pr.kstack && (p != INIT ==> pr.parent != NOBODY))
    && (pr.status == ZOMBIE <==> pr.pc == Exited)
    && (pr.status == SLEEPING ==> !pr.yielding && ((pr.pc == InSleep && pr.chan >= n) || (pr.pc == WaitSleep && pr.chan == p)))
    && (pr.status == RUNNABLE && !pr.yielding ==> pr.pc == New || pr.pc == InSleep || pr.pc == WaitSleep)
    && (pr.yielding ==> (pr.status == RUNNABLE || pr.status == RUNNING) && (pr.pc == User || InFork(pr.pc)))
    && (InScan(pr.pc) ==> pr.status == RUNNING && pr.pc.i <= n)
    && (pr.pc.ExitScan? ==> p != INIT)
    && (Extra(pr.pc) > 0 ==> pr.status == RUNNING && (pr.pc.Sleepy? ==> pr.pc.on >= n))
    && (pr.status == RUNNABLE && pr.pc == New ==> pr.cpu == NOBODY)
    && (pr.sched <==> pr.status == SLEEPING || pr.status == ZOMBIE || (pr.status == RUNNABLE && pr.pc != New))
  }

  /** The CPU that a process is on, and the lock it must hold there. */
  predicate SeatOk(s: State, p: int)
    requires Bounded(s) && 0 <= p < |s.procs|
  {
    var pr := s.procs[p];
    && (pr.cpu != NOBODY ==> s.cpus[pr.cpu].proc == p)
    && (pr.status == RUNNING ==> pr.cpu != NOBODY && s.cpus[pr.cpu].mode == On)
    && (pr.status != RUNNING && pr.cpu != NOBODY ==> s.lock == pr.cpu)
    && (InScan(pr.pc) || pr.pc.Sleepy? ==> s.lock == pr.cpu)
  }

  /** The child that a process in fork is making. */
  predicate ForkOk(s: State, p: int)
    requires 0 <= p < |s.procs|
  {
    var pc := s.procs[p].pc;
    InFork(pc) ==>
      && pc.np < |s.procs| && s.procs[pc.np].status == EMBRYO
      && s.procs[pc.np].parent == (if pc.Parented? then p else NOBODY)
      && (!pc.Unstacked? ==> s.procs[pc.np].kstack)
  }

  /** What holds of CPU c when lock holds ptable.lock and pr is the process it has, if it has one. */
  predicate CpuIs(c: int, cpu: Cpu, lock: int, pr: Proc) {
    && (cpu.mode == On || cpu.mode == Left <==> cpu.proc != NOBODY)
    && (cpu.proc != NOBODY ==> pr.cpu == c)
    && (cpu.mode == Picking || cpu.mode == Left || cpu.mode == Done ==> lock == c)
    && (cpu.mode == Idle ==> lock != c)
    && (cpu.mode == Left ==> pr.sched)
    && (cpu.mode == On ==> HereOk(pr, lock == c))
    && cpu.ncli == (if lock == c then 1 else 0) + (if cpu.mode == On then Extra(pr.pc) else 0)
    && (cpu.ncli > 0 ==> !cpu.fl)
  }

  predicate CpuOk(s: State, c: int)
    requires Bounded(s) && 0 <= c < |s.cpus|
  {
    CpuIs(c, s.cpus[c], s.lock, s.procs[if s.cpus[c].proc == NOBODY then 0 else s.cpus[c].proc])
  }

  /** What a process may be at on the CPU that runs it, with ptable.lock or without. */
  predicate HereOk(pr: Proc, holding: bool) {
    if holding then pr.status == RUNNING ==> pr.yielding || !(pr.pc == User || InFork(pr.pc) || pr.pc == Locked)
    else pr.status == RUNNING && !pr.yielding && (pr.pc == User || InFork(pr.pc) || pr.pc == Locked)
  }

  /** What a child's fields say about its parent's. */
  predicate ChildOk(p: int, pr: Proc, q: int, ch: Proc) {
    ch.parent == p ==>
      && Alive(pr.status)
      && (pr.pc.ExitScan? ==> q >= pr.pc.i)
      && (InWait(pr) ==> ch.status != ZOMBIE && !ch.pc.ExitScan?)
      && (pr.pc.WaitScan? && q < pr.pc.i ==> pr.pc.kids && ch.status != ZOMBIE)
  }

  /** No two processes make the same child. */
  predicate MakersOk(p: int, pr: Proc, q: int, ch: Proc) {
    InFork(pr.pc) && InFork(ch.pc) && pr.pc.np == ch.pc.np ==> p == q
  }

  predicate PairOk(p: int, pr: Proc, q: int, ch: Proc) {
    ChildOk(p, pr, q, ch) && MakersOk(p, pr, q, ch)
  }

  ghost predicate Inv(s: State) {
    && Bounded(s)
    && (forall c :: 0 <= c < |s.cpus| ==> CpuOk(s, c))
    && (forall p :: 0 <= p < |s.procs| ==> SelfOk(p, s.procs[p], |s.procs|))
    && (forall p :: 0 <= p < |s.procs| ==> SeatOk(s, p))
    && (forall p :: 0 <= p < |s.procs| ==> ForkOk(s, p))
    && (forall p, q :: 0 <= p < |s.procs| && 0 <= q < |s.procs| ==> PairOk(p, s.procs[p], q, s.procs[q]))
    && Alive(s.procs[INIT].status) && s.procs[INIT].parent == NOBODY
  }

  // ------------------------------------------------------------- the proofs

  lemma InitialInv(s: State)
    requires Initial(s)
    ensures Inv(s)
  {
    hide PairOk, SelfOk, ForkOk;
    forall p | 0 <= p < |s.procs| ensures SelfOk(p, s.procs[p], |s.procs|) && ForkOk(s, p) {
      InitialSelf(s, p);
    }
    forall p, q | 0 <= p < |s.procs| && 0 <= q < |s.procs| ensures PairOk(p, s.procs[p], q, s.procs[q]) {
      InitialPair(s, p, q);
    }
  }

  lemma InitialSelf(s: State, p: int)
    requires Initial(s) && 0 <= p < |s.procs|
    ensures SelfOk(p, s.procs[p], |s.procs|) && ForkOk(s, p)
  {}

  lemma InitialPair(s: State, p: int, q: int)
    requires Initial(s) && 0 <= p < |s.procs| && 0 <= q < |s.procs|
    ensures PairOk(p, s.procs[p], q, s.procs[q])
  {}

  lemma At(s: State, p: int)
    requires Inv(s) && 0 <= p < |s.procs|
    ensures SelfOk(p, s.procs[p], |s.procs|) && SeatOk(s, p) && ForkOk(s, p)
  {}

  lemma AtCpu(s: State, c: int)
    requires Inv(s) && 0 <= c < |s.cpus|
    ensures CpuOk(s, c)
  {}

  lemma AtPair(s: State, p: int, q: int)
    requires Inv(s) && 0 <= p < |s.procs| && 0 <= q < |s.procs|
    ensures PairOk(p, s.procs[p], q, s.procs[q])
  {}

  lemma InitAlive(s: State)
    requires Inv(s)
    ensures |s.procs| > 0 && Alive(s.procs[INIT].status) && s.procs[INIT].parent == NOBODY
  {}

  /** The process that acts runs on the CPU that acts, and the slot it works on is another's. */
  lemma Actors(s: State, a: Action)
    requires Inv(s) && Enabled(s, a)
    ensures var me := Actor(s, a);
            && NOBODY <= me < |s.procs|
            && (me != NOBODY ==> a.c < |s.cpus| && s.procs[me].cpu == a.c && SelfOk(me, s.procs[me], |s.procs|) && ForkOk(s, me))
    ensures !a.Wakeup? && !a.Kill? ==> a.c < |s.cpus| && CpuOk(s, a.c)
  {
    hide SeatOk, PairOk, SelfOk, ForkOk, HereOk, Extra;
    if !a.Wakeup? && !a.Kill? {
      AtCpu(s, a.c);
    }
    if Actor(s, a) != NOBODY {
      At(s, Actor(s, a));
    }
  }

  lemma NextAt(s: State, a: Action, q: int)
    requires Enabled(s, a) && 0 <= q < |s.procs|
    ensures |Next(s, a).procs| == |s.procs| && Next(s, a).procs[q] == NextProc(s, a, q)
  {
    hide NextProc, NextCpu, NextLock, Enabled;
  }

  // -- a process's own fields

  /** The process that acts. Its steps are of one kind at a time. */
  lemma ActedSelf(s: State, a: Action, me: int)
    requires Inv(s) && Enabled(s, a) && Actor(s, a) == me && 0 <= me < |s.procs|
    ensures SelfOk(me, NextProc(s, a, me), |s.procs|)
  {
    hide Inv, PairOk, SeatOk, Met, CanFork, CanExit, CanWait, CanSched, CanSleep, Acted, SelfOk;
    Actors(s, a);
    var pr := s.procs[me];
    if OfFork(a) {
      ForkSelf(s, a, me);
    } else if OfExit(a) || OfWait(a) {
      ScanSelf(s, a, me);
    } else {
      RestSelf(s, a, me);
    }
  }

  lemma ForkSelf(s: State, a: Action, me: int)
    requires Enabled(s, a) && OfFork(a) && Actor(s, a) == me && 0 <= me < |s.procs| && SelfOk(me, s.procs[me], |s.procs|) && CpuOk(s, a.c)
    ensures SelfOk(me, Acted(s, a, s.procs[me], me), |s.procs|)
  {
    hide CanExit, CanWait, CanSched, CanSleep;
  }

  lemma ExitSelf(s: State, a: Action, me: int)
    requires Enabled(s, a) && OfExit(a) && Actor(s, a) == me && 0 <= me < |s.procs| && SelfOk(me, s.procs[me], |s.procs|) && CpuOk(s, a.c)
    ensures SelfOk(me, Acted(s, a, s.procs[me], me), |s.procs|)
  {
    hide CanFork, CanSched, CanSleep, CanWait, GivesUp;
  }

  lemma WaitSelf(s: State, a: Action, me: int)
    requires Enabled(s, a) && OfWait(a) && Actor(s, a) == me && 0 <= me < |s.procs| && SelfOk(me, s.procs[me], |s.procs|) && CpuOk(s, a.c)
    ensures SelfOk(me, Acted(s, a, s.procs[me], me), |s.procs|)
  {
    hide CanFork, CanSched, CanSleep, CanExit;
  }

  lemma ScanSelf(s: State, a: Action, me: int)
    requires Enabled(s, a) && (OfExit(a) || OfWait(a)) && Actor(s, a) == me && 0 <= me < |s.procs| && SelfOk(me, s.procs[me], |s.procs|) && CpuOk(s, a.c)
    ensures SelfOk(me, Acted(s, a, s.procs[me], me), |s.procs|)
  {
    hide Enabled, SelfOk, Acted, CpuOk;
    if OfExit(a) {
      ExitSelf(s, a, me);
    } else {
      WaitSelf(s, a, me);
    }
  }

  lemma SchedSelf(s: State, a: Action, me: int)
    requires Enabled(s, a) && OfSched(a) && Actor(s, a) == me && 0 <= me < |s.procs| && SelfOk(me, s.procs[me], |s.procs|) && CpuOk(s, a.c)
    ensures SelfOk(me, Acted(s, a, s.procs[me], me), |s.procs|)
  {
    hide CanFork, CanExit, CanWait, CanSleep;
  }

  lemma SleepSelf(s: State, a: Action, me: int)
    requires Enabled(s, a) && OfSleep(a) && Actor(s, a) == me && 0 <= me < |s.procs| && SelfOk(me, s.procs[me], |s.procs|) && CpuOk(s, a.c)
    ensures SelfOk(me, Acted(s, a, s.procs[me], me), |s.procs|)
  {
    hide CanFork, CanExit, CanWait, CanSched;
  }

  lemma RestSelf(s: State, a: Action, me: int)
    requires Enabled(s, a) && (OfSched(a) || OfSleep(a)) && Actor(s, a) == me && 0 <= me < |s.procs| && SelfOk(me, s.procs[me], |s.procs|) && CpuOk(s, a.c)
    ensures SelfOk(me, Acted(s, a, s.procs[me], me), |s.procs|)
  {
    hide Enabled, SelfOk, Acted, CpuOk;
    if OfSched(a) {
      SchedSelf(s, a, me);
    } else {
      SleepSelf(s, a, me);
    }
  }

  /** Another process: the slot that fork fills, the child that wait frees, the process dispatched or
      killed, and those woken. */
  lemma MetSelf(s: State, a: Action, q: int)
    requires Inv(s) && Enabled(s, a) && Actor(s, a) != q && 0 <= q < |s.procs|
    ensures SelfOk(q, NextProc(s, a, q), |s.procs|)
  {
    hide Inv, PairOk, Enabled, SelfOk, Made, ExitStepped, CpuOk, SeatOk, ForkOk;
    At(s, q);
    if OfFork(a) {
      SlotFacts(s, a);
      if q == Slot(s, a) {
        MadeSelf(a, s.procs[q], q, Actor(s, a), |s.procs|);
      }
    } else if a.ExitStep? {
      ExitStepSelf(s, a, q);
    } else if a.Reap? {
      ReapSelf(s, a, q);
    } else {
      WakeSelf(s, a, q);
    }
  }

  /** The slot that fork fills. */
  lemma SlotFacts(s: State, a: Action)
    requires Inv(s) && Enabled(s, a) && OfFork(a)
    ensures var np, me := Slot(s, a), s.cpus[a.c].proc;
            && Actor(s, a) == me && 0 <= me < |s.procs| && np < |s.procs| && me != np && s.procs[me].status == RUNNING
            && s.procs[np].cpu == NOBODY && s.procs[np].pc == User
            && (if a.Alloc? then s.procs[np].status == UNUSED else s.procs[np].status == EMBRYO && InFork(s.procs[me].pc) && s.procs[me].pc.np == np)
            && (a.SetParent? || a.Ready? ==> s.procs[np].kstack) && (a.Ready? ==> s.procs[np].parent == me)
            && (a.GetStack? || a.Fail? || a.SetParent? ==> s.procs[np].parent == NOBODY)
            && SelfOk(np, s.procs[np], |s.procs|)
  {
    hide Inv, PairOk, CanExit, CanWait, CanSched, CanSleep;
    Actors(s, a);
    At(s, Slot(s, a));
  }

  lemma MadeSelf(a: Action, pr: Proc, np: int, me: int, n: int)
    requires SelfOk(np, pr, n) && OfFork(a) && 0 <= me < n && me != np && pr.cpu == NOBODY && pr.pc == User
    requires if a.Alloc? then pr.status == UNUSED else pr.status == EMBRYO
    requires a.Fail? ==> pr.parent == NOBODY
    requires a.Ready? ==> pr.kstack && pr.parent == me
    ensures SelfOk(np, Made(a, pr, me), n)
  {}

  lemma ExitStepSelf(s: State, a: Action, q: int)
    requires Inv(s) && Enabled(s, a) && a.ExitStep? && Actor(s, a) != q && 0 <= q < |s.procs| && SelfOk(q, s.procs[q], |s.procs|)
    ensures SelfOk(q, Met(s, a, q), |s.procs|)
  {
    hide Inv, PairOk, CanFork, CanWait, CanSched, CanSleep, CpuOk, SeatOk, ForkOk;
    InitAlive(s);
    AtPair(s, s.cpus[a.c].proc, q);
  }

  /** The zombie that wait frees is on no CPU. */
  lemma ReapFacts(s: State, a: Action)
    requires Inv(s) && Enabled(s, a) && a.Reap?
    ensures var i, me := Cur(s, a.c).pc.i, s.cpus[a.c].proc;
            && Actor(s, a) == me && 0 <= me < |s.procs| && i < |s.procs| && i != me && s.procs[i].status == ZOMBIE && s.procs[i].parent == me
            && s.procs[i].cpu == NOBODY && !s.procs[i].yielding && s.procs[i].pc == Exited && s.lock == a.c
  {
    hide Inv, PairOk, CanFork, CanExit, CanSched, CanSleep, HereOk, Extra;
    Actors(s, a);
    At(s, Cur(s, a.c).pc.i);
  }

  lemma ReapSelf(s: State, a: Action, q: int)
    requires Inv(s) && Enabled(s, a) && a.Reap? && Actor(s, a) != q && 0 <= q < |s.procs| && SelfOk(q, s.procs[q], |s.procs|)
    ensures SelfOk(q, Met(s, a, q), |s.procs|)
  {
    hide Inv, PairOk, Enabled, CpuOk, SeatOk, ForkOk;
    ReapFacts(s, a);
  }

  lemma WakeSelf(s: State, a: Action, q: int)
    requires Enabled(s, a) && !OfFork(a) && !a.ExitStep? && !a.Reap? && 0 <= q < |s.procs| && SelfOk(q, s.procs[q], |s.procs|)
    ensures SelfOk(q, Met(s, a, q), |s.procs|)
  {
    hide CanFork, CanExit, CanWait, CanSleep;
  }

  // -- the CPU a process is on

  lemma ActedSeat(s: State, a: Action, me: int)
    requires Inv(s) && Enabled(s, a) && Actor(s, a) == me && 0 <= me < |s.procs| && Bounded(Next(s, a))
    ensures SeatOk(Next(s, a), me)
  {
    hide Inv, PairOk, ForkOk, Next, NextProc, NextCpu, NextLock, Enabled, HereOk, Extra, Met;
    Actors(s, a);
    At(s, me);
    NextAt(s, a, me);
    NextLocked(s, a);
    CpusMove(s, a, a.c);
    if OfExit(a) || OfWait(a) {
      ScanSeat(s, a, me);
    } else {
      RestSeat(s, a, me);
    }
  }

  predicate SeatIs(c: int, cpu: Cpu, lock: int, p: int, pr: Proc) {
    && (pr.cpu == NOBODY || (pr.cpu == c && cpu.proc == p))
    && (pr.status == RUNNING ==> pr.cpu == c && cpu.mode == On)
    && (pr.status != RUNNING && pr.cpu != NOBODY ==> lock == c)
    && (InScan(pr.pc) || pr.pc.Sleepy? ==> lock == c && pr.cpu == c)
  }

  lemma ScanSeat(s: State, a: Action, me: int)
    requires Enabled(s, a) && (OfExit(a) || OfWait(a)) && Actor(s, a) == me && 0 <= me < |s.procs|
    requires CpuOk(s, a.c) && SelfOk(me, s.procs[me], |s.procs|) && SeatOk(s, me) && s.procs[me].cpu == a.c
    ensures SeatIs(a.c, NextCpu(s, a), NextLock(s, a), me, NextProc(s, a, me))
  {
    hide CanSched, CanSleep, CanFork, Met, Extra;
  }

  lemma RestSeat(s: State, a: Action, me: int)
    requires Enabled(s, a) && !OfExit(a) && !OfWait(a) && !OfNone(a) && Actor(s, a) == me && 0 <= me < |s.procs|
    requires CpuOk(s, a.c) && SelfOk(me, s.procs[me], |s.procs|) && SeatOk(s, me) && s.procs[me].cpu == a.c
    ensures SeatIs(a.c, NextCpu(s, a), NextLock(s, a), me, NextProc(s, a, me))
  {
    hide CanExit, CanWait, Met, Extra;
  }

  lemma OtherCpu(s: State, a: Action, q: int)
    requires Inv(s) && Enabled(s, a) && Actor(s, a) != q && 0 <= q < |s.procs| && s.procs[q].cpu != NOBODY
    ensures 0 <= s.procs[q].cpu < |s.cpus| && (!a.Wakeup? && !a.Kill? ==> s.procs[q].cpu != a.c)
  {
    hide PairOk, ForkOk, SelfOk, HereOk, Extra;
    assert SeatOk(s, q) && CpuOk(s, s.procs[q].cpu);
  }

  /** A process that is on a CPU, other than the one that acts, may lose its parent or be killed. */
  lemma Seated(s: State, a: Action, q: int)
    requires Inv(s) && Enabled(s, a) && Actor(s, a) != q && 0 <= q < |s.procs| && s.procs[q].cpu != NOBODY
    ensures var pr, pr' := s.procs[q], NextProc(s, a, q); pr' == pr.(parent := pr'.parent, killed := pr'.killed)
  {
    hide Inv, PairOk, HereOk, Extra, SelfOk, ForkOk, CpuOk, Enabled, Made, Acted;
    At(s, q);
    OtherCpu(s, a, q);
    if OfFork(a) {
      SlotFacts(s, a);
    } else if a.Reap? {
      ReapFacts(s, a);
    } else {
      Unlocked(s, a);
    }
  }

  /** Who may be woken by whom: nobody who still has a CPU. */
  lemma Unlocked(s: State, a: Action)
    requires Inv(s) && Enabled(s, a) && !OfFork(a) && !a.Reap?
    ensures a.Wakeup? || a.Kill? || a.Exit? ==> s.lock == NOBODY
    ensures a.ExitStep? || a.Dispatch? ==> s.lock == a.c
    ensures a.Dispatch? ==> a.p < |s.procs| && s.procs[a.p].status == RUNNABLE
  {
    hide Inv, CanSleep, CanFork, CanWait;
  }

  predicate Dispatched(a: Action, q: int) {
    a.Dispatch? && a.p == q
  }

  /** A process that is on no CPU stays so until it is dispatched. */
  lemma Unseated(s: State, a: Action, q: int)
    requires Inv(s) && Enabled(s, a) && Actor(s, a) != q && 0 <= q < |s.procs| && s.procs[q].cpu == NOBODY && !Dispatched(a, q)
    ensures var pr' := NextProc(s, a, q); pr'.cpu == NOBODY && pr'.status != RUNNING && !InScan(pr'.pc) && !pr'.pc.Sleepy?
  {
    hide Inv, PairOk, Enabled, Met, Acted, ForkOk;
    At(s, q);
    MetRest(s, a, q);
    MetCpu(s, a, q);
  }

  /** Nobody starts running, or gets into a scan, by what another does, except by being dispatched. */
  lemma MetRest(s: State, a: Action, q: int)
    requires Enabled(s, a) && 0 <= q < |s.procs| && !Dispatched(a, q) && q != Actor(s, a)
    ensures var pr, pr' := s.procs[q], Met(s, a, q);
            (pr'.status == RUNNING ==> pr.status == RUNNING) && (pr'.pc == pr.pc || pr'.pc == User || pr'.pc == New)
  {
    hide Enabled;
  }

  /** ptable.lock is taken or released by the CPU that acts. */
  lemma LockMoves(s: State, a: Action)
    requires Enabled(s, a)
    ensures s.lock != NextLock(s, a) ==> !a.Wakeup? && !a.Kill? && a.c < |s.cpus| && (NextLock(s, a) == a.c || NextLock(s, a) == NOBODY)
                                         && (s.lock == NOBODY || s.lock == a.c)
  {}

  lemma CpusWide(s: State, a: Action)
    requires Enabled(s, a)
    ensures |Next(s, a).cpus| == |s.cpus|
  {
    hide NextProc, NextCpu, NextLock;
  }

  lemma CpusMove(s: State, a: Action, d: int)
    requires Enabled(s, a) && 0 <= d < |s.cpus|
    ensures |Next(s, a).cpus| == |s.cpus| && |Next(s, a).procs| == |s.procs|
    ensures Next(s, a).cpus[d] == if !a.Wakeup? && !a.Kill? && d == a.c then NextCpu(s, a) else s.cpus[d]
  {
    hide NextProc, NextCpu, NextLock;
  }

  lemma MetSeat(s: State, a: Action, q: int)
    requires Inv(s) && Enabled(s, a) && Actor(s, a) != q && 0 <= q < |s.procs| && Bounded(Next(s, a))
    ensures SeatOk(Next(s, a), q)
  {
    hide Inv, PairOk, ForkOk, SelfOk, Met, Acted, NextLock;
    At(s, q);
    if Dispatched(a, q) {
      DispatchSeat(s, a, q);
    } else if s.procs[q].cpu == NOBODY {
      Unseated(s, a, q);
    } else {
      Seated(s, a, q);
      OtherCpu(s, a, q);
      CpusMove(s, a, s.procs[q].cpu);
      LockMoves(s, a);
    }
  }

  lemma DispatchSeat(s: State, a: Action, q: int)
    requires Inv(s) && Enabled(s, a) && 0 <= q < |s.procs| && Dispatched(a, q) && Bounded(Next(s, a))
    ensures SeatOk(Next(s, a), q)
  {
    At(s, q);
  }

  // -- the child being made

  /** A slot being filled changes only by the process that fills it, or by being killed. */
  lemma EmbryoKept(s: State, a: Action, np: int)
    requires Inv(s) && Enabled(s, a) && 0 <= np < |s.procs| && s.procs[np].status == EMBRYO
    requires OfFork(a) ==> Slot(s, a) != np
    requires a.ExitStep? ==> s.procs[np].parent != Actor(s, a)
    ensures var pr, pr' := s.procs[np], NextProc(s, a, np); pr' == pr.(killed := pr'.killed)
  {
    hide Inv, PairOk, ForkOk, CanFork, Made, HereOk, Extra;
    Actors(s, a);
    At(s, np);
  }

  /** The process that fills it. */
  lemma MakerStep(s: State, a: Action)
    requires Inv(s) && Enabled(s, a) && OfFork(a) && 0 <= Actor(s, a) < |s.procs|
    ensures ForkOk(Next(s, a), Actor(s, a))
  {
    hide Inv, PairOk, CpuOk, SeatOk, CanExit, CanWait, CanSched, CanSleep, Next;
    SlotFacts(s, a);
    At(s, Actor(s, a));
    NextAt(s, a, Actor(s, a));
    NextAt(s, a, Slot(s, a));
  }

  /** Who is making which child: only allocproc starts on one. */
  lemma NextMaker(s: State, a: Action, q: int)
    requires Inv(s) && Enabled(s, a) && 0 <= q < |s.procs|
    ensures var pc, pc' := s.procs[q].pc, NextProc(s, a, q).pc;
            && (InFork(pc') ==> (InFork(pc) && pc'.np == pc.np) || (a.Alloc? && q == Actor(s, a) && pc' == Unstacked(a.np)))
            && (InFork(pc') && !(OfFork(a) && q == Actor(s, a)) ==> pc' == pc)
  {
    hide Inv, Enabled, Acted, Met;
    if q == Actor(s, a) {
      ActedMaker(s, a, s.procs[q], q);
    } else {
      MetMaker(s, a, q);
    }
  }

  lemma ActedMaker(s: State, a: Action, pr: Proc, me: int)
    requires Enabled(s, a) && !a.Wakeup? && !a.Kill?
    ensures var pc' := Acted(s, a, pr, me).pc;
            && (InFork(pc') ==> (InFork(pr.pc) && pc'.np == pr.pc.np) || (a.Alloc? && pc' == Unstacked(a.np)))
            && (InFork(pc') && !OfFork(a) ==> pc' == pr.pc)
  {
    hide Enabled, GivesUp;
    if !OfFork(a) {
      ActedElse(s, a, pr, me);
    }
  }

  lemma ActedExit(s: State, a: Action, pr: Proc, me: int)
    requires Enabled(s, a) && OfExit(a)
    ensures var pc' := Acted(s, a, pr, me).pc; InFork(pc') ==> pc' == pr.pc
  {
    hide Enabled, GivesUp, Cur;
  }

  lemma ActedWaitStep(s: State, a: Action, pr: Proc, me: int)
    requires Enabled(s, a) && (a.WaitStep? || a.WaitEnd?)
    ensures var pc' := Acted(s, a, pr, me).pc; InFork(pc') ==> pc' == pr.pc
  {
    hide Enabled, GivesUp, Cur;
  }

  lemma ActedWait(s: State, a: Action, pr: Proc, me: int)
    requires Enabled(s, a) && OfWait(a)
    ensures var pc' := Acted(s, a, pr, me).pc; InFork(pc') ==> pc' == pr.pc
  {
    hide Enabled, GivesUp, Cur;
    if a.WaitStep? || a.WaitEnd? {
      ActedWaitStep(s, a, pr, me);
    }
  }

  lemma ActedRest(s: State, a: Action, pr: Proc, me: int)
    requires Enabled(s, a) && !a.Wakeup? && !a.Kill? && !OfFork(a) && !OfExit(a) && !OfWait(a)
    ensures var pc' := Acted(s, a, pr, me).pc; InFork(pc') ==> pc' == pr.pc
  {
    hide Enabled, GivesUp, Cur;
  }

  lemma ActedElse(s: State, a: Action, pr: Proc, me: int)
    requires Enabled(s, a) && !a.Wakeup? && !a.Kill? && !OfFork(a)
    ensures var pc' := Acted(s, a, pr, me).pc; InFork(pc') ==> pc' == pr.pc
  {
    hide Enabled, Acted, InFork;
    if OfExit(a) {
      ActedExit(s, a, pr, me);
    } else if OfWait(a) {
      ActedWait(s, a, pr, me);
    } else {
      ActedRest(s, a, pr, me);
    }
  }

  lemma MadeMaker(a: Action, pr: Proc)
    ensures forall me :: Made(a, pr, me).pc == pr.pc || Made(a, pr, me).pc == New
  {}

  lemma MetMaker(s: State, a: Action, q: int)
    requires Enabled(s, a) && 0 <= q < |s.procs|
    ensures var pr' := Met(s, a, q); pr'.pc == s.procs[q].pc || !InFork(pr'.pc)
  {
    hide Enabled, Made;
    MadeMaker(a, s.procs[q]);
  }

  lemma StepFork(s: State, a: Action, q: int)
    requires Inv(s) && Enabled(s, a) && 0 <= q < |s.procs|
    ensures ForkOk(Next(s, a), q)
  {
    hide Inv, CpuOk, SeatOk, SelfOk, PairOk, Enabled, NextProc;
    if OfFork(a) && q == Actor(s, a) {
      MakerStep(s, a);
    } else {
      At(s, q);
      NextMaker(s, a, q);
      if InFork(NextProc(s, a, q).pc) {
        NotMine(s, a, q);
        EmbryoKept(s, a, s.procs[q].pc.np);
      }
    }
  }

  /** What another process makes is not what the process that acts makes, nor its child. */
  lemma NotMine(s: State, a: Action, q: int)
    requires Inv(s) && Enabled(s, a) && 0 <= q < |s.procs| && InFork(s.procs[q].pc) && !(OfFork(a) && q == Actor(s, a))
    ensures s.procs[q].pc.np < |s.procs| && s.procs[s.procs[q].pc.np].status == EMBRYO
    ensures OfFork(a) ==> Slot(s, a) != s.procs[q].pc.np
    ensures a.ExitStep? ==> s.procs[s.procs[q].pc.np].parent != Actor(s, a)
  {
    hide Inv, CpuOk, SeatOk, SelfOk, ChildOk, CanSched, CanSleep, CanWait;
    At(s, q);
    if OfFork(a) {
      SlotFacts(s, a);
      AtPair(s, Actor(s, a), q);
    }
  }

  /** The CPU that acts. */
  lemma ActCpu(s: State, a: Action)
    requires Inv(s) && Enabled(s, a) && !OfNone(a) && Bounded(Next(s, a))
    ensures a.c < |s.cpus| && CpuOk(Next(s, a), a.c)
  {
    hide Inv, PairOk, SeatOk, SelfOk, CpuOk, ForkOk, Enabled, NextProc, NextCpu, NextLock;
    Actors(s, a);
    NextSeats(s, a);
    var p := NextCpu(s, a).proc;
    CpusMove(s, a, a.c);
    NextLocked(s, a);
    NextAt(s, a, if p == NOBODY then 0 else p);
    var pr := NextProc(s, a, if p == NOBODY then 0 else p);
    if OfSched(a) {
      if a.Dispatch? {
        DispatchTo(s, a);
      }
      SchedCpu(s, a, pr);
    } else if OfSleep(a) {
      SleepCpu(s, a, pr);
    } else if OfFork(a) {
      ForkCpu(s, a, pr);
    } else if OfExit(a) {
      ExitCpu(s, a, pr);
    } else {
      WaitCpu(s, a, pr);
    }
    assert CpuOk(Next(s, a), a.c) by {
      CpuSays(Next(s, a), a.c);
    }
  }

  lemma CpuSays(s: State, c: int)
    requires Bounded(s) && 0 <= c < |s.cpus|
    ensures CpuOk(s, c) <==> CpuIs(c, s.cpus[c], s.lock, s.procs[if s.cpus[c].proc == NOBODY then 0 else s.cpus[c].proc])
  {}

  lemma DispatchTo(s: State, a: Action)
    requires Inv(s) && Enabled(s, a) && a.Dispatch?
    ensures a.p < |s.procs| && SelfOk(a.p, s.procs[a.p], |s.procs|)
  {
    hide CanSleep, CanFork, CanExit, CanWait;
  }

  lemma SchedCpu(s: State, a: Action, pr: Proc)
    requires Enabled(s, a) && OfSched(a) && (a.Dispatch? ==> a.p < |s.procs| && SelfOk(a.p, s.procs[a.p], |s.procs|)) && CpuOk(s, a.c)
    requires Actor(s, a) != NOBODY ==> SelfOk(Actor(s, a), s.procs[Actor(s, a)], |s.procs|)
    requires NextCpu(s, a).proc != NOBODY ==> NextCpu(s, a).proc < |s.procs| && pr == NextProc(s, a, NextCpu(s, a).proc)
    ensures CpuIs(a.c, NextCpu(s, a), NextLock(s, a), pr)
  {
    hide CanSleep, CanFork, CanExit, CanWait;
  }

  lemma SleepCpu(s: State, a: Action, pr: Proc)
    requires Enabled(s, a) && OfSleep(a) && CpuOk(s, a.c) && (Actor(s, a) != NOBODY ==> SelfOk(Actor(s, a), s.procs[Actor(s, a)], |s.procs|))
    requires NextCpu(s, a).proc != NOBODY ==> NextCpu(s, a).proc < |s.procs| && pr == NextProc(s, a, NextCpu(s, a).proc)
    ensures CpuIs(a.c, NextCpu(s, a), NextLock(s, a), pr)
  {
    hide CanSched, CanFork, CanExit, CanWait, Met;
  }

  lemma ForkCpu(s: State, a: Action, pr: Proc)
    requires Enabled(s, a) && OfFork(a) && CpuOk(s, a.c) && (Actor(s, a) != NOBODY ==> SelfOk(Actor(s, a), s.procs[Actor(s, a)], |s.procs|))
    requires NextCpu(s, a).proc != NOBODY ==> NextCpu(s, a).proc < |s.procs| && pr == NextProc(s, a, NextCpu(s, a).proc)
    ensures CpuIs(a.c, NextCpu(s, a), NextLock(s, a), pr)
  {
    hide CanSched, CanSleep, CanExit, CanWait, Met;
  }

  lemma ExitCpu(s: State, a: Action, pr: Proc)
    requires Enabled(s, a) && OfExit(a) && CpuOk(s, a.c) && (Actor(s, a) != NOBODY ==> SelfOk(Actor(s, a), s.procs[Actor(s, a)], |s.procs|))
    requires NextCpu(s, a).proc != NOBODY ==> NextCpu(s, a).proc < |s.procs| && pr == NextProc(s, a, NextCpu(s, a).proc)
    ensures CpuIs(a.c, NextCpu(s, a), NextLock(s, a), pr)
  {
    hide CanSched, CanSleep, CanFork, CanWait, Met;
  }

  lemma WaitEndCpu(s: State, a: Action, pr: Proc)
    requires Enabled(s, a) && a.WaitEnd? && CpuOk(s, a.c) && (Actor(s, a) != NOBODY ==> SelfOk(Actor(s, a), s.procs[Actor(s, a)], |s.procs|))
    requires NextCpu(s, a).proc != NOBODY ==> NextCpu(s, a).proc < |s.procs| && pr == NextProc(s, a, NextCpu(s, a).proc)
    ensures CpuIs(a.c, NextCpu(s, a), NextLock(s, a), pr)
  {
    hide CanSched, CanSleep, CanFork, CanExit, Met, GivesUp;
  }

  lemma WaitReapCpu(s: State, a: Action, pr: Proc)
    requires Enabled(s, a) && (a.Reap? || a.Wait?) && CpuOk(s, a.c) && (Actor(s, a) != NOBODY ==> SelfOk(Actor(s, a), s.procs[Actor(s, a)], |s.procs|))
    requires NextCpu(s, a).proc != NOBODY ==> NextCpu(s, a).proc < |s.procs| && pr == NextProc(s, a, NextCpu(s, a).proc)
    ensures CpuIs(a.c, NextCpu(s, a), NextLock(s, a), pr)
  {
    hide CanSched, CanSleep, CanFork, CanExit, Met, GivesUp;
  }

  lemma WaitScanCpu(s: State, a: Action, pr: Proc)
    requires Enabled(s, a) && (a.WaitStep? || a.WaitAgain?) && CpuOk(s, a.c) && (Actor(s, a) != NOBODY ==> SelfOk(Actor(s, a), s.procs[Actor(s, a)], |s.procs|))
    requires NextCpu(s, a).proc != NOBODY ==> NextCpu(s, a).proc < |s.procs| && pr == NextProc(s, a, NextCpu(s, a).proc)
    ensures CpuIs(a.c, NextCpu(s, a), NextLock(s, a), pr)
  {
    hide CanSched, CanSleep, CanFork, CanExit, Met, GivesUp;
  }

  lemma WaitCpu(s: State, a: Action, pr: Proc)
    requires Enabled(s, a) && OfWait(a) && CpuOk(s, a.c) && (Actor(s, a) != NOBODY ==> SelfOk(Actor(s, a), s.procs[Actor(s, a)], |s.procs|))
    requires NextCpu(s, a).proc != NOBODY ==> NextCpu(s, a).proc < |s.procs| && pr == NextProc(s, a, NextCpu(s, a).proc)
    ensures CpuIs(a.c, NextCpu(s, a), NextLock(s, a), pr)
  {
    hide Enabled, CpuOk, CpuIs, SelfOk, NextCpu, NextLock, NextProc;
    if a.WaitEnd? {
      WaitEndCpu(s, a, pr);
    } else if a.Reap? || a.Wait? {
      WaitReapCpu(s, a, pr);
    } else {
      WaitScanCpu(s, a, pr);
    }
  }

  lemma OtherCpuKept(s: State, a: Action, d: int)
    requires Inv(s) && Enabled(s, a) && 0 <= d < |s.cpus| && (!a.Wakeup? && !a.Kill? ==> d != a.c) && Bounded(Next(s, a))
    ensures CpuOk(Next(s, a), d)
  {
    hide Inv, PairOk, ForkOk, SelfOk, SeatOk, Extra, NextProc, NextLock, NextCpu, Next, Enabled;
    AtCpu(s, d);
    NextLocked(s, a);
    LockMoves(s, a);
    CpusMove(s, a, d);
    if s.cpus[d].proc != NOBODY {
      NotActor(s, a, d);
      Seated(s, a, s.cpus[d].proc);
      NextAt(s, a, s.cpus[d].proc);
    }
  }

  lemma NextLocked(s: State, a: Action)
    requires Enabled(s, a)
    ensures Next(s, a).lock == NextLock(s, a)
  {
    hide NextProc, NextCpu, NextLock, Enabled;
  }

  lemma NotActor(s: State, a: Action, d: int)
    requires Inv(s) && Enabled(s, a) && 0 <= d < |s.cpus| && (!a.Wakeup? && !a.Kill? ==> d != a.c) && s.cpus[d].proc != NOBODY
    ensures 0 <= s.cpus[d].proc < |s.procs| && s.procs[s.cpus[d].proc].cpu == d && Actor(s, a) != s.cpus[d].proc
  {
    hide PairOk, ForkOk, SelfOk, SeatOk, HereOk, Extra;
    assert CpuOk(s, d);
    if Actor(s, a) != NOBODY {
      assert CpuOk(s, a.c);
    }
  }

  lemma StepCpu(s: State, a: Action, d: int)
    requires Inv(s) && Enabled(s, a) && 0 <= d < |s.cpus| && Bounded(Next(s, a)) && |Next(s, a).cpus| == |s.cpus|
    ensures CpuOk(Next(s, a), d)
  {
    hide Inv, CpuOk, Next;
    if !a.Wakeup? && !a.Kill? && d == a.c {
      ActCpu(s, a);
    } else {
      OtherCpuKept(s, a, d);
    }
  }

  // -- two processes

  lemma StepMakers(s: State, a: Action, p: int, q: int)
    requires Inv(s) && Enabled(s, a) && 0 <= p < |s.procs| && 0 <= q < |s.procs|
    ensures MakersOk(p, NextProc(s, a, p), q, NextProc(s, a, q))
  {
    hide Inv, CpuOk, SeatOk, ChildOk, SelfOk, NextProc, Enabled;
    At(s, p);
    At(s, q);
    AtPair(s, p, q);
    AtPair(s, q, p);
    NextMaker(s, a, p);
    NextMaker(s, a, q);
    if a.Alloc? {
      SlotFacts(s, a);
    }
  }

  /** Neither process acts. */
  lemma ChildMet(s: State, a: Action, p: int, q: int)
    requires Inv(s) && Enabled(s, a) && 0 <= p < |s.procs| && 0 <= q < |s.procs| && Actor(s, a) != p && Actor(s, a) != q
    ensures ChildOk(p, Met(s, a, p), q, Met(s, a, q))
  {
    hide Inv, CpuOk, SeatOk, NextProc, Acted, MakersOk, ForkOk, Enabled, ExitStepped, ChildOk, SelfOk;
    At(s, p);
    At(s, q);
    AtPair(s, p, q);
    if OfFork(a) {
      SlotFacts(s, a);
      ForkChildMet(s, a, p, q);
    } else if a.ExitStep? {
      ExitStepChild(s, a, p, q);
    } else if a.Reap? {
      ReapFacts(s, a);
      ReapChild(s, a, p, q);
    } else {
      Unlocked(s, a);
      WakeChild(s, a, p, q);
    }
  }

  lemma ForkChildMet(s: State, a: Action, p: int, q: int)
    requires Enabled(s, a) && OfFork(a) && 0 <= p < |s.procs| && 0 <= q < |s.procs| && s.cpus[a.c].proc != p && Slot(s, a) < |s.procs|
    requires ChildOk(p, s.procs[p], q, s.procs[q]) && s.procs[Slot(s, a)].pc == User
    requires !Alive(s.procs[Slot(s, a)].status) && s.procs[Slot(s, a)].status != ZOMBIE
    ensures ChildOk(p, Met(s, a, p), q, Met(s, a, q))
  {
    hide Enabled;
  }

  lemma ExitStepChild(s: State, a: Action, p: int, q: int)
    requires Inv(s) && Enabled(s, a) && a.ExitStep? && 0 <= p < |s.procs| && 0 <= q < |s.procs| && Actor(s, a) != p && Actor(s, a) != q
    requires ChildOk(p, s.procs[p], q, s.procs[q]) && SelfOk(p, s.procs[p], |s.procs|) && SelfOk(q, s.procs[q], |s.procs|)
    ensures ChildOk(p, Met(s, a, p), q, Met(s, a, q))
  {
    hide Inv, CpuOk, SeatOk, NextProc, Acted, MakersOk, ForkOk, CanFork, CanWait, CanSched, CanSleep;
    InitAlive(s);
    OneScans(s, a.c, p);
    OneScans(s, a.c, q);
  }

  /** While a CPU scans the table no process on another does. */
  lemma OneScans(s: State, c: nat, q: int)
    requires Inv(s) && Runs(s, c) && s.lock == c && 0 <= q < |s.procs| && q != s.cpus[c].proc
    ensures !InScan(s.procs[q].pc)
  {
    hide PairOk, CpuOk, SelfOk, ForkOk;
    assert SeatOk(s, q);
  }

  lemma ReapChild(s: State, a: Action, p: int, q: int)
    requires Enabled(s, a) && a.Reap? && 0 <= p < |s.procs| && 0 <= q < |s.procs| && Cur(s, a.c).pc.i < |s.procs|
    requires ChildOk(p, s.procs[p], q, s.procs[q]) && s.procs[Cur(s, a.c).pc.i].status == ZOMBIE
    ensures ChildOk(p, Met(s, a, p), q, Met(s, a, q))
  {
    hide Enabled;
  }

  /** A process that has been woken, killed or dispatched, or left alone. */
  predicate Touched(pr: Proc, pr': Proc) {
    && pr'.pc == pr.pc && pr'.parent == pr.parent && pr'.chan == pr.chan
    && (pr'.status == pr.status || (pr.status == SLEEPING && pr'.status == RUNNABLE) || (pr.status == RUNNABLE && pr'.status == RUNNING))
  }

  lemma MetTouches(s: State, a: Action, q: int)
    requires Enabled(s, a) && !OfFork(a) && !a.ExitStep? && !a.Reap? && 0 <= q < |s.procs|
    requires a.Dispatch? ==> a.p < |s.procs| && s.procs[a.p].status == RUNNABLE
    ensures Touched(s.procs[q], Met(s, a, q))
  {
    hide Enabled, Cur;
  }

  lemma TouchedChild(p: int, pr: Proc, pr': Proc, q: int, ch: Proc, ch': Proc)
    requires ChildOk(p, pr, q, ch) && Touched(pr, pr') && Touched(ch, ch')
    ensures ChildOk(p, pr', q, ch')
  {}

  lemma WakeChild(s: State, a: Action, p: int, q: int)
    requires Enabled(s, a) && !OfFork(a) && !a.ExitStep? && !a.Reap? && 0 <= p < |s.procs| && 0 <= q < |s.procs|
    requires ChildOk(p, s.procs[p], q, s.procs[q]) && (a.Dispatch? ==> a.p < |s.procs| && s.procs[a.p].status == RUNNABLE)
    ensures ChildOk(p, Met(s, a, p), q, Met(s, a, q))
  {
    hide Enabled, Met, ChildOk, Touched;
    MetTouches(s, a, p);
    MetTouches(s, a, q);
    TouchedChild(p, s.procs[p], Met(s, a, p), q, s.procs[q], Met(s, a, q));
  }

  /** The parent acts. */
  lemma ChildActs(s: State, a: Action, q: int)
    requires Inv(s) && Enabled(s, a) && 0 <= Actor(s, a) < |s.procs| && 0 <= q < |s.procs|
    ensures var me := Actor(s, a); ChildOk(me, NextProc(s, a, me), q, NextProc(s, a, q))
  {
    hide Inv, CpuOk, SeatOk, MakersOk, ChildOk, Enabled, SelfOk, ForkOk, NextProc;
    Actors(s, a);
    At(s, q);
    AtPair(s, Actor(s, a), q);
    if OfFork(a) {
      ForkChildActs(s, a, q);
    } else if OfExit(a) || OfWait(a) {
      if q != Actor(s, a) {
        ScanningAlone(s, a, q);
      }
      ScanChildActs(s, a, q);
    } else {
      RestChildActs(s, a, q);
    }
  }

  lemma ScanningAlone(s: State, a: Action, q: int)
    requires Inv(s) && Enabled(s, a) && (OfExit(a) || OfWait(a)) && 0 <= q < |s.procs| && q != Actor(s, a)
    ensures s.lock == a.c ==> !InScan(s.procs[q].pc)
  {
    hide Inv, CanFork, CanSched, CanSleep;
    if s.lock == a.c {
      OneScans(s, a.c, q);
    }
  }

  lemma ForkChildActs(s: State, a: Action, q: int)
    requires Inv(s) && Enabled(s, a) && OfFork(a) && 0 <= Actor(s, a) < |s.procs| && 0 <= q < |s.procs|
    requires ChildOk(Actor(s, a), s.procs[Actor(s, a)], q, s.procs[q])
    ensures var me := Actor(s, a); ChildOk(me, NextProc(s, a, me), q, NextProc(s, a, q))
  {
    hide Inv, CpuOk, SeatOk, CanExit, CanWait, CanSched, CanSleep;
    SlotFacts(s, a);
  }

  lemma ExitChildActs(s: State, a: Action, q: int)
    requires Enabled(s, a) && OfExit(a) && 0 <= Actor(s, a) < |s.procs| && 0 <= q < |s.procs| && CpuOk(s, a.c)
    requires SelfOk(Actor(s, a), s.procs[Actor(s, a)], |s.procs|) && SelfOk(q, s.procs[q], |s.procs|)
    requires q != Actor(s, a) && s.lock == a.c ==> !InScan(s.procs[q].pc)
    requires ChildOk(Actor(s, a), s.procs[Actor(s, a)], q, s.procs[q])
    ensures var me := Actor(s, a); ChildOk(me, NextProc(s, a, me), q, NextProc(s, a, q))
  {
    hide CanFork, CanSched, CanSleep, CanWait, GivesUp;
  }

  lemma WaitChildActs(s: State, a: Action, q: int)
    requires Enabled(s, a) && OfWait(a) && 0 <= Actor(s, a) < |s.procs| && 0 <= q < |s.procs| && CpuOk(s, a.c)
    requires SelfOk(Actor(s, a), s.procs[Actor(s, a)], |s.procs|) && SelfOk(q, s.procs[q], |s.procs|)
    requires q != Actor(s, a) && s.lock == a.c ==> !InScan(s.procs[q].pc)
    requires ChildOk(Actor(s, a), s.procs[Actor(s, a)], q, s.procs[q])
    ensures var me := Actor(s, a); ChildOk(me, NextProc(s, a, me), q, NextProc(s, a, q))
  {
    hide CanFork, CanSched, CanSleep, CanExit;
  }

  lemma ScanChildActs(s: State, a: Action, q: int)
    requires Enabled(s, a) && (OfExit(a) || OfWait(a)) && 0 <= Actor(s, a) < |s.procs| && 0 <= q < |s.procs| && CpuOk(s, a.c)
    requires SelfOk(Actor(s, a), s.procs[Actor(s, a)], |s.procs|) && SelfOk(q, s.procs[q], |s.procs|)
    requires q != Actor(s, a) && s.lock == a.c ==> !InScan(s.procs[q].pc)
    requires ChildOk(Actor(s, a), s.procs[Actor(s, a)], q, s.procs[q])
    ensures var me := Actor(s, a); ChildOk(me, NextProc(s, a, me), q, NextProc(s, a, q))
  {
    hide Enabled, SelfOk, CpuOk, ChildOk, NextProc;
    if OfExit(a) {
      ExitChildActs(s, a, q);
    } else {
      WaitChildActs(s, a, q);
    }
  }

  lemma RestChildActs(s: State, a: Action, q: int)
    requires Enabled(s, a) && (OfSched(a) || OfSleep(a)) && 0 <= Actor(s, a) < |s.procs| && 0 <= q < |s.procs| && CpuOk(s, a.c)
    requires SelfOk(Actor(s, a), s.procs[Actor(s, a)], |s.procs|)
    requires ChildOk(Actor(s, a), s.procs[Actor(s, a)], q, s.procs[q])
    ensures var me := Actor(s, a); ChildOk(me, NextProc(s, a, me), q, NextProc(s, a, q))
  {
    hide CanFork, CanExit, CanWait, HereOk;
  }

  /** The child acts. */
  lemma ChildActed(s: State, a: Action, p: int)
    requires Inv(s) && Enabled(s, a) && 0 <= Actor(s, a) < |s.procs| && 0 <= p < |s.procs| && p != Actor(s, a)
    ensures var me := Actor(s, a); ChildOk(p, Met(s, a, p), me, NextProc(s, a, me))
  {
    hide Inv, CpuOk, SeatOk, MakersOk, ChildOk, Enabled, SelfOk, ForkOk, NextProc, Met;
    Actors(s, a);
    At(s, p);
    AtPair(s, p, Actor(s, a));
    if OfFork(a) {
      SlotFacts(s, a);
      ForkChildActed(s, a, p);
    } else if a.Reap? {
      ReapFacts(s, a);
      ReapChildActed(s, a, p);
    } else if OfExit(a) || OfWait(a) {
      ScanChildActed(s, a, p);
    } else {
      RestChildActed(s, a, p);
    }
  }

  lemma ForkChildActed(s: State, a: Action, p: int)
    requires Enabled(s, a) && OfFork(a) && 0 <= Actor(s, a) < |s.procs| && 0 <= p < |s.procs| && p != Actor(s, a) && Slot(s, a) < |s.procs|
    requires !Alive(s.procs[Slot(s, a)].status) && ChildOk(p, s.procs[p], Actor(s, a), s.procs[Actor(s, a)]) && s.procs[Actor(s, a)].status == RUNNING
    ensures var me := Actor(s, a); ChildOk(p, Met(s, a, p), me, NextProc(s, a, me))
  {
    hide Enabled;
  }

  lemma ReapChildActed(s: State, a: Action, p: int)
    requires Enabled(s, a) && a.Reap? && 0 <= Actor(s, a) < |s.procs| && 0 <= p < |s.procs| && p != Actor(s, a) && Cur(s, a.c).pc.i < |s.procs|
    requires s.procs[Cur(s, a.c).pc.i].status == ZOMBIE && ChildOk(p, s.procs[p], Actor(s, a), s.procs[Actor(s, a)])
    ensures var me := Actor(s, a); ChildOk(p, Met(s, a, p), me, NextProc(s, a, me))
  {
    hide Enabled;
  }

  lemma ExitChildActed(s: State, a: Action, p: int)
    requires Inv(s) && Enabled(s, a) && OfExit(a) && !a.Reap? && 0 <= Actor(s, a) < |s.procs| && 0 <= p < |s.procs| && p != Actor(s, a)
    requires SelfOk(Actor(s, a), s.procs[Actor(s, a)], |s.procs|) && SelfOk(p, s.procs[p], |s.procs|)
    requires ChildOk(p, s.procs[p], Actor(s, a), s.procs[Actor(s, a)])
    ensures var me := Actor(s, a); ChildOk(p, Met(s, a, p), me, NextProc(s, a, me))
  {
    hide Inv, CanFork, CanSched, CanSleep, CanWait, GivesUp, CpuOk, SeatOk;
    ScanningAlone(s, a, p);
  }

  lemma WaitChildActed(s: State, a: Action, p: int)
    requires Inv(s) && Enabled(s, a) && OfWait(a) && !a.Reap? && 0 <= Actor(s, a) < |s.procs| && 0 <= p < |s.procs| && p != Actor(s, a)
    requires SelfOk(Actor(s, a), s.procs[Actor(s, a)], |s.procs|) && SelfOk(p, s.procs[p], |s.procs|)
    requires ChildOk(p, s.procs[p], Actor(s, a), s.procs[Actor(s, a)])
    ensures var me := Actor(s, a); ChildOk(p, Met(s, a, p), me, NextProc(s, a, me))
  {
    hide Inv, CanFork, CanSched, CanSleep, CanExit, CpuOk, SeatOk;
    ScanningAlone(s, a, p);
  }

  lemma ScanChildActed(s: State, a: Action, p: int)
    requires Inv(s) && Enabled(s, a) && (OfExit(a) || OfWait(a)) && !a.Reap? && 0 <= Actor(s, a) < |s.procs| && 0 <= p < |s.procs| && p != Actor(s, a)
    requires SelfOk(Actor(s, a), s.procs[Actor(s, a)], |s.procs|) && SelfOk(p, s.procs[p], |s.procs|)
    requires ChildOk(p, s.procs[p], Actor(s, a), s.procs[Actor(s, a)])
    ensures var me := Actor(s, a); ChildOk(p, Met(s, a, p), me, NextProc(s, a, me))
  {
    hide Inv, Enabled, SelfOk, ChildOk, NextProc, Met;
    if OfExit(a) {
      ExitChildActed(s, a, p);
    } else {
      WaitChildActed(s, a, p);
    }
  }

  lemma RestChildActed(s: State, a: Action, p: int)
    requires Enabled(s, a) && (OfSched(a) || OfSleep(a)) && 0 <= Actor(s, a) < |s.procs| && 0 <= p < |s.procs| && p != Actor(s, a) && CpuOk(s, a.c)
    requires SelfOk(Actor(s, a), s.procs[Actor(s, a)], |s.procs|)
    requires ChildOk(p, s.procs[p], Actor(s, a), s.procs[Actor(s, a)])
    ensures var me := Actor(s, a); ChildOk(p, Met(s, a, p), me, NextProc(s, a, me))
  {
    hide CanFork, CanExit, CanWait;
  }

  lemma StepPair(s: State, a: Action, p: int, q: int)
    requires Inv(s) && Enabled(s, a) && 0 <= p < |s.procs| && 0 <= q < |s.procs|
    ensures PairOk(p, NextProc(s, a, p), q, NextProc(s, a, q))
  {
    hide Inv, MakersOk, ChildOk, Enabled, Met, Acted;
    StepMakers(s, a, p, q);
    if Actor(s, a) == p {
      ChildActs(s, a, q);
    } else if Actor(s, a) == q {
      ChildActed(s, a, p);
    } else {
      ChildMet(s, a, p, q);
    }
  }

  // -- all of it

  lemma NextSeat(s: State, a: Action, q: int)
    requires Inv(s) && Enabled(s, a) && 0 <= q < |s.procs|
    ensures NOBODY <= NextProc(s, a, q).cpu < |s.cpus|
  {
    hide Inv, Acted, Met;
    if q == Actor(s, a) {
      ActedCpu(s, a, s.procs[q], q);
    } else {
      MetCpu(s, a, q);
    }
    Widest(s, a);
  }

  lemma Widest(s: State, a: Action)
    requires Enabled(s, a)
    ensures a.Dispatch? ==> a.c < |s.cpus|
  {
    hide CanFork, CanExit, CanWait, CanSleep;
  }

  lemma ActedCpu(s: State, a: Action, pr: Proc, me: int)
    requires Enabled(s, a) && !a.Wakeup? && !a.Kill?
    ensures Acted(s, a, pr, me).cpu == pr.cpu || Acted(s, a, pr, me).cpu == NOBODY
  {
    hide Enabled, Acted;
  }

  lemma MetCpu(s: State, a: Action, q: int)
    requires Enabled(s, a) && 0 <= q < |s.procs|
    ensures Met(s, a, q).cpu == if Dispatched(a, q) then a.c else s.procs[q].cpu
  {
    hide Enabled;
  }

  lemma NextSeats(s: State, a: Action)
    requires Inv(s) && Enabled(s, a) && !a.Wakeup? && !a.Kill?
    ensures NOBODY <= NextCpu(s, a).proc < |s.procs| && NOBODY <= NextLock(s, a) < |s.cpus|
  {
    hide Inv, PairOk, ForkOk, SelfOk, HereOk, Extra, SeatOk;
    Actors(s, a);
  }

  lemma Widths(s: State, a: Action)
    requires Inv(s) && Enabled(s, a)
    ensures Bounded(Next(s, a)) && |Next(s, a).cpus| == |s.cpus| && |Next(s, a).procs| == |s.procs|
  {
    hide PairOk, ForkOk, SelfOk, HereOk, Extra, SeatOk, CpuOk, NextProc, NextCpu, NextLock, Enabled, Next;
    var s' := Next(s, a);
    NextAt(s, a, 0);
    NextLocked(s, a);
    LockMoves(s, a);
    if !OfNone(a) {
      NextSeats(s, a);
    }
    forall q | 0 <= q < |s.procs| ensures NOBODY <= s'.procs[q].cpu < |s.cpus| {
      NextSeat(s, a, q);
      NextAt(s, a, q);
    }
    CpusWide(s, a);
    forall d | 0 <= d < |s.cpus| ensures NOBODY <= s'.cpus[d].proc < |s.procs| {
      CpusMove(s, a, d);
    }
  }

  /** init never dies. */
  lemma StepInit(s: State, a: Action)
    requires Inv(s) && Enabled(s, a)
    ensures |s.procs| > 0 && Alive(NextProc(s, a, INIT).status) && NextProc(s, a, INIT).parent == NOBODY
  {
    hide Inv, CpuOk, SeatOk, PairOk, HereOk, Acted, Met, ForkOk, Enabled;
    InitAlive(s);
    if Actor(s, a) == INIT {
      if a.ExitEnd? {
        Exiting(s, a);
        At(s, INIT);
      }
      ActedAlive(s, a, s.procs[INIT], INIT);
    } else {
      if OfFork(a) {
        SlotFacts(s, a);
      } else if a.Reap? {
        ReapFacts(s, a);
      } else if a.ExitStep? {
        Exiting(s, a);
      }
      MetAlive(s, a);
    }
  }

  lemma ActedAlive(s: State, a: Action, pr: Proc, me: int)
    requires Enabled(s, a) && !OfNone(a) && !a.ExitEnd? && Alive(pr.status)
    ensures var pr' := Acted(s, a, pr, me); Alive(pr'.status) && pr'.parent == pr.parent
  {
    hide Enabled, Acted;
  }

  lemma Exiting(s: State, a: Action)
    requires Enabled(s, a) && (a.ExitStep? || a.ExitEnd?)
    ensures 0 <= Actor(s, a) < |s.procs| && s.procs[Actor(s, a)].pc.ExitScan?
  {
    hide CanSched, CanSleep, CanFork, CanWait;
  }

  lemma MadeAlive(s: State, a: Action)
    requires Enabled(s, a) && OfFork(a) && |s.procs| > 0 && Alive(s.procs[INIT].status) && s.procs[INIT].parent == NOBODY
    requires Slot(s, a) < |s.procs| && !Alive(s.procs[Slot(s, a)].status)
    requires Actor(s, a) != INIT
    ensures Alive(Met(s, a, INIT).status) && Met(s, a, INIT).parent == NOBODY
  {
    hide Enabled, Made;
  }

  lemma ExitAlive(s: State, a: Action)
    requires Enabled(s, a) && (a.Exit? || a.ExitStep?) && |s.procs| > 0 && Alive(s.procs[INIT].status) && s.procs[INIT].parent == NOBODY
    requires a.ExitStep? ==> 0 <= s.cpus[a.c].proc
    requires Actor(s, a) != INIT
    ensures Alive(Met(s, a, INIT).status) && Met(s, a, INIT).parent == NOBODY
  {
    hide Enabled, Made;
  }

  lemma OtherAlive(s: State, a: Action)
    requires Enabled(s, a) && !OfFork(a) && !a.Exit? && !a.ExitStep? && |s.procs| > 0 && Alive(s.procs[INIT].status) && s.procs[INIT].parent == NOBODY
    requires a.Reap? ==> Cur(s, a.c).pc.i < |s.procs| && s.procs[Cur(s, a.c).pc.i].status == ZOMBIE
    requires Actor(s, a) != INIT
    ensures Alive(Met(s, a, INIT).status) && Met(s, a, INIT).parent == NOBODY
  {
    hide Enabled, Made;
  }

  lemma MetAlive(s: State, a: Action)
    requires Enabled(s, a) && |s.procs| > 0 && Alive(s.procs[INIT].status) && s.procs[INIT].parent == NOBODY
    requires OfFork(a) ==> Slot(s, a) < |s.procs| && !Alive(s.procs[Slot(s, a)].status)
    requires a.Reap? ==> Cur(s, a.c).pc.i < |s.procs| && s.procs[Cur(s, a.c).pc.i].status == ZOMBIE
    requires a.ExitStep? ==> 0 <= s.cpus[a.c].proc
    requires Actor(s, a) != INIT
    ensures Alive(Met(s, a, INIT).status) && Met(s, a, INIT).parent == NOBODY
  {
    hide Enabled, Met, Slot;
    if OfFork(a) {
      MadeAlive(s, a);
    } else if a.Exit? || a.ExitStep? {
      ExitAlive(s, a);
    } else {
      OtherAlive(s, a);
    }
  }

  lemma StepSelf(s: State, a: Action, q: int)
    requires Inv(s) && Enabled(s, a) && 0 <= q < |s.procs|
    ensures SelfOk(q, NextProc(s, a, q), |s.procs|)
  {
    hide Inv, SelfOk, Enabled, NextProc;
    if Actor(s, a) == q {
      ActedSelf(s, a, q);
    } else {
      MetSelf(s, a, q);
    }
  }

  lemma StepSeat(s: State, a: Action, q: int)
    requires Inv(s) && Enabled(s, a) && 0 <= q < |s.procs| && Bounded(Next(s, a)) && |Next(s, a).procs| == |s.procs|
    ensures SeatOk(Next(s, a), q)
  {
    hide Inv, SeatOk, Enabled, Next;
    if Actor(s, a) == q {
      ActedSeat(s, a, q);
    } else {
      MetSeat(s, a, q);
    }
  }

  lemma StepKeepsInv(s: State, a: Action)
    requires Inv(s) && Enabled(s, a)
    ensures Inv(Next(s, a))
  {
    hide CpuOk, SelfOk, SeatOk, ForkOk, PairOk, Enabled, NextProc, NextCpu, NextLock;
    Widths(s, a);
    var s' := Next(s, a);
    forall d | 0 <= d < |s.cpus| ensures CpuOk(s', d) {
      StepCpu(s, a, d);
    }
    forall q | 0 <= q < |s.procs| ensures SelfOk(q, s'.procs[q], |s.procs|) {
      StepSelf(s, a, q);
    }
    forall q | 0 <= q < |s.procs| ensures SeatOk(s', q) {
      StepSeat(s, a, q);
    }
    forall q | 0 <= q < |s.procs| ensures ForkOk(s', q) {
      StepFork(s, a, q);
    }
    forall p, q | 0 <= p < |s.procs| && 0 <= q < |s.procs| ensures PairOk(p, s'.procs[p], q, s'.procs[q]) {
      StepPair(s, a, p, q);
    }
    StepInit(s, a);
  }

  lemma {:induction false} RunInv(run: seq<State>, acts: seq<Action>, i: nat)
    requires Run(run, acts) && i < |run|
    ensures Inv(run[i])
  {
    hide Next, Inv, Enabled;
    if i == 0 {
      InitialInv(run[0]);
    } else {
      RunInv(run, acts, i - 1);
      assert run[i - 1 + 1] == Next(run[i - 1], acts[i - 1]);
      StepKeepsInv(run[i - 1], acts[i - 1]);
    }
  }

  // ----------------------------------------------------------- main results

  /** c->proc is p. */
  predicate CurrentOn(s: State, p: int, c: int)
    requires 0 <= c < |s.cpus|
  {
    s.cpus[c].proc == p
  }

  /** Whenever ptable.lock is free, a process is RUNNING if and only if some CPU has it as its
      current process, and no two CPUs have the same one. */
  lemma RunningMeansCurrent(run: seq<State>, acts: seq<Action>, i: nat, p: nat)
    requires Run(run, acts) && i < |run| && p < |run[i].procs|
    ensures var s := run[i];
            && (s.lock == NOBODY ==>
                  (s.procs[p].status == RUNNING <==> exists c :: 0 <= c < |s.cpus| && CurrentOn(s, p, c)))
            && (forall c, d :: 0 <= c < |s.cpus| && 0 <= d < |s.cpus| && CurrentOn(s, p, c) && CurrentOn(s, p, d) ==> c == d)
  {
    hide Next, Enabled, SelfOk, ForkOk, PairOk, Extra;
    RunInv(run, acts, i);
    var s := run[i];
    assert SeatOk(s, p);
    forall c | 0 <= c < |s.cpus| && CurrentOn(s, p, c) ensures s.procs[p].cpu == c && (s.lock == NOBODY ==> s.procs[p].status == RUNNING) {
      assert CpuOk(s, c);
    }
    if s.procs[p].cpu != NOBODY {
      assert CurrentOn(s, p, s.procs[p].cpu);
    }
  }

  /** No parent sleeps in wait while it has a zombie child, at any point of any run. */
  lemma NoZombieForgotten(run: seq<State>, acts: seq<Action>, i: nat, p: nat, q: nat)
    requires Run(run, acts) && i < |run| && p < |run[i].procs| && q < |run[i].procs|
    requires InWait(run[i].procs[p]) && run[i].procs[q].parent == p
    ensures run[i].procs[q].status != ZOMBIE
  {
    hide Next, Enabled, Inv;
    RunInv(run, acts, i);
    AtPair(run[i], p, q);
  }

  /** A process's parent is neither unused nor a zombie, and every process but init has one. */
  lemma ParentsLive(run: seq<State>, acts: seq<Action>, i: nat, q: nat)
    requires Run(run, acts) && i < |run| && q < |run[i].procs|
    ensures var s := run[i];
            && NOBODY <= s.procs[q].parent < |s.procs|
            && (s.procs[q].parent != NOBODY ==> Alive(s.procs[s.procs[q].parent].status))
            && ((Alive(s.procs[q].status) || s.procs[q].status == ZOMBIE) && q != INIT ==> s.procs[q].parent != NOBODY)
  {
    hide Next, Enabled, Inv;
    RunInv(run, acts, i);
    At(run[i], q);
    if run[i].procs[q].parent != NOBODY {
      AtPair(run[i], run[i].procs[q].parent, q);
    }
  }

  /** CPU c executes on the kernel stack of process p. */
  predicate OnStackOf(s: State, c: int, p: int)
    requires 0 <= c < |s.cpus|
  {
    s.cpus[c].mode == On && s.cpus[c].proc == p
  }

  /** A kernel stack in use is never freed: not by wait, which frees a zombie's, and not by a fork
      that fails; a CPU always runs on a stack that is allocated. */
  lemma StackOutlivesUse(run: seq<State>, acts: seq<Action>, i: nat, c: nat, p: nat)
    requires Run(run, acts) && i < |acts| && c < |run[i].cpus| && p < |run[i].procs|
    requires OnStackOf(run[i], c, p)
    ensures run[i].procs[p].kstack && p < |run[i + 1].procs| && run[i + 1].procs[p].kstack
  {
    hide Next, Enabled, Inv;
    RunInv(run, acts, i);
    assert Enabled(run[i], acts[i]) && run[i + 1] == Next(run[i], acts[i]);
    NextAt(run[i], acts[i], p);
    StackStep(run[i], acts[i], c, p);
  }

  lemma StackStep(s: State, a: Action, c: nat, p: nat)
    requires Inv(s) && Enabled(s, a) && c < |s.cpus| && p < |s.procs| && OnStackOf(s, c, p)
    ensures s.procs[p].kstack && NextProc(s, a, p).kstack
  {
    hide Inv, Enabled, PairOk, ForkOk, Met, Acted;
    AtCpu(s, c);
    At(s, p);
    if Actor(s, a) == p {
      ActedStack(s, a, s.procs[p], p);
    } else {
      Seated(s, a, p);
    }
  }

  lemma ActedStack(s: State, a: Action, pr: Proc, me: int)
    requires Enabled(s, a) && !OfNone(a)
    ensures Acted(s, a, pr, me).kstack == pr.kstack
  {
    hide Enabled, Acted;
  }

  /** The spin locks that CPU c holds: ptable.lock, and the one that the process it runs holds. */
  function LocksHeld(s: State, c: nat): nat
    requires Bounded(s) && c < |s.cpus|
  {
    (if s.lock == c then 1 else 0) + if Runs(s, c) then Extra(Cur(s, c).pc) else 0
  }

  /** A CPU's ncli is the number of spin locks it holds, and interrupts are off while it holds one; so
      a release meets neither of popcli's panics. */
  lemma LocksCounted(run: seq<State>, acts: seq<Action>, i: nat, c: nat)
    requires Run(run, acts) && i < |run| && c < |run[i].cpus|
    ensures Bounded(run[i]) && run[i].cpus[c].ncli == LocksHeld(run[i], c)
    ensures run[i].cpus[c].ncli > 0 ==> !run[i].cpus[c].fl
  {
    hide Next, Enabled, HereOk, SelfOk, SeatOk, ForkOk, PairOk, Extra;
    RunInv(run, acts, i);
    AtCpu(run[i], c);
  }

  /** sched() meets none of its four panics: a process that a CPU has is in sched exactly when it is not
      RUNNING, and then that CPU holds ptable.lock and no other spin lock, interrupts are off, and the
      switch to the scheduler is all that can happen on that CPU or to the table. */
  lemma SchedNeverPanics(run: seq<State>, acts: seq<Action>, i: nat, c: nat)
    requires Run(run, acts) && i < |run| && Runs(run[i], c)
    ensures Cur(run[i], c).sched <==> Cur(run[i], c).status != RUNNING
    ensures Cur(run[i], c).sched ==>
            var s := run[i];
            && s.lock == c && s.cpus[c].ncli == 1 && Cur(s, c).status != RUNNING && !s.cpus[c].fl
            && Enabled(s, Action.Swtch(c))
            && forall a :: Enabled(s, a) && (OfNone(a) || a.c == c) ==> a == Action.Swtch(c)
  {
    hide Next, Enabled, Inv;
    RunInv(run, acts, i);
    var s := run[i];
    AtCpu(s, c);
    At(s, s.cpus[c].proc);
    if Cur(s, c).sched {
      SwtchCan(s, c);
      forall a | Enabled(s, a) && (OfNone(a) || a.c == c) ensures a == Action.Swtch(c) {
        OnlySwtch(s, a, c);
      }
    }
  }

  lemma SwtchCan(s: State, c: nat)
    requires Runs(s, c) && s.lock == c && Cur(s, c).sched
    ensures Enabled(s, Action.Swtch(c))
  {}

  lemma OnlySwtch(s: State, a: Action, c: nat)
    requires Enabled(s, a) && (OfNone(a) || a.c == c) && Runs(s, c) && s.lock == c && Cur(s, c).status != RUNNING
    requires SelfOk(s.cpus[c].proc, Cur(s, c), |s.procs|) && Cur(s, c).sched
    ensures a == Action.Swtch(c)
  {}

  /** When wait has looked at the whole table it has missed no child: it returns -1 with none, and
      goes to sleep with none of them a zombie. */
  lemma WaitMissesNothing(run: seq<State>, acts: seq<Action>, i: nat, c: nat, q: nat)
    requires Run(run, acts) && i < |run| && Enabled(run[i], WaitEnd(c)) && q < |run[i].procs|
    requires run[i].procs[q].parent == run[i].cpus[c].proc
    ensures Cur(run[i], c).pc.kids && run[i].procs[q].status != ZOMBIE
  {
    hide Next, Inv;
    RunInv(run, acts, i);
    AtPair(run[i], run[i].cpus[c].proc, q);
  }
}
