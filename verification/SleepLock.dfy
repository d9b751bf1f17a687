/** Sleep locks and mutexes on many CPUs: acquiresleep, releasesleep, sleep and wakeup cut into the
    steps between which another CPU can act, with kill waking sleepers at any time. */
module SleepLock {

  /** Where a process stands. The letters follow the code: Acquire, Sleep, Release. */
  datatype PC =
    | Out                  // does not hold the lock
    | AcqSpin              // acquire(&lk->lk) in acquiresleep
    | Test                 // while (lk->locked)
    | SetLocked            // lk->locked = 1
    | SetPid               // lk->pid = myproc()->pid
    | AcqDone              // release(&lk->lk)
    | SlpTable             // sleep: acquire(&ptable.lock)
    | SlpRelease           // release(lk)
    | SlpChan              // p->chan = chan
    | SlpState             // p->state = SLEEPING
    | SlpSched             // sched()
    | SlpOff               // switched out
    | SlpTidy              // p->chan = 0
    | SlpUntable           // release(&ptable.lock)
    | SlpSpin              // acquire(lk)
    | Holds                // the caller's critical section
    | RelSpin              // acquire(&lk->lk) in releasesleep
    | ClrLocked            // lk->locked = 0
    | ClrPid               // lk->pid = 0
    | WakeTable            // wakeup: acquire(&ptable.lock)
    | WakeScan(i: nat)     // wakeup1's loop
    | WakeUntable          // release(&ptable.lock)
    | RelDone              // release(&lk->lk)

  datatype Status = Running | Runnable | Sleeping

  datatype Proc = Proc(pc: PC, status: Status, chan: nat)

  /** Who holds a spin lock: nobody, a process, or a CPU's scheduler. */
  datatype Owner = Free | By(p: nat) | Scheduler

  /** The lock's fields, its inner spin lock, ptable.lock, and the processes. A process's pid is its
      index plus one, so that 0 names none. */
  datatype State = State(locked: bool, pid: nat, spin: Owner, table: Owner, procs: seq<Proc>)

  /** The lock's own address as a sleep channel; 0 is no channel. */
  const LK: nat := 1

  datatype Action =
    | Step(p: nat)         // the process's next step in the code
    | Enter(p: nat)        // it calls acquiresleep or, holding the lock, releasesleep
    | Doze(p: nat, chan: nat) // it sleeps on something else, inside or outside its critical section
    | Rouse(chan: nat)     // something else wakes sleepers on its own channel
    | Preempt(p: nat)      // the timer takes its CPU while it holds no spin lock
    | Kill(p: nat)         // kill makes a sleeper runnable
    | Pick                 // a scheduler takes ptable.lock
    | Unpick               // and gives it back
    | Dispatch(p: nat)     // or hands it over to a runnable process

  function With(s: State, p: nat, pr: Proc): State
    requires p < |s.procs|
  {
    s.(procs := s.procs[p := pr])
  }

  function Goto(s: State, p: nat, pc: PC): State
    requires p < |s.procs|
  {
    With(s, p, s.procs[p].(pc := pc))
  }

  function Wakened(pr: Proc, chan: nat): Proc {
    if pr.status == Sleeping && pr.chan == chan then pr.(status := Runnable) else pr
  }

  /** A process after its next step, with lk->locked as it reads it and n processes in the table. */
  function Later(pr: Proc, locked: bool, n: nat): Proc {
    match pr.pc
    case AcqSpin => pr.(pc := Test)
    case Test => pr.(pc := if locked then SlpTable else SetLocked)
    case SetLocked => pr.(pc := SetPid)
    case SetPid => pr.(pc := AcqDone)
    case AcqDone => pr.(pc := Holds)
    case SlpTable => pr.(pc := SlpRelease)
    case SlpRelease => pr.(pc := SlpChan)
    case SlpChan => pr.(pc := SlpState, chan := LK)
    case SlpState => pr.(pc := SlpSched, status := Sleeping)
    case SlpSched => pr.(pc := SlpOff)
    case SlpTidy => pr.(pc := SlpUntable, chan := 0)
    case SlpUntable => pr.(pc := SlpSpin)
    case SlpSpin => pr.(pc := Test)
    case RelSpin => pr.(pc := ClrLocked)
    case ClrLocked => pr.(pc := ClrPid)
    case ClrPid => pr.(pc := WakeTable)
    case WakeTable => pr.(pc := WakeScan(0))
    case WakeScan(i) => pr.(pc := if i < n then WakeScan(i + 1) else WakeUntable)
    case WakeUntable => pr.(pc := RelDone)
    case RelDone => pr.(pc := Out)
    case _ => pr
  }

  /** The processes after one round of wakeup1's loop, if p is in it. */
  function Scanned(procs: seq<Proc>, pc: PC): seq<Proc> {
    if pc.WakeScan? && pc.i < |procs| then procs[pc.i := Wakened(procs[pc.i], LK)] else procs
  }

  /** Process p's next step. */
  function Next(s: State, p: nat): (r: State)
    requires p < |s.procs| && Enabled(s, p)
  {
    var pr := s.procs[p];
    var t := s.(procs := Scanned(s.procs, pr.pc)[p := Later(pr, s.locked, |s.procs|)]);
    match pr.pc
    case AcqSpin => t.(spin := By(p))
    case SlpSpin => t.(spin := By(p))
    case RelSpin => t.(spin := By(p))
    case AcqDone => t.(spin := Free)
    case SlpRelease => t.(spin := Free)
    case RelDone => t.(spin := Free)
    case SlpTable => t.(table := By(p))
    case WakeTable => t.(table := By(p))
    case SlpUntable => t.(table := Free)
    case WakeUntable => t.(table := Free)
    case SlpSched => t.(table := Scheduler)
    case SetLocked => t.(locked := true)
    case ClrLocked => t.(locked := false)
    case SetPid => t.(pid := p + 1)
    case ClrPid => t.(pid := 0)
    case _ => t
  }

  predicate Enabled(s: State, p: nat)
    requires p < |s.procs|
  {
    match s.procs[p].pc
    case Out => false
    case Holds => false
    case SlpOff => false
    case AcqSpin => s.procs[p].status == Running && s.spin == Free
    case SlpSpin => s.procs[p].status == Running && s.spin == Free
    case RelSpin => s.procs[p].status == Running && s.spin == Free
    case SlpTable => s.procs[p].status == Running && s.table == Free
    case WakeTable => s.procs[p].status == Running && s.table == Free
    case SlpSched => true
    case _ => s.procs[p].status == Running
  }

  predicate Idle(pc: PC) {
    pc == Out || pc == Holds
  }

  ghost predicate Steps(s: State, a: Action, s': State) {
    match a
    case Step(p) => p < |s.procs| && Enabled(s, p) && s' == Next(s, p)
    case Enter(p) =>
      && p < |s.procs| && s.procs[p].status == Running && Idle(s.procs[p].pc)
      && s' == Goto(s, p, if s.procs[p].pc == Out then AcqSpin else RelSpin)
    case Doze(p, chan) =>
      && p < |s.procs| && s.procs[p].status == Running && Idle(s.procs[p].pc) && s.table == Free && chan > LK
      && s' == With(s, p, s.procs[p].(status := Sleeping, chan := chan))
    case Rouse(chan) =>
      && s.table == Free && chan > LK
      && s' == s.(procs := seq(|s.procs|, i requires 0 <= i < |s.procs| => Wakened(s.procs[i], chan)))
    case Preempt(p) =>
      && p < |s.procs| && s.procs[p].status == Running && s.table == Free
      && (Idle(s.procs[p].pc) || s.procs[p].pc == AcqSpin || s.procs[p].pc == RelSpin)
      && s' == With(s, p, s.procs[p].(status := Runnable))
    case Kill(p) =>
      && p < |s.procs| && s.table == Free && s.procs[p].status == Sleeping
      && s' == With(s, p, s.procs[p].(status := Runnable))
    case Pick => s.table == Free && s' == s.(table := Scheduler)
    case Unpick => s.table == Scheduler && s' == s.(table := Free)
    case Dispatch(p) =>
      && p < |s.procs| && s.table == Scheduler && s.procs[p].status == Runnable
      && s' == if s.procs[p].pc == SlpOff then With(s, p, s.procs[p].(pc := SlpTidy, status := Running)).(table := By(p))
               else With(s, p, s.procs[p].(status := Running)).(table := Free)
  }

  ghost predicate Initial(s: State) {
    && !s.locked && s.pid == 0 && s.spin == Free && s.table == Free
    && forall p :: 0 <= p < |s.procs| ==> s.procs[p] == Proc(Out, Running, 0)
  }

  ghost predicate Run(run: seq<State>, acts: seq<Action>) {
    |run| == |acts| + 1 && Initial(run[0]) && forall i :: 0 <= i < |acts| ==> Steps(run[i], acts[i], run[i + 1])
  }

  // ------------------------------------------------------------ the invariant

  /** Between taking and giving up lk->lk. */
  predicate HasSpin(pc: PC) {
    match pc
    case Test => true case SetLocked => true case SetPid => true case AcqDone => true
    case SlpTable => true case SlpRelease => true
    case ClrLocked => true case ClrPid => true case WakeTable => true
    case WakeScan(_) => true case WakeUntable => true case RelDone => true
    case _ => false
  }

  predicate HasTable(pc: PC) {
    match pc
    case SlpRelease => true case SlpChan => true case SlpState => true case SlpSched => true
    case SlpTidy => true case SlpUntable => true
    case WakeScan(_) => true case WakeUntable => true
    case _ => false
  }

  /** Between acquire and release of the sleep lock, as far as lk->locked goes. */
  predicate Owns(pc: PC) {
    pc == SetPid || pc == AcqDone || pc == Holds || pc == RelSpin || pc == ClrLocked
  }

  /** A process that a wakeup on the lock must find, now or once it has finished falling asleep. */
  predicate Waits(pr: Proc) {
    || pr.pc == SlpChan || pr.pc == SlpState || pr.pc == SlpSched
    || (pr.pc == SlpOff && pr.status == Sleeping)
  }

  /** A releaser, holding the inner spin lock, whose wakeup has still to reach process p. */
  predicate WillWake(pc: PC, p: int) {
    pc == ClrPid || pc == WakeTable || (pc.WakeScan? && pc.i <= p)
  }

  ghost predicate ProcOk(s: State, p: int)
    requires 0 <= p < |s.procs|
  {
    && (HasSpin(s.procs[p].pc) <==> s.spin == By(p)) && (HasTable(s.procs[p].pc) <==> s.table == By(p))
    && LockOk(s.procs[p].pc, s.locked, s.pid, p) && ChanOk(s.procs[p])
  }

  /** What lk->locked and lk->pid are where process p stands. */
  predicate LockOk(pc: PC, locked: bool, pid: nat, p: int) {
    && (Owns(pc) || pc == SlpTable || pc == SlpRelease ==> locked)
    && (pc == SetLocked ==> !locked)
    && (pc == AcqDone || pc == Holds || pc == RelSpin || pc == ClrLocked || pc == ClrPid <==> pid == p + 1)
  }

  /** On which channel, and where in the code, a process sleeps. */
  predicate ChanOk(pr: Proc) {
    && (pr.pc == SlpSched ==> pr.status == Sleeping)
    && (pr.pc == SlpState || pr.pc == SlpSched || pr.pc == SlpOff ==> pr.chan == LK)
    && (pr.status == Sleeping ==> pr.pc == SlpSched || pr.pc == SlpOff || (Idle(pr.pc) && pr.chan > LK))
    && (pr.pc == SlpOff ==> pr.status != Running)
    && (pr.status == Sleeping && pr.chan == LK <==> Waits(pr) && pr.status == Sleeping)
  }

  ghost predicate Alone(s: State) {
    forall p, q :: 0 <= p < |s.procs| && 0 <= q < |s.procs| && Owns(s.procs[p].pc) && Owns(s.procs[q].pc) ==> p == q
  }

  /** A waiting process is no cause for worry while the lock is held or a wakeup is on its way. */
  ghost predicate Covered(s: State) {
    forall p :: 0 <= p < |s.procs| && Waits(s.procs[p]) ==>
      s.locked || (s.spin.By? && s.spin.p < |s.procs| && WillWake(s.procs[s.spin.p].pc, p))
  }

  ghost predicate Inv(s: State) {
    && (forall p :: 0 <= p < |s.procs| ==> ProcOk(s, p))
    && Alone(s) && Covered(s)
    && (s.spin.By? ==> s.spin.p < |s.procs|)
  }

  // ------------------------------------------------------------- the proofs

  lemma InitialInv(s: State)
    requires Initial(s)
    ensures Inv(s)
  {}

  lemma NextProcs(s: State, p: nat)
    requires p < |s.procs| && Enabled(s, p)
    ensures Next(s, p).procs == Scanned(s.procs, s.procs[p].pc)[p := Later(s.procs[p], s.locked, |s.procs|)]
    ensures |Next(s, p).procs| == |s.procs| && Next(s, p).procs[p] == Later(s.procs[p], s.locked, |s.procs|)
  {
    hide Later;
  }

  lemma StepSelf(s: State, p: nat)
    requires p < |s.procs| && Enabled(s, p) && ProcOk(s, p)
    ensures ProcOk(Next(s, p), p)
  {
    hide Next, Enabled, LockOk, ChanOk, HasSpin, HasTable;
    NextProcs(s, p);
    StepSpin(s, p);
    StepTable(s, p);
    StepLock(s, p);
    StepChan(s, p);
  }

  lemma StepSpin(s: State, p: nat)
    requires p < |s.procs| && Enabled(s, p) && ProcOk(s, p)
    ensures HasSpin(Later(s.procs[p], s.locked, |s.procs|).pc) <==> Next(s, p).spin == By(p)
  {
    hide LockOk, ChanOk, HasTable;
  }

  lemma StepTable(s: State, p: nat)
    requires p < |s.procs| && Enabled(s, p) && ProcOk(s, p)
    ensures HasTable(Later(s.procs[p], s.locked, |s.procs|).pc) <==> Next(s, p).table == By(p)
  {
    hide LockOk, ChanOk, HasSpin;
  }

  lemma StepLock(s: State, p: nat)
    requires p < |s.procs| && Enabled(s, p) && ProcOk(s, p)
    ensures LockOk(Later(s.procs[p], s.locked, |s.procs|).pc, Next(s, p).locked, Next(s, p).pid, p)
  {
    hide ChanOk, HasSpin, HasTable;
  }

  lemma StepChan(s: State, p: nat)
    requires p < |s.procs| && Enabled(s, p) && ProcOk(s, p)
    ensures ChanOk(Later(s.procs[p], s.locked, |s.procs|))
  {
    hide LockOk, HasSpin, HasTable;
  }

  /** What one process's step can do to the rest of the state. */
  lemma StepEffects(s: State, p: nat)
    requires p < |s.procs| && Enabled(s, p) && ProcOk(s, p)
    ensures var s' := Next(s, p);
            && |s'.procs| == |s.procs|
            && (s'.spin == s.spin || (s.spin == Free && s'.spin == By(p)) || (s.spin == By(p) && s'.spin == Free))
            && (s'.table == s.table || (s.table == Free && s'.table == By(p)) || (s.table == By(p) && (s'.table == Free || s'.table == Scheduler)))
            && (s'.locked != s.locked || s'.pid != s.pid ==> s.spin == By(p))
            && (s.locked && !s'.locked ==> Owns(s.procs[p].pc))
            && (s'.pid != s.pid ==> (Owns(s.procs[p].pc) && s'.pid == p + 1) || (s.procs[p].pc == ClrPid && s'.pid == 0))
            && forall q :: 0 <= q < |s.procs| && q != p ==>
                 s'.procs[q] == s.procs[q] || (s.table == By(p) && s'.procs[q] == Wakened(s.procs[q], LK))
  {}

  lemma WakenedOk(pr: Proc)
    requires ChanOk(pr) && pr.pc != SlpSched
    ensures ChanOk(Wakened(pr, LK)) && Wakened(pr, LK).pc == pr.pc
  {}

  /** The lock's fields change only under its inner spin lock. */
  lemma StepOtherLock(s: State, p: nat, q: nat)
    requires p < |s.procs| && Enabled(s, p) && q < |s.procs| && q != p && ProcOk(s, p) && ProcOk(s, q)
    requires Owns(s.procs[p].pc) ==> !Owns(s.procs[q].pc)
    ensures LockOk(s.procs[q].pc, Next(s, p).locked, Next(s, p).pid, q)
  {
    hide Next, Enabled, ChanOk, HasTable;
    StepEffects(s, p);
  }

  lemma StepOther(s: State, p: nat, q: nat)
    requires Inv(s) && p < |s.procs| && Enabled(s, p) && q < |s.procs| && q != p
    ensures ProcOk(Next(s, p), q)
  {
    hide Alone, Covered, Next, Enabled, LockOk, ChanOk, HasSpin, Wakened, Owns;
    StepEffects(s, p);
    assert ProcOk(s, p) && ProcOk(s, q);
    OwnersApart(s, p, q);
    StepOtherLock(s, p, q);
    if s.table == By(p) {
      WakenedOk(s.procs[q]);
    }
  }

  lemma OwnersApart(s: State, p: nat, q: nat)
    requires Inv(s) && p < |s.procs| && q < |s.procs| && p != q
    ensures Owns(s.procs[p].pc) ==> !Owns(s.procs[q].pc)
  {}

  lemma StepOwns(s: State, p: nat)
    requires p < |s.procs| && Enabled(s, p) && ProcOk(s, p)
    ensures |Next(s, p).procs| == |s.procs| && (Owns(Next(s, p).procs[p].pc) ==> Owns(s.procs[p].pc) || !s.locked)
  {
    hide ChanOk, HasSpin, HasTable, Next;
    NextProcs(s, p);
  }

  lemma StepAlone(s: State, p: nat)
    requires Inv(s) && p < |s.procs| && Enabled(s, p)
    ensures Alone(Next(s, p))
  {
    hide Covered, Next, Enabled, HasSpin, HasTable, ChanOk;
    assert ProcOk(s, p);
    StepEffects(s, p);
    StepOwns(s, p);
    var s' := Next(s, p);
    forall q | 0 <= q < |s'.procs| && q != p && Owns(s'.procs[q].pc) ensures !Owns(s'.procs[p].pc) && Owns(s.procs[q].pc) {
      assert ProcOk(s, q);
    }
  }

  lemma StepCovered(s: State, p: nat, q: nat)
    requires Inv(s) && p < |s.procs| && Enabled(s, p) && q < |s.procs| && Waits(Next(s, p).procs[q])
    ensures var s' := Next(s, p);
            s'.locked || (s'.spin.By? && s'.spin.p < |s'.procs| && WillWake(s'.procs[s'.spin.p].pc, q))
  {
    hide Alone, Next, Enabled;
    assert ProcOk(s, p) && ProcOk(s, q);
    StepEffects(s, p);
    if p == q {
      WaiterStep(s, p);
    } else {
      WakerStep(s, p, q);
    }
  }

  /** A process starts to wait only when it has found the lock held. */
  lemma WaiterStep(s: State, p: nat)
    requires p < |s.procs| && Enabled(s, p) && ProcOk(s, p) && Waits(Next(s, p).procs[p])
    ensures Next(s, p).locked == s.locked && (Waits(s.procs[p]) || s.locked)
    ensures Waits(s.procs[p]) ==> Next(s, p).spin == s.spin && forall r :: 0 <= r < |s.procs| && r != p ==> Next(s, p).procs[r] == s.procs[r]
    ensures Waits(s.procs[p]) ==> s.spin != By(p)
  {}

  /** The wakeup's loop passes over nobody who goes on waiting. */
  lemma WaitedBefore(s: State, p: nat, q: nat)
    requires p < |s.procs| && Enabled(s, p) && ProcOk(s, p) && q < |s.procs| && ProcOk(s, q) && q != p && Waits(Next(s, p).procs[q])
    ensures Waits(s.procs[q]) && s.procs[p].pc != WakeScan(q)
  {
    hide Next, Enabled, LockOk, HasSpin, Later;
    NextProcs(s, p);
  }

  /** The process that clears the lock, and then each step of its wakeup, covers the waiters. */
  lemma WakerStep(s: State, p: nat, q: nat)
    requires p < |s.procs| && Enabled(s, p) && ProcOk(s, p) && q < |s.procs| && ProcOk(s, q) && q != p && Waits(Next(s, p).procs[q])
    ensures Waits(s.procs[q])
    ensures s.locked && !Next(s, p).locked ==> Next(s, p).spin == By(p) && WillWake(Next(s, p).procs[p].pc, q)
    ensures !s.locked && s.spin == By(p) && WillWake(s.procs[p].pc, q) ==>
              Next(s, p).locked || (Next(s, p).spin == By(p) && WillWake(Next(s, p).procs[p].pc, q))
    ensures s.spin.By? && s.spin.p != p ==> Next(s, p).spin == s.spin
    ensures s.spin.By? && s.spin.p != p && s.spin.p < |s.procs| ==> Next(s, p).procs[s.spin.p].pc == s.procs[s.spin.p].pc
  {
    hide LockOk, ChanOk, HasTable, Waits, Scanned;
    WaitedBefore(s, p, q);
    NextProcs(s, p);
    if s.spin.By? && s.spin.p != p {
      SpinStays(s, p);
    }
  }

  lemma SpinStays(s: State, p: nat)
    requires p < |s.procs| && Enabled(s, p) && ProcOk(s, p) && s.spin.By? && s.spin.p != p
    ensures Next(s, p).spin == s.spin
    ensures s.spin.p < |s.procs| ==> Next(s, p).procs[s.spin.p].pc == s.procs[s.spin.p].pc
  {
    hide LockOk, ChanOk, Next, Enabled;
    StepEffects(s, p);
  }

  lemma StepKeepsInv(s: State, p: nat)
    requires Inv(s) && p < |s.procs| && Enabled(s, p)
    ensures Inv(Next(s, p))
  {
    hide ProcOk, Alone, Waits, Enabled;
    var s' := Next(s, p);
    forall q | 0 <= q < |s'.procs| ensures ProcOk(s', q) {
      if q == p {
        assert ProcOk(s, p);
        StepSelf(s, p);
      } else {
        StepOther(s, p, q);
      }
    }
    StepAlone(s, p);
    forall q | 0 <= q < |s'.procs| && Waits(s'.procs[q])
      ensures s'.locked || (s'.spin.By? && s'.spin.p < |s'.procs| && WillWake(s'.procs[s'.spin.p].pc, q))
    {
      StepCovered(s, p, q);
    }
  }

  /** What other than its own next step can happen to a process. */
  predicate Moved(pr: Proc, pr': Proc) {
    || pr' == pr
    || (Idle(pr.pc) && pr.status == Running && pr' == pr.(pc := if pr.pc == Out then AcqSpin else RelSpin))
    || (Idle(pr.pc) && pr.status == Running && pr'.chan > LK && pr' == pr.(status := Sleeping, chan := pr'.chan))
    || (pr.status == Sleeping && pr.pc != SlpSched && pr' == pr.(status := Runnable))
    || (pr.status == Running && (Idle(pr.pc) || pr.pc == AcqSpin || pr.pc == RelSpin) && pr' == pr.(status := Runnable))
    || (pr.status == Runnable && pr' == if pr.pc == SlpOff then pr.(pc := SlpTidy, status := Running) else pr.(status := Running))
  }

  lemma OtherMoves(s: State, a: Action, s': State, q: nat)
    requires Steps(s, a, s') && !a.Step? && q < |s.procs| && ProcOk(s, q)
    ensures |s'.procs| == |s.procs| && s'.locked == s.locked && s'.pid == s.pid && s'.spin == s.spin
    ensures Moved(s.procs[q], s'.procs[q]) && (HasTable(s'.procs[q].pc) <==> s'.table == By(q))
  {
    hide LockOk, HasSpin;
  }

  lemma MovedOk(pr: Proc, pr': Proc, locked: bool, pid: nat, q: nat)
    requires Moved(pr, pr') && LockOk(pr.pc, locked, pid, q) && ChanOk(pr)
    ensures LockOk(pr'.pc, locked, pid, q) && ChanOk(pr') && HasSpin(pr'.pc) == HasSpin(pr.pc)
    ensures Owns(pr'.pc) == Owns(pr.pc) && (Waits(pr') ==> Waits(pr))
    ensures forall r :: WillWake(pr'.pc, r) == WillWake(pr.pc, r)
  {}

  lemma OtherProcOk(s: State, a: Action, s': State, q: nat)
    requires Inv(s) && Steps(s, a, s') && !a.Step? && q < |s.procs|
    ensures |s'.procs| == |s.procs| && ProcOk(s', q)
    ensures Owns(s'.procs[q].pc) == Owns(s.procs[q].pc) && (Waits(s'.procs[q]) ==> Waits(s.procs[q]))
    ensures forall r :: WillWake(s'.procs[q].pc, r) == WillWake(s.procs[q].pc, r)
  {
    hide Alone, Covered, Steps, Moved, LockOk, ChanOk, HasSpin, HasTable, Owns, Waits, WillWake;
    assert ProcOk(s, q);
    OtherMoves(s, a, s', q);
    MovedOk(s.procs[q], s'.procs[q], s.locked, s.pid, q);
  }

  lemma OtherKeepsInv(s: State, a: Action, s': State)
    requires Inv(s) && Steps(s, a, s') && !a.Step?
    ensures Inv(s')
  {
    hide ProcOk, Steps, Alone, Covered;
    forall q | 0 <= q < |s.procs|
      ensures |s'.procs| == |s.procs| && ProcOk(s', q)
      ensures Owns(s'.procs[q].pc) == Owns(s.procs[q].pc) && (Waits(s'.procs[q]) ==> Waits(s.procs[q]))
      ensures forall r :: WillWake(s'.procs[q].pc, r) == WillWake(s.procs[q].pc, r)
    {
      OtherProcOk(s, a, s', q);
    }
    OtherLocks(s, a, s');
    OtherCovered(s, s');
  }

  lemma OtherLocks(s: State, a: Action, s': State)
    requires Steps(s, a, s') && !a.Step?
    ensures |s'.procs| == |s.procs| && s'.locked == s.locked && s'.spin == s.spin
  {}

  lemma OtherCovered(s: State, s': State)
    requires Alone(s) && Covered(s) && |s'.procs| == |s.procs| && s'.locked == s.locked && s'.spin == s.spin
    requires forall q :: 0 <= q < |s.procs| ==>
               Owns(s'.procs[q].pc) == Owns(s.procs[q].pc) && (Waits(s'.procs[q]) ==> Waits(s.procs[q]))
    requires forall q, r :: 0 <= q < |s.procs| ==> WillWake(s'.procs[q].pc, r) == WillWake(s.procs[q].pc, r)
    ensures Alone(s') && Covered(s')
  {}

  lemma {:induction false} RunInv(run: seq<State>, acts: seq<Action>, i: nat)
    requires Run(run, acts) && i < |run|
    ensures Inv(run[i])
  {
    if i == 0 {
      InitialInv(run[0]);
    } else {
      RunInv(run, acts, i - 1);
      var s, a := run[i - 1], acts[i - 1];
      assert Steps(s, a, run[i - 1 + 1]);
      if a.Step? {
        StepKeepsInv(s, a.p);
      } else {
        OtherKeepsInv(s, a, run[i]);
      }
    }
  }

  // ----------------------------------------------------------- main results

  /** No lost wakeup: whenever a process sleeps on the lock, the lock is held, or a releaser that
      holds its inner spin lock has not finished waking that process. */
  lemma NoLostWakeup(run: seq<State>, acts: seq<Action>, i: nat, p: nat)
    requires Run(run, acts) && i < |run| && p < |run[i].procs|
    requires run[i].procs[p].status == Sleeping && run[i].procs[p].chan == LK
    ensures var s := run[i];
            s.locked || exists r :: 0 <= r < |s.procs| && s.spin == By(r) && WillWake(s.procs[r].pc, p)
  {
    RunInv(run, acts, i);
    var s := run[i];
    assert ProcOk(s, p);
  }

  /** At most one process is ever between acquire and release, and lk->locked says whether one is,
      except for the store that clears it. */
  lemma MutualExclusion(run: seq<State>, acts: seq<Action>, i: nat, p: nat, q: nat)
    requires Run(run, acts) && i < |run| && p < |run[i].procs| && q < |run[i].procs|
    requires Owns(run[i].procs[p].pc) && Owns(run[i].procs[q].pc)
    ensures p == q && run[i].locked
  {
    RunInv(run, acts, i);
    assert ProcOk(run[i], p);
  }

  /** What holdingsleep computes for process p. */
  predicate HoldingSleep(s: State, p: nat) {
    s.locked && s.pid == p + 1
  }

  /** holdingsleep, which looks while it holds the inner spin lock, says yes exactly to the process
      that is between acquire and release. */
  lemma HoldingSleepExact(run: seq<State>, acts: seq<Action>, i: nat, p: nat)
    requires Run(run, acts) && i < |run| && p < |run[i].procs| && run[i].spin == Free
    ensures HoldingSleep(run[i], p) <==> Owns(run[i].procs[p].pc)
  {
    RunInv(run, acts, i);
    assert ProcOk(run[i], p);
  }

  // -------------------------------------------------------- one call after another

  predicate Acquiring(pc: PC) {
    || pc == AcqSpin || pc == Test || pc == SetLocked || pc == SetPid || pc == AcqDone
    || pc == SlpTable || pc == SlpRelease || pc == SlpChan || pc == SlpState || pc == SlpSched
    || pc == SlpOff || pc == SlpTidy || pc == SlpUntable || pc == SlpSpin
  }

  predicate Releasing(pc: PC) {
    pc == RelSpin || pc == ClrLocked || pc == ClrPid || pc == WakeTable || pc.WakeScan? || pc == WakeUntable || pc == RelDone
  }

  /** Where a step can take a process: out of acquiresleep only into its critical section, and from
      there only through releasesleep. */
  predicate Follows(pc: PC, pc': PC) {
    if pc == Out then pc' == Out || pc' == AcqSpin
    else if Acquiring(pc) then Acquiring(pc') || pc' == Holds
    else if pc == Holds then pc' == Holds || pc' == RelSpin
    else Releasing(pc') || pc' == Out
  }

  lemma LaterFollows(pr: Proc, locked: bool, n: nat)
    ensures Follows(pr.pc, Later(pr, locked, n).pc)
  {
    hide Acquiring, Releasing, Follows;
    var pc' := Later(pr, locked, n).pc;
    if Acquiring(pr.pc) {
      LaterAcquires(pr, locked, n);
      FollowsIn(pr.pc, pc');
    } else if Releasing(pr.pc) {
      LaterReleases(pr, locked, n);
      FollowsOut(pr.pc, pc');
    } else {
      FollowsSelf(pr.pc);
    }
  }

  lemma LaterAcquires(pr: Proc, locked: bool, n: nat)
    requires Acquiring(pr.pc)
    ensures Acquiring(Later(pr, locked, n).pc) || Later(pr, locked, n).pc == Holds
  {}

  lemma LaterReleases(pr: Proc, locked: bool, n: nat)
    requires Releasing(pr.pc)
    ensures Releasing(Later(pr, locked, n).pc) || Later(pr, locked, n).pc == Out
  {}

  lemma FollowsIn(pc: PC, pc': PC)
    requires Acquiring(pc) && (Acquiring(pc') || pc' == Holds)
    ensures Follows(pc, pc')
  {}

  lemma FollowsOut(pc: PC, pc': PC)
    requires Releasing(pc) && (Releasing(pc') || pc' == Out)
    ensures Follows(pc, pc')
  {}

  lemma FollowsSelf(pc: PC)
    ensures Follows(pc, pc) && (pc == Out || Acquiring(pc) || pc == Holds || Releasing(pc))
  {}

  lemma StepFollows(s: State, a: Action, s': State, p: nat)
    requires Steps(s, a, s') && p < |s.procs|
    ensures |s'.procs| == |s.procs| && Follows(s.procs[p].pc, s'.procs[p].pc)
  {
    hide Later, Enabled, Follows, Steps;
    FollowsSelf(s.procs[p].pc);
    if a.Step? {
      StepTaken(s, a, s');
      LaterFollows(s.procs[a.p], s.locked, |s.procs|);
    } else {
      OtherFollows(s, a, s', p);
    }
  }

  lemma StepTaken(s: State, a: Action, s': State)
    requires Steps(s, a, s') && a.Step?
    ensures a.p < |s.procs| == |s'.procs| && s'.procs[a.p].pc == Later(s.procs[a.p], s.locked, |s.procs|).pc
    ensures forall q :: 0 <= q < |s.procs| && q != a.p ==> s'.procs[q].pc == s.procs[q].pc
  {
    hide Later;
    NextProcs(s, a.p);
  }

  lemma OtherFollows(s: State, a: Action, s': State, p: nat)
    requires Steps(s, a, s') && !a.Step? && p < |s.procs|
    ensures |s'.procs| == |s.procs| && Follows(s.procs[p].pc, s'.procs[p].pc)
  {
    FollowsSelf(s.procs[p].pc);
  }

  lemma HoldsOnce(s: State, s': State, a: Action, p: nat)
    requires Inv(s) && Steps(s, a, s') && p < |s.procs| == |s'.procs| && s'.procs[p].pc == Holds && Inv(s')
    ensures s'.locked && s'.pid == p + 1
  {
    assert ProcOk(s', p);
  }

  /** acquiresleep returns only with the lock, in every run: a process that is in it stays in it, however
      often it is woken or killed, until it is the one that lk->locked and lk->pid name; and only
      releasesleep leads out of its critical section. */
  lemma AcquireReturnsHolding(run: seq<State>, acts: seq<Action>, i: nat, p: nat)
    requires Run(run, acts) && i < |acts| && p < |run[i].procs|
    ensures |run[i + 1].procs| == |run[i].procs| && Follows(run[i].procs[p].pc, run[i + 1].procs[p].pc)
    ensures Acquiring(run[i].procs[p].pc) && !Acquiring(run[i + 1].procs[p].pc) ==>
              run[i + 1].procs[p].pc == Holds && run[i + 1].locked && run[i + 1].pid == p + 1
  {
    hide Inv, Follows, Steps;
    assert Steps(run[i], acts[i], run[i + 1]);
    RunInv(run, acts, i);
    RunInv(run, acts, i + 1);
    StepFollows(run[i], acts[i], run[i + 1], p);
    OutOfAcquire(run[i].procs[p].pc, run[i + 1].procs[p].pc);
    if run[i + 1].procs[p].pc == Holds {
      HoldsOnce(run[i], run[i + 1], acts[i], p);
    }
  }

  lemma OutOfAcquire(pc: PC, pc': PC)
    requires Follows(pc, pc')
    ensures Acquiring(pc) && !Acquiring(pc') ==> pc' == Holds
  {}

  // ----------------------------------------------------------- it does happen

  lemma Extend(run: seq<State>, acts: seq<Action>, a: Action, s: State)
    requires Run(run, acts) && Steps(run[|run| - 1], a, s)
    ensures Run(run + [s], acts + [a])
  {}

  /** Process p takes its next n steps, none of which waits. */
  lemma {:induction false} Advance(run: seq<State>, acts: seq<Action>, path: seq<State>, p: nat) returns (run': seq<State>, acts': seq<Action>)
    requires Run(run, acts) && run != [] && path != [] && path[0] == run[|run| - 1] && p < |path[0].procs|
    requires forall i :: 0 <= i < |path| - 1 ==> p < |path[i].procs| && Enabled(path[i], p) && path[i + 1] == Next(path[i], p)
    ensures Run(run', acts') && |run'| > 0 && run'[|run'| - 1] == path[|path| - 1]
    decreases |path|
  {
    if |path| == 1 {
      run', acts' := run, acts;
    } else {
      Extend(run, acts, Step(p), path[1]);
      run', acts' := Advance(run + [path[1]], acts + [Step(p)], path[1..], p);
    }
  }

  function Two(locked: bool, pid: nat, spin: Owner, table: Owner, a: PC, b: Proc): State {
    State(locked, pid, spin, table, [Proc(a, Running, 0), b])
  }

  /** The first process has the inner spin lock and finds the lock free. */
  lemma SomeoneAsks() returns (run: seq<State>, acts: seq<Action>)
    ensures Run(run, acts) && run != [] && run[|run| - 1] == Two(false, 0, By(0), Free, SetLocked, Proc(Out, Running, 0))
  {
    var out := Proc(Out, Running, 0);
    var s0, s1 := Two(false, 0, Free, Free, Out, out), Two(false, 0, Free, Free, AcqSpin, out);
    run, acts := [s0], [];
    Extend(run, acts, Enter(0), s1);
    var path := [s1, Two(false, 0, By(0), Free, Test, out), Two(false, 0, By(0), Free, SetLocked, out)];
    run, acts := Advance(run + [s1], acts + [Enter(0)], path, 0);
  }

  lemma SomeoneGets() returns (run: seq<State>, acts: seq<Action>)
    ensures Run(run, acts) && run != [] && run[|run| - 1] == Two(true, 1, Free, Free, Holds, Proc(Out, Running, 0))
  {
    hide Run;
    var out := Proc(Out, Running, 0);
    run, acts := SomeoneAsks();
    var path := [Two(false, 0, By(0), Free, SetLocked, out), Two(true, 0, By(0), Free, SetPid, out),
                 Two(true, 1, By(0), Free, AcqDone, out), Two(true, 1, Free, Free, Holds, out)];
    run, acts := Advance(run, acts, path, 0);
  }

  /** The first process has the lock and the second is about to ask for it. */
  lemma SomeoneHolds() returns (run: seq<State>, acts: seq<Action>)
    ensures Run(run, acts) && run != [] && run[|run| - 1] == Two(true, 1, Free, Free, Holds, Proc(AcqSpin, Running, 0))
  {
    hide Run;
    run, acts := SomeoneGets();
    var s := Two(true, 1, Free, Free, Holds, Proc(AcqSpin, Running, 0));
    Extend(run, acts, Enter(1), s);
    run, acts := run + [s], acts + [Enter(1)];
  }

  /** The second finds the lock held and has ptable.lock. */
  lemma SomeoneWaits() returns (run: seq<State>, acts: seq<Action>)
    ensures Run(run, acts) && run != [] && run[|run| - 1] == Two(true, 1, By(1), By(1), Holds, Proc(SlpRelease, Running, 0))
  {
    hide Run;
    run, acts := SomeoneHolds();
    var path := [Two(true, 1, Free, Free, Holds, Proc(AcqSpin, Running, 0)), Two(true, 1, By(1), Free, Holds, Proc(Test, Running, 0)),
                 Two(true, 1, By(1), Free, Holds, Proc(SlpTable, Running, 0)), Two(true, 1, By(1), By(1), Holds, Proc(SlpRelease, Running, 0))];
    run, acts := Advance(run, acts, path, 1);
  }

  /** It gives up the inner lock and names its channel. */
  lemma SomeoneDozes() returns (run: seq<State>, acts: seq<Action>)
    ensures Run(run, acts) && run != [] && run[|run| - 1] == Two(true, 1, Free, By(1), Holds, Proc(SlpState, Running, LK))
  {
    hide Run;
    run, acts := SomeoneWaits();
    var path := [Two(true, 1, By(1), By(1), Holds, Proc(SlpRelease, Running, 0)), Two(true, 1, Free, By(1), Holds, Proc(SlpChan, Running, 0)),
                 Two(true, 1, Free, By(1), Holds, Proc(SlpState, Running, LK))];
    run, acts := Advance(run, acts, path, 1);
  }

  lemma SomeoneSleepsSo() returns (run: seq<State>, acts: seq<Action>)
    ensures Run(run, acts) && run != [] && run[|run| - 1] == Two(true, 1, Free, Scheduler, Holds, Proc(SlpOff, Sleeping, LK))
  {
    hide Run;
    run, acts := SomeoneDozes();
    var path := [Two(true, 1, Free, By(1), Holds, Proc(SlpState, Running, LK)), Two(true, 1, Free, By(1), Holds, Proc(SlpSched, Sleeping, LK)),
                 Two(true, 1, Free, Scheduler, Holds, Proc(SlpOff, Sleeping, LK))];
    run, acts := Advance(run, acts, path, 1);
  }

  /** A process goes to sleep on a lock that another holds. */
  lemma SomeoneSleeps() returns (run: seq<State>, acts: seq<Action>)
    ensures Run(run, acts) && run != []
    ensures var s := run[|run| - 1]; |s.procs| == 2 && s.procs[1].status == Sleeping && s.procs[1].chan == LK && s.procs[0].pc == Holds
  {
    hide Run;
    run, acts := SomeoneSleepsSo();
  }

  lemma SchedulerLeaves() returns (run: seq<State>, acts: seq<Action>)
    ensures Run(run, acts) && run != [] && run[|run| - 1] == Two(true, 1, Free, Free, Holds, Proc(SlpOff, Sleeping, LK))
  {
    hide Run;
    run, acts := SomeoneSleepsSo();
    var s := Two(true, 1, Free, Free, Holds, Proc(SlpOff, Sleeping, LK));
    Extend(run, acts, Unpick, s);
    run, acts := run + [s], acts + [Unpick];
  }

  lemma SomeoneLetsGo() returns (run: seq<State>, acts: seq<Action>)
    ensures Run(run, acts) && run != [] && run[|run| - 1] == Two(true, 1, Free, Free, RelSpin, Proc(SlpOff, Sleeping, LK))
  {
    hide Run;
    run, acts := SchedulerLeaves();
    var s := Two(true, 1, Free, Free, RelSpin, Proc(SlpOff, Sleeping, LK));
    Extend(run, acts, Enter(0), s);
    run, acts := run + [s], acts + [Enter(0)];
  }

  /** The first process has cleared the lock and is about to wake the second. */
  lemma SomeoneFrees() returns (run: seq<State>, acts: seq<Action>)
    ensures Run(run, acts) && run != [] && run[|run| - 1] == Two(false, 0, By(0), Free, WakeTable, Proc(SlpOff, Sleeping, LK))
  {
    hide Run;
    var off := Proc(SlpOff, Sleeping, LK);
    run, acts := SomeoneLetsGo();
    var path := [Two(true, 1, Free, Free, RelSpin, off), Two(true, 1, By(0), Free, ClrLocked, off), Two(false, 1, By(0), Free, ClrPid, off), Two(false, 0, By(0), Free, WakeTable, off)];
    run, acts := Advance(run, acts, path, 0);
  }

  /** It has woken it. */
  lemma SomeoneWakes() returns (run: seq<State>, acts: seq<Action>)
    ensures Run(run, acts) && run != [] && run[|run| - 1] == Two(false, 0, By(0), By(0), WakeScan(2), Proc(SlpOff, Runnable, LK))
  {
    hide Run;
    var off := Proc(SlpOff, Sleeping, LK);
    run, acts := SomeoneFrees();
    var path := [Two(false, 0, By(0), Free, WakeTable, off), Two(false, 0, By(0), By(0), WakeScan(0), off),
                 Two(false, 0, By(0), By(0), WakeScan(1), off), Two(false, 0, By(0), By(0), WakeScan(2), off.(status := Runnable))];
    run, acts := Advance(run, acts, path, 0);
  }

  lemma SomeoneReleases() returns (run: seq<State>, acts: seq<Action>)
    ensures Run(run, acts) && run != [] && run[|run| - 1] == Two(false, 0, Free, Free, Out, Proc(SlpOff, Runnable, LK))
  {
    hide Run;
    var off := Proc(SlpOff, Runnable, LK);
    run, acts := SomeoneWakes();
    var path := [Two(false, 0, By(0), By(0), WakeScan(2), off), Two(false, 0, By(0), By(0), WakeUntable, off),
                 Two(false, 0, By(0), Free, RelDone, off), Two(false, 0, Free, Free, Out, off)];
    run, acts := Advance(run, acts, path, 0);
  }

  lemma SchedulerComes() returns (run: seq<State>, acts: seq<Action>)
    ensures Run(run, acts) && run != [] && run[|run| - 1] == Two(false, 0, Free, Scheduler, Out, Proc(SlpOff, Runnable, LK))
  {
    hide Run;
    run, acts := SomeoneReleases();
    var s := Two(false, 0, Free, Scheduler, Out, Proc(SlpOff, Runnable, LK));
    Extend(run, acts, Pick, s);
    run, acts := run + [s], acts + [Pick];
  }

  /** The first is done, and the second runs again. */
  lemma SomeoneRuns() returns (run: seq<State>, acts: seq<Action>)
    ensures Run(run, acts) && run != [] && run[|run| - 1] == Two(false, 0, Free, By(1), Out, Proc(SlpTidy, Running, LK))
  {
    hide Run;
    run, acts := SchedulerComes();
    var s := Two(false, 0, Free, By(1), Out, Proc(SlpTidy, Running, LK));
    Extend(run, acts, Dispatch(1), s);
    run, acts := run + [s], acts + [Dispatch(1)];
  }

  lemma SomeoneLooksAgain() returns (run: seq<State>, acts: seq<Action>)
    ensures Run(run, acts) && run != [] && run[|run| - 1] == Two(false, 0, By(1), Free, Out, Proc(SetLocked, Running, 0))
  {
    hide Run;
    run, acts := SomeoneRuns();
    var path := [Two(false, 0, Free, By(1), Out, Proc(SlpTidy, Running, LK)), Two(false, 0, Free, By(1), Out, Proc(SlpUntable, Running, 0)),
                 Two(false, 0, Free, Free, Out, Proc(SlpSpin, Running, 0)), Two(false, 0, By(1), Free, Out, Proc(Test, Running, 0)),
                 Two(false, 0, By(1), Free, Out, Proc(SetLocked, Running, 0))];
    run, acts := Advance(run, acts, path, 1);
  }

  /** The process that slept gets the lock once the other has released it. */
  lemma SleeperGetsLock() returns (run: seq<State>, acts: seq<Action>)
    ensures Run(run, acts) && run != []
    ensures var s := run[|run| - 1]; |s.procs| == 2 && s.procs[1].pc == Holds && HoldingSleep(s, 1) && s.procs[0].pc == Out
  {
    hide Run;
    run, acts := SomeoneLooksAgain();
    var path := [Two(false, 0, By(1), Free, Out, Proc(SetLocked, Running, 0)), Two(true, 0, By(1), Free, Out, Proc(SetPid, Running, 0)),
                 Two(true, 2, By(1), Free, Out, Proc(AcqDone, Running, 0)), Two(true, 2, Free, Free, Out, Proc(Holds, Running, 0))];
    run, acts := Advance(run, acts, path, 1);
  }
}
