/** The interrupt flag of every CPU through acquire, release, sched and the scheduler, in any run. */
module ProcInterrupts {
  import opened ProcTable
  import opened ProcCalls

  /** A CPU that runs pr has interrupts on outside every critical section, and will have them on again
      after the present one; yield is called with interrupts off, and returns from the trap. */
  predicate Returning(cpu: Cpu, pr: Proc) {
    (cpu.ncli == 0 ==> cpu.fl) && (cpu.ncli > 0 && !pr.yielding ==> cpu.intena)
  }

  predicate CpuReturns(s: State, c: int)
    requires Bounded(s) && 0 <= c < |s.cpus|
  {
    && (s.cpus[c].mode == Picking ==> s.cpus[c].intena)
    && (s.cpus[c].mode == On && s.cpus[c].proc != NOBODY ==> Returning(s.cpus[c], s.procs[s.cpus[c].proc]))
  }

  predicate SavedReturns(s: State, p: int)
    requires Bounded(s) && 0 <= p < |s.procs|
  {
    SwitchedOut(s, p) && !s.procs[p].yielding ==> s.procs[p].intena
  }

  ghost predicate AllReturn(s: State) {
    && Bounded(s)
    && (forall c :: 0 <= c < |s.cpus| ==> CpuReturns(s, c))
    && (forall p :: 0 <= p < |s.procs| ==> SavedReturns(s, p))
  }

  lemma SleepReturns(s: State, a: Action, me: int)
    requires Enabled(s, a) && OfSleep(a) && s.cpus[a.c].proc == me && CpuOk(s, a.c) && SelfOk(me, s.procs[me], |s.procs|)
    requires Returning(s.cpus[a.c], s.procs[me])
    ensures NextCpu(s, a).mode == On && Returning(NextCpu(s, a), Acted(s, a, s.procs[me], me))
  {
    hide CanFork, CanExit, CanWait, CanSched;
  }

  lemma ForkReturns(s: State, a: Action, me: int)
    requires Enabled(s, a) && OfFork(a) && s.cpus[a.c].proc == me && CpuOk(s, a.c) && SelfOk(me, s.procs[me], |s.procs|)
    requires Returning(s.cpus[a.c], s.procs[me])
    ensures NextCpu(s, a).mode == On && Returning(NextCpu(s, a), Acted(s, a, s.procs[me], me))
  {
    hide CanSleep, CanExit, CanWait, CanSched;
  }

  lemma ExitReturns(s: State, a: Action, me: int)
    requires Enabled(s, a) && OfExit(a) && s.cpus[a.c].proc == me && CpuOk(s, a.c) && SelfOk(me, s.procs[me], |s.procs|)
    requires Returning(s.cpus[a.c], s.procs[me])
    ensures NextCpu(s, a).mode == On && Returning(NextCpu(s, a), Acted(s, a, s.procs[me], me))
  {
    hide CanSleep, CanFork, CanWait, CanSched;
  }

  lemma WaitReturns(s: State, a: Action, me: int)
    requires Enabled(s, a) && OfWait(a) && s.cpus[a.c].proc == me && CpuOk(s, a.c) && SelfOk(me, s.procs[me], |s.procs|)
    requires Returning(s.cpus[a.c], s.procs[me])
    ensures NextCpu(s, a).mode == On && Returning(NextCpu(s, a), Acted(s, a, s.procs[me], me))
  {
    hide CanSleep, CanFork, CanExit, CanSched;
  }

  lemma SchedReturns(s: State, a: Action)
    requires Enabled(s, a) && OfSched(a) && CpuOk(s, a.c) && CpuReturns(s, a.c)
    requires a.Dispatch? && s.procs[a.p].sched && !s.procs[a.p].yielding ==> s.procs[a.p].intena
    ensures a.SchedLock? ==> NextCpu(s, a).mode == Picking && NextCpu(s, a).intena
    ensures a.Dispatch? ==> NextCpu(s, a).mode == On && NextCpu(s, a).proc == a.p && Returning(NextCpu(s, a), s.procs[a.p])
    ensures !a.SchedLock? && !a.Dispatch? ==> NextCpu(s, a).mode != On && NextCpu(s, a).mode != Picking
  {
    hide CanSleep, CanFork, CanExit, CanWait, HereOk;
  }

  /** The CPU that acts, and the process it then has. */
  lemma ActorReturns(s: State, a: Action)
    requires Inv(s) && Enabled(s, a) && !OfNone(a) && AllReturn(s)
    ensures a.c < |s.cpus| && (NextCpu(s, a).mode == Picking ==> NextCpu(s, a).intena)
    ensures NextCpu(s, a).mode == On && NextCpu(s, a).proc != NOBODY ==>
              0 <= NextCpu(s, a).proc < |s.procs| && Returning(NextCpu(s, a), NextProc(s, a, NextCpu(s, a).proc))
  {
    hide Inv, Enabled, NextCpu, Acted, Met, Returning, CpuOk, SelfOk, ForkOk;
    CpuActs(s, a);
    Actors(s, a);
    assert CpuReturns(s, a.c);
    if OfSched(a) {
      if a.Dispatch? {
        DispatchReturns(s, a.c, a.p);
      } else {
        SchedReturns(s, a);
      }
    } else {
      HasActor(s, a);
      var me := s.cpus[a.c].proc;
      SameProc(s, a);
      if OfSleep(a) {
        SleepReturns(s, a, me);
      } else if OfFork(a) {
        ForkReturns(s, a, me);
      } else if OfExit(a) {
        ExitReturns(s, a, me);
      } else {
        WaitReturns(s, a, me);
      }
    }
  }

  lemma HasActor(s: State, a: Action)
    requires Enabled(s, a) && !OfNone(a) && !OfSched(a)
    ensures a.c < |s.cpus| && s.cpus[a.c].mode == On && s.cpus[a.c].proc != NOBODY && Actor(s, a) == s.cpus[a.c].proc
  {}

  lemma SameProc(s: State, a: Action)
    requires Enabled(s, a) && !OfNone(a) && !OfSched(a)
    ensures NextCpu(s, a).proc == s.cpus[a.c].proc
  {
    hide Enabled;
  }

  lemma DispatchReturns(s: State, c: nat, p: nat)
    requires Inv(s) && Enabled(s, Dispatch(c, p)) && AllReturn(s)
    ensures var a := Dispatch(c, p);
            p < |s.procs| && NextCpu(s, a).mode == On && NextCpu(s, a).proc == p && Returning(NextCpu(s, a), NextProc(s, a, p))
  {
    hide Inv, Enabled, CpuOk, Returning, SwitchedOut, NextCpu;
    var a := Dispatch(c, p);
    DispatchIn(s, c, p);
    AtCpu(s, c);
    assert CpuReturns(s, c) && SavedReturns(s, p);
    if s.procs[p].sched {
      Waiting(s, c, p);
    }
    SchedReturns(s, a);
    YieldingSame(s, c, p, NextCpu(s, a));
  }

  lemma DispatchIn(s: State, c: nat, p: nat)
    requires Enabled(s, Dispatch(c, p))
    ensures c < |s.cpus| && p < |s.procs|
  {}

  lemma YieldingSame(s: State, c: nat, p: nat, cpu: Cpu)
    requires Enabled(s, Dispatch(c, p)) && p < |s.procs| && Returning(cpu, s.procs[p])
    ensures Returning(cpu, NextProc(s, Dispatch(c, p), p))
  {
    hide Enabled;
  }

  /** Any other CPU, whose process may only have lost its parent or been killed. */
  lemma OtherReturns(s: State, a: Action, c: nat)
    requires Inv(s) && Enabled(s, a) && AllReturn(s) && c < |s.cpus| && (OfNone(a) || c != a.c)
    requires s.cpus[c].mode == On && s.cpus[c].proc != NOBODY
    ensures 0 <= s.cpus[c].proc < |s.procs| && Returning(s.cpus[c], NextProc(s, a, s.cpus[c].proc))
  {
    hide Inv, Enabled, NextProc, CpuOk;
    var q := s.cpus[c].proc;
    assert CpuReturns(s, c);
    CpuOf(s, a, c);
    Seated(s, a, q);
  }

  lemma CpuOf(s: State, a: Action, c: nat)
    requires Inv(s) && Enabled(s, a) && c < |s.cpus| && s.cpus[c].proc != NOBODY && (OfNone(a) || c != a.c)
    ensures 0 <= s.cpus[c].proc < |s.procs| && s.procs[s.cpus[c].proc].cpu == c && Actor(s, a) != s.cpus[c].proc
  {
    hide Inv, Enabled, HereOk, Extra, SeatOk, SelfOk, ForkOk;
    InvBounded(s);
    AtCpu(s, c);
    if Actor(s, a) != NOBODY {
      Actors(s, a);
    }
  }

  lemma CpuStep(s: State, a: Action, c: nat)
    requires Inv(s) && Enabled(s, a) && AllReturn(s) && c < |s.cpus| && Bounded(Next(s, a)) && |Next(s, a).cpus| == |s.cpus|
    ensures CpuReturns(Next(s, a), c)
  {
    hide Inv, Enabled, Next, NextProc, NextCpu, Returning, AllReturn;
    Widths(s, a);
    CpusMove(s, a, c);
    var s' := Next(s, a);
    if !OfNone(a) && c == a.c {
      ActorReturns(s, a);
    } else {
      StillPicking(s, c);
      if s.cpus[c].mode == On && s.cpus[c].proc != NOBODY {
        OtherReturns(s, a, c);
      }
    }
    if s'.cpus[c].mode == On && s'.cpus[c].proc != NOBODY {
      NextAt(s, a, s'.cpus[c].proc);
    }
  }

  lemma StillPicking(s: State, c: nat)
    requires AllReturn(s) && c < |s.cpus|
    ensures s.cpus[c].mode == Picking ==> s.cpus[c].intena
  {
    assert CpuReturns(s, c);
  }

  lemma SavedStep(s: State, a: Action, p: nat)
    requires Inv(s) && Enabled(s, a) && AllReturn(s) && p < |s.procs| && Bounded(Next(s, a)) && |Next(s, a).procs| == |s.procs|
    ensures SavedReturns(Next(s, a), p)
  {
    hide Inv, Enabled, Next, NextProc, Returning, SwitchedOut, CpuOk;
    if SwitchedOut(Next(s, a), p) {
      OutStep(s, a, p);
      Widths(s, a);
      NextAt(s, a, p);
      YieldingKept(s, a, p);
      assert SavedReturns(s, p);
      if a.Swtch? && a.c < |s.cpus| && s.cpus[a.c].proc == p {
        assert CpuReturns(s, a.c);
        SwtchLeaves(s, a.c, p);
      }
    }
  }

  lemma YieldingKept(s: State, a: Action, p: nat)
    requires Inv(s) && Enabled(s, a) && p < |s.procs| && |Next(s, a).procs| == |s.procs| && Bounded(Next(s, a)) && SwitchedOut(Next(s, a), p)
    ensures NextProc(s, a, p).yielding == s.procs[p].yielding
  {
    hide Inv, Enabled, Next, Acted, Met, NextCpu, CpuOk, SelfOk, ForkOk;
    Widths(s, a);
    NextAt(s, a, p);
    if Actor(s, a) == p {
      Actors(s, a);
      ActingCpu(s, a);
      ActedSched(s, a, s.procs[p], p);
      CpusMove(s, a, a.c);
    } else {
      MetSched(s, a, p);
    }
  }

  lemma SwtchLeaves(s: State, c: nat, p: nat)
    requires Inv(s) && Enabled(s, Action.Swtch(c)) && c < |s.cpus| && s.cpus[c].proc == p && CpuReturns(s, c) && p < |s.procs|
    ensures !s.procs[p].yielding ==> s.cpus[c].intena
  {
    hide Inv, CanSleep, CanFork, CanExit, CanWait, HereOk;
    AtCpu(s, c);
  }

  lemma ReturnStep(s: State, a: Action)
    requires Inv(s) && Enabled(s, a) && AllReturn(s)
    ensures AllReturn(Next(s, a))
  {
    hide Inv, Enabled, Next, CpuReturns, SavedReturns;
    Widths(s, a);
    var s' := Next(s, a);
    forall c | 0 <= c < |s'.cpus| ensures CpuReturns(s', c) {
      CpuStep(s, a, c);
    }
    forall p | 0 <= p < |s'.procs| ensures SavedReturns(s', p) {
      SavedStep(s, a, p);
    }
  }

  lemma {:induction false} ReturnInv(run: seq<State>, acts: seq<Action>, i: nat)
    requires Run(run, acts) && i < |run|
    ensures AllReturn(run[i])
  {
    hide Inv, Enabled, Next, AllReturn;
    if i == 0 {
      ReturnAtFirst(run[0]);
    } else {
      ReturnInv(run, acts, i - 1);
      StepOf(run, acts, i - 1);
      assert run[i - 1 + 1] == Next(run[i - 1], acts[i - 1]);
      ReturnStep(run[i - 1], acts[i - 1]);
    }
  }

  lemma ReturnAtFirst(s: State)
    requires Initial(s)
    ensures AllReturn(s)
  {}

  /** Interrupts are on whenever a CPU runs a process that holds no spin lock: no sequence of pushcli,
      popcli and switches between processes and CPUs loses them. */
  lemma InterruptsOn(run: seq<State>, acts: seq<Action>, i: nat, c: nat)
    requires Run(run, acts) && i < |run| && c < |run[i].cpus| && Runs(run[i], c) && LocksHeld(run[i], c) == 0
    ensures run[i].cpus[c].fl
  {
    hide Inv, Enabled, Next, LocksHeld, SwitchedOut;
    LocksCounted(run, acts, i, c);
    ReturnInv(run, acts, i);
    assert CpuReturns(run[i], c);
  }
}
