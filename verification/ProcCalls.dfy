/** What kill, wakeup, sleep, sched and wait come to, said of the states before and after them in any
    run, and that no CPU is ever stuck. */
module ProcCalls {
  import opened ProcTable

  lemma StepOf(run: seq<State>, acts: seq<Action>, i: nat)
    requires Run(run, acts) && i < |acts|
    ensures Enabled(run[i], acts[i]) && run[i + 1] == Next(run[i], acts[i]) && Inv(run[i]) && Bounded(run[i])
  {
    hide Enabled, Next, Inv;
    RunInv(run, acts, i);
    assert Bounded(run[i]) by {
      InvBounded(run[i]);
    }
  }

  lemma InvBounded(s: State)
    requires Inv(s)
    ensures Bounded(s)
  {}

  /** All fields of every process but p. */
  ghost predicate SameBut(s: State, s': State, p: int) {
    |s'.procs| == |s.procs| && forall q :: 0 <= q < |s.procs| && q != p ==> s'.procs[q] == s.procs[q]
  }

  // ------------------------------------------------------- kill and wakeup

  /** kill marks the process, makes it RUNNABLE if it was asleep on whatever channel, and changes
      nothing else. */
  lemma KillOutcome(run: seq<State>, acts: seq<Action>, i: nat, p: nat)
    requires Run(run, acts) && i < |acts| && acts[i] == Kill(p)
    ensures p < |run[i].procs| && SameBut(run[i], run[i + 1], p) && run[i + 1].cpus == run[i].cpus && run[i + 1].lock == run[i].lock
    ensures var pr, pr' := run[i].procs[p], run[i + 1].procs[p];
            && pr'.killed && pr'.status == (if pr.status == SLEEPING then RUNNABLE else pr.status)
            && pr' == pr.(killed := pr'.killed, status := pr'.status)
  {
    hide Inv;
    StepOf(run, acts, i);
  }

  /** wakeup makes exactly the sleepers on its channel RUNNABLE and changes nothing else. */
  lemma WakeupOutcome(run: seq<State>, acts: seq<Action>, i: nat, chan: int)
    requires Run(run, acts) && i < |acts| && acts[i] == Wakeup(chan)
    ensures |run[i + 1].procs| == |run[i].procs| && run[i + 1].cpus == run[i].cpus && run[i + 1].lock == run[i].lock
    ensures forall q :: 0 <= q < |run[i].procs| ==>
              var pr, pr' := run[i].procs[q], run[i + 1].procs[q];
              && pr'.status == (if pr.status == SLEEPING && pr.chan == chan then RUNNABLE else pr.status)
              && pr' == pr.(status := pr'.status)
  {
    hide Inv;
    StepOf(run, acts, i);
  }

  // ---------------------------------------------------- the process that acts

  predicate HasChild(s: State, p: int) {
    exists q :: 0 <= q < |s.procs| && s.procs[q].parent == p
  }

  /** How process me, which was pr, may have moved. */
  predicate Moved(s: State, a: Action, me: int, pr: Proc, pr': Proc) {
    && (pr'.pc.Sleepy? ==> pr'.pc == pr.pc || (a.SleepLock? && a.chan == pr'.pc.on))
    && (pr'.status == SLEEPING && pr'.pc == InSleep ==>
          (pr.status == SLEEPING && pr.pc == InSleep && pr.chan == pr'.chan) || (a.SleepGo? && pr.pc == Sleepy(pr'.chan)))
    && (pr'.pc.WaitScan? && pr'.pc.kids ==> pr.pc.WaitScan? && (pr.pc.kids || HasChild(s, me)))
    && (pr.status != UNUSED ==> pr'.status != UNUSED)
  }

  lemma MovedSched(s: State, a: Action, pr: Proc, me: int)
    requires Enabled(s, a) && OfSched(a)
    ensures Moved(s, a, me, pr, Acted(s, a, pr, me))
  {
    hide Enabled, HasChild;
  }

  lemma MovedSleep(s: State, a: Action, pr: Proc, me: int)
    requires Enabled(s, a) && OfSleep(a)
    ensures Moved(s, a, me, pr, Acted(s, a, pr, me))
  {
    hide Enabled, HasChild;
  }

  lemma MovedFork(s: State, a: Action, pr: Proc, me: int)
    requires Enabled(s, a) && OfFork(a)
    ensures Moved(s, a, me, pr, Acted(s, a, pr, me))
  {
    hide Enabled, HasChild;
  }

  lemma MovedExit(s: State, a: Action, pr: Proc, me: int)
    requires Enabled(s, a) && OfExit(a)
    ensures Moved(s, a, me, pr, Acted(s, a, pr, me))
  {
    hide Enabled, HasChild;
  }

  lemma MovedWait(s: State, a: Action, pr: Proc, me: int)
    requires Enabled(s, a) && OfWait(a)
    ensures Moved(s, a, me, pr, Acted(s, a, pr, me))
  {
    hide Enabled;
  }

  lemma ActedMoved(s: State, a: Action, pr: Proc, me: int)
    requires Enabled(s, a) && !OfNone(a)
    ensures Moved(s, a, me, pr, Acted(s, a, pr, me))
  {
    hide Enabled, Acted, Moved;
    if OfSched(a) {
      MovedSched(s, a, pr, me);
    } else if OfSleep(a) {
      MovedSleep(s, a, pr, me);
    } else if OfFork(a) {
      MovedFork(s, a, pr, me);
    } else if OfExit(a) {
      MovedExit(s, a, pr, me);
    } else {
      MovedWait(s, a, pr, me);
    }
  }

  lemma CpuActs(s: State, a: Action)
    requires Enabled(s, a) && !OfNone(a)
    ensures a.c < |s.cpus|
  {}

  // ----------------------------------------------------------------- sleep

  /** Before step i process p called sleep on chan, and neither a wakeup of chan nor a kill of p has
      come since. */
  ghost predicate Asked(run: seq<State>, acts: seq<Action>, i: nat, p: nat, chan: int) {
    exists j: nat, c: nat :: AskedAt(run, acts, i, p, chan, j, c)
  }

  ghost predicate AskedAt(run: seq<State>, acts: seq<Action>, i: nat, p: nat, chan: int, j: nat, c: nat) {
    && j < i <= |acts| < |run| && acts[j] == SleepLock(c, chan) && c < |run[j].cpus| && run[j].cpus[c].proc == p
    && forall k :: j < k < i ==> acts[k] != Wakeup(chan) && acts[k] != Kill(p)
  }

  lemma AskedStill(run: seq<State>, acts: seq<Action>, i: nat, p: nat, chan: int)
    requires Asked(run, acts, i, p, chan) && i < |acts| && acts[i] != Wakeup(chan) && acts[i] != Kill(p)
    ensures Asked(run, acts, i + 1, p, chan)
  {
    var j: nat, c: nat :| AskedAt(run, acts, i, p, chan, j, c);
    assert AskedAt(run, acts, i + 1, p, chan, j, c);
  }

  /** A process other than the one that acts gets no place in the code but New and User. */
  lemma MetPlace(s: State, a: Action, q: nat)
    requires Enabled(s, a) && q < |s.procs| && Actor(s, a) != q
    ensures var pr, pr' := s.procs[q], NextProc(s, a, q); pr'.pc == pr.pc || pr'.pc == New || pr'.pc == User
  {
    hide Enabled, Made, ExitStepped;
    if OfFork(a) {
      CpuActs(s, a);
      MadePlace(a, s.procs[q], s.cpus[a.c].proc);
    } else if a.ExitStep? {
      ExitStepPlace(s, a, q);
    }
  }

  lemma MadePlace(a: Action, pr: Proc, me: int)
    ensures Made(a, pr, me).pc == pr.pc || Made(a, pr, me).pc == New
  {}

  lemma ExitStepPlace(s: State, a: Action, q: nat)
    requires Enabled(s, a) && a.ExitStep? && q < |s.procs| && Actor(s, a) != q
    ensures Met(s, a, q).pc == s.procs[q].pc
  {
    hide CanFork, CanWait, CanSched, CanSleep;
  }

  lemma MetAsleep(s: State, a: Action, q: nat)
    requires Enabled(s, a) && q < |s.procs| && Actor(s, a) != q && NextProc(s, a, q).status == SLEEPING
    ensures s.procs[q].status == SLEEPING && s.procs[q].chan == NextProc(s, a, q).chan && a != Wakeup(s.procs[q].chan) && a != Kill(q)
  {
    hide Enabled, Made;
    if OfFork(a) {
      CpuActs(s, a);
      MadeAwake(a, s.procs[q], s.cpus[a.c].proc);
    }
  }

  lemma MadeAwake(a: Action, pr: Proc, me: int)
    ensures OfFork(a) && Made(a, pr, me).status == SLEEPING ==> pr.status == SLEEPING && Made(a, pr, me).chan == pr.chan
  {}

  lemma LocksOut(s: State, a: Action, q: nat)
    requires Inv(s) && Enabled(s, a) && q < |s.procs| && s.procs[q].pc.Sleepy?
    ensures !OfNone(a)
  {
    hide Inv, PairOk, ForkOk, CanFork, CanExit, CanWait, CanSched, CanSleep;
    At(s, q);
  }

  lemma SleepyStep(s: State, a: Action, q: nat)
    requires Inv(s) && Enabled(s, a) && q < |s.procs| && NextProc(s, a, q).pc.Sleepy?
    ensures var on := NextProc(s, a, q).pc.on;
            if s.procs[q].pc == Sleepy(on) then !OfNone(a)
            else a.SleepLock? && a.c < |s.cpus| && s.cpus[a.c].proc == q && a.chan == on
  {
    hide Inv, Acted, Met, Enabled;
    if Actor(s, a) == q {
      Awake(s, a, q);
      Actors(s, a);
      ActedMoved(s, a, s.procs[q], q);
    } else {
      MetPlace(s, a, q);
    }
    if s.procs[q].pc.Sleepy? {
      LocksOut(s, a, q);
    }
  }

  lemma AsleepStep(s: State, a: Action, q: nat)
    requires Inv(s) && Enabled(s, a) && q < |s.procs| && NextProc(s, a, q).status == SLEEPING && NextProc(s, a, q).pc == InSleep
    ensures var chan := NextProc(s, a, q).chan;
            && a != Wakeup(chan) && a != Kill(q)
            && if s.procs[q].status == SLEEPING then s.procs[q].pc == InSleep && s.procs[q].chan == chan
               else s.procs[q].pc == Sleepy(chan)
  {
    hide Inv, Acted, Met, Enabled;
    if Actor(s, a) == q {
      Awake(s, a, q);
      ActedMoved(s, a, s.procs[q], q);
    } else {
      MetPlace(s, a, q);
      MetAsleep(s, a, q);
    }
  }

  lemma Awake(s: State, a: Action, q: nat)
    requires Inv(s) && Enabled(s, a) && q < |s.procs| && Actor(s, a) == q
    ensures !OfNone(a) && (a.SleepGo? ==> s.procs[q].status == RUNNING)
  {
    hide Inv, PairOk, ForkOk, SeatOk, CanFork, CanExit, CanWait, CanSched;
    At(s, q);
  }

  lemma {:induction false} SleepyAsked(run: seq<State>, acts: seq<Action>, i: nat, p: nat)
    requires Run(run, acts) && i < |run| && p < |run[i].procs| && run[i].procs[p].pc.Sleepy?
    ensures Asked(run, acts, i, p, run[i].procs[p].pc.on)
  {
    hide Inv, Enabled, Next, NextProc, Asked;
    if i > 0 {
      var s, a := run[i - 1], acts[i - 1];
      StepOf(run, acts, i - 1);
      assert run[i] == Next(s, a);
      Widths(s, a);
      NextAt(s, a, p);
      SleepyStep(s, a, p);
      var on := run[i].procs[p].pc.on;
      if s.procs[p].pc == Sleepy(on) {
        SleepyAsked(run, acts, i - 1, p);
        AskedStill(run, acts, i - 1, p, on);
      } else {
        JustAsked(run, acts, i - 1, p, on);
      }
    }
  }

  lemma JustAsked(run: seq<State>, acts: seq<Action>, i: nat, p: nat, chan: int)
    requires |run| == |acts| + 1 && i < |acts| && acts[i].SleepLock? && acts[i].chan == chan
    requires acts[i].c < |run[i].cpus| && run[i].cpus[acts[i].c].proc == p
    ensures Asked(run, acts, i + 1, p, chan)
  {
    assert AskedAt(run, acts, i + 1, p, chan, i, acts[i].c);
  }

  /** Whoever is asleep in sleep() asked for that channel, and has been neither killed nor woken by it
      since. */
  lemma {:induction false} SleeperAsked(run: seq<State>, acts: seq<Action>, i: nat, p: nat)
    requires Run(run, acts) && i < |run| && p < |run[i].procs| && run[i].procs[p].status == SLEEPING && run[i].procs[p].pc == InSleep
    ensures Asked(run, acts, i, p, run[i].procs[p].chan)
  {
    hide Inv, Enabled, Next, NextProc, Asked;
    if i > 0 {
      var s, a := run[i - 1], acts[i - 1];
      StepOf(run, acts, i - 1);
      assert run[i] == Next(s, a);
      Widths(s, a);
      NextAt(s, a, p);
      AsleepStep(s, a, p);
      if s.procs[p].status == SLEEPING {
        SleeperAsked(run, acts, i - 1, p);
      } else {
        SleepyAsked(run, acts, i - 1, p);
      }
      AskedStill(run, acts, i - 1, p, run[i].procs[p].chan);
    }
  }

  // ------------------------------------------------------------------ wait

  /** What wait has noted of children is so. */
  ghost predicate KidsTrue(s: State) {
    forall p :: 0 <= p < |s.procs| && s.procs[p].pc.WaitScan? && s.procs[p].pc.kids ==> HasChild(s, p)
  }

  /** Process p, in wait's scan, has children after the step that it had before. */
  lemma ChildStays(s: State, a: Action, p: nat, q: nat)
    requires Inv(s) && Enabled(s, a) && p < |s.procs| && q < |s.procs| && s.procs[q].parent == p
    requires s.procs[p].pc.WaitScan? && NextProc(s, a, p).pc.WaitScan?
    ensures NextProc(s, a, q).parent == p
  {
    hide Inv, Enabled, Acted, Made, ExitStepped;
    if !OfNone(a) {
      CpuActs(s, a);
    }
    if Actor(s, a) == q {
      ActedParent(s, a, s.procs[q], q);
    } else if OfFork(a) {
      SlotFacts(s, a);
      MadeParent(a, s.procs[q], s.cpus[a.c].proc);
    } else if a.ExitStep? || a.Reap? {
      Scanning(s, a, p);
    }
  }

  lemma ActedParent(s: State, a: Action, pr: Proc, me: int)
    requires Enabled(s, a) && !OfNone(a)
    ensures Acted(s, a, pr, me).parent == pr.parent
  {
    hide Enabled, Acted;
  }

  lemma MadeParent(a: Action, pr: Proc, me: int)
    ensures !a.SetParent? ==> Made(a, pr, me).parent == pr.parent
  {}

  /** Nobody else scans the table while p does. */
  lemma Scanning(s: State, a: Action, p: nat)
    requires Inv(s) && Enabled(s, a) && p < |s.procs| && s.procs[p].pc.WaitScan? && (a.ExitStep? || a.Reap?)
    ensures s.cpus[a.c].proc == p && a.Reap? && NextProc(s, a, p).pc == User
  {
    hide Inv, PairOk, CanFork, CanSched, CanSleep, HereOk, Extra, ForkOk;
    At(s, p);
    AtCpu(s, a.c);
  }

  lemma ScanStep(s: State, a: Action, p: nat)
    requires Inv(s) && Enabled(s, a) && KidsTrue(s) && p < |s.procs| && NextProc(s, a, p).pc.WaitScan? && NextProc(s, a, p).pc.kids
    ensures s.procs[p].pc.WaitScan? && HasChild(s, p)
  {
    hide Inv, Acted, Met, Enabled, HasChild;
    if Actor(s, a) == p {
      Actors(s, a);
      ActedMoved(s, a, s.procs[p], p);
    } else {
      MetPlace(s, a, p);
    }
  }

  lemma KidsStep(s: State, a: Action)
    requires Inv(s) && Enabled(s, a) && KidsTrue(s)
    ensures KidsTrue(Next(s, a))
  {
    hide Inv, Enabled, Next, NextProc;
    Widths(s, a);
    var s' := Next(s, a);
    forall p | 0 <= p < |s'.procs| && s'.procs[p].pc.WaitScan? && s'.procs[p].pc.kids ensures HasChild(s', p) {
      NextAt(s, a, p);
      ScanStep(s, a, p);
      var q :| 0 <= q < |s.procs| && s.procs[q].parent == p;
      ChildStays(s, a, p, q);
      NextAt(s, a, q);
    }
  }

  lemma {:induction false} KidsInv(run: seq<State>, acts: seq<Action>, i: nat)
    requires Run(run, acts) && i < |run|
    ensures KidsTrue(run[i])
  {
    hide Inv, Enabled, Next;
    if i > 0 {
      KidsInv(run, acts, i - 1);
      StepOf(run, acts, i - 1);
      assert run[i - 1 + 1] == Next(run[i - 1], acts[i - 1]);
      KidsStep(run[i - 1], acts[i - 1]);
    }
  }

  /** When wait has seen the whole table without finding a zombie child, it returns to its caller and
      frees ptable.lock if and only if the process has no child at all or is killed. Otherwise the
      process goes to sleep on itself, still holding the lock. */
  lemma WaitOutcome(run: seq<State>, acts: seq<Action>, i: nat, c: nat)
    requires Run(run, acts) && i < |acts| && acts[i] == WaitEnd(c)
    ensures c < |run[i].cpus| && 0 <= run[i].cpus[c].proc < |run[i].procs|
    ensures var s, s', p := run[i], run[i + 1], run[i].cpus[c].proc;
            && SameBut(s, s', p) && s'.procs[p].killed == s.procs[p].killed
            && ((forall q :: 0 <= q < |s.procs| ==> s.procs[q].parent != p) || s.procs[p].killed <==>
                  s'.procs[p].status == RUNNING && s'.procs[p].pc == User && s'.lock == NOBODY)
            && ((exists q :: 0 <= q < |s.procs| && s.procs[q].parent == p) && !s.procs[p].killed ==>
                  s'.procs[p].status == SLEEPING && s'.procs[p].chan == p && s'.lock == c)
  {
    hide Inv, CanFork, CanExit, CanSched, CanSleep;
    StepOf(run, acts, i);
    KidsInv(run, acts, i);
    var s, p := run[i], run[i].cpus[c].proc;
    At(s, p);
    forall q | 0 <= q < |s.procs| && s.procs[q].parent == p ensures s.procs[p].pc.kids {
      WaitMissesNothing(run, acts, i, c, q);
    }
  }

  /** When wait reaps, the slot was the first with a zombie child of the process; it is unused
      afterwards, without a stack, a parent or a mark from kill, and nobody else has changed. */
  lemma ReapOutcome(run: seq<State>, acts: seq<Action>, i: nat, c: nat) returns (q: nat)
    requires Run(run, acts) && i < |acts| && acts[i] == Reap(c)
    ensures c < |run[i].cpus| && 0 <= run[i].cpus[c].proc < |run[i].procs| == |run[i + 1].procs|
    ensures var s, s', p := run[i], run[i + 1], run[i].cpus[c].proc;
            && q < |s.procs| && s.procs[q].parent == p && s.procs[q].status == ZOMBIE
            && (forall r :: 0 <= r < q ==> !(s.procs[r].parent == p && s.procs[r].status == ZOMBIE))
            && s'.procs[q].status == UNUSED && s'.procs[q].parent == NOBODY && !s'.procs[q].kstack && !s'.procs[q].killed
            && (forall r :: 0 <= r < |s.procs| && r != q && r != p ==> s'.procs[r] == s.procs[r])
            && s'.procs[p] == s.procs[p].(pc := User) && s'.procs[p].status == RUNNING && s'.lock == NOBODY
  {
    hide Inv, PairOk, CanFork, CanExit, CanSched, CanSleep;
    StepOf(run, acts, i);
    var s, p := run[i], run[i].cpus[c].proc;
    At(s, p);
    ReapFacts(s, acts[i]);
    q := s.procs[p].pc.i;
    forall r | 0 <= r < q ensures !(s.procs[r].parent == p && s.procs[r].status == ZOMBIE) {
      SeenNoZombie(s, p, r);
    }
  }

  lemma SeenNoZombie(s: State, p: nat, r: nat)
    requires Inv(s) && p < |s.procs| && r < |s.procs| && s.procs[p].pc.WaitScan? && r < s.procs[p].pc.i
    ensures !(s.procs[r].parent == p && s.procs[r].status == ZOMBIE)
  {
    hide Inv;
    AtPair(s, p, r);
  }

  // ------------------------------------------------------------ no leaks

  ghost predicate NoLeak(s: State) {
    forall q :: 0 <= q < |s.procs| && s.procs[q].status == UNUSED ==> !s.procs[q].kstack
  }

  lemma UnusedStep(s: State, a: Action, q: nat)
    requires Inv(s) && Enabled(s, a) && NoLeak(s) && q < |s.procs| && NextProc(s, a, q).status == UNUSED
    ensures !NextProc(s, a, q).kstack
  {
    hide Inv, Acted, Met, Enabled;
    if Actor(s, a) == q {
      ActedUnused(s, a, q);
    } else if NextProc(s, a, q).kstack {
      MetUnused(s, a, q);
    }
  }

  lemma ActedUnused(s: State, a: Action, q: nat)
    requires Inv(s) && Enabled(s, a) && q < |s.procs| && Actor(s, a) == q
    ensures !OfNone(a) && Acted(s, a, s.procs[q], q).status != UNUSED
  {
    hide Inv, Enabled, Acted, CpuOk, ForkOk;
    Actors(s, a);
    ActedMoved(s, a, s.procs[q], q);
  }

  lemma MetUnused(s: State, a: Action, q: nat)
    requires Inv(s) && Enabled(s, a) && q < |s.procs| && Met(s, a, q).status == UNUSED && Met(s, a, q).kstack
    ensures s.procs[q].status == UNUSED && s.procs[q].kstack
  {
    hide Inv, Enabled;
    if OfFork(a) {
      SlotFacts(s, a);
    }
  }

  /** An unused slot of the table has no kernel stack: neither a failed fork nor wait loses one. */
  lemma {:induction false} StacksGivenBack(run: seq<State>, acts: seq<Action>, i: nat, q: nat)
    requires Run(run, acts) && i < |run| && q < |run[i].procs| && run[i].procs[q].status == UNUSED
    ensures !run[i].procs[q].kstack
  {
    hide Inv, Enabled, Next, NextProc;
    NoLeakInv(run, acts, i);
  }

  lemma {:induction false} NoLeakInv(run: seq<State>, acts: seq<Action>, i: nat)
    requires Run(run, acts) && i < |run|
    ensures NoLeak(run[i])
  {
    hide Inv, Enabled, Next, NextProc;
    if i > 0 {
      var s, a := run[i - 1], acts[i - 1];
      NoLeakInv(run, acts, i - 1);
      StepOf(run, acts, i - 1);
      assert run[i - 1 + 1] == Next(s, a);
      Widths(s, a);
      forall q | 0 <= q < |run[i].procs| && run[i].procs[q].status == UNUSED ensures !run[i].procs[q].kstack {
        NextAt(s, a, q);
        UnusedStep(s, a, q);
      }
    }
  }

  // ----------------------------------------------------------------- sched

  /** Process p has called sched and is on no CPU any more, or on one that has left its stack. */
  predicate SwitchedOut(s: State, p: int)
    requires Bounded(s) && 0 <= p < |s.procs|
  {
    s.procs[p].sched && (s.procs[p].cpu == NOBODY || s.cpus[s.procs[p].cpu].mode == Left)
  }

  /** Before step i process p went through sched's swtch, on a CPU whose intena was v, and it has not
      been picked since. */
  ghost predicate LeftWith(run: seq<State>, acts: seq<Action>, i: nat, p: nat, v: bool) {
    exists j: nat, c: nat :: LeftAt(run, acts, i, p, v, j, c)
  }

  ghost predicate LeftAt(run: seq<State>, acts: seq<Action>, i: nat, p: nat, v: bool, j: nat, c: nat) {
    && j < i <= |acts| < |run| && acts[j] == Swtch(c) && c < |run[j].cpus| && run[j].cpus[c].proc == p && run[j].cpus[c].intena == v
    && forall k :: j < k < i ==> !(acts[k].Dispatch? && acts[k].p == p)
  }

  lemma LeftStill(run: seq<State>, acts: seq<Action>, i: nat, p: nat, v: bool)
    requires LeftWith(run, acts, i, p, v) && i < |acts| && !(acts[i].Dispatch? && acts[i].p == p)
    ensures LeftWith(run, acts, i + 1, p, v)
  {
    var j: nat, c: nat :| LeftAt(run, acts, i, p, v, j, c);
    assert LeftAt(run, acts, i + 1, p, v, j, c);
  }

  lemma JustLeft(run: seq<State>, acts: seq<Action>, i: nat, p: nat)
    requires |run| == |acts| + 1 && i < |acts| && acts[i].Swtch? && acts[i].c < |run[i].cpus| && run[i].cpus[acts[i].c].proc == p
    ensures LeftWith(run, acts, i + 1, p, run[i].cpus[acts[i].c].intena)
  {
    assert LeftAt(run, acts, i + 1, p, run[i].cpus[acts[i].c].intena, i, acts[i].c);
  }

  lemma MadeSched(a: Action, pr: Proc, me: int)
    ensures var pr' := Made(a, pr, me); pr'.sched == pr.sched && pr'.cpu == pr.cpu && pr'.intena == pr.intena && pr'.yielding == pr.yielding
  {}

  /** A process other than the one that acts keeps what sched has saved. */
  lemma MetSched(s: State, a: Action, q: nat)
    requires Enabled(s, a) && q < |s.procs| && Actor(s, a) != q && NextProc(s, a, q).sched
    ensures var pr, pr' := s.procs[q], NextProc(s, a, q); pr.sched && pr'.cpu == pr.cpu && pr'.intena == pr.intena && pr'.yielding == pr.yielding
    ensures !(a.Dispatch? && a.p == q)
  {
    hide Enabled, Made;
    if OfFork(a) {
      CpuActs(s, a);
      MadeSched(a, s.procs[q], s.cpus[a.c].proc);
    }
  }

  lemma ActingCpu(s: State, a: Action)
    requires Enabled(s, a) && Actor(s, a) != NOBODY
    ensures !OfNone(a) && a.c < |s.cpus| && !a.Dispatch?
    ensures !a.Swtch? && !a.Clear? ==> NextCpu(s, a).mode == On
    ensures a.Clear? ==> s.cpus[a.c].mode == Left
  {}

  lemma ActedSched(s: State, a: Action, pr: Proc, me: int)
    requires Enabled(s, a) && !OfNone(a)
    ensures a.Swtch? ==> Acted(s, a, pr, me) == pr.(intena := s.cpus[a.c].intena)
    ensures a.Clear? ==> Acted(s, a, pr, me) == pr.(cpu := NOBODY)
    ensures !a.Swtch? && !a.Clear? ==> Acted(s, a, pr, me).cpu == pr.cpu
  {
    hide Enabled;
  }

  lemma OutStep(s: State, a: Action, p: nat)
    requires Inv(s) && Enabled(s, a) && p < |s.procs| && Bounded(Next(s, a)) && |Next(s, a).procs| == |s.procs| && SwitchedOut(Next(s, a), p)
    ensures !(a.Dispatch? && a.p == p)
    ensures if a.Swtch? && a.c < |s.cpus| && s.cpus[a.c].proc == p then Next(s, a).procs[p].intena == s.cpus[a.c].intena
            else SwitchedOut(s, p) && Next(s, a).procs[p].intena == s.procs[p].intena
  {
    hide Inv, Enabled, Next, Acted, Met, NextCpu;
    Widths(s, a);
    NextAt(s, a, p);
    if Actor(s, a) == p {
      Actors(s, a);
      ActingCpu(s, a);
      ActedSched(s, a, s.procs[p], p);
      CpusMove(s, a, a.c);
    } else {
      MetSched(s, a, p);
      if s.procs[p].cpu != NOBODY {
        OtherCpu(s, a, p);
        CpusMove(s, a, s.procs[p].cpu);
      }
      if a.Swtch? {
        SwtchActs(s, a);
      }
    }
  }

  lemma SwtchActs(s: State, a: Action)
    requires Enabled(s, a) && a.Swtch?
    ensures a.c < |s.cpus| && Actor(s, a) == s.cpus[a.c].proc
  {}

  lemma {:induction false} LeftBefore(run: seq<State>, acts: seq<Action>, i: nat, p: nat)
    requires Run(run, acts) && i < |run| && Bounded(run[i]) && p < |run[i].procs| && SwitchedOut(run[i], p)
    ensures LeftWith(run, acts, i, p, run[i].procs[p].intena)
  {
    hide Inv, Enabled, Next, NextProc, LeftWith, SwitchedOut;
    if i == 0 {
      NotAtFirst(run[0], p);
    } else {
      var s, a := run[i - 1], acts[i - 1];
      StepOf(run, acts, i - 1);
      assert run[i] == Next(s, a);
      Widths(s, a);
      OutStep(s, a, p);
      if a.Swtch? && a.c < |s.cpus| && s.cpus[a.c].proc == p {
        JustLeft(run, acts, i - 1, p);
      } else {
        LeftBefore(run, acts, i - 1, p);
        LeftStill(run, acts, i - 1, p, run[i].procs[p].intena);
      }
    }
  }

  lemma NotAtFirst(s: State, p: nat)
    requires Initial(s) && Bounded(s) && p < |s.procs|
    ensures !SwitchedOut(s, p)
  {}

  lemma Waiting(s: State, c: nat, p: nat)
    requires Inv(s) && Enabled(s, Dispatch(c, p)) && s.procs[p].sched
    ensures SwitchedOut(s, p)
  {
    hide Inv, PairOk, ForkOk, HereOk, Extra;
    At(s, p);
    AtCpu(s, c);
  }

  /** What sched saves is what it restores: when a process that has called it is picked, on whatever
      CPU, that CPU's intena becomes what it was on the CPU that the process left last. */
  lemma SchedRestores(run: seq<State>, acts: seq<Action>, i: nat, c: nat, p: nat)
    requires Run(run, acts) && i < |acts| && acts[i] == Dispatch(c, p) && p < |run[i].procs| && run[i].procs[p].sched
    ensures c < |run[i + 1].cpus| && run[i + 1].cpus[c].proc == p && LeftWith(run, acts, i, p, run[i + 1].cpus[c].intena)
  {
    hide Inv, Enabled, LeftWith, SwitchedOut;
    StepOf(run, acts, i);
    Waiting(run[i], c, p);
    LeftBefore(run, acts, i, p);
    Picked(run[i], c, p);
  }

  lemma Picked(s: State, c: nat, p: nat)
    requires Enabled(s, Dispatch(c, p)) && s.procs[p].sched
    ensures c < |Next(s, Dispatch(c, p)).cpus| && Next(s, Dispatch(c, p)).cpus[c].proc == p
    ensures Next(s, Dispatch(c, p)).cpus[c].intena == s.procs[p].intena
  {}

  // ------------------------------------------------------------- channels

  /** Only a process that has not come back from sleep() or wait's sleep has a channel. */
  predicate Tidy(pr: Proc) {
    pr.pc == InSleep || pr.pc == WaitSleep || pr.chan == NOBODY
  }

  lemma TidySched(s: State, a: Action, me: int)
    requires Enabled(s, a) && OfSched(a) && Actor(s, a) == me && 0 <= me < |s.procs| && SelfOk(me, s.procs[me], |s.procs|) && Tidy(s.procs[me])
    ensures Tidy(Acted(s, a, s.procs[me], me))
  {
    hide CanSleep, CanFork, CanExit, CanWait;
  }

  lemma TidySleep(s: State, a: Action, me: int)
    requires Enabled(s, a) && OfSleep(a) && Actor(s, a) == me && 0 <= me < |s.procs| && SelfOk(me, s.procs[me], |s.procs|) && Tidy(s.procs[me])
    ensures Tidy(Acted(s, a, s.procs[me], me))
  {
    hide CanSched, CanFork, CanExit, CanWait;
  }

  lemma TidyFork(s: State, a: Action, me: int)
    requires Enabled(s, a) && OfFork(a) && Actor(s, a) == me && 0 <= me < |s.procs| && SelfOk(me, s.procs[me], |s.procs|) && Tidy(s.procs[me])
    ensures Tidy(Acted(s, a, s.procs[me], me))
  {
    hide CanSched, CanSleep, CanExit, CanWait;
  }

  lemma TidyExit(s: State, a: Action, me: int)
    requires Enabled(s, a) && OfExit(a) && Actor(s, a) == me && 0 <= me < |s.procs| && SelfOk(me, s.procs[me], |s.procs|) && Tidy(s.procs[me])
    ensures Tidy(Acted(s, a, s.procs[me], me))
  {
    hide CanSched, CanSleep, CanFork, CanWait;
  }

  lemma TidyWait(s: State, a: Action, me: int)
    requires Enabled(s, a) && OfWait(a) && Actor(s, a) == me && 0 <= me < |s.procs| && SelfOk(me, s.procs[me], |s.procs|) && Tidy(s.procs[me])
    ensures Tidy(Acted(s, a, s.procs[me], me))
  {
    hide CanSched, CanSleep, CanFork, CanExit;
  }

  lemma TidyActed(s: State, a: Action, me: int)
    requires Inv(s) && Enabled(s, a) && Actor(s, a) == me && 0 <= me < |s.procs| && Tidy(s.procs[me])
    ensures !OfNone(a) && Tidy(Acted(s, a, s.procs[me], me))
  {
    hide Inv, Enabled, Acted, Tidy, SelfOk, CpuOk, ForkOk;
    Actors(s, a);
    ActingCpu(s, a);
    if OfSched(a) {
      TidySched(s, a, me);
    } else if OfSleep(a) {
      TidySleep(s, a, me);
    } else if OfFork(a) {
      TidyFork(s, a, me);
    } else if OfExit(a) {
      TidyExit(s, a, me);
    } else {
      TidyWait(s, a, me);
    }
  }

  lemma TidyMet(s: State, a: Action, q: nat)
    requires Inv(s) && Enabled(s, a) && q < |s.procs| && Actor(s, a) != q && Tidy(s.procs[q])
    ensures Tidy(NextProc(s, a, q))
  {
    hide Inv, Enabled, Made, ExitStepped, SelfOk;
    if OfFork(a) {
      SlotFacts(s, a);
      CpuActs(s, a);
      if q == Slot(s, a) {
        MadeTidy(a, s.procs[q], s.cpus[a.c].proc);
      }
    } else if a.Reap? {
      ReapFacts(s, a);
    } else if a.ExitStep? {
      ExitStepChan(s, a, q);
    }
  }

  lemma MadeTidy(a: Action, pr: Proc, me: int)
    requires pr.pc == User && pr.chan == NOBODY
    ensures Tidy(Made(a, pr, me))
  {}

  lemma ExitStepChan(s: State, a: Action, q: nat)
    requires Enabled(s, a) && a.ExitStep? && q < |s.procs| && Actor(s, a) != q
    ensures Met(s, a, q).pc == s.procs[q].pc && Met(s, a, q).chan == s.procs[q].chan
  {
    hide CanFork, CanWait, CanSched, CanSleep;
  }

  /** sleep tidies up: whoever is not asleep in it, or on the way back from it, has no channel. */
  lemma {:induction false} ChannelsTidy(run: seq<State>, acts: seq<Action>, i: nat, q: nat)
    requires Run(run, acts) && i < |run| && q < |run[i].procs|
    ensures Tidy(run[i].procs[q])
  {
    hide Inv, Enabled, Next, NextProc, Tidy;
    if i == 0 {
      TidyAtFirst(run[0], q);
    } else {
      var s, a := run[i - 1], acts[i - 1];
      StepOf(run, acts, i - 1);
      assert run[i] == Next(s, a);
      Widths(s, a);
      NextAt(s, a, q);
      ChannelsTidy(run, acts, i - 1, q);
      TidyStep(s, a, q);
    }
  }

  lemma TidyAtFirst(s: State, q: nat)
    requires Initial(s) && q < |s.procs|
    ensures Tidy(s.procs[q])
  {}

  lemma TidyStep(s: State, a: Action, q: nat)
    requires Inv(s) && Enabled(s, a) && q < |s.procs| && Tidy(s.procs[q])
    ensures Tidy(NextProc(s, a, q))
  {
    hide Inv, Enabled, Tidy, Acted, Met;
    if Actor(s, a) == q {
      TidyActed(s, a, q);
    } else {
      TidyMet(s, a, q);
    }
  }

  // -------------------------------------------------------------- progress

  /** What CPU c can do next. */
  function Choice(s: State, c: nat): Action
    requires Bounded(s) && c < |s.cpus|
  {
    match s.cpus[c].mode
    case Idle => SchedLock(c)
    case Picking => SchedUnlock(c)
    case Left => Clear(c)
    case Done => SchedUnlock(c)
    case On =>
      if s.cpus[c].proc == NOBODY then SchedLock(c)
      else
        var pr := s.procs[s.cpus[c].proc];
        if pr.sched then Action.Swtch(c) else if s.lock == c then Held(s, c, pr) else Unheld(c, pr)
  }

  /** With ptable.lock. */
  function Held(s: State, c: nat, pr: Proc): Action
    requires Bounded(s) && c < |s.cpus|
  {
    if pr.yielding then Resume(c)
    else match pr.pc
    case Sleepy(_) => SleepGo(c)
    case ExitScan(i) => if i < |s.procs| then ExitStep(c) else ExitEnd(c)
    case WaitScan(i, _) =>
      if i >= |s.procs| then WaitEnd(c)
      else if s.procs[i].parent == s.cpus[c].proc && s.procs[i].status == ZOMBIE then Reap(c)
      else WaitStep(c)
    case WaitSleep => WaitAgain(c)
    case _ => Resume(c)
  }

  /** Without it. */
  function Unheld(c: nat, pr: Proc): Action {
    match pr.pc
    case Locked => DropLk(c)
    case Unstacked(_) => GetStack(c)
    case Stacked(_) => SetParent(c)
    case Parented(_) => Ready(c)
    case _ => Wait(c)
  }

  lemma HeldCan(s: State, c: nat)
    requires Inv(s) && Runs(s, c) && s.lock == c && !Cur(s, c).sched
    ensures Enabled(s, Held(s, c, Cur(s, c))) && !OfNone(Held(s, c, Cur(s, c))) && Held(s, c, Cur(s, c)).c == c
  {
    hide Inv, PairOk, ForkOk;
    AtCpu(s, c);
    At(s, s.cpus[c].proc);
  }

  lemma UnheldCan(s: State, c: nat)
    requires Inv(s) && Runs(s, c) && s.lock == NOBODY && !Cur(s, c).sched
    ensures Enabled(s, Unheld(c, Cur(s, c))) && !OfNone(Unheld(c, Cur(s, c))) && Unheld(c, Cur(s, c)).c == c
  {
    hide Inv, PairOk;
    AtCpu(s, c);
    At(s, s.cpus[c].proc);
  }

  lemma SwtchNext(s: State, c: nat)
    requires Inv(s) && Runs(s, c) && Cur(s, c).sched
    ensures Enabled(s, Action.Swtch(c))
  {
    hide Inv, PairOk, ForkOk, Extra;
    AtCpu(s, c);
    At(s, s.cpus[c].proc);
  }

  lemma SchedulerCan(s: State, c: nat)
    requires Inv(s) && c < |s.cpus| && (s.lock == NOBODY || s.lock == c) && s.cpus[c].mode != On
    ensures Bounded(s) && Enabled(s, Choice(s, c)) && !OfNone(Choice(s, c)) && Choice(s, c).c == c
  {
    hide Inv, PairOk, ForkOk, SelfOk, SeatOk, HereOk, Extra, Held, Unheld;
    InvBounded(s);
    AtCpu(s, c);
  }

  /** No CPU is ever stuck: unless another CPU holds ptable.lock it can take a step, whatever its
      scheduler, its process, or a process that it has just left is at. */
  lemma NeverStuck(run: seq<State>, acts: seq<Action>, i: nat, c: nat)
    requires Run(run, acts) && i < |run| && c < |run[i].cpus| && (run[i].lock == NOBODY || run[i].lock == c)
    ensures exists a: Action :: !OfNone(a) && a.c == c && Enabled(run[i], a)
  {
    hide Inv, Enabled, Next, Held, Unheld;
    RunInv(run, acts, i);
    var s := run[i];
    InvBounded(s);
    if s.cpus[c].mode != On {
      SchedulerCan(s, c);
    } else {
      OnHasProc(s, c);
      if Cur(s, c).sched {
        SwtchNext(s, c);
      } else if s.lock == c {
        HeldCan(s, c);
      } else {
        UnheldCan(s, c);
      }
    }
    assert Enabled(s, Choice(s, c));
  }

  lemma OnHasProc(s: State, c: nat)
    requires Inv(s) && c < |s.cpus| && s.cpus[c].mode == On
    ensures Runs(s, c)
  {
    hide Inv, PairOk, ForkOk, SelfOk, SeatOk, HereOk, Extra;
    InvBounded(s);
    AtCpu(s, c);
  }

  /** Any process can be killed and any channel woken whenever ptable.lock is free. */
  lemma AnyTime(run: seq<State>, acts: seq<Action>, i: nat)
    requires Run(run, acts) && i < |run| && run[i].lock == NOBODY
    ensures forall p: nat :: p < |run[i].procs| ==> Enabled(run[i], Kill(p))
    ensures forall chan :: chan >= |run[i].procs| ==> Enabled(run[i], Wakeup(chan))
  {
    hide Inv, CanFork, CanExit, CanWait, CanSched, CanSleep;
    RunInv(run, acts, i);
    InvBounded(run[i]);
  }
}
