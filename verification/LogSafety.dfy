/** When the log can be relied on: in every run whose operations log at most k blocks each, crash
    atomicity, durability and writes in place hold if and only if two callers that pass log_write's
    tests together cannot push the log over its end. */
module LogSafety {
  import opened Param
  import opened Blocks
  import opened LogFormat
  import opened LogCore
  import opened LogProtocol
  import opened LogReservation

  /** More blocks than operations of k blocks can fill with two of them past the tests at once; or
      none at all, when log_write refuses every block. */
  predicate LargeEnough(l: Layout, k: nat) {
    l.size > MAXOPBLOCKS + 2 * k || l.size == 1
  }

  lemma ReservedFits(l: Layout, s: State, k: nat)
    requires Reserved(s, k) && Distinct(l, s) && l.size > MAXOPBLOCKS + 2 * k && 0 <= Unspent(s.open, k)
    requires Booting(s.core.phase) ==> l.Fits(s.core.lh)
    ensures l.Fits(s.core.lh)
  {}

  /** In a log that is large enough, no in-budget run gets past the end. */
  lemma {:induction false} BudgetFits(l: Layout, init: Disk, run: seq<State>, acts: seq<Action>, k: nat, i: nat)
    requires BudgetRun(l, init, run, acts, k) && k <= MAXOPBLOCKS && LargeEnough(l, k) && i < |run|
    ensures FitsSoFar(l, run, i)
  {
    hide Steps, Reserved, Brackets, Distinct, BudgetRun;
    if i == 0 {
      StartFits(l, init, run, acts, k);
    } else {
      BudgetIsRun(l, init, run, acts, k);
      BudgetFits(l, init, run, acts, k, i - 1);
      NextFits(l, init, run, acts, k, i - 1);
    }
  }

  lemma StartFits(l: Layout, init: Disk, run: seq<State>, acts: seq<Action>, k: nat)
    requires BudgetRun(l, init, run, acts, k)
    ensures FitsSoFar(l, run, 0)
  {}

  lemma NextFits(l: Layout, init: Disk, run: seq<State>, acts: seq<Action>, k: nat, i: nat)
    requires BudgetRun(l, init, run, acts, k) && k <= MAXOPBLOCKS && LargeEnough(l, k) && i < |acts| && FitsSoFar(l, run, i)
    ensures l.Fits(run[i + 1].core.lh)
  {
    hide Steps, Inv;
    var b := i + 1;
    RunInv(l, init, run, acts, i);
    RunBrackets(l, init, run, acts, b);
    ReservationHolds(l, init, run, acts, k, b);
    UnspentBound(run[b].open, k);
    if l.size == 1 {
      NothingLogged(l, init, run, acts, k, b);
    } else {
      assert Steps(l, run[i], acts[i], run[b]);
      if Booting(run[b].core.phase) {
        StepBooting(l, init, run[i], acts[i], run[b]);
      }
      ReservedFits(l, run[b], k);
    }
  }

  lemma StepBooting(l: Layout, init: Disk, s: State, a: Action, s': State)
    requires Inv(l, init, s) && Steps(l, s, a, s') && Booting(s'.core.phase)
    ensures l.Fits(s'.core.lh)
  {
    hide PutHead, HeadOf, Durable, Current, Distinct, PhaseInv, Recovered, AdvanceCore;
    match a
    case Advance => AdvanceCoreInv(l, s.core, Durable(init, s), Current(init, s));
    case _ =>
  }

  // ------------------------------------------------------- what is relied on

  ghost predicate AlwaysFits(l: Layout, init: Disk, k: nat) {
    forall run: seq<State>, acts: seq<Action>, i: nat ::
      BudgetRun(l, init, run, acts, k) && i < |run| ==> l.Fits(run[i].core.lh)
  }

  ghost predicate AlwaysAtomic(l: Layout, init: Disk, k: nat) {
    forall run: seq<State>, acts: seq<Action>, i: nat ::
      BudgetRun(l, init, run, acts, k) && i < |run| ==> Atomic(l, init, run[i])
  }

  ghost predicate AlwaysDurable(l: Layout, init: Disk, k: nat) {
    forall run: seq<State>, acts: seq<Action>, i: nat ::
      BudgetRun(l, init, run, acts, k) && i < |run| ==> Settled(l, init, run[i])
  }

  ghost predicate AlwaysInPlace(l: Layout, init: Disk, k: nat) {
    forall run: seq<State>, acts: seq<Action>, i: nat, b: nat ::
      BudgetRun(l, init, run, acts, k) && i < |acts| ==> StepInPlace(l, run, acts, i, b)
  }

  ghost predicate StepInPlace(l: Layout, run: seq<State>, acts: seq<Action>, i: nat, b: nat) {
    i < |acts| && i + 1 < |run| && InPlace(l, run[i], acts[i], run[i + 1], b)
  }

  /** The log never names as many blocks as it has if and only if it is large enough. */
  lemma FitsExactly(l: Layout, init: Disk, k: nat)
    requires Roomy(l, init) && 1 <= k <= MAXOPBLOCKS
    ensures AlwaysFits(l, init, k) <==> LargeEnough(l, k)
  {
    hide BudgetRun;
    if LargeEnough(l, k) {
      forall run: seq<State>, acts: seq<Action>, i: nat | BudgetRun(l, init, run, acts, k) && i < |run| ensures l.Fits(run[i].core.lh) {
        BudgetFits(l, init, run, acts, k, i);
      }
    } else {
      var run, acts := Overrun(l, init, k, init[0]);
      assert !l.Fits(run[|run| - 1].core.lh);
    }
  }

  /** Crash atomicity holds of every in-budget run if and only if the log is large enough. With
      operations of MAXOPBLOCKS blocks that is more than the LOGSIZE blocks that mkfs makes it. */
  lemma AtomicExactly(l: Layout, init: Disk, k: nat)
    requires Roomy(l, init) && 1 <= k <= MAXOPBLOCKS
    ensures AlwaysAtomic(l, init, k) <==> LargeEnough(l, k)
  {
    hide BudgetRun, Atomic, Spilled;
    if LargeEnough(l, k) {
      forall run: seq<State>, acts: seq<Action>, i: nat | BudgetRun(l, init, run, acts, k) && i < |run| ensures Atomic(l, init, run[i]) {
        BudgetFits(l, init, run, acts, k, i);
        BudgetIsRun(l, init, run, acts, k);
        CrashAtomicity(l, init, run, acts, i);
      }
    } else {
      var data := Other(init[l.start + l.size]);
      var run, acts := Spill(l, init, k, data, l.size);
      SpillNotAtomic(l, init, run[|run| - 1], data);
    }
  }

  /** Writes stay in place in every in-budget run if and only if the log is large enough. */
  lemma InPlaceExactly(l: Layout, init: Disk, k: nat)
    requires Roomy(l, init) && 1 <= k <= MAXOPBLOCKS
    ensures AlwaysInPlace(l, init, k) <==> LargeEnough(l, k)
  {
    hide BudgetRun, InPlace, Spilled;
    if LargeEnough(l, k) {
      forall run: seq<State>, acts: seq<Action>, i: nat, b: nat | BudgetRun(l, init, run, acts, k) && i < |acts|
        ensures StepInPlace(l, run, acts, i, b)
      {
        BudgetIsRun(l, init, run, acts, k);
        BudgetFits(l, init, run, acts, k, i);
        WritesStayInPlace(l, init, run, acts, i, b);
      }
    } else {
      var data := Other(init[l.start + l.size]);
      var run, acts := Spill(l, init, k, data, l.size - 1);
      var s := run[|run| - 1];
      var s' := SpillOne(l, init, s, data, l.size - 1);
      Extend(l, init, run, acts, k, Advance, s');
      SpillNotInPlace(l, init, s, s', data);
      var run', acts' := run + [s'], acts + [Advance];
      BudgetIsRun(l, init, run, acts, k);
      assert run'[|acts|] == s && run'[|acts| + 1] == s' && acts'[|acts|] == Advance;
      assert !StepInPlace(l, run', acts', |acts|, l.start + l.size);
    }
  }

  /** What is quiet is durable, in every in-budget run, if and only if the log is large enough. */
  lemma DurableExactly(l: Layout, init: Disk, k: nat)
    requires Roomy(l, init) && 1 <= k <= MAXOPBLOCKS
    ensures AlwaysDurable(l, init, k) <==> LargeEnough(l, k)
  {
    hide BudgetRun, Settled, Spilled;
    if LargeEnough(l, k) {
      forall run: seq<State>, acts: seq<Action>, i: nat | BudgetRun(l, init, run, acts, k) && i < |run| ensures Settled(l, init, run[i]) {
        BudgetFits(l, init, run, acts, k, i);
        BudgetIsRun(l, init, run, acts, k);
        RunSettled(l, init, run, acts, i);
      }
    } else {
      var data := Other(init[l.start + l.size]);
      var run, acts := SpillThrough(l, init, k, data);
      SpillNotSettled(l, init, run[|run| - 1], data);
    }
  }

  lemma BudgetIsRun(l: Layout, init: Disk, run: seq<State>, acts: seq<Action>, k: nat)
    requires BudgetRun(l, init, run, acts, k)
    ensures Run(l, init, run, acts) && |run| == |acts| + 1
  {}

  lemma RunSettled(l: Layout, init: Disk, run: seq<State>, acts: seq<Action>, i: nat)
    requires Run(l, init, run, acts) && i < |run| && FitsSoFar(l, run, i)
    ensures Settled(l, init, run[i])
  {
    RunInv(l, init, run, acts, i);
    QuietDisk(l, init, run[i]);
  }

  // ------------------------------------------------------- a run that runs over

  function Other(b: Block): (r: Block)
    ensures r != b
  {
    var first: int := b[0]; b[0 := (first + 1) % 256]
  }

  /** Operations 0 and LAST have both passed the tests when there was room for one block more, and both
      have logged one: the log names as many blocks as it has. */
  ghost predicate Full(l: Layout, init: Disk, s: State, data: Block) {
    && s.core.disk == init && s.core.phase == Idle && !s.core.committing && s.core.lh == Named(l, l.size) && 2 <= l.size
    && s.passed == map[] && s.durable == {} && s.core.outstanding == 2 && s.open.Keys == {0, LAST}
    && (forall b :: b in s.core.lh ==> b in s.core.cache) && Nth(l, l.size - 1) in s.core.cache && s.core.cache[Nth(l, l.size - 1)] == data
    && (forall e :: e in s.trace ==> e.block != l.start + l.size)
  }

  /** The run ends with two operations that pass log_write's tests, each for a new block, while there is
      room for one, and then both append. */
  ghost predicate RacedPast(l: Layout, run: seq<State>, acts: seq<Action>, data: Block) {
    && 2 <= l.size && |run| == |acts| + 1 && |acts| >= 4
    && var at := |acts| - 4;
    && |run[at].core.lh| == l.size - 2 && |run[at + 4].core.lh| == l.size
    && acts[at..] == [Check(0, Nth(l, l.size - 2)), Check(LAST, Nth(l, l.size - 1)), Append(0, data), Append(LAST, data)]
  }

  /** A run that runs over by one block, in budget all the way. */
  lemma Overrun(l: Layout, init: Disk, k: nat, data: Block) returns (run: seq<State>, acts: seq<Action>)
    requires Roomy(l, init) && 1 <= k <= MAXOPBLOCKS && !LargeEnough(l, k)
    ensures BudgetRun(l, init, run, acts, k) && |run| > 0 && Full(l, init, run[|run| - 1], data) && !l.Fits(run[|run| - 1].core.lh)
    ensures RacedPast(l, run, acts, data)
  {
    hide BudgetRun, HeadOf, Filled, Named, Nth, Racing, RacedPast;
    var n := l.size - 2;
    var run0, acts0 := FillLog(l, init, k, k - 1, n);
    FilledNames(l, init, run0[|run0| - 1], k - 1, n);
    var run2, acts2 := BothPass(l, init, run0, acts0, k, n);
    run, acts := BothAppend(l, init, run2, acts2, k, n, data);
    NamedSize(l, l.size);
    BudgetIsRun(l, init, run, acts, k);
    Joined(l, run0, acts0, run2, acts2, run, acts, data);
  }

  lemma Joined(l: Layout, run0: seq<State>, acts0: seq<Action>, run2: seq<State>, acts2: seq<Action>, run: seq<State>, acts: seq<Action>, data: Block)
    requires 0 < |run0| && |run2| == |run0| + 2 && |run| == |run2| + 2 == |acts| + 1 && |acts2| == |acts0| + 2 && |acts| == |acts2| + 2
    requires run2[|run0| - 1] == run0[|run0| - 1] && run[..|run2|] == run2 && acts[..|acts2|] == acts2
    requires 2 <= l.size && |run0[|run0| - 1].core.lh| == l.size - 2 && |run[|run| - 1].core.lh| == l.size
    requires acts2[|acts0|] == Check(0, Nth(l, l.size - 2)) && acts2[|acts0| + 1] == Check(LAST, Nth(l, l.size - 1))
    requires acts[|acts2|] == Append(0, data) && acts[|acts2| + 1] == Append(LAST, data)
    ensures RacedPast(l, run, acts, data)
  {
    assert acts[|acts0|] == acts2[|acts0|] && acts[|acts0| + 1] == acts2[|acts0| + 1] && run[|run0| - 1] == run2[|run0| - 1];
  }

  /** On the log that mkfs makes: three operations of at most ten blocks have logged 28, two of them pass
      the tests together, and the log of 30 blocks, header included, names 30. */
  lemma MkfsOverrun(l: Layout, init: Disk, data: Block) returns (run: seq<State>, acts: seq<Action>, at: nat)
    requires Roomy(l, init) && l.size == LOGSIZE
    ensures BudgetRun(l, init, run, acts, MAXOPBLOCKS) && |run| == at + 5 && |acts| == at + 4
    ensures |run[at].core.lh| == 28 && |run[at + 4].core.lh| == 30 == l.size
    ensures acts[at].Check? && acts[at + 1].Check? && acts[at].op != acts[at + 1].op
    ensures acts[at + 2] == Append(acts[at].op, data) && acts[at + 3] == Append(acts[at + 1].op, data)
  {
    hide BudgetRun, Full;
    run, acts := Overrun(l, init, MAXOPBLOCKS, data);
    at := |acts| - 4;
    assert forall j :: 0 <= j < 4 ==> acts[at + j] == acts[at..][j];
  }

  /** Both have passed the tests, for different new blocks. */
  ghost predicate Racing(l: Layout, init: Disk, s: State, k: nat, n: nat) {
    && s.core.disk == init && s.core.phase == Idle && !s.core.committing && s.core.lh == Named(l, n)
    && s.durable == {} && s.core.outstanding == 2 && s.open.Keys == {0, LAST} && s.open[0] < k && s.open[LAST] < k
    && s.passed == map[0 := Nth(l, n), LAST := Nth(l, n + 1)]
    && (forall b :: b in s.core.lh ==> b in s.core.cache)
    && (forall e :: e in s.trace ==> e.block != l.start + l.size)
  }

  lemma BothPass(l: Layout, init: Disk, run: seq<State>, acts: seq<Action>, k: nat, n: nat)
    returns (run': seq<State>, acts': seq<Action>)
    requires BudgetRun(l, init, run, acts, k) && |run| > 0 && Roomy(l, init) && n + 2 == l.size && n < LOGSIZE - 1 && 1 <= k
    requires Filled(l, init, run[|run| - 1], k - 1, n) && n <= MAXOPBLOCKS + 2 * (k - 1)
    ensures BudgetRun(l, init, run', acts', k) && |run'| == |run| + 2 && Racing(l, init, run'[|run'| - 1], k, n)
    ensures run'[|run| - 1] == run[|run| - 1] && |acts'| == |acts| + 2
    ensures acts'[|acts|] == Check(0, Nth(l, n)) && acts'[|acts| + 1] == Check(LAST, Nth(l, n + 1))
  {
    hide BudgetRun, HeadOf, Named;
    var s := run[|run| - 1];
    FilledNames(l, init, s, k - 1, n);
    var a1, a2 := Check(0, Nth(l, n)), Check(LAST, Nth(l, n + 1));
    var s1 := After(l, s, a1);
    Extend(l, init, run, acts, k, a1, s1);
    var s2 := After(l, s1, a2);
    Extend(l, init, run + [s1], acts + [a1], k, a2, s2);
    run', acts' := run + [s1] + [s2], acts + [a1] + [a2];
  }

  /** An append of the next block in the runs here. */
  lemma AppendNext(l: Layout, s: State, op: OpId, n: nat, data: Block) returns (s': State)
    requires op in s.passed && op in s.open && s.passed[op] == Nth(l, n) && s.core.lh == Named(l, n)
    requires (forall b :: b in s.core.lh ==> b in s.core.cache) && (forall e :: e in s.trace ==> e.block != l.start + l.size)
    ensures Steps(l, s, Append(op, data), s') && s'.passed == s.passed - {op} && s'.open == s.open[op := s.open[op] + 1]
    ensures s'.core == s.core.(lh := Named(l, n + 1), cache := s.core.cache[Nth(l, n) := data]) && s'.durable == s.durable
    ensures (forall b :: b in s'.core.lh ==> b in s'.core.cache) && (forall e :: e in s'.trace ==> e.block != l.start + l.size)
  {
    NamedMore(l, n);
    s' := After(l, s, Append(op, data));
  }

  lemma BothAppend(l: Layout, init: Disk, run: seq<State>, acts: seq<Action>, k: nat, n: nat, data: Block)
    returns (run': seq<State>, acts': seq<Action>)
    requires BudgetRun(l, init, run, acts, k) && |run| > 0 && Roomy(l, init) && n + 2 == l.size && Racing(l, init, run[|run| - 1], k, n)
    ensures BudgetRun(l, init, run', acts', k) && |run'| == |run| + 2 && Full(l, init, run'[|run'| - 1], data)
    ensures !l.Fits(run'[|run'| - 1].core.lh) && |acts'| == |acts| + 2 && run'[..|run|] == run && acts'[..|acts|] == acts
    ensures acts'[|acts|] == Append(0, data) && acts'[|acts| + 1] == Append(LAST, data)
  {
    hide BudgetRun, HeadOf, Named, Steps;
    var s := run[|run| - 1];
    NamedSize(l, l.size);
    assert 0 in s.open.Keys && LAST in s.open.Keys;
    var s1 := AppendNext(l, s, 0, n, data);
    Extend(l, init, run, acts, k, Append(0, data), s1);
    var s2 := AppendNext(l, s1, LAST, n + 1, data);
    assert s2.passed == map[] && s2.open.Keys == s.open.Keys;
    Extend(l, init, run + [s1], acts + [Append(0, data)], k, Append(LAST, data), s2);
    run', acts' := run + [s1] + [s2], acts + [Append(0, data)] + [Append(LAST, data)];
  }

  // ----------------------------------------- what its commit does to the disk

  /** The commit of such a log with t blocks copied. The copy of the last block goes to the block
      behind the log. */
  ghost predicate Spilled(l: Layout, init: Disk, s: State, data: Block, t: nat) {
    && Roomy(l, init) && |s.core.disk| == |init| && s.core.disk[l.start] == init[l.start]
    && s.core.lh == Named(l, l.size) && 2 <= l.size <= LOGSIZE && t <= l.size
    && s.core.phase == (if t < l.size then CopyLog(t) else CommitHead) && s.core.committing && s.core.outstanding == 0
    && s.passed == map[] && s.durable == {} && s.open == map[]
    && (forall b :: b in s.core.lh ==> b in s.core.cache) && Nth(l, l.size - 1) in s.core.cache && s.core.cache[Nth(l, l.size - 1)] == data
    && s.core.disk[l.start + l.size] == (if t < l.size then init[l.start + l.size] else data)
    && (forall e :: e in s.trace ==> e.block != l.start + l.size)
  }

  lemma SpillNames(l: Layout, init: Disk)
    requires Roomy(l, init) && l.size <= LOGSIZE
    ensures l.Names(Named(l, l.size)) && |Named(l, l.size)| == l.size && forall i :: 0 <= i < l.size ==> Named(l, l.size)[i] == Nth(l, i)
  {}

  /** One disk write of write_log. */
  lemma SpillOne(l: Layout, init: Disk, s: State, data: Block, t: nat) returns (s': State)
    requires Spilled(l, init, s, data, t) && t < l.size
    ensures Steps(l, s, Advance, s') && Spilled(l, init, s', data, t + 1)
  {
    hide HeadOf, Named;
    SpillNames(l, init);
    s' := After(l, s, Advance);
  }

  lemma BeginSpill(l: Layout, init: Disk, run: seq<State>, acts: seq<Action>, k: nat, data: Block)
    returns (run': seq<State>, acts': seq<Action>)
    requires BudgetRun(l, init, run, acts, k) && |run| > 0 && Roomy(l, init) && Full(l, init, run[|run| - 1], data) && 2 <= l.size <= LOGSIZE
    ensures BudgetRun(l, init, run', acts', k) && |run'| > 0 && Spilled(l, init, run'[|run'| - 1], data, 0)
  {
    hide BudgetRun, HeadOf, Named;
    SpillNames(l, init);
    var s := run[|run| - 1];
    assert 0 in s.open.Keys && LAST in s.open.Keys;
    var s1 := After(l, s, End(0));
    assert s1.open.Keys == {LAST} && LAST in s1.open;
    Extend(l, init, run, acts, k, End(0), s1);
    var s2 := After(l, s1, End(LAST));
    assert s2.open.Keys == {};
    Extend(l, init, run + [s1], acts + [End(0)], k, End(LAST), s2);
    run', acts' := run + [s1] + [s2], acts + [End(0)] + [End(LAST)];
  }

  lemma {:induction false} Spill(l: Layout, init: Disk, k: nat, data: Block, t: nat) returns (run: seq<State>, acts: seq<Action>)
    requires Roomy(l, init) && 1 <= k <= MAXOPBLOCKS && !LargeEnough(l, k) && t <= l.size
    ensures BudgetRun(l, init, run, acts, k) && |run| > 0 && Spilled(l, init, run[|run| - 1], data, t)
  {
    hide BudgetRun, HeadOf, Spilled, Full;
    if t == 0 {
      run, acts := Overrun(l, init, k, data);
      run, acts := BeginSpill(l, init, run, acts, k, data);
    } else {
      run, acts := Spill(l, init, k, data, t - 1);
      var s' := SpillOne(l, init, run[|run| - 1], data, t - 1);
      Extend(l, init, run, acts, k, Advance, s');
      run, acts := run + [s'], acts + [Advance];
    }
  }

  lemma {:induction false} NoWrites(trace: seq<Event>)
    ensures WritesOf(trace, {}) == []
  {
    if trace != [] {
      NoWrites(trace[..|trace| - 1]);
    }
  }

  lemma SpillNotAtomic(l: Layout, init: Disk, s: State, data: Block)
    requires Spilled(l, init, s, data, l.size) && data != init[l.start + l.size]
    ensures !Atomic(l, init, s)
  {
    hide HeadOf, Named;
    NoWrites(s.trace);
    assert l.Home(l.start + l.size);
    if GoodDisk(l, s.core.disk) {
      RecoveredIdle(l, s.core.disk);
      assert Recovered(l, s.core.disk)[l.start + l.size] == data;
    }
  }

  lemma SpillNotInPlace(l: Layout, init: Disk, s: State, s': State, data: Block)
    requires l.size > 0 && Spilled(l, init, s, data, l.size - 1) && Spilled(l, init, s', data, l.size) && data != init[l.start + l.size]
    ensures !InPlace(l, s, Advance, s', l.start + l.size)
  {
    hide HeadOf;
    assert l.start + l.size !in s.core.lh;
  }

  // ------------------------------------------------- and after the commit

  /** From the header write on, until the machine is quiet again. */
  ghost predicate Spoiled(l: Layout, init: Disk, s: State, data: Block) {
    && Roomy(l, init) && |s.core.disk| == |init| && GetWord(s.core.disk[l.start], 0) < 127 && 2 <= l.size <= LOGSIZE
    && (s.core.lh == Named(l, l.size) || s.core.lh == []) && s.core.outstanding == 0 && s.open == map[]
    && s.core.disk[l.start + l.size] == data
    && (forall e :: e in s.trace ==> e.block != l.start + l.size)
    && match s.core.phase
       case InstallHome(t, boot) => !boot && s.core.lh != [] && t < l.size
       case EraseHead(boot) => !boot
       case Finish => true
       case Idle => true
       case _ => false
  }

  /** How many disk writes are left. */
  ghost function Left(l: Layout, s: State): nat
  {
    match s.core.phase
    case InstallHome(t, _) => if t < l.size then l.size - t + 2 else 2
    case EraseHead(_) => 2
    case Finish => 1
    case _ => 0
  }

  lemma SpoilOne(l: Layout, init: Disk, s: State, data: Block) returns (s': State)
    requires Spoiled(l, init, s, data) && s.core.phase != Idle
    ensures Steps(l, s, Advance, s') && Spoiled(l, init, s', data) && Left(l, s') < Left(l, s)
  {
    hide HeadOf, Named, PutHead;
    SpillNames(l, init);
    HeadRoundTrip(s.core.disk[l.start], []);
    assert !l.Home(l.start) && l.start + l.size !in Named(l, l.size);
    if s.core.phase.InstallHome? {
      assert s.core.lh[s.core.phase.tail] in Named(l, l.size);
    }
    s' := After(l, s, Advance);
  }

  lemma {:induction false} Spoil(l: Layout, init: Disk, run: seq<State>, acts: seq<Action>, k: nat, data: Block)
    returns (run': seq<State>, acts': seq<Action>)
    requires BudgetRun(l, init, run, acts, k) && |run| > 0 && Spoiled(l, init, run[|run| - 1], data)
    ensures BudgetRun(l, init, run', acts', k) && |run'| > 0 && Spoiled(l, init, run'[|run'| - 1], data) && run'[|run'| - 1].core.phase == Idle
    decreases Left(l, run[|run| - 1])
  {
    hide BudgetRun, Spoiled, Steps;
    run', acts' := run, acts;
    if run[|run| - 1].core.phase != Idle {
      var s' := SpoilOne(l, init, run[|run| - 1], data);
      Extend(l, init, run, acts, k, Advance, s');
      run', acts' := Spoil(l, init, run + [s'], acts + [Advance], k, data);
    }
  }

  lemma SpillHead(l: Layout, init: Disk, s: State, data: Block) returns (s': State)
    requires Spilled(l, init, s, data, l.size)
    ensures Steps(l, s, Advance, s') && Spoiled(l, init, s', data)
  {
    hide HeadOf, Named;
    SpillNames(l, init);
    HeadRoundTrip(s.core.disk[l.start], s.core.lh);
    s' := After(l, s, Advance);
  }

  lemma SpillThrough(l: Layout, init: Disk, k: nat, data: Block) returns (run: seq<State>, acts: seq<Action>)
    requires Roomy(l, init) && 1 <= k <= MAXOPBLOCKS && !LargeEnough(l, k)
    ensures BudgetRun(l, init, run, acts, k) && |run| > 0 && Spoiled(l, init, run[|run| - 1], data) && run[|run| - 1].core.phase == Idle
  {
    hide BudgetRun, Spilled, Spoiled, Steps;
    run, acts := Spill(l, init, k, data, l.size);
    var s' := SpillHead(l, init, run[|run| - 1], data);
    Extend(l, init, run, acts, k, Advance, s');
    run, acts := Spoil(l, init, run + [s'], acts + [Advance], k, data);
  }

  lemma {:induction false} ReplayElsewhere(init: Disk, trace: seq<Event>, ops: set<OpId>, b: nat)
    requires b < |init| && forall e :: e in trace ==> e.block != b
    ensures Replay(init, WritesOf(trace, ops))[b] == init[b]
  {
    if trace != [] {
      ReplayElsewhere(init, trace[..|trace| - 1], ops, b);
      var r, e := WritesOf(trace[..|trace| - 1], ops), trace[|trace| - 1];
      if e.op in ops && e.block < |init| {
        ReplayAppend(init, r, e);
      } else {
        assert (r + [e])[..|r|] == r;
      }
    }
  }

  lemma SpillNotSettled(l: Layout, init: Disk, s: State, data: Block)
    requires Spoiled(l, init, s, data) && s.core.phase == Idle && data != init[l.start + l.size]
    ensures !Settled(l, init, s)
  {
    hide HeadOf, Named;
    ReplayElsewhere(init, s.trace, s.durable, l.start + l.size);
    assert l.Home(l.start + l.size);
  }
}
