/** What begin_op's reservation is worth. It sets MAXOPBLOCKS blocks aside for each operation; here
    each operation adds at most k, and the results say for which k and which size of the log
    log_write never refuses a block and the log never runs over its end. */
module LogReservation {
  import opened Param
  import opened Blocks
  import opened LogFormat
  import opened LogCore
  import opened LogProtocol

  /** The blocks that the open operations may still add. */
  ghost function Unspent(open: map<OpId, nat>, k: nat): int {
    if open == map[] then 0
    else var op :| op in open; k - open[op] + Unspent(open - {op}, k)
  }

  lemma {:induction false} UnspentPick(open: map<OpId, nat>, k: nat, op: OpId)
    requires op in open
    ensures Unspent(open, k) == k - open[op] + Unspent(open - {op}, k)
  {
    var o :| o in open && Unspent(open, k) == k - open[o] + Unspent(open - {o}, k);
    if o != op {
      UnspentPick(open - {o}, k, op);
      UnspentPick(open - {op}, k, o);
      assert open - {o} - {op} == open - {op} - {o};
    }
  }

  lemma UnspentSet(open: map<OpId, nat>, k: nat, op: OpId, n: nat)
    ensures Unspent(open[op := n], k) == k - n + Unspent(open - {op}, k)
  {
    UnspentPick(open[op := n], k, op);
    assert open[op := n] - {op} == open - {op};
  }

  ghost predicate WithinBudgets(open: map<OpId, nat>, k: nat) {
    forall op :: op in open ==> open[op] <= k
  }

  lemma {:induction false} UnspentBound(open: map<OpId, nat>, k: nat)
    requires WithinBudgets(open, k)
    ensures 0 <= Unspent(open, k) <= k * |open|
  {
    if open != map[] {
      var op :| op in open;
      UnspentPick(open, k, op);
      assert (open - {op}).Keys == open.Keys - {op};
      assert |open - {op}| == |open| - 1;
      UnspentBound(open - {op}, k);
      OneTimes(k, |open|);
    }
  }

  lemma OneTimes(k: nat, n: nat)
    requires n > 0
    ensures k * (n - 1) + k == k * n
  {}

  ghost predicate InBudget(s: State, a: Action, k: nat) {
    a.Append? && a.op in s.passed && a.op in s.open ==> s.passed[a.op] in s.core.lh || s.open[a.op] < k
  }

  /** A run in which no operation adds more than k blocks to the log. */
  ghost predicate BudgetRun(l: Layout, init: Disk, run: seq<State>, acts: seq<Action>, k: nat) {
    Run(l, init, run, acts) && forall i :: 0 <= i < |acts| ==> InBudget(run[i], acts[i], k)
  }

  /** While operations run, the logged blocks and the unspent budgets together stay within what begin_op
      admitted; a commit or a recovery never has more blocks in hand than the log is made for. */
  ghost predicate Reserved(s: State, k: nat) {
    && WithinBudgets(s.open, k) && |s.core.lh| <= LOGSIZE
    && (!Booting(s.core.phase) ==> |s.core.lh| + Unspent(s.open, k) <= MAXOPBLOCKS + 2 * k)
  }

  lemma BeginReserved(open: map<OpId, nat>, k: nat, op: OpId, n: nat)
    requires WithinBudgets(open, k) && op !in open && n + (|open| + 1) * MAXOPBLOCKS <= LOGSIZE && k <= MAXOPBLOCKS
    requires open == map[] ==> n == 0
    ensures WithinBudgets(open[op := 0], k) && n + Unspent(open[op := 0], k) <= MAXOPBLOCKS + 2 * k
  {
    hide Unspent;
    UnspentBound(open, k);
    UnspentSet(open, k, op, 0);
    assert open - {op} == open;
    AtMostTwo(|open|, k, n, Unspent(open, k));
  }

  /** With one operation more than c there is room for what is left of their budgets. */
  lemma AtMostTwo(c: nat, k: nat, n: nat, left: int)
    requires n + (c + 1) * MAXOPBLOCKS <= LOGSIZE && k <= MAXOPBLOCKS && left <= k * c && (c == 0 ==> n == 0)
    ensures n + k + left <= MAXOPBLOCKS + 2 * k
  {
    if c == 0 {
      assert k * c == 0;
    } else if c == 1 {
      assert k * c == k;
    } else {
      assert c == 2 && k * c == 2 * k;
    }
  }

  lemma AppendReserved(open: map<OpId, nat>, k: nat, op: OpId, n: nat, added: nat)
    requires WithinBudgets(open, k) && op in open && n + Unspent(open, k) <= MAXOPBLOCKS + 2 * k && added <= 1 && (added == 1 ==> open[op] < k)
    ensures WithinBudgets(open[op := open[op] + added], k)
    ensures n + added <= n + added + Unspent(open[op := open[op] + added], k) <= MAXOPBLOCKS + 2 * k
  {
    UnspentPick(open, k, op);
    UnspentSet(open, k, op, open[op] + added);
    UnspentBound(open[op := open[op] + added], k);
  }

  lemma EndReserved(open: map<OpId, nat>, k: nat, op: OpId)
    requires WithinBudgets(open, k) && op in open
    ensures WithinBudgets(open - {op}, k) && Unspent(open - {op}, k) <= Unspent(open, k)
  {
    UnspentPick(open, k, op);
  }

  lemma AdvanceReserved(l: Layout, c: Core)
    requires CanAdvance(l, c)
    ensures |AdvanceCore(l, c).lh| <= LOGSIZE && c.phase != Idle
    ensures !Booting(AdvanceCore(l, c).phase) ==> AdvanceCore(l, c).lh == [] || (!Booting(c.phase) && AdvanceCore(l, c).lh == c.lh)
  {
    hide HeadOf, PutHead;
  }

  lemma StepKeepsReserved(l: Layout, s: State, a: Action, s': State, k: nat)
    requires Reserved(s, k) && Steps(l, s, a, s') && InBudget(s, a, k) && Brackets(s) && k <= MAXOPBLOCKS
    ensures Reserved(s', k)
  {
    hide AdvanceCore, CanAdvance, Unspent, HeadOf, WithinBudgets;
    match a
    case Begin(op) =>
      assert op !in s.open.Keys;
      BeginReserved(s.open, k, op, |s.core.lh|);
    case Check(_, _) =>
    case Append(op, data) =>
      assert op in s.open.Keys;
      AppendReserved(s.open, k, op, |s.core.lh|, if s.passed[op] in s.core.lh then 0 else 1);
    case End(op) => EndReserved(s.open, k, op);
    case Advance =>
      AdvanceReserved(l, s.core);
      assert s.open == map[];
      NoneUnspent(k);
    case Crash => NoneUnspent(k);
  }

  lemma NoneUnspent(k: nat)
    ensures Unspent(map[], k) == 0 && WithinBudgets(map[], k)
  {}

  /** The reservation: in every reachable state the logged blocks and the unspent budgets of all
      open operations together fit in what the log is made for. */
  lemma {:induction false} ReservationHolds(l: Layout, init: Disk, run: seq<State>, acts: seq<Action>, k: nat, i: nat)
    requires BudgetRun(l, init, run, acts, k) && k <= MAXOPBLOCKS && i < |run|
    ensures Reserved(run[i], k)
  {
    hide Steps, Reserved, InBudget;
    if i == 0 {
      StartReserved(l, init, run[0], k);
    } else {
      ReservationHolds(l, init, run, acts, k, i - 1);
      RunBrackets(l, init, run, acts, i - 1);
      assert Steps(l, run[i - 1], acts[i - 1], run[i - 1 + 1]);
      assert InBudget(run[i - 1], acts[i - 1], k);
      StepKeepsReserved(l, run[i - 1], acts[i - 1], run[i], k);
    }
  }

  lemma StartReserved(l: Layout, init: Disk, s: State, k: nat)
    requires Initial(l, init, s)
    ensures Reserved(s, k)
  {}

  // -------------------------------------------- operations that log few blocks

  /** The blocks an operation has logged, as filewrite counts them. */
  function BlocksOf(trace: seq<Event>, op: OpId): set<nat> {
    if trace == [] then {}
    else
      var e := trace[|trace| - 1];
      BlocksOf(trace[..|trace| - 1], op) + if e.op == op then {e.block} else {}
  }

  lemma {:induction false} BlocksOfFresh(trace: seq<Event>, op: OpId)
    requires Fresh(trace, op)
    ensures BlocksOf(trace, op) == {}
  {
    if trace != [] {
      BlocksOfFresh(trace[..|trace| - 1], op);
    }
  }

  lemma BlocksOfAppend(trace: seq<Event>, e: Event, op: OpId)
    ensures BlocksOf(trace + [e], op) == BlocksOf(trace, op) + if e.op == op then {e.block} else {}
  {
    assert (trace + [e])[..|trace|] == trace;
  }

  ghost predicate ChargedFor(trace: seq<Event>, lh: seq<nat>, op: OpId, n: nat) {
    (forall b :: b in BlocksOf(trace, op) ==> b in lh) && n <= |BlocksOf(trace, op)|
  }

  /** What an open operation has logged is in the log, and it has been charged for no more. */
  ghost predicate Charged(s: State) {
    forall op :: op in s.open ==> ChargedFor(s.trace, s.core.lh, op, s.open[op])
  }

  lemma AppendCharged(trace: seq<Event>, lh: seq<nat>, e: Event, op: OpId, n: nat)
    requires ChargedFor(trace, lh, op, n)
    ensures ChargedFor(trace + [e], if e.block in lh then lh else lh + [e.block], op, if op == e.op && e.block !in lh then n + 1 else n)
  {
    BlocksOfAppend(trace, e, op);
  }

  lemma StepKeepsCharged(l: Layout, s: State, a: Action, s': State)
    requires Charged(s) && Steps(l, s, a, s') && Brackets(s)
    ensures Charged(s')
  {
    hide ChargedFor, HeadOf, AdvanceCore;
    match a
    case Begin(op) =>
      StartCharged(s.trace, s.core.lh, op);
    case Append(op, data) =>
      assert op in s.open.Keys;
      forall o | o in s'.open ensures ChargedFor(s'.trace, s'.core.lh, o, s'.open[o]) {
        AppendCharged(s.trace, s.core.lh, Event(op, s.passed[op], data), o, s.open[o]);
      }
    case Advance => assert s.open == map[];
    case _ =>
  }

  lemma StartCharged(trace: seq<Event>, lh: seq<nat>, op: OpId)
    requires Fresh(trace, op)
    ensures ChargedFor(trace, lh, op, 0)
  {
    BlocksOfFresh(trace, op);
  }

  lemma NobodyCharged(l: Layout, init: Disk, s: State)
    requires Initial(l, init, s)
    ensures Charged(s)
  {}

  lemma {:induction false} ChargedHolds(l: Layout, init: Disk, run: seq<State>, acts: seq<Action>, i: nat)
    requires Run(l, init, run, acts) && i < |run|
    ensures Charged(run[i])
  {
    hide Steps, Charged, Brackets;
    if i == 0 {
      NobodyCharged(l, init, run[0]);
    } else {
      ChargedHolds(l, init, run, acts, i - 1);
      RunBrackets(l, init, run, acts, i - 1);
      assert Steps(l, run[i - 1], acts[i - 1], run[i - 1 + 1]);
      StepKeepsCharged(l, run[i - 1], acts[i - 1], run[i]);
    }
  }

  /** Operations that log at most k different blocks each, as every chunk of filewrite does for
      k = MAXOPBLOCKS, keep within the reservation. */
  lemma SmallOperationsFit(l: Layout, init: Disk, run: seq<State>, acts: seq<Action>, k: nat)
    requires Run(l, init, run, acts)
    requires forall i :: 0 <= i < |acts| && acts[i].Append? ==> |BlocksOf(run[i + 1].trace, acts[i].op)| <= k
    ensures BudgetRun(l, init, run, acts, k)
  {
    hide Steps, InBudget;
    forall i | 0 <= i < |acts| ensures InBudget(run[i], acts[i], k) {
      ChargedHolds(l, init, run, acts, i);
      assert Steps(l, run[i], acts[i], run[i + 1]);
      StepInBudget(l, run[i], acts[i], run[i + 1], k);
    }
  }

  lemma StepInBudget(l: Layout, s: State, a: Action, s': State, k: nat)
    requires Charged(s) && Steps(l, s, a, s')
    requires a.Append? ==> |BlocksOf(s'.trace, a.op)| <= k
    ensures InBudget(s, a, k)
  {
    if a.Append? && a.op in s.open && s.passed[a.op] !in s.core.lh {
      BlocksOfAppend(s.trace, Event(a.op, s.passed[a.op], a.data), a.op);
      assert s.passed[a.op] !in BlocksOf(s.trace, a.op);
    }
  }

  // ------------------------------------------------ what log_write's tests do

  /** In every run log_write lets a caller through exactly when there is room for one more block in
      the header and in the log, whether or not the caller's block is already logged; and the panic
      "log_write outside of trans" is never met. */
  lemma CheckExactly(l: Layout, init: Disk, run: seq<State>, acts: seq<Action>, i: nat, op: OpId, b: nat)
    requires Run(l, init, run, acts) && i < |run| && Allowed(l, run[i], Check(op, b))
    ensures CodeStep(l, run[i], Check(op, b)).Next? <==> |run[i].core.lh| < LOGSIZE && |run[i].core.lh| + 1 < l.size
    ensures !CodeStep(l, run[i], Check(op, b)).Next? ==> CodeStep(l, run[i], Check(op, b)) == Panic("too big a transaction")
  {
    hide Steps;
    RunBrackets(l, init, run, acts, i);
    assert run[i].open != map[];
  }

  /** An operation calls log_write for a block: one that it may add, or one that is already logged. */
  ghost predicate Adds(s: State, a: Action, k: nat) {
    a.Check? && a.op in s.open && a.block !in s.core.lh && s.open[a.op] < k
  }

  ghost predicate Repeats(s: State, a: Action) {
    a.Check? && a.block in s.core.lh
  }

  /** In no in-budget run is an in-budget call with a block not logged yet refused. */
  ghost predicate NewBlocksFit(l: Layout, init: Disk, k: nat) {
    forall run: seq<State>, acts: seq<Action>, i: int, a: Action ::
      BudgetRun(l, init, run, acts, k) && 0 <= i < |run| && Allowed(l, run[i], a) && Adds(run[i], a, k)
      ==> CodeStep(l, run[i], a).Next?
  }

  /** In no in-budget run is a call with a block that is already logged refused. */
  ghost predicate RepeatsFit(l: Layout, init: Disk, k: nat) {
    forall run: seq<State>, acts: seq<Action>, i: int, a: Action ::
      BudgetRun(l, init, run, acts, k) && 0 <= i < |run| && Allowed(l, run[i], a) && Repeats(run[i], a)
      ==> CodeStep(l, run[i], a).Next?
  }

  /** How full the log is when an operation is open. */
  lemma OpenBound(l: Layout, init: Disk, run: seq<State>, acts: seq<Action>, k: nat, i: nat, op: OpId)
    requires BudgetRun(l, init, run, acts, k) && k <= MAXOPBLOCKS && i < |run| && op in run[i].open
    ensures |run[i].core.lh| + (k - run[i].open[op]) <= MAXOPBLOCKS + 2 * k && run[i].open[op] <= k
  {
    hide Steps;
    ReservationHolds(l, init, run, acts, k, i);
    RunBrackets(l, init, run, acts, i);
    UnspentPick(run[i].open, k, op);
    UnspentBound(run[i].open - {op}, k);
    assert run[i].open != map[];
  }

  /** A formatted disk with an empty log and enough other blocks to fill one. */
  ghost predicate Roomy(l: Layout, init: Disk) {
    GoodDisk(l, init) && HeadOf(init[l.start]) == [] && l.start + l.size + LOGSIZE < l.disksize
  }

  /** The reservation protects log_write from "too big a transaction" for new blocks exactly when the
      log has more than MAXOPBLOCKS + 2k blocks. With operations of MAXOPBLOCKS blocks that is LOGSIZE,
      and mkfs makes the log LOGSIZE blocks long, so there it does not. */
  lemma NewBlocksFitExactly(l: Layout, init: Disk, k: nat)
    requires Roomy(l, init) && 1 <= k <= MAXOPBLOCKS
    ensures NewBlocksFit(l, init, k) <==> l.size > MAXOPBLOCKS + 2 * k
  {
    hide BudgetRun, Run;
    if l.size > MAXOPBLOCKS + 2 * k {
      forall run: seq<State>, acts: seq<Action>, i: int, a: Action |
        BudgetRun(l, init, run, acts, k) && 0 <= i < |run| && Allowed(l, run[i], a) && Adds(run[i], a, k)
        ensures CodeStep(l, run[i], a).Next?
      {
        OpenBound(l, init, run, acts, k, i, a.op);
        BudgetCheck(l, init, run, acts, k, i, a.op, a.block);
      }
    } else {
      var n := l.size - 1;
      var run, acts := FillLog(l, init, k, k, n);
      var i, a := |run| - 1, Check(LAST, Nth(l, n));
      FilledNames(l, init, run[i], k, n);
      assert Allowed(l, run[i], a) && Adds(run[i], a, k);
      BudgetCheck(l, init, run, acts, k, i, LAST, Nth(l, n));
      assert !CodeStep(l, run[i], a).Next?;
    }
  }

  lemma BudgetCheck(l: Layout, init: Disk, run: seq<State>, acts: seq<Action>, k: nat, i: nat, op: OpId, b: nat)
    requires BudgetRun(l, init, run, acts, k) && i < |run| && Allowed(l, run[i], Check(op, b))
    ensures CodeStep(l, run[i], Check(op, b)).Next? <==> |run[i].core.lh| < LOGSIZE && |run[i].core.lh| + 1 < l.size
  {
    CheckExactly(l, init, run, acts, i, op, b);
  }

  /** A block that is already logged needs no room, but log_write tests for room all the same: it is
      never refused exactly when every operation stays below MAXOPBLOCKS blocks and the log has more
      than MAXOPBLOCKS + 2k + 1, or when nothing can be logged at all. So mkfs's log is large enough
      for operations of at most nine blocks, and no log is for operations of ten. */
  lemma RepeatsFitExactly(l: Layout, init: Disk, k: nat)
    requires Roomy(l, init) && 1 <= k <= MAXOPBLOCKS
    ensures RepeatsFit(l, init, k) <==> (k < MAXOPBLOCKS && l.size > MAXOPBLOCKS + 2 * k + 1) || l.size == 1
  {
    hide BudgetRun, Run;
    if l.size == 1 {
      forall run: seq<State>, acts: seq<Action>, i: int, a: Action | BudgetRun(l, init, run, acts, k) && 0 <= i < |run|
        ensures !Repeats(run[i], a)
      {
        NothingLogged(l, init, run, acts, k, i);
      }
    } else if k < MAXOPBLOCKS && l.size > MAXOPBLOCKS + 2 * k + 1 {
      forall run: seq<State>, acts: seq<Action>, i: int, a: Action |
        BudgetRun(l, init, run, acts, k) && 0 <= i < |run| && Allowed(l, run[i], a) && Repeats(run[i], a)
        ensures CodeStep(l, run[i], a).Next?
      {
        OpenBound(l, init, run, acts, k, i, a.op);
        BudgetCheck(l, init, run, acts, k, i, a.op, a.block);
      }
    } else {
      var n := if l.size - 1 < MAXOPBLOCKS + 2 * k then l.size - 1 else MAXOPBLOCKS + 2 * k;
      var run, acts := FillLog(l, init, k, k, n);
      var i, a := |run| - 1, Check(LAST, Nth(l, 0));
      FilledNames(l, init, run[i], k, n);
      assert Allowed(l, run[i], a) && Repeats(run[i], a);
      BudgetCheck(l, init, run, acts, k, i, LAST, Nth(l, 0));
      assert !CodeStep(l, run[i], a).Next?;
    }
  }

  ghost predicate Unused(s: State) {
    s.core.lh == [] && s.passed == map[]
  }

  lemma StepUnused(l: Layout, s: State, a: Action, s': State)
    requires l.size == 1 && Unused(s) && Distinct(l, s) && Steps(l, s, a, s') && l.Fits(HeadOf(s.core.disk[l.start])) && Distinct(l, s')
    ensures Unused(s') && l.Fits(HeadOf(s'.core.disk[l.start]))
  {
    hide PutHead;
    if a == Advance {
      AdvanceHead(l, s.core);
    }
  }

  /** A log of one block has room for its header only. */
  lemma {:induction false} NothingLogged(l: Layout, init: Disk, run: seq<State>, acts: seq<Action>, k: nat, i: nat)
    requires BudgetRun(l, init, run, acts, k) && l.size == 1 && i < |run|
    ensures Unused(run[i]) && Distinct(l, run[i]) && l.Fits(HeadOf(run[i].core.disk[l.start]))
  {
    hide Steps, Unused, HeadOf;
    RunBrackets(l, init, run, acts, i);
    if i == 0 {
      StartUnused(l, init, run[0]);
    } else {
      NothingLogged(l, init, run, acts, k, i - 1);
      RunBrackets(l, init, run, acts, i - 1);
      assert Steps(l, run[i - 1], acts[i - 1], run[i - 1 + 1]);
      StepUnused(l, run[i - 1], acts[i - 1], run[i]);
    }
  }

  lemma StartUnused(l: Layout, init: Disk, s: State)
    requires Initial(l, init, s)
    ensures Unused(s) && Distinct(l, s) && l.Fits(HeadOf(s.core.disk[l.start]))
  {}

  // ------------------------------------------------- runs that fill the log

  /** The operation that begins last. */
  const LAST: OpId := MAXOPBLOCKS + 1

  /** The i-th block that the runs below log. */
  function Nth(l: Layout, i: nat): nat {
    l.start + l.size + 1 + i
  }

  function Named(l: Layout, n: nat): seq<nat> {
    seq(n, i requires 0 <= i < n => Nth(l, i))
  }

  lemma NamedMore(l: Layout, n: nat)
    ensures Named(l, n + 1) == Named(l, n) + [Nth(l, n)] && Nth(l, n) !in Named(l, n)
  {}

  /** What the runs below keep: they start from init, and touch no home block outside the log's names. */
  ghost predicate Clean(l: Layout, init: Disk, s: State, n: nat) {
    && s.core.disk == init && s.core.phase == Idle && !s.core.committing && s.core.lh == Named(l, n)
    && s.passed == map[] && s.durable == {}
    && (forall b :: b in s.core.lh ==> b in s.core.cache)
    && (forall e :: e in s.trace ==> e.block != l.start + l.size)
  }

  /** Operation 0 is open and has logged nothing; others have filled n blocks and ended. */
  ghost predicate Prepared(l: Layout, init: Disk, s: State, n: nat) {
    && Clean(l, init, s, n) && s.core.outstanding == 1 && s.open == map[0 := 0]
    && forall op :: op > n ==> op !in s.pending && Fresh(s.trace, op)
  }

  /** What operation 0 has logged, up to c blocks, once n blocks have been. */
  function Spent(c: nat, n: nat): nat {
    if n <= MAXOPBLOCKS then 0 else if n - MAXOPBLOCKS <= c then n - MAXOPBLOCKS else c
  }

  /** Operations 0 and LAST are open and have logged all blocks past the first MAXOPBLOCKS. */
  ghost predicate Filled(l: Layout, init: Disk, s: State, c: nat, n: nat) {
    && Clean(l, init, s, n) && s.core.outstanding == 2
    && s.open == map[0 := Spent(c, n), LAST := if n <= MAXOPBLOCKS then 0 else n - MAXOPBLOCKS - Spent(c, n)]
  }

  lemma FilledNames(l: Layout, init: Disk, s: State, c: nat, n: nat)
    requires Filled(l, init, s, c, n)
    ensures |s.core.lh| == n && Nth(l, n) !in s.core.lh && (n > 0 ==> Nth(l, 0) in s.core.lh)
    ensures LAST in s.open && 0 in s.open && s.passed == map[] && (n <= MAXOPBLOCKS + 2 * c ==> s.open[LAST] <= c && s.open[0] <= c)
  {
    if n > 0 {
      assert s.core.lh[0] == Nth(l, 0);
    }
  }

  ghost function After(l: Layout, s: State, a: Action): State
    requires Allowed(l, s, a) && CodeStep(l, s, a).Next?
  {
    Remember(s, a, CodeStep(l, s, a).state)
  }

  lemma Extend(l: Layout, init: Disk, run: seq<State>, acts: seq<Action>, k: nat, a: Action, s: State)
    requires BudgetRun(l, init, run, acts, k) && |run| > 0 && Steps(l, run[|run| - 1], a, s) && InBudget(run[|run| - 1], a, k)
    ensures BudgetRun(l, init, run + [s], acts + [a], k)
  {
    hide Steps, InBudget, Initial;
    assert (run + [s])[0] == run[0];
  }

  /** The next of the blocks that fill the log, tested for and logged by an operation that may add it. */
  lemma LogNext(l: Layout, init: Disk, run: seq<State>, acts: seq<Action>, k: nat, op: OpId, n: nat, data: Block)
    returns (run': seq<State>, acts': seq<Action>)
    requires BudgetRun(l, init, run, acts, k) && |run| > 0 && Roomy(l, init) && n < LOGSIZE && n + 1 < l.size
    requires var s := run[|run| - 1]; Clean(l, init, s, n) && s.core.outstanding > 0 && op in s.open && s.open[op] < k
    ensures BudgetRun(l, init, run', acts', k) && |run'| > 0
    ensures var s, s' := run[|run| - 1], run'[|run'| - 1];
            && Clean(l, init, s', n + 1) && s'.open == s.open[op := s.open[op] + 1] && s'.core.outstanding == s.core.outstanding
            && s'.pending == s.pending && s'.trace == s.trace + [Event(op, Nth(l, n), data)]
  {
    hide BudgetRun, HeadOf;
    NamedMore(l, n);
    var s, b := run[|run| - 1], Nth(l, n);
    var a1 := Check(op, b);
    var s1 := After(l, s, a1);
    Extend(l, init, run, acts, k, a1, s1);
    var a2 := Append(op, data);
    var s2 := After(l, s1, a2);
    assert s2.passed == map[];
    Extend(l, init, run + [s1], acts + [a1], k, a2, s2);
    run', acts' := run + [s1] + [s2], acts + [a1] + [a2];
  }

  /** A short operation that logs the next block and ends, while operation 0 stays open. */
  lemma FillerStep(l: Layout, init: Disk, run: seq<State>, acts: seq<Action>, k: nat, n: nat)
    returns (run': seq<State>, acts': seq<Action>)
    requires BudgetRun(l, init, run, acts, k) && |run| > 0 && Roomy(l, init) && 1 <= k && n < MAXOPBLOCKS && n + 1 < l.size
    requires Prepared(l, init, run[|run| - 1], n)
    ensures BudgetRun(l, init, run', acts', k) && |run'| > 0 && Prepared(l, init, run'[|run'| - 1], n + 1)
  {
    hide BudgetRun, HeadOf, Named;
    var s, op := run[|run| - 1], n + 1;
    var a1 := Begin(op);
    NamedSize(l, n);
    var s1 := After(l, s, a1);
    Extend(l, init, run, acts, k, a1, s1);
    var run2, acts2 := LogNext(l, init, run + [s1], acts + [a1], k, op, n, init[0]);
    var s2 := run2[|run2| - 1];
    var a3 := End(op);
    var s3 := After(l, s2, a3);
    assert s3.open == map[0 := 0];
    assert Clean(l, init, s3, n + 1);
    forall o | o > n + 1 ensures o !in s3.pending && Fresh(s3.trace, o) {
      assert o !in s.pending && Fresh(s.trace, o);
    }
    Extend(l, init, run2, acts2, k, a3, s3);
    run', acts' := run2 + [s3], acts2 + [a3];
  }

  lemma NamedSize(l: Layout, n: nat)
    ensures |Named(l, n)| == n
  {}

  lemma {:induction false} Prepare(l: Layout, init: Disk, k: nat, n: nat) returns (run: seq<State>, acts: seq<Action>)
    requires Roomy(l, init) && 1 <= k && n <= MAXOPBLOCKS && n < l.size
    ensures BudgetRun(l, init, run, acts, k) && |run| > 0 && Prepared(l, init, run[|run| - 1], n)
  {
    hide BudgetRun, Prepared, HeadOf;
    if n == 0 {
      run, acts := OpenOne(l, init, k);
    } else {
      run, acts := Prepare(l, init, k, n - 1);
      run, acts := FillerStep(l, init, run, acts, k, n - 1);
    }
  }

  /** The last operation begins, when the log is as full as begin_op allows with two open. */
  lemma OpenLast(l: Layout, init: Disk, run: seq<State>, acts: seq<Action>, k: nat, c: nat, n: nat)
    returns (run': seq<State>, acts': seq<Action>)
    requires BudgetRun(l, init, run, acts, k) && |run| > 0 && Roomy(l, init) && n <= MAXOPBLOCKS && Prepared(l, init, run[|run| - 1], n)
    ensures BudgetRun(l, init, run', acts', k) && |run'| > 0 && Filled(l, init, run'[|run'| - 1], c, n)
  {
    hide BudgetRun, HeadOf, Named;
    NamedSize(l, n);
    var s, a := run[|run| - 1], Begin(LAST);
    var s' := After(l, s, a);
    Extend(l, init, run, acts, k, a, s');
    run', acts' := run + [s'], acts + [a];
  }

  /** A run in which n blocks are logged and two operations are open that have logged at most c each. */
  lemma {:induction false} FillLog(l: Layout, init: Disk, k: nat, c: nat, n: nat) returns (run: seq<State>, acts: seq<Action>)
    requires Roomy(l, init) && c <= k <= MAXOPBLOCKS && 1 <= k && n <= MAXOPBLOCKS + 2 * c && n < l.size
    ensures BudgetRun(l, init, run, acts, k) && |run| > 0 && Filled(l, init, run[|run| - 1], c, n)
  {
    hide BudgetRun, Prepared, HeadOf, Clean;
    if n <= MAXOPBLOCKS {
      run, acts := Prepare(l, init, k, n);
      run, acts := OpenLast(l, init, run, acts, k, c, n);
    } else {
      run, acts := FillLog(l, init, k, c, n - 1);
      run, acts := LogNext(l, init, run, acts, k, if Spent(c, n) > Spent(c, n - 1) then 0 else LAST, n - 1, init[0]);
    }
  }

  /** The state i steps after boot on a disk with an empty log: recovery first, then operation 0. */
  ghost function Opening(init: Disk, i: nat): State {
    var core := Core(init, map[], [], if i < 3 then 0 else 1, false,
                     if i == 0 then ReadHead else if i == 1 then EraseHead(true) else Idle);
    if i < 3 then State(core, map[], [], {}, {}, map[]) else State(core, map[], [], {}, {0}, map[0 := 0])
  }

  ghost function OpeningAction(i: nat): Action {
    if i < 2 then Advance else Begin(0)
  }

  lemma OpeningStep(l: Layout, init: Disk, i: nat)
    requires Roomy(l, init) && i < 3
    ensures Steps(l, Opening(init, i), OpeningAction(i), Opening(init, i + 1))
  {
    var s, s' := Opening(init, i), Opening(init, i + 1);
    if i < 2 {
      PutGet(init[l.start], 0);
      assert s.pending == {} == s'.pending && s.open == map[] == s'.open;
      assert AdvanceCore(l, s.core) == s'.core;
    } else {
      assert s'.pending == s.pending + {0} && s'.open == s.open[0 := 0];
    }
  }

  lemma OpenOne(l: Layout, init: Disk, k: nat) returns (run: seq<State>, acts: seq<Action>)
    requires Roomy(l, init)
    ensures BudgetRun(l, init, run, acts, k) && |run| > 0 && Prepared(l, init, run[|run| - 1], 0)
  {
    hide Steps, HeadOf, Initial, Prepared;
    run, acts := seq(4, i requires 0 <= i < 4 => Opening(init, i)), seq(3, i requires 0 <= i < 3 => OpeningAction(i));
    forall i | 0 <= i < 3 ensures Steps(l, run[i], acts[i], run[i + 1]) && InBudget(run[i], acts[i], k) {
      OpeningStep(l, init, i);
    }
    OpeningEnds(l, init);
  }

  lemma OpeningEnds(l: Layout, init: Disk)
    requires Roomy(l, init)
    ensures Initial(l, init, Opening(init, 0)) && Prepared(l, init, Opening(init, 3), 0)
  {
    PutGet(init[l.start], 0);
    assert Recovered(l, init) == init;
  }
}
