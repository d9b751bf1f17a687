/** Group commit over whole runs: operations begin, log and end in any order, the last one out
    commits one disk write at a time, and a crash may come between any two disk writes, including
    those of recovery itself. log_write is two steps, its tests and what it does under log.lock, and
    other callers may come between them. */
module LogProtocol {
  import opened Collections
  import opened Blocks
  import opened LogFormat
  import opened LogCore

  type OpId = nat

  datatype Event = Event(op: OpId, block: nat, data: Block)

  /** The code's state, with the callers that have passed log_write's tests and the block each is
      about to log; and what the proofs remember of the run: every write ever logged, the operations
      made durable, those a crash now would lose, and for each open operation how many blocks it has
      added to the log. */
  datatype State = State(core: Core, passed: map<OpId, nat>, trace: seq<Event>, durable: set<OpId>, pending: set<OpId>, open: map<OpId, nat>)

  datatype Action =
    | Begin(op: OpId)
    | Check(op: OpId, block: nat)
    | Append(op: OpId, data: Block)
    | End(op: OpId)
    | Advance
    | Crash

  ghost predicate Fresh(trace: seq<Event>, op: OpId) {
    forall e :: e in trace ==> e.op != op
  }

  /** What callers do: each bracket has an id of its own, it logs home blocks between its begin and
      its end, and nothing begins before recovery is over. */
  ghost predicate Allowed(l: Layout, s: State, a: Action) {
    match a
    case Begin(op) => op !in s.pending + s.durable && Fresh(s.trace, op) && !Booting(s.core.phase)
    case Check(op, b) => op in s.open && op !in s.passed && l.Home(b)
    case Append(op, _) => op in s.passed
    case End(op) => op in s.open && op !in s.passed && s.core.outstanding > 0
    case Advance => CanAdvance(l, s.core)
    case Crash => true
  }

  /** The outcome of one step for the code alone. */
  ghost function CodeStep(l: Layout, s: State, a: Action): Outcome<Core>
    requires Allowed(l, s, a)
  {
    match a
    case Begin(_) => BeginCore(s.core)
    case Check(_, _) => CheckCore(l, s.core)
    case Append(op, data) => LogCore.Outcome.Next(AppendCore(s.core, s.passed[op], data))
    case End(_) => EndCore(s.core)
    case Advance => LogCore.Outcome.Next(AdvanceCore(l, s.core))
    case Crash => LogCore.Outcome.Next(CrashCore(s.core))
  }

  /** The same step with its history: the header write is where the group becomes durable. */
  ghost function Remember(s: State, a: Action, c: Core): State
    requires a.Append? ==> a.op in s.passed
  {
    match a
    case Begin(op) => s.(core := c, pending := s.pending + {op}, open := s.open[op := 0])
    case Check(op, b) => s.(core := c, passed := s.passed[op := b])
    case Append(op, data) =>
      s.(core := c, passed := s.passed - {op}, trace := s.trace + [Event(op, s.passed[op], data)],
         open := s.open[op := (if op in s.open then s.open[op] else 0) + if s.passed[op] in s.core.lh then 0 else 1])
    case End(op) => s.(core := c, open := s.open - {op})
    case Advance =>
      if s.core.phase == CommitHead || s.core.phase == Finish
      then s.(core := c, durable := s.durable + s.pending, pending := {})
      else s.(core := c)
    case Crash => s.(core := c, passed := map[], pending := {}, open := map[])
  }

  ghost predicate Steps(l: Layout, s: State, a: Action, s': State) {
    && Allowed(l, s, a)
    && CodeStep(l, s, a).Next?
    && s' == Remember(s, a, CodeStep(l, s, a).state)
  }

  /** A machine that finds any well-formed log on its disk at boot. */
  ghost predicate Initial(l: Layout, init: Disk, s: State) {
    && GoodDisk(l, s.core.disk) && NoDup(HeadOf(s.core.disk[l.start]))
    && s == State(CrashCore(s.core), map[], [], {}, {}, map[])
    && init == Recovered(l, s.core.disk)
  }

  ghost predicate Run(l: Layout, init: Disk, run: seq<State>, acts: seq<Action>) {
    && |run| == |acts| + 1 && Initial(l, init, run[0])
    && forall i :: 0 <= i < |acts| ==> Steps(l, run[i], acts[i], run[i + 1])
  }

  /** The home blocks an initial disk holds after a sequence of writes. */
  function Replay(init: Disk, es: seq<Event>): (r: Disk)
    ensures |r| == |init|
  {
    if es == [] then init
    else
      var d := Replay(init, es[..|es| - 1]);
      var e := es[|es| - 1];
      if e.block < |d| then d[e.block := e.data] else d
  }

  /** The writes of a set of operations, in the order they were made. */
  function WritesOf(trace: seq<Event>, ops: set<OpId>): seq<Event> {
    if trace == [] then []
    else
      var r := WritesOf(trace[..|trace| - 1], ops);
      var e := trace[|trace| - 1];
      if e.op in ops then r + [e] else r
  }

  /** What a crash now would leave: the writes of the durable operations and of no other. */
  ghost function Durable(init: Disk, s: State): Disk {
    Replay(init, WritesOf(s.trace, s.durable))
  }

  ghost function Current(init: Disk, s: State): Disk {
    Replay(init, WritesOf(s.trace, s.durable + s.pending))
  }

  /** What holds of the callers in every run. */
  ghost predicate Brackets(s: State) {
    && s.core.outstanding == |s.open| && s.passed.Keys <= s.open.Keys
    && s.open.Keys <= s.pending && s.pending !! s.durable
    && (s.core.outstanding > 0 ==> s.core.phase == Idle)
    && (s.core.committing <==> Committing(s.core.phase))
    && (s.core.phase == Finish || (s.core.phase == Idle && s.open == map[]) ==> s.core.lh == [])
    && (s.core.phase == Idle && s.open == map[] ==> s.pending == {})
    && (Booting(s.core.phase) || s.core.phase.InstallHome? || s.core.phase.EraseHead? ==> s.pending == {})
  }

  /** The log and the header on the disk name no block twice, and only home blocks get there. */
  ghost predicate Distinct(l: Layout, s: State) {
    var c := s.core;
    && l.Valid() && |c.disk| == l.disksize && GetWord(c.disk[l.start], 0) < 127
    && NoDup(c.lh) && NoDup(HeadOf(c.disk[l.start]))
    && (forall i :: 0 <= i < |c.lh| ==> l.Home(c.lh[i]))
    && (forall op :: op in s.passed ==> l.Home(s.passed[op]))
  }

  ghost predicate Inv(l: Layout, init: Disk, s: State) {
    |init| == l.disksize && CoreInv(l, s.core, Durable(init, s), Current(init, s)) && Brackets(s) && Distinct(l, s)
  }

  /** In the first i states of a run the log has not run over its end. */
  ghost predicate FitsSoFar(l: Layout, run: seq<State>, i: nat) {
    forall k :: 0 <= k <= i && k < |run| ==> l.Fits(run[k].core.lh)
  }

  // ------------------------------------------------------------- the proofs

  lemma {:induction false} WritesOfFresh(trace: seq<Event>, ops: set<OpId>, op: OpId)
    requires Fresh(trace, op)
    ensures WritesOf(trace, ops + {op}) == WritesOf(trace, ops)
  {
    if trace != [] {
      WritesOfFresh(trace[..|trace| - 1], ops, op);
    }
  }

  lemma WritesOfAppend(trace: seq<Event>, e: Event, ops: set<OpId>)
    ensures WritesOf(trace + [e], ops) == if e.op in ops then WritesOf(trace, ops) + [e] else WritesOf(trace, ops)
  {
    assert (trace + [e])[..|trace|] == trace;
  }

  lemma ReplayAppend(init: Disk, es: seq<Event>, e: Event)
    requires e.block < |init|
    ensures Replay(init, es + [e]) == Replay(init, es)[e.block := e.data]
  {
    assert (es + [e])[..|es|] == es;
  }

  // -- what holds in every run, even once the log has run over

  lemma BeginBrackets(s: State, op: OpId, s': State)
    requires Brackets(s) && op !in s.pending + s.durable && !Booting(s.core.phase) && BeginCore(s.core).Next?
    requires s' == Remember(s, Begin(op), BeginCore(s.core).state)
    ensures Brackets(s')
  {
    assert op !in s.open.Keys;
  }

  lemma AppendBrackets(s: State, op: OpId, data: Block, s': State)
    requires Brackets(s) && op in s.passed && s' == Remember(s, Append(op, data), AppendCore(s.core, s.passed[op], data))
    ensures Brackets(s')
  {
    assert op in s.open.Keys;
    assert s'.open.Keys == s.open.Keys && s'.passed.Keys == s.passed.Keys - {op};
    SameSize(s.open, s'.open);
  }

  lemma SameSize(a: map<OpId, nat>, b: map<OpId, nat>)
    requires a.Keys == b.Keys
    ensures |a| == |b| && (a == map[] <==> b == map[])
  {
    assert |a| == |a.Keys| && |b| == |b.Keys|;
  }

  lemma EndBrackets(s: State, op: OpId, s': State)
    requires Brackets(s) && op in s.open && op !in s.passed && s.core.outstanding > 0
    requires EndCore(s.core).Next? && s' == Remember(s, End(op), EndCore(s.core).state)
    ensures Brackets(s')
  {
    assert s'.open.Keys == s.open.Keys - {op};
    assert |s'.open| == |s'.open.Keys| && |s.open| == |s.open.Keys|;
  }

  lemma AdvanceBrackets(l: Layout, s: State, s': State)
    requires Brackets(s) && CanAdvance(l, s.core) && s' == Remember(s, Advance, AdvanceCore(l, s.core))
    ensures Brackets(s')
  {
    assert s.core.outstanding == 0;
  }

  lemma StepKeepsBrackets(l: Layout, s: State, a: Action, s': State)
    requires Brackets(s) && Steps(l, s, a, s')
    ensures Brackets(s')
  {
    hide Brackets, AdvanceCore, CanAdvance;
    match a
    case Begin(op) => BeginBrackets(s, op, s');
    case Check(op, b) => CheckBrackets(s, op, b, s');
    case Append(op, data) => AppendBrackets(s, op, data, s');
    case End(op) => EndBrackets(s, op, s');
    case Advance => AdvanceBrackets(l, s, s');
    case Crash => CrashBrackets(s, s');
  }

  lemma CheckBrackets(s: State, op: OpId, b: nat, s': State)
    requires Brackets(s) && op in s.open && s' == Remember(s, Check(op, b), s.core)
    ensures Brackets(s')
  {
    assert op in s.open.Keys;
  }

  lemma CrashBrackets(s: State, s': State)
    requires Brackets(s) && s' == Remember(s, Crash, CrashCore(s.core))
    ensures Brackets(s')
  {}

  lemma NoDupAppend(lh: seq<nat>, b: nat)
    requires NoDup(lh) && b !in lh
    ensures NoDup(lh + [b])
  {}

  lemma AdvanceDistinct(l: Layout, s: State, s': State)
    requires Distinct(l, s) && CanAdvance(l, s.core) && s' == Remember(s, Advance, AdvanceCore(l, s.core))
    ensures Distinct(l, s')
  {
    hide HeadOf, PutHead, AdvanceCore;
    AdvanceHead(l, s.core);
    AdvanceLh(l, s.core);
  }

  /** What a disk write leaves in the header block. */
  lemma AdvanceHead(l: Layout, c: Core)
    requires CanAdvance(l, c)
    ensures var c' := AdvanceCore(l, c);
            && |c'.disk| == |c.disk| && GetWord(c'.disk[l.start], 0) < 127
            && (HeadOf(c'.disk[l.start]) == HeadOf(c.disk[l.start]) || HeadOf(c'.disk[l.start]) == c.lh || HeadOf(c'.disk[l.start]) == [])
  {
    hide HeadOf, PutHead;
    HeadRoundTrip(c.disk[l.start], c.lh);
    HeadRoundTrip(c.disk[l.start], []);
    assert !l.Home(l.start);
  }

  lemma AdvanceLh(l: Layout, c: Core)
    requires CanAdvance(l, c)
    ensures var lh := AdvanceCore(l, c).lh; lh == c.lh || lh == [] || (lh == HeadOf(c.disk[l.start]) && l.Names(lh))
  {
    hide HeadOf, PutHead;
  }

  lemma StepKeepsDistinct(l: Layout, s: State, a: Action, s': State)
    requires Distinct(l, s) && Steps(l, s, a, s')
    ensures Distinct(l, s')
  {
    hide HeadOf, AdvanceCore, CanAdvance, NoDup;
    match a
    case Append(op, data) =>
      if s.passed[op] !in s.core.lh {
        NoDupAppend(s.core.lh, s.passed[op]);
      }
    case Advance => AdvanceDistinct(l, s, s');
    case Crash => EmptyDistinct(l, s, s');
    case _ =>
  }

  lemma EmptyDistinct(l: Layout, s: State, s': State)
    requires Distinct(l, s) && s'.core.disk == s.core.disk && s'.core.lh == [] && s'.passed == map[]
    ensures Distinct(l, s')
  {}

  /** The callers' side of every run, whether or not the log runs over. */
  lemma {:induction false} RunBrackets(l: Layout, init: Disk, run: seq<State>, acts: seq<Action>, i: nat)
    requires Run(l, init, run, acts) && i < |run|
    ensures Brackets(run[i]) && Distinct(l, run[i])
  {
    hide Steps, Brackets, Distinct;
    if i == 0 {
      StartBrackets(l, init, run[0]);
    } else {
      RunBrackets(l, init, run, acts, i - 1);
      assert Steps(l, run[i - 1], acts[i - 1], run[i - 1 + 1]);
      StepKeepsBrackets(l, run[i - 1], acts[i - 1], run[i]);
      StepKeepsDistinct(l, run[i - 1], acts[i - 1], run[i]);
    }
  }

  lemma StartBrackets(l: Layout, init: Disk, s: State)
    requires Initial(l, init, s)
    ensures Brackets(s) && Distinct(l, s)
  {}

  // -- what holds while the log has not run over

  lemma BeginViews(init: Disk, s: State, op: OpId, s': State)
    requires Fresh(s.trace, op) && s'.trace == s.trace && s'.durable == s.durable && s'.pending == s.pending + {op}
    ensures Durable(init, s') == Durable(init, s) && Current(init, s') == Current(init, s)
  {
    WritesOfFresh(s.trace, s.durable + s.pending, op);
    assert s'.durable + s'.pending == s.durable + s.pending + {op};
  }

  lemma BeginCoreInv(l: Layout, c: Core, dur: Disk, cur: Disk)
    requires CoreInv(l, c, dur, cur) && !Booting(c.phase) && BeginCore(c).Next?
    ensures CoreInv(l, BeginCore(c).state, dur, cur)
  {}

  lemma WritePending(s: State, op: OpId)
    requires Brackets(s) && op in s.passed
    ensures op in s.pending && op !in s.durable && s.core.outstanding > 0
  {
    assert op in s.open.Keys;
  }

  lemma WriteViews(init: Disk, s: State, op: OpId, b: nat, data: Block, s': State)
    requires op in s.pending && op !in s.durable && b < |init|
    requires s'.trace == s.trace + [Event(op, b, data)] && s'.durable == s.durable && s'.pending == s.pending
    ensures Durable(init, s') == Durable(init, s)
    ensures b < |Current(init, s)| && Current(init, s') == Current(init, s)[b := data]
  {
    var e := Event(op, b, data);
    WritesOfAppend(s.trace, e, s.durable);
    WritesOfAppend(s.trace, e, s.durable + s.pending);
    ReplayAppend(init, WritesOf(s.trace, s.durable + s.pending), e);
  }

  lemma SameViews(init: Disk, s: State, s': State)
    requires s'.trace == s.trace && s'.durable == s.durable && s'.pending == s.pending
    ensures Durable(init, s') == Durable(init, s) && Current(init, s') == Current(init, s)
  {}

  lemma AppendKeepsCore(l: Layout, init: Disk, s: State, op: OpId, data: Block, s': State)
    requires Inv(l, init, s) && Steps(l, s, Append(op, data), s') && l.Fits(s'.core.lh)
    ensures CoreInv(l, s'.core, Durable(init, s'), Current(init, s'))
  {
    hide CoreInv, Brackets, Durable, Current, HeadOf;
    WritePending(s, op);
    WriteViews(init, s, op, s.passed[op], data, s');
    AppendCoreInv(l, s.core, Durable(init, s), Current(init, s), s.passed[op], data);
  }

  lemma EndKeepsCore(l: Layout, init: Disk, s: State, op: OpId, s': State)
    requires Inv(l, init, s) && Steps(l, s, End(op), s')
    ensures CoreInv(l, s'.core, Durable(init, s'), Current(init, s'))
  {
    hide CoreInv, Brackets, Durable, Current, Distinct;
    SameViews(init, s, s');
    EndCoreInv(l, s.core, Durable(init, s), Current(init, s));
  }

  lemma AdvanceKeepsCore(l: Layout, init: Disk, s: State, s': State)
    requires Inv(l, init, s) && Steps(l, s, Advance, s')
    ensures CoreInv(l, s'.core, Durable(init, s'), Current(init, s'))
  {
    hide CoreInv, Brackets, Distinct, AdvanceCore, Replay, WritesOf;
    AdvanceCoreInv(l, s.core, Durable(init, s), Current(init, s));
    assert s'.durable + {} == s'.durable;
  }

  lemma CrashKeepsCore(l: Layout, init: Disk, s: State, s': State)
    requires Inv(l, init, s) && Steps(l, s, Crash, s')
    ensures CoreInv(l, s'.core, Durable(init, s'), Current(init, s'))
  {
    hide CoreInv, Brackets, Distinct, Replay, WritesOf;
    assert s'.durable + {} == s'.durable;
    CrashCoreInv(l, s.core, Durable(init, s), Current(init, s));
  }

  lemma StepKeepsCore(l: Layout, init: Disk, s: State, a: Action, s': State)
    requires Inv(l, init, s) && Steps(l, s, a, s') && l.Fits(s'.core.lh)
    ensures CoreInv(l, s'.core, Durable(init, s'), Current(init, s'))
  {
    hide CoreInv, Brackets, Distinct, Durable, Current, AdvanceCore, CanAdvance;
    match a
    case Begin(op) =>
      BeginViews(init, s, op, s');
      BeginCoreInv(l, s.core, Durable(init, s), Current(init, s));
    case Check(_, _) => SameViews(init, s, s');
    case Append(op, data) => AppendKeepsCore(l, init, s, op, data, s');
    case End(op) => EndKeepsCore(l, init, s, op, s');
    case Advance => AdvanceKeepsCore(l, init, s, s');
    case Crash => CrashKeepsCore(l, init, s, s');
  }

  lemma StepKeepsInv(l: Layout, init: Disk, s: State, a: Action, s': State)
    requires Inv(l, init, s) && Steps(l, s, a, s') && l.Fits(s'.core.lh)
    ensures Inv(l, init, s')
  {
    hide CoreInv, Brackets, Distinct, Steps;
    StepKeepsCore(l, init, s, a, s');
    StepKeepsBrackets(l, s, a, s');
    StepKeepsDistinct(l, s, a, s');
  }

  lemma InitialInv(l: Layout, init: Disk, s: State)
    requires Initial(l, init, s)
    ensures Inv(l, init, s)
  {}

  lemma {:induction false} RunInv(l: Layout, init: Disk, run: seq<State>, acts: seq<Action>, i: nat)
    requires Run(l, init, run, acts) && i < |run| && FitsSoFar(l, run, i)
    ensures Inv(l, init, run[i])
  {
    hide Steps, Inv;
    if i == 0 {
      InitialInv(l, init, run[0]);
    } else {
      RunInv(l, init, run, acts, i - 1);
      assert Steps(l, run[i - 1], acts[i - 1], run[i - 1 + 1]);
      StepKeepsInv(l, init, run[i - 1], acts[i - 1], run[i]);
    }
  }

  // ----------------------------------------------------------- main results

  /** What recovery would make of the disk now is the initial file system with exactly the writes of
      the durable brackets, in order and none of them in part, and an empty log; no open bracket is
      durable. */
  ghost predicate Atomic(l: Layout, init: Disk, s: State) {
    && GoodDisk(l, s.core.disk)
    && SameHome(l, Recovered(l, s.core.disk), Replay(init, WritesOf(s.trace, s.durable)))
    && GoodDisk(l, Recovered(l, s.core.disk)) && HeadOf(Recovered(l, s.core.disk)[l.start]) == []
    && s.open.Keys !! s.durable
  }

  /** Crash atomicity with group commit: at every point of every run, as long as the log has not run
      over its end. */
  lemma CrashAtomicity(l: Layout, init: Disk, run: seq<State>, acts: seq<Action>, i: nat)
    requires Run(l, init, run, acts) && i < |run| && FitsSoFar(l, run, i)
    ensures Atomic(l, init, run[i])
  {
    RunInv(l, init, run, acts, i);
    RecoveredFacts(l, run[i].core.disk);
  }

  /** Nothing is half done: no bracket is open and no commit is under way. Then every bracket begun
      since the last crash is durable and on the disk, with every write it made. */
  ghost predicate Settled(l: Layout, init: Disk, s: State) {
    s.core.phase == Idle && s.open == map[] ==>
      s.pending == {} && SameHome(l, s.core.disk, Replay(init, WritesOf(s.trace, s.durable)))
  }

  /** A bracket stays durable, a bracket is forgotten only by a crash, and what is quiet is durable. */
  lemma Durability(l: Layout, init: Disk, run: seq<State>, acts: seq<Action>, i: nat)
    requires Run(l, init, run, acts) && i < |acts| && FitsSoFar(l, run, i + 1)
    ensures run[i].durable <= run[i + 1].durable
    ensures run[i].pending <= run[i + 1].pending + run[i + 1].durable || acts[i] == Crash
    ensures Settled(l, init, run[i + 1])
  {
    hide Steps;
    RunInv(l, init, run, acts, i + 1);
    PendingStep(l, run[i], acts[i], run[i + 1]);
    QuietDisk(l, init, run[i + 1]);
  }

  lemma PendingStep(l: Layout, s: State, a: Action, s': State)
    requires Steps(l, s, a, s')
    ensures s.durable <= s'.durable && (s.pending <= s'.pending + s'.durable || a == Crash)
  {}

  lemma QuietDisk(l: Layout, init: Disk, s: State)
    requires Inv(l, init, s)
    ensures Settled(l, init, s)
  {
    if s.core.phase == Idle {
      RecoveredIdle(l, s.core.disk);
    }
  }

  /** Between brackets and commits a reader sees every write so far, durable or not. */
  lemma ReadersSeeAllWrites(l: Layout, init: Disk, run: seq<State>, acts: seq<Action>, i: nat)
    requires Run(l, init, run, acts) && i < |run| && run[i].core.phase == Idle && FitsSoFar(l, run, i)
    ensures Shows(l, run[i].core, Replay(init, WritesOf(run[i].trace, run[i].durable + run[i].pending)))
  {
    RunInv(l, init, run, acts, i);
  }

  ghost predicate RecoversTo(l: Layout, d: Disk, r: Disk) {
    GoodDisk(l, d) && Recovered(l, d) == r
  }

  /** Recovery interrupted by any number of crashes ends in the disk it would have ended in undisturbed. */
  lemma {:induction false} RecoveryUndisturbed(l: Layout, init: Disk, run: seq<State>, acts: seq<Action>, i: nat, j: nat, r: Disk)
    requires Run(l, init, run, acts) && i <= j < |run| && RecoversTo(l, run[i].core.disk, r) && FitsSoFar(l, run, j)
    requires forall k :: i <= k < j ==> Booting(run[k].core.phase)
    ensures RecoversTo(l, run[j].core.disk, r)
    ensures i < j && !Booting(run[j].core.phase) ==> run[j].core.disk == r
    decreases j
  {
    hide Steps, RecoversTo, Initial;
    if i < j {
      RecoveryUndisturbed(l, init, run, acts, i, j - 1, r);
      BootRunStep(l, init, run, acts, j - 1, r);
    }
  }

  lemma BootRunStep(l: Layout, init: Disk, run: seq<State>, acts: seq<Action>, j: nat, r: Disk)
    requires Run(l, init, run, acts) && j < |acts| && Booting(run[j].core.phase) && RecoversTo(l, run[j].core.disk, r) && FitsSoFar(l, run, j)
    ensures RecoversTo(l, run[j + 1].core.disk, r)
    ensures !Booting(run[j + 1].core.phase) ==> run[j + 1].core.disk == r
  {
    hide Steps, Inv;
    RunInv(l, init, run, acts, j);
    BootStep(l, init, run[j], acts[j], run[j + 1]);
  }

  lemma BootStep(l: Layout, init: Disk, s: State, a: Action, s': State)
    requires Inv(l, init, s) && Steps(l, s, a, s') && Booting(s.core.phase)
    ensures GoodDisk(l, s'.core.disk) && Recovered(l, s'.core.disk) == Recovered(l, s.core.disk)
    ensures !Booting(s'.core.phase) ==> s'.core.disk == Recovered(l, s.core.disk)
  {
    hide HeadOf, Recovered, AdvanceCore, Durable, Current;
    assert s.open == map[];
    if a == Advance {
      BootAdvance(l, s.core, Durable(init, s), Current(init, s));
    }
  }

  lemma BootAdvance(l: Layout, c: Core, dur: Disk, cur: Disk)
    requires CoreInv(l, c, dur, cur) && CanAdvance(l, c) && Booting(c.phase)
    ensures var c' := AdvanceCore(l, c);
            && GoodDisk(l, c'.disk) && Recovered(l, c'.disk) == Recovered(l, c.disk)
            && (!Booting(c'.phase) ==> c'.disk == Recovered(l, c.disk))
  {
    AdvanceCoreInv(l, c, dur, cur);
    if c.phase.EraseHead? {
      EraseCoreInv(l, c, dur, cur);
    }
  }

  /** While a commit or a recovery is under way no bracket is open, none can open, nothing is tested
      or logged, and end_op never meets a commit. */
  lemma CommitIsAlone(l: Layout, init: Disk, run: seq<State>, acts: seq<Action>, i: nat)
    requires Run(l, init, run, acts) && i < |run|
    ensures var s := run[i];
            && (s.core.phase != Idle ==> s.core.outstanding == 0)
            && (s.core.committing ==> BeginCore(s.core) == Sleep)
            && (forall op :: Allowed(l, s, End(op)) ==> EndCore(s.core).Next?)
            && (forall a :: s.core.phase != Idle && Allowed(l, s, a) && CodeStep(l, s, a).Next? ==> a == Advance || a == Crash)
  {
    hide Steps;
    RunBrackets(l, init, run, acts, i);
    var s := run[i];
    if s.core.phase != Idle {
      assert s.open == map[] && s.passed.Keys == {};
    }
  }

  /** As long as the log has not run over, the next disk write of a commit or recovery can be made. */
  lemma CommitGoesOn(l: Layout, init: Disk, run: seq<State>, acts: seq<Action>, i: nat)
    requires Run(l, init, run, acts) && i < |run| && FitsSoFar(l, run, i) && run[i].core.phase != Idle
    ensures CanAdvance(l, run[i].core)
  {
    hide Steps;
    RunInv(l, init, run, acts, i);
    AdvanceCoreInv(l, run[i].core, Durable(init, run[i]), Current(init, run[i]));
  }

  /** From s to s', only Advance writes block b, and only inside the log or where the log says. */
  ghost predicate InPlace(l: Layout, s: State, a: Action, s': State, b: nat) {
    && |s.core.disk| == |s'.core.disk| == l.disksize
    && (b < l.disksize && s.core.disk[b] != s'.core.disk[b] ==>
          a == Advance && (l.start <= b < l.start + l.size || b in s.core.lh))
  }

  /** The log names distinct home blocks, and a step writes only inside the log or to a block it names. */
  lemma WritesStayInPlace(l: Layout, init: Disk, run: seq<State>, acts: seq<Action>, i: nat, b: nat)
    requires Run(l, init, run, acts) && i < |acts| && FitsSoFar(l, run, i)
    ensures NoDup(run[i].core.lh) && InPlace(l, run[i], acts[i], run[i + 1], b)
  {
    hide Inv;
    RunBrackets(l, init, run, acts, i);
    assert Steps(l, run[i], acts[i], run[i + 1]);
    DiskStep(l, run[i], acts[i], run[i + 1], b);
  }

  lemma DiskStep(l: Layout, s: State, a: Action, s': State, b: nat)
    requires Distinct(l, s) && Steps(l, s, a, s') && l.Fits(s.core.lh)
    ensures InPlace(l, s, a, s', b)
  {
    hide HeadOf, AdvanceCore;
    if a == Advance {
      AdvanceDisk(l, s.core, b);
    }
  }

  lemma AdvanceDisk(l: Layout, c: Core, b: nat)
    requires CanAdvance(l, c) && l.Fits(c.lh)
    ensures |AdvanceCore(l, c).disk| == |c.disk|
    ensures b < |c.disk| && b !in c.lh && !(l.start <= b < l.start + l.size) ==> AdvanceCore(l, c).disk[b] == c.disk[b]
  {}
}
