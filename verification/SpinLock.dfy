/** spinlock.c: nested pushcli and popcli on one CPU, and one lock fought over by many. */
module SpinLock {

  /** A CPU's nesting depth, the flag saved at the outermost pushcli, and FL_IF. */
  datatype Cli = Cli(ncli: int, intena: bool, enabled: bool)

  datatype Outcome = Next(cli: Cli) | Panic(message: string)

  function Push(s: Cli): Cli {
    Cli(s.ncli + 1, if s.ncli == 0 then s.enabled else s.intena, false)
  }

  function Pop(s: Cli): Outcome {
    if s.enabled then Panic("popcli - interruptible")
    else if s.ncli - 1 < 0 then Panic("popcli")
    else Next(Cli(s.ncli - 1, s.intena, s.enabled || (s.ncli == 1 && s.intena)))
  }

  /** How deep a run of pushes (true) and pops (false) leaves the nesting, -1 if a pop has no push. */
  function Depth(ops: seq<bool>): int {
    if ops == [] then 0
    else
      var d := Depth(ops[..|ops| - 1]);
      if d < 0 then -1 else if ops[|ops| - 1] then d + 1 else d - 1
  }

  function RunCli(s: Cli, ops: seq<bool>): Outcome {
    if ops == [] then Next(s)
    else
      var r := RunCli(s, ops[..|ops| - 1]);
      if r.Panic? then r else if ops[|ops| - 1] then Next(Push(r.cli)) else Pop(r.cli)
  }

  /** Pushes and pops are matched: a run panics exactly when some pop has no push, interrupts are off
      while any push is open, and once none is they are as they were. */
  lemma {:induction false} Matched(s: Cli, ops: seq<bool>)
    requires s.ncli == 0
    ensures RunCli(s, ops).Panic? <==> Depth(ops) < 0
    ensures Depth(ops) >= 0 ==>
              var t := RunCli(s, ops).cli;
              t.ncli == Depth(ops) && (t.ncli > 0 ==> !t.enabled && t.intena == s.enabled) && (t.ncli == 0 ==> t.enabled == s.enabled)
  {
    if ops != [] {
      Matched(s, ops[..|ops| - 1]);
    }
  }

  // ----------------------------------------------------------- many CPUs

  /** Where a CPU stands in acquire and release of the lock. */
  datatype PC =
    | Outside
    | Spinning     // pushcli done, xchg not yet won
    | Won          // lk->locked was 0 and is 1
    | Holding      // lk->cpu names this CPU
    | Cleared      // release: lk->cpu is 0 again
    | Unlocked     // lk->locked is 0 again, popcli to come

  /** lk->locked, lk->cpu (-1 for none), and for each CPU its place and its interrupt state. */
  datatype State = State(locked: bool, cpu: int, pcs: seq<PC>, clis: seq<Cli>)

  function SetPc(s: State, c: nat, pc: PC): State
    requires c < |s.pcs|
  {
    s.(pcs := s.pcs[c := pc])
  }

  function SetCli(s: State, c: nat, cli: Cli): State
    requires c < |s.clis|
  {
    s.(clis := s.clis[c := cli])
  }

  /** holding(lk) on CPU c. */
  predicate Holds(s: State, c: int) {
    s.locked && s.cpu == c
  }

  datatype Action = Step(c: nat) | Toggle(c: nat) | Nest(c: nat) | Unnest(c: nat)

  ghost predicate Steps(s: State, a: Action, s': State) {
    && a.c < |s.pcs| == |s.clis|
    && match a
       case Step(c) =>
         (match s.pcs[c]
          case Outside => !Holds(s, c) && s' == SetCli(SetPc(s, c, Spinning), c, Push(s.clis[c]))
          case Spinning => s' == if s.locked then s else SetPc(s, c, Won).(locked := true)
          case Won => s' == SetPc(s, c, Holding).(cpu := c)
          case Holding => Holds(s, c) && s' == SetPc(s, c, Cleared).(cpu := -1)
          case Cleared => s' == SetPc(s, c, Unlocked).(locked := false)
          case Unlocked => Pop(s.clis[c]).Next? && s' == SetCli(SetPc(s, c, Outside), c, Pop(s.clis[c]).cli))
       // outside every lock the kernel may turn interrupts on or off
       case Toggle(c) => s.clis[c].ncli == 0 && s' == SetCli(s, c, s.clis[c].(enabled := !s.clis[c].enabled))
       // other locks nest around and inside this one
       case Nest(c) => s' == SetCli(s, c, Push(s.clis[c]))
       case Unnest(c) =>
         && s.clis[c].ncli > (if s.pcs[c] == Outside then 0 else 1) && Pop(s.clis[c]).Next?
         && s' == SetCli(s, c, Pop(s.clis[c]).cli)
  }

  ghost predicate Initial(s: State) {
    && !s.locked && s.cpu == -1 && |s.pcs| == |s.clis|
    && forall c :: 0 <= c < |s.pcs| ==> s.pcs[c] == Outside && s.clis[c].ncli == 0
  }

  ghost predicate Run(run: seq<State>, acts: seq<Action>) {
    |run| == |acts| + 1 && Initial(run[0]) && forall i :: 0 <= i < |acts| ==> Steps(run[i], acts[i], run[i + 1])
  }

  /** Between the xchg that wins the lock and the store that gives it up. */
  predicate Owns(pc: PC) {
    pc == Won || pc == Holding || pc == Cleared
  }

  ghost predicate CpuOk(s: State, c: int)
    requires 0 <= c < |s.pcs| == |s.clis|
  {
    && (Owns(s.pcs[c]) ==> s.locked)
    && (s.cpu == c <==> s.pcs[c] == Holding)
    && s.clis[c].ncli >= (if s.pcs[c] == Outside then 0 else 1)
    && (s.clis[c].ncli > 0 ==> !s.clis[c].enabled)
  }

  ghost predicate Inv(s: State) {
    && |s.pcs| == |s.clis|
    && (forall c :: 0 <= c < |s.pcs| ==> CpuOk(s, c))
    && forall c, d :: 0 <= c < |s.pcs| && 0 <= d < |s.pcs| && Owns(s.pcs[c]) && Owns(s.pcs[d]) ==> c == d
  }

  lemma StepMine(s: State, a: Action, s': State)
    requires Steps(s, a, s') && CpuOk(s, a.c)
    ensures |s'.pcs| == |s'.clis| == |s.pcs| && CpuOk(s', a.c)
    ensures Owns(s'.pcs[a.c]) ==> Owns(s.pcs[a.c]) || !s.locked
  {}

  lemma StepOther(s: State, a: Action, s': State, d: nat)
    requires Steps(s, a, s') && CpuOk(s, a.c) && d < |s.pcs| && d != a.c && CpuOk(s, d) && !(Owns(s.pcs[a.c]) && Owns(s.pcs[d]))
    ensures |s'.pcs| == |s'.clis| == |s.pcs| && s'.pcs[d] == s.pcs[d] && CpuOk(s', d)
  {
    hide Push, Pop;
  }

  lemma StepKeepsInv(s: State, a: Action, s': State)
    requires Inv(s) && Steps(s, a, s')
    ensures Inv(s')
  {
    hide Steps, CpuOk, Owns;
    InRange(s, a, s');
    StepMine(s, a, s');
    forall d | 0 <= d < |s'.pcs| && d != a.c
      ensures CpuOk(s', d) && s'.pcs[d] == s.pcs[d] && (Owns(s.pcs[d]) ==> s.locked)
    {
      StepOther(s, a, s', d);
      OwnsLocked(s, d);
    }
  }

  lemma InRange(s: State, a: Action, s': State)
    requires Steps(s, a, s')
    ensures a.c < |s.pcs|
  {}

  lemma OwnsLocked(s: State, d: nat)
    requires d < |s.pcs| == |s.clis| && CpuOk(s, d)
    ensures Owns(s.pcs[d]) ==> s.locked
  {}

  lemma InitialInv(s: State)
    requires Initial(s)
    ensures Inv(s)
  {}

  lemma {:induction false} RunInv(run: seq<State>, acts: seq<Action>, i: nat)
    requires Run(run, acts) && i < |run|
    ensures Inv(run[i])
  {
    hide Steps, Inv;
    if i == 0 {
      InitialInv(run[0]);
    } else {
      RunInv(run, acts, i - 1);
      assert Steps(run[i - 1], acts[i - 1], run[i - 1 + 1]);
      StepKeepsInv(run[i - 1], acts[i - 1], run[i]);
    }
  }

  /** At most one CPU owns the lock, holding() is true on a CPU exactly from the end of its acquire to
      the start of its release, and from before it spins until after it lets go its interrupts are off. */
  lemma SpinLockSafe(run: seq<State>, acts: seq<Action>, i: nat, c: nat, d: nat)
    requires Run(run, acts) && i < |run| && c < |run[i].pcs| && d < |run[i].pcs|
    ensures Owns(run[i].pcs[c]) && Owns(run[i].pcs[d]) ==> c == d
    ensures Holds(run[i], c) <==> run[i].pcs[c] == Holding
    ensures c < |run[i].clis| && (run[i].pcs[c] != Outside ==> !run[i].clis[c].enabled)
  {
    RunInv(run, acts, i);
    assert CpuOk(run[i], c);
  }

  /** Neither acquire nor release meets its panic while callers pair them. */
  lemma PairedCallsNeverPanic(run: seq<State>, acts: seq<Action>, i: nat, c: nat)
    requires Run(run, acts) && i < |run| && c < |run[i].pcs|
    ensures exists s' :: Steps(run[i], Step(c), s')
  {
    RunInv(run, acts, i);
    var s := run[i];
    assert CpuOk(s, c);
    var s' := match s.pcs[c]
      case Outside => SetCli(SetPc(s, c, Spinning), c, Push(s.clis[c]))
      case Spinning => if s.locked then s else SetPc(s, c, Won).(locked := true)
      case Won => SetPc(s, c, Holding).(cpu := c)
      case Holding => SetPc(s, c, Cleared).(cpu := -1)
      case Cleared => SetPc(s, c, Unlocked).(locked := false)
      case Unlocked => SetCli(SetPc(s, c, Outside), c, Pop(s.clis[c]).cli);
    assert Steps(s, Step(c), s');
  }

  /** One CPU out of every critical section with interrupts on, or in one with interrupts off. */
  function Calm(): Cli {
    Cli(0, true, true)
  }

  function Tense(): Cli {
    Cli(1, true, false)
  }

  /** Two CPUs: the first takes the lock, the second spins, and has it once the first has let go. */
  function Contest(k: nat): State {
    match k
    case 0 => State(false, -1, [Outside, Outside], [Calm(), Calm()])
    case 1 => State(false, -1, [Spinning, Outside], [Tense(), Calm()])
    case 2 => State(true, -1, [Won, Outside], [Tense(), Calm()])
    case 3 => State(true, 0, [Holding, Outside], [Tense(), Calm()])
    case 4 => State(true, 0, [Holding, Spinning], [Tense(), Tense()])
    case 5 => State(true, 0, [Holding, Spinning], [Tense(), Tense()])
    case 6 => State(true, -1, [Cleared, Spinning], [Tense(), Tense()])
    case 7 => State(false, -1, [Unlocked, Spinning], [Tense(), Tense()])
    case 8 => State(true, -1, [Unlocked, Won], [Tense(), Tense()])
    case 9 => State(true, 1, [Unlocked, Holding], [Tense(), Tense()])
    case _ => State(true, 1, [Outside, Holding], [Calm(), Tense()])
  }

  function Mover(k: nat): nat {
    if k in {3, 4, 7, 8} then 1 else 0
  }

  lemma ContestStep(k: nat)
    requires k < 10
    ensures Steps(Contest(k), Step(Mover(k)), Contest(k + 1))
  {}

  /** The lock changes hands in some run. */
  lemma LockHandedOver() returns (run: seq<State>, acts: seq<Action>)
    ensures Run(run, acts) && |acts| == 10 && Holds(run[3], 0) && run[5].pcs == [Holding, Spinning] && Holds(run[10], 1) && run[10].pcs == [Outside, Holding]
  {
    hide Steps, Mover;
    run, acts := seq(11, k requires 0 <= k < 11 => Contest(k)), seq(10, k requires 0 <= k < 10 => Step(Mover(k)));
    forall i | 0 <= i < 10 ensures Steps(run[i], acts[i], run[i + 1]) {
      ContestStep(i);
    }
  }
}
