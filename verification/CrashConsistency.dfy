/** What the log is for: whatever holds of the file system between operations holds of it after a
    crash at any instant; in particular, that it is healthy. */
module CrashConsistency {
  import opened Param
  import opened Blocks
  import opened LogFormat
  import opened LogCore
  import opened LogProtocol
  import opened LogReservation
  import opened LogSafety
  import opened FsLayout
  import opened FsImage
  import opened FsHealth

  /** No operation is between its begin and its end. */
  ghost predicate Quiet(s: State) {
    s.open == map[]
  }

  /** What a crash now would leave is what the file system looked like at some quiet moment so far. */
  ghost predicate WasQuiet(init: Disk, run: seq<State>, i: nat, d: Disk) {
    exists j :: 0 <= j <= i && j < |run| && Quiet(run[j]) && Current(init, run[j]) == d
  }

  lemma StepDurable(l: Layout, init: Disk, s: State, a: Action, s': State)
    requires Inv(l, init, s) && Steps(l, s, a, s')
    ensures Durable(init, s') == Durable(init, s) || (Quiet(s') && Durable(init, s') == Current(init, s'))
  {
    hide Inv, Steps, Durable, Current, Quiet;
    match a
    case Append(op, data) => AppendDurable(l, init, s, op, data, s');
    case Advance => AdvanceDurable(l, init, s, s');
    case _ => OtherDurable(l, init, s, a, s');
  }

  lemma AppendDurable(l: Layout, init: Disk, s: State, op: OpId, data: Block, s': State)
    requires Inv(l, init, s) && Steps(l, s, Append(op, data), s')
    ensures Durable(init, s') == Durable(init, s)
  {
    hide CoreInv, Distinct, HeadOf, Replay, WritesOf;
    WritePending(s, op);
    WritesOfAppend(s.trace, Event(op, s.passed[op], data), s.durable);
  }

  lemma AdvanceDurable(l: Layout, init: Disk, s: State, s': State)
    requires Inv(l, init, s) && Steps(l, s, Advance, s')
    ensures Durable(init, s') == Durable(init, s) || (Quiet(s') && Durable(init, s') == Current(init, s'))
  {
    hide Distinct, HeadOf, AdvanceCore, Replay, WritesOf, PhaseInv, Recovered;
    assert s'.durable + {} == s'.durable;
    assert s.open == map[];
  }

  lemma OtherDurable(l: Layout, init: Disk, s: State, a: Action, s': State)
    requires Steps(l, s, a, s') && !a.Append? && a != Advance
    ensures Durable(init, s') == Durable(init, s)
  {
    hide Replay, WritesOf;
  }

  /** Durable states are quiet states. */
  lemma {:induction false} DurableWasQuiet(l: Layout, init: Disk, run: seq<State>, acts: seq<Action>, i: nat)
    requires Run(l, init, run, acts) && i < |run| && FitsSoFar(l, run, i)
    ensures WasQuiet(init, run, i, Durable(init, run[i]))
  {
    hide Steps, Inv, Current, Durable;
    if i == 0 {
      assert Quiet(run[0]) && Current(init, run[0]) == Durable(init, run[0]) by {
        StartQuiet(l, init, run[0]);
      }
    } else {
      DurableWasQuiet(l, init, run, acts, i - 1);
      RunInv(l, init, run, acts, i - 1);
      assert Steps(l, run[i - 1], acts[i - 1], run[i - 1 + 1]);
      StepDurable(l, init, run[i - 1], acts[i - 1], run[i]);
    }
  }

  lemma StartQuiet(l: Layout, init: Disk, s: State)
    requires Initial(l, init, s)
    ensures Quiet(s) && Current(init, s) == Durable(init, s)
  {
    assert s.durable + s.pending == s.durable;
  }

  /** A property of disks that does not look at the log. */
  ghost predicate OfHomeBlocks(l: Layout, p: Disk -> bool) {
    forall d, e :: SameHome(l, d, e) ==> (p(d) <==> p(e))
  }

  /** Crash consistency: in a log large enough for its operations, a property that the file system has
      whenever no operation is in progress it also has after a crash and recovery at any point. */
  lemma QuietSurvives(l: Layout, init: Disk, run: seq<State>, acts: seq<Action>, k: nat, i: nat, p: Disk -> bool)
    requires BudgetRun(l, init, run, acts, k) && k <= MAXOPBLOCKS && LargeEnough(l, k) && i < |run| && OfHomeBlocks(l, p)
    requires forall j :: 0 <= j < |run| && Quiet(run[j]) ==> p(Current(init, run[j]))
    ensures GoodDisk(l, run[i].core.disk) && p(Recovered(l, run[i].core.disk))
  {
    BudgetFits(l, init, run, acts, k, i);
    CrashAtomicity(l, init, run, acts, i);
    DurableWasQuiet(l, init, run, acts, i);
    assert SameHome(l, Recovered(l, run[i].core.disk), Durable(init, run[i]));
  }

  // ------------------------------------------------------ healthy file systems

  /** The log lies before the inodes. */
  ghost predicate Placed(l: Layout, sb: Super) {
    l.Valid() && sb.Valid() && sb.size == l.disksize && l.start + l.size <= sb.inodestart
  }

  lemma SameInodes(l: Layout, sb: Super, d: Disk, e: Disk)
    requires Placed(l, sb) && SameHome(l, d, e)
    ensures OnDiskImage(sb, d).inodes == OnDiskImage(sb, e).inodes
  {
    forall i | 0 <= i < sb.ninodes ensures ReadInode(sb, d, i) == ReadInode(sb, e, i) {
      assert l.Home(sb.IBlock(i));
    }
  }

  /** A healthy image has no pointer into the log. */
  lemma SamePointers(l: Layout, sb: Super, d: Disk, e: Disk, i: nat, s: nat)
    requires Placed(l, sb) && SameHome(l, d, e) && HealthyDisk(sb, d) && Shape(OnDiskImage(sb, e)) && i < sb.ninodes && s < NSLOTS
    ensures At(OnDiskImage(sb, e), i, s) == At(OnDiskImage(sb, d), i, s)
  {
    SameInodes(l, sb, d, e);
    var im := OnDiskImage(sb, d);
    assert At(im, i, NDIRECT) == im.inodes[i].addrs[NDIRECT];
    assert im.inodes[i].addrs[NDIRECT] != 0 ==> l.Home(im.inodes[i].addrs[NDIRECT]);
  }

  lemma SameHealth(l: Layout, sb: Super, d: Disk, e: Disk)
    requires Placed(l, sb) && SameHome(l, d, e) && HealthyDisk(sb, d)
    ensures HealthyDisk(sb, e)
  {
    SameInodes(l, sb, d, e);
    var im, im' := OnDiskImage(sb, d), OnDiskImage(sb, e);
    forall i, s | 0 <= i < sb.ninodes && 0 <= s < NSLOTS ensures At(im', i, s) == At(im, i, s) {
      SamePointers(l, sb, d, e, i, s);
    }
    forall i, s, b ensures Holds(im', i, s, b) <==> Holds(im, i, s, b) {}
    forall b | 0 <= b < sb.size ensures Used(sb, e, b) == Used(sb, d, b) && (Reachable(im', b) <==> Reachable(im, b)) {
      assert l.Home(sb.BBlock(b));
      UsedElsewhere(sb, d, e, b);
      SameReach(im, im', b);
    }
    forall j | 0 <= j < |im'.inodes| ensures Written(sb, e, j, im'.inodes[j]) {
      WrittenReads(sb, e, j, im'.inodes[j]);
    }
  }

  lemma SameReach(im: Image, im': Image, b: nat)
    requires Shape(im) && Shape(im') && forall i, s :: Holds(im', i, s, b) <==> Holds(im, i, s, b)
    ensures Reachable(im', b) <==> Reachable(im, b)
  {}

  /** If the file system is healthy whenever no operation is in progress, as writei, itrunc and the
      rest leave it, then after a crash at any instant recovery leaves a healthy file system. */
  lemma CrashLeavesHealthy(l: Layout, sb: Super, init: Disk, run: seq<State>, acts: seq<Action>, k: nat, i: nat)
    requires Placed(l, sb) && BudgetRun(l, init, run, acts, k) && k <= MAXOPBLOCKS && LargeEnough(l, k) && i < |run|
    requires forall j :: 0 <= j < |run| && Quiet(run[j]) ==> HealthyDisk(sb, Current(init, run[j]))
    ensures GoodDisk(l, run[i].core.disk) && HealthyDisk(sb, Recovered(l, run[i].core.disk))
  {
    var p := d => HealthyDisk(sb, d);
    forall d, e | SameHome(l, d, e) ensures p(d) <==> p(e) {
      if p(d) {
        SameHealth(l, sb, d, e);
      }
      if p(e) {
        SameHealth(l, sb, e, d);
      }
    }
    QuietSurvives(l, init, run, acts, k, i, p);
  }
}
