/** The counts of processes that share a page directory, as fork, clone, exec and wait keep them;
    each call is one step. */
module SharedSpaces {
  import opened Collections

  const NPROC: nat := 64

  /** refcount -1 marks a free entry. */
  datatype Desc = Desc(refcount: int, pgdir: nat)

  /** How many of the processes are on directory d. */
  function Count(procs: seq<nat>, d: nat): nat {
    if procs == [] then 0 else Count(procs[1..], d) + if procs[0] == d then 1 else 0
  }

  lemma {:induction false} CountSet(procs: seq<nat>, i: nat, e: nat, d: nat)
    requires i < |procs|
    ensures Count(procs[i := e], d) == Count(procs, d) - (if procs[i] == d then 1 else 0) + (if e == d then 1 else 0)
  {
    if i == 0 {
      assert procs[i := e][1..] == procs[1..];
    } else {
      assert procs[i := e][1..] == procs[1..][i - 1 := e];
      CountSet(procs[1..], i - 1, e, d);
    }
  }

  lemma {:induction false} CountSome(procs: seq<nat>, i: nat)
    requires i < |procs|
    ensures Count(procs, procs[i]) > 0
  {
    if i > 0 {
      CountSome(procs[1..], i - 1);
    }
  }

  lemma {:induction false} CountFind(procs: seq<nat>, d: nat) returns (i: nat)
    requires Count(procs, d) > 0
    ensures i < |procs| && procs[i] == d
  {
    if procs[0] == d {
      i := 0;
    } else {
      i := CountFind(procs[1..], d);
      i := i + 1;
    }
  }

  /** Each entry in use counts the processes on its directory, and no two are for the same one. */
  ghost predicate EntryOk(table: seq<Desc>, procs: seq<nat>, i: int)
    requires 0 <= i < |table|
  {
    table[i].refcount != -1 ==>
      && table[i].pgdir != 0 && table[i].refcount == Count(procs, table[i].pgdir) && table[i].refcount >= 1
      && forall j :: 0 <= j < |table| && j != i && table[j].refcount != -1 ==> table[j].pgdir != table[i].pgdir
  }

  predicate Described(table: seq<Desc>, d: nat) {
    exists i :: 0 <= i < |table| && table[i].refcount != -1 && table[i].pgdir == d
  }

  /** A directory is allocated exactly while some process is on it; without an entry it has one user. */
  ghost predicate Agree(table: seq<Desc>, procs: seq<nat>, live: set<nat>) {
    && |table| == |procs| == NPROC && 0 !in live
    && (forall i :: 0 <= i < |table| ==> EntryOk(table, procs, i))
    && (forall d :: 0 < d ==> (d in live <==> Count(procs, d) > 0))
    && (forall d :: d in live && !Described(table, d) ==> Count(procs, d) == 1)
  }

  /** The slots of the processes on directories with an entry among the first n. */
  lemma {:induction false} UsedEntries(table: seq<Desc>, procs: seq<nat>, n: nat) returns (slots: set<nat>)
    requires |table| == |procs| && n <= |table|
    requires forall i :: 0 <= i < |table| ==> EntryOk(table, procs, i) && table[i].refcount != -1
    ensures |slots| == n
    ensures forall k :: k in slots ==> k < |procs| && exists i :: 0 <= i < n && table[i].pgdir == procs[k]
  {
    if n == 0 {
      slots := {};
    } else {
      slots := UsedEntries(table, procs, n - 1);
      assert EntryOk(table, procs, n - 1);
      var k := CountFind(procs, table[n - 1].pgdir);
      assert k !in slots;
      slots := slots + {k};
    }
  }

  lemma {:induction false} FewSlots(slots: set<nat>, n: nat, p: nat)
    requires p < n && p !in slots && forall k :: k in slots ==> k < n
    ensures |slots| < n
  {
    if n - 1 in slots {
      FewSlots(slots - {n - 1}, n - 1, p);
    } else if n - 1 != p {
      FewSlots(slots, n - 1, p);
    } else if slots != {} {
      var all := Interval(0, n - 1);
      assert slots <= all;
      SubsetCard(slots, all);
    }
  }

  /** clone never finds the table full: every entry in use is for a directory that some process is on,
      and the caller's own directory has no entry. */
  lemma RoomForOne(table: seq<Desc>, procs: seq<nat>, live: set<nat>, p: nat)
    requires Agree(table, procs, live) && p < NPROC && procs[p] != 0 && !Described(table, procs[p])
    ensures exists i :: 0 <= i < NPROC && table[i].refcount == -1
  {
    if forall i :: 0 <= i < NPROC ==> table[i].refcount != -1 {
      var slots := UsedEntries(table, procs, NPROC);
      assert p !in slots;
      FewSlots(slots, NPROC, p);
      assert false;
    }
  }

  /** A process that is alone on its directory. */
  lemma CountOne(procs: seq<nat>, p: nat)
    requires p < |procs|
    ensures Count(procs, procs[p]) == 1 <==> forall q :: 0 <= q < |procs| && q != p ==> procs[q] != procs[p]
  {
    var d := procs[p];
    var other := if d == 0 then 1 else 0;
    var rest := procs[p := other];
    CountSet(procs, p, other, d);
    if Count(rest, d) > 0 {
      var q := CountFind(rest, d);
      assert procs[q] == d;
    } else {
      forall q | 0 <= q < |procs| && q != p ensures procs[q] != d {
        if procs[q] == d {
          assert rest[q] == d;
          CountSome(rest, q);
        }
      }
    }
  }

  lemma {:induction false} CountZeros(procs: seq<nat>, d: nat)
    requires d != 0 && forall i :: 0 <= i < |procs| ==> procs[i] == 0
    ensures Count(procs, d) == 0
  {
    if procs != [] {
      CountZeros(procs[1..], d);
    }
  }

  /** An entry for d, its count up by one, or a new one. */
  ghost predicate Joined(table: seq<Desc>, table': seq<Desc>, i: nat, d: nat) {
    && i < |table| == |table'|
    && if table[i].refcount != -1 && table[i].pgdir == d then table' == table[i := Desc(table[i].refcount + 1, d)]
       else table[i].refcount == -1 && !Described(table, d) && table' == table[i := Desc(2, d)]
  }

  lemma JoinAgrees(table: seq<Desc>, table': seq<Desc>, procs: seq<nat>, live: set<nat>, i: nat, p: nat, np: nat)
    requires Agree(table, procs, live) && p < NPROC && procs[p] != 0 && np < NPROC && procs[np] == 0
    requires Joined(table, table', i, procs[p])
    ensures Agree(table', procs[np := procs[p]], live) && Described(table', procs[p])
  {
    var d, procs' := procs[p], procs[np := procs[p]];
    CountSome(procs, p);
    assert EntryOk(table, procs, i);
    assert table'[i].refcount != -1 && table'[i].pgdir == d;
    forall c | 0 < c ensures Count(procs', c) == Count(procs, c) + if c == d then 1 else 0 {
      CountSet(procs, np, d, c);
    }
    forall j | 0 <= j < NPROC ensures EntryOk(table', procs', j) {
      assert EntryOk(table, procs, j);
    }
    forall c | Described(table, c) ensures Described(table', c) {
      var j :| 0 <= j < |table| && table[j].refcount != -1 && table[j].pgdir == c;
      assert table'[j].refcount != -1 && table'[j].pgdir == c;
    }
  }

  /** The entry for d, its count down by one, free if that leaves nobody. */
  function Left(table: seq<Desc>, i: nat): seq<Desc>
    requires i <= |table|
  {
    if i == |table| then table
    else table[i := table[i].(refcount := if table[i].refcount == 1 then -1 else table[i].refcount - 1)]
  }

  ghost predicate Located(table: seq<Desc>, i: nat, d: nat) {
    && i <= |table|
    && (i < |table| ==> table[i].refcount != -1 && table[i].pgdir == d)
    && (i == |table| ==> !Described(table, d))
  }

  ghost function LiveAfter(live: set<nat>, d: nat, last: bool): set<nat> {
    if last then live - {d} else live
  }

  lemma LeaveAgrees(table: seq<Desc>, procs: seq<nat>, live: set<nat>, i: nat, p: nat)
    requires Agree(table, procs, live) && p < NPROC && procs[p] != 0 && Located(table, i, procs[p])
    ensures i < NPROC ==> table[i].refcount >= 1
    ensures var last := i == NPROC || table[i].refcount == 1;
            && (last <==> Count(procs, procs[p]) == 1)
            && Agree(Left(table, i), procs[p := 0], LiveAfter(live, procs[p], last))
  {
    var d, procs', table' := procs[p], procs[p := 0], Left(table, i);
    CountSome(procs, p);
    assert i < NPROC ==> EntryOk(table, procs, i);
    forall c | 0 < c ensures Count(procs', c) == Count(procs, c) - if c == d then 1 else 0 {
      CountSet(procs, p, 0, c);
    }
    forall j | 0 <= j < NPROC ensures EntryOk(table', procs', j) {
      assert EntryOk(table, procs, j);
    }
    var last := i == NPROC || table[i].refcount == 1;
    forall c | Described(table, c) && c in LiveAfter(live, d, last) ensures Described(table', c) {
      var j :| 0 <= j < |table| && table[j].refcount != -1 && table[j].pgdir == c;
      assert EntryOk(table, procs, j);
      assert table'[j].refcount != -1 && table'[j].pgdir == c;
    }
  }

  /** A process moves from no directory to a new one. */
  lemma NewAgrees(table: seq<Desc>, procs: seq<nat>, live: set<nat>, p: nat, d: nat)
    requires Agree(table, procs, live) && p < NPROC && procs[p] == 0 && d != 0 && d !in live
    ensures Agree(table, procs[p := d], live + {d})
  {
    var procs' := procs[p := d];
    forall c | 0 < c ensures Count(procs', c) == Count(procs, c) + if c == d then 1 else 0 {
      CountSet(procs, p, d, c);
    }
    forall j | 0 <= j < NPROC ensures EntryOk(table, procs', j) {
      assert EntryOk(table, procs, j);
    }
  }

  class Spaces {
    var table: seq<Desc>        // uvmrefcount
    var procs: seq<nat>         // the directory each process is on, 0 for a slot not in use
    ghost var live: set<nat>    // the directories that exist

    ghost predicate Valid()
      reads this
    {
      Agree(table, procs, live)
    }

    /** pinit, and the first process on its directory. */
    constructor (pgdir: nat)
      requires pgdir != 0
      ensures Valid() && live == {pgdir} && procs[0] == pgdir && forall i :: 0 < i < NPROC ==> procs[i] == 0
    {
      table := seq(NPROC, i => Desc(-1, 0));
      procs := seq(NPROC, i => if i == 0 then pgdir else 0);
      live := {pgdir};
      new;
      forall d | 0 < d ensures Count(procs, d) == if d == pgdir then 1 else 0 {
        CountZeros(procs[1..], d);
      }
    }

    /** locate_uvmrefcount: the entry for a directory, or NPROC. */
    method Locate(pgdir: nat) returns (i: nat)
      requires |table| == NPROC
      ensures i <= NPROC && (i < NPROC ==> table[i].refcount != -1 && table[i].pgdir == pgdir)
      ensures i == NPROC <==> !Described(table, pgdir)
    {
      i := 0;
      while i < NPROC
        invariant i <= NPROC && forall j :: 0 <= j < i ==> !(table[j].refcount != -1 && table[j].pgdir == pgdir)
      {
        if table[i].refcount != -1 && table[i].pgdir == pgdir {
          return;
        }
        i := i + 1;
      }
    }

    /** allocate_uvmrefcount: the first free entry, or NPROC. */
    method Allocate(pgdir: nat, refcount: int) returns (i: nat)
      requires |table| == NPROC
      modifies this`table
      ensures i <= NPROC && (i == NPROC <==> forall j :: 0 <= j < NPROC ==> old(table)[j].refcount != -1)
      ensures forall j :: 0 <= j < i ==> old(table)[j].refcount != -1
      ensures i < NPROC ==> old(table)[i].refcount == -1 && table == old(table)[i := Desc(refcount, pgdir)]
      ensures i == NPROC ==> table == old(table)
    {
      i := 0;
      while i < NPROC
        invariant i <= NPROC && table == old(table) && forall j :: 0 <= j < i ==> table[j].refcount != -1
      {
        if table[i].refcount == -1 {
          table := table[i := Desc(refcount, pgdir)];
          return;
        }
        i := i + 1;
      }
    }

    /** fork: the child is alone on a new directory. */
    method Fork(np: nat, pgdir: nat)
      requires Valid() && np < NPROC && procs[np] == 0 && pgdir != 0 && pgdir !in live
      modifies this`procs, this`live
      ensures Valid() && procs == old(procs)[np := pgdir] && live == old(live) + {pgdir}
    {
      NewAgrees(table, procs, live, np, pgdir);
      procs := procs[np := pgdir];
      live := live + {pgdir};
    }

    /** clone: the child shares the parent's directory, and there is room to say so. */
    method Clone(p: nat, np: nat)
      requires Valid() && p < NPROC && procs[p] != 0 && np < NPROC && procs[np] == 0
      modifies this`procs, this`table
      ensures Valid() && procs == old(procs)[np := old(procs[p])] && Described(table, old(procs[p]))
    {
      ghost var was, table0 := procs, table;
      var d := procs[p];
      procs := procs[np := d];
      var i := Locate(d);
      if i < NPROC {
        table := table[i := table[i].(refcount := table[i].refcount + 1)];
      } else {
        RoomForOne(table, was, live, p);
        i := Allocate(d, 2);
      }
      JoinAgrees(table0, table, was, live, i, p, np);
    }

    /** freevm up to the release of memory: last if nobody else is on the directory. The count it finds
        is never below 1. */
    method LeaveSpace(pgdir: nat) returns (ok: bool, last: bool, ghost i: nat)
      requires |table| == NPROC
      modifies this`table
      ensures Located(old(table), i, pgdir)
      ensures ok <==> (i < NPROC ==> old(table)[i].refcount >= 1)
      ensures ok ==> table == Left(old(table), i) && (last <==> i == NPROC || old(table)[i].refcount == 1)
    {
      var k := Locate(pgdir);
      i := k;
      if k < NPROC {
        if table[k].refcount < 1 {
          return false, false, i;
        }
        table := table[k := table[k].(refcount := table[k].refcount - 1)];
        if table[k].refcount != 0 {
          return true, false, i;
        } else {
          table := table[k := table[k].(refcount := -1)];
        }
      }
      return true, true, i;
    }

    /** exec: the process moves to a new directory; the old one is freed exactly when nobody else is on it. */
    method Exec(p: nat, pgdir: nat) returns (ok: bool, freed: bool)
      requires Valid() && p < NPROC && procs[p] != 0 && pgdir != 0 && pgdir !in live
      modifies this
      ensures ok && Valid() && procs == old(procs)[p := pgdir]
      ensures freed <==> forall q :: 0 <= q < NPROC && q != p ==> old(procs)[q] != old(procs)[p]
      ensures live == LiveAfter(old(live), old(procs)[p], freed) + {pgdir}
    {
      ghost var was, table0 := procs, table;
      var oldpgdir := procs[p];
      procs := procs[p := pgdir];
      ghost var i;
      ok, freed, i := LeaveSpace(oldpgdir);
      LeaveAgrees(table0, was, live, i, p);
      CountOne(was, p);
      live := LiveAfter(live, oldpgdir, freed);
      ghost var gone: seq<nat> := was[p := 0];
      NewAgrees(table, gone, live, p, pgdir);
      assert gone[p := pgdir] == procs;
      live := live + {pgdir};
    }

    /** wait: a dead process leaves its directory, which is freed exactly when nobody else is on it. */
    method Wait(q: nat) returns (ok: bool, freed: bool)
      requires Valid() && q < NPROC && procs[q] != 0
      modifies this
      ensures ok && Valid() && procs == old(procs)[q := 0]
      ensures freed <==> forall r :: 0 <= r < NPROC && r != q ==> old(procs)[r] != old(procs)[q]
      ensures live == LiveAfter(old(live), old(procs)[q], freed)
    {
      ghost var i, was, table0 := 0, procs, table;
      ok, freed, i := LeaveSpace(procs[q]);
      LeaveAgrees(table0, was, live, i, q);
      CountOne(was, q);
      live := LiveAfter(live, procs[q], freed);
      procs := procs[q := 0];
    }
  }
}
