/** bio.c as it runs: buffers looked up, recycled, locked, written and released. What callers see of
    it is a plain map from block numbers to blocks. */
module Bio {
  import opened Blocks
  import opened BufRing

  const ROOTDEV: nat := 1

  /** lock is the process that holds the buffer's sleep lock, or 0. */
  datatype Buf = Buf(dev: nat, blockno: nat, valid: bool, dirty: bool, refcnt: nat, lock: nat, data: Block)

  /** A buffer never used says nothing; a clean valid unlocked one agrees with the disk. */
  ghost predicate BufOk(x: Buf, disk: Disk) {
    && (x.dev == 0 ==> !x.valid && x.refcnt == 0)
    && (x.valid ==> x.dev == ROOTDEV && x.blockno < |disk|)
    && (x.dirty ==> x.valid)
    && (x.lock != 0 ==> x.refcnt > 0)
    && (x.valid && !x.dirty && x.lock == 0 ==> x.data == disk[x.blockno])
  }

  /** At most one buffer for each block of a real device. */
  ghost predicate Unique(bufs: seq<Buf>) {
    forall a, b :: 0 <= a < b < |bufs| && bufs[a].dev != 0 ==> !(bufs[a].dev == bufs[b].dev && bufs[a].blockno == bufs[b].blockno)
  }

  ghost predicate Coherent(bufs: seq<Buf>, disk: Disk) {
    |bufs| == NBUF && Unique(bufs) && forall b :: 0 <= b < |bufs| ==> BufOk(bufs[b], disk)
  }

  predicate Holds(x: Buf, k: nat) {
    x.valid && x.blockno == k
  }

  /** What a reader of block k gets: the buffer's data if there is one, the disk's otherwise. */
  function Look(bufs: seq<Buf>, disk: Disk, k: nat): Block
    requires k < |disk|
  {
    if bufs == [] then disk[k]
    else if Holds(bufs[0], k) then bufs[0].data
    else Look(bufs[1..], disk, k)
  }

  /** The file system as callers of bread see it. */
  function View(bufs: seq<Buf>, disk: Disk): Disk {
    seq(|disk|, k requires 0 <= k < |disk| => Look(bufs, disk, k))
  }

  /** Look finds a buffer that holds the block, if there is one. */
  lemma {:induction false} LookIs(bufs: seq<Buf>, disk: Disk, k: nat) returns (b: int)
    requires k < |disk|
    ensures -1 <= b < |bufs|
    ensures b == -1 ==> Look(bufs, disk, k) == disk[k] && forall a :: 0 <= a < |bufs| ==> !Holds(bufs[a], k)
    ensures b >= 0 ==> Holds(bufs[b], k) && Look(bufs, disk, k) == bufs[b].data
  {
    if bufs == [] {
      b := -1;
    } else if Holds(bufs[0], k) {
      b := 0;
    } else {
      b := LookIs(bufs[1..], disk, k);
      if b >= 0 {
        b := b + 1;
      }
    }
  }

  /** A buffer that holds a block shows what it holds. */
  lemma LookAt(bufs: seq<Buf>, disk: Disk, b: nat)
    requires Coherent(bufs, disk) && b < |bufs| && bufs[b].valid
    ensures Look(bufs, disk, bufs[b].blockno) == bufs[b].data
  {
    var a := LookIs(bufs, disk, bufs[b].blockno);
    assert Holds(bufs[b], bufs[b].blockno);
    assert BufOk(bufs[a], disk) && BufOk(bufs[b], disk);
  }

  lemma OnlyHolder(bufs: seq<Buf>, disk: Disk, a: nat, c: nat, k: nat)
    requires Coherent(bufs, disk) && a < |bufs| && c < |bufs| && Holds(bufs[a], k) && Holds(bufs[c], k)
    ensures a == c
  {
    assert BufOk(bufs[a], disk) && BufOk(bufs[c], disk);
  }

  /** Changing one buffer and its block on the disk changes what is seen of that block at most. */
  lemma LookElsewhere(bufs: seq<Buf>, bufs': seq<Buf>, disk: Disk, disk': Disk, b: nat, k: nat)
    requires Coherent(bufs, disk) && Coherent(bufs', disk') && |disk'| == |disk| && k < |disk| && b < |bufs| == |bufs'|
    requires forall a :: 0 <= a < |bufs| && a != b ==> bufs'[a] == bufs[a]
    requires disk'[k] == disk[k]
    requires Holds(bufs[b], k) ==> bufs[b].data == disk[k] || (Holds(bufs'[b], k) && bufs'[b].data == bufs[b].data)
    requires Holds(bufs'[b], k) && !Holds(bufs[b], k) ==> bufs'[b].data == disk[k] && forall a :: 0 <= a < |bufs| ==> !Holds(bufs[a], k)
    requires Holds(bufs'[b], k) && Holds(bufs[b], k) ==> bufs'[b].data == bufs[b].data
    ensures Look(bufs', disk', k) == Look(bufs, disk, k)
  {
    hide Coherent, Look;
    var a := LookIs(bufs, disk, k);
    var a' := LookIs(bufs', disk', k);
    if a >= 0 && a != b {
      assert Holds(bufs'[a], k);
      OnlyHolder(bufs', disk', a, a', k);
    } else if a' >= 0 && a' != b {
      assert Holds(bufs[a'], k);
      OnlyHolder(bufs, disk, a, a', k);
    }
  }

  predicate SameBlock(x: Buf, y: Buf) {
    x.dev == y.dev && x.blockno == y.blockno
  }

  /** One buffer has changed, and perhaps its block on the disk. */
  ghost predicate OneChanged(bufs: seq<Buf>, bufs': seq<Buf>, disk: Disk, disk': Disk, b: nat) {
    && Coherent(bufs, disk) && b < |bufs| == |bufs'| && bufs' == bufs[b := bufs'[b]] && BufOk(bufs'[b], disk')
    && (SameBlock(bufs[b], bufs'[b]) || forall a :: 0 <= a < |bufs| ==> !SameBlock(bufs[a], bufs'[b]))
    && |disk'| == |disk|
    && (disk' == disk || (SameBlock(bufs[b], bufs'[b]) && bufs[b].valid && bufs'[b].valid && disk' == disk[bufs[b].blockno := disk'[bufs[b].blockno]]))
  }

  lemma OneCoherent(bufs: seq<Buf>, bufs': seq<Buf>, disk: Disk, disk': Disk, b: nat)
    requires OneChanged(bufs, bufs', disk, disk', b)
    ensures Coherent(bufs', disk')
  {
    forall a | 0 <= a < |bufs'| ensures BufOk(bufs'[a], disk') {
      assert BufOk(bufs[a], disk) && BufOk(bufs[b], disk);
      if a != b && disk' != disk {
        assert !(bufs[a].valid && SameBlock(bufs[a], bufs[b]));
      }
    }
  }

  /** The changed buffer holds what it held, or stops or starts holding what the disk has. */
  lemma SameView(bufs: seq<Buf>, bufs': seq<Buf>, disk: Disk, disk': Disk, b: nat)
    requires OneChanged(bufs, bufs', disk, disk', b)
    requires var x, y := bufs[b], bufs'[b];
             if x.valid && y.valid && SameBlock(x, y) then x.data == y.data
             else disk' == disk && (x.valid ==> x.data == disk[x.blockno]) && (y.valid ==> y.data == disk[y.blockno])
    ensures Coherent(bufs', disk') && View(bufs', disk') == View(bufs, disk)
  {
    OneCoherent(bufs, bufs', disk, disk', b);
    assert BufOk(bufs[b], disk) && BufOk(bufs'[b], disk');
    forall k | 0 <= k < |disk| ensures Look(bufs', disk', k) == Look(bufs, disk, k) {
      if disk'[k] != disk[k] {
        LookAt(bufs, disk, b);
        LookAt(bufs', disk', b);
      } else {
        if Holds(bufs'[b], k) && !Holds(bufs[b], k) {
          NewBlock(bufs, bufs', disk, disk', b, k);
        }
        LookElsewhere(bufs, bufs', disk, disk', b, k);
      }
    }
  }

  lemma NewBlock(bufs: seq<Buf>, bufs': seq<Buf>, disk: Disk, disk': Disk, b: nat, k: nat)
    requires OneChanged(bufs, bufs', disk, disk', b) && k < |disk|
    requires Holds(bufs'[b], k) && !Holds(bufs[b], k)
    ensures forall a :: 0 <= a < |bufs| ==> !Holds(bufs[a], k)
  {
    forall a | 0 <= a < |bufs| ensures !Holds(bufs[a], k) {
      assert BufOk(bufs[a], disk) && BufOk(bufs[b], disk);
    }
  }

  /** A store changes what is seen of one block. */
  lemma OneBlock(bufs: seq<Buf>, bufs': seq<Buf>, disk: Disk, b: nat)
    requires Coherent(bufs, disk) && b < |bufs| && bufs[b].valid && bufs[b].lock != 0
    requires |bufs'| == |bufs| && bufs' == bufs[b := bufs[b].(data := bufs'[b].data)]
    ensures Coherent(bufs', disk) && View(bufs', disk) == View(bufs, disk)[bufs[b].blockno := bufs'[b].data]
  {
    assert BufOk(bufs[b], disk);
    OneCoherent(bufs, bufs', disk, disk, b);
    LookAt(bufs', disk, b);
    forall k | 0 <= k < |disk| && k != bufs[b].blockno ensures Look(bufs', disk, k) == Look(bufs, disk, k) {
      LookElsewhere(bufs, bufs', disk, disk, b, k);
    }
  }

  /** A clean valid buffer has what the disk has, whoever holds it. */
  ghost predicate Settled(x: Buf, disk: Disk) {
    x.valid && !x.dirty && x.blockno < |disk| ==> x.data == disk[x.blockno]
  }

  /** Giving a buffer up leaves the cache in order exactly if it is settled. */
  lemma SettledOk(bufs: seq<Buf>, bufs': seq<Buf>, disk: Disk, b: nat)
    requires Coherent(bufs, disk) && b < |bufs| && bufs[b].lock != 0
    requires bufs' == bufs[b := bufs[b].(lock := 0, refcnt := bufs[b].refcnt - 1)]
    ensures Coherent(bufs', disk) <==> Settled(bufs[b], disk)
  {
    assert BufOk(bufs[b], disk);
    if Settled(bufs[b], disk) {
      OneCoherent(bufs, bufs', disk, disk, b);
    } else {
      assert !BufOk(bufs'[b], disk);
    }
  }

  /** Locks and references make no difference to what is seen. */
  lemma {:induction false} SameLook(bufs: seq<Buf>, bufs': seq<Buf>, disk: Disk, k: nat)
    requires |bufs'| == |bufs| && k < |disk|
    requires forall a :: 0 <= a < |bufs| ==> Holds(bufs'[a], k) == Holds(bufs[a], k) && bufs'[a].data == bufs[a].data
    ensures Look(bufs', disk, k) == Look(bufs, disk, k)
  {
    if bufs != [] && !Holds(bufs[0], k) {
      SameLook(bufs[1..], bufs'[1..], disk, k);
    }
  }

  class BufCache {
    var bufs: seq<Buf>
    var disk: Disk
    const next: array<nat>
    const prev: array<nat>
    ghost var order: seq<nat>   // the buffers, the most recently released first

    /** The list holds each buffer once. */
    ghost predicate Listed()
      reads this`order, next, prev
    {
      && next != prev && next.Length == prev.Length == NBUF + 1
      && Linked(next[..], prev[..], order) && (forall b :: 0 <= b < NBUF ==> b in order)
    }

    ghost predicate Valid()
      reads this, next, prev
    {
      Listed() && Coherent(bufs, disk)
    }

    /** binit */
    constructor (disk: Disk)
      ensures Valid() && fresh(next) && fresh(prev) && this.disk == disk && View(bufs, disk) == disk
      ensures forall b :: 0 <= b < NBUF ==> bufs[b].dev == 0 && bufs[b].refcnt == 0
    {
      this.disk := disk;
      bufs := seq(NBUF, i => Buf(0, 0, false, false, 0, 0, seq(512, j => 0)));
      next := new nat[NBUF + 1](i => NBUF);
      prev := new nat[NBUF + 1](i => NBUF);
      order := [];
      new;
      prev[HEAD] := HEAD;
      next[HEAD] := HEAD;
      assert LinkedAt(next[..], prev[..], order, -1);
      var b := 0;
      while b < NBUF
        invariant b <= NBUF && next.Length == prev.Length == NBUF + 1 && next != prev && this.disk == disk
        invariant Linked(next[..], prev[..], order) && forall i :: i in order <==> 0 <= i < b
        invariant bufs == seq(NBUF, i => Buf(0, 0, false, false, 0, 0, seq(512, j => 0)))
      {
        InsertFront(b);
        b := b + 1;
      }
      assert View(bufs, disk) == disk by {
        forall k | 0 <= k < |disk| ensures Look(bufs, disk, k) == disk[k] {
          var a := LookIs(bufs, disk, k);
        }
      }
    }

    /** A buffer put right behind the head: binit's and brelse's last four assignments. */
    method InsertFront(b: nat)
      requires b < NBUF && next != prev && next.Length == prev.Length == NBUF + 1
      requires Linked(next[..], prev[..], order) && b !in order
      modifies next, prev, this`order
      ensures Linked(next[..], prev[..], order) && order == [b] + old(order)
    {
      LinkedFirst(next[..], prev[..], order, b);
      next[b] := next[HEAD];
      prev[b] := HEAD;
      prev[next[HEAD]] := b;
      next[HEAD] := b;
      assert next[..] == old(next[..])[b := old(next[HEAD])][HEAD := b];
      assert prev[..] == old(prev[..])[b := HEAD][old(next[HEAD]) := b];
      order := [b] + order;
    }

    predicate Busy(b: nat)
      reads this
      requires b < |bufs|
    {
      bufs[b].refcnt != 0 || bufs[b].dirty
    }

    predicate Caches(b: nat, dev: nat, blockno: nat)
      reads this
      requires b < |bufs|
    {
      bufs[b].dev == dev && bufs[b].blockno == blockno
    }

    ghost predicate AllBusy()
      reads this
    {
      forall b :: 0 <= b < NBUF && b < |bufs| ==> Busy(b)
    }

    ghost predicate Cached(dev: nat, blockno: nat)
      reads this
    {
      exists b :: 0 <= b < NBUF && b < |bufs| && Caches(b, dev, blockno)
    }

    /** Nobody uses b, and every buffer released longer ago is in use. */
    ghost predicate LeastRecent(b: nat)
      reads this
    {
      exists i :: 0 <= i < |order| && order[i] == b && InUseFrom(i + 1)
    }

    ghost predicate InUseFrom(i: int)
      reads this
    {
      forall j :: 0 <= i <= j < |order| && order[j] < |bufs| ==> Busy(order[j])
    }

    /** bget's first loop, from the most recently used buffer on. */
    method Lookup(dev: nat, blockno: nat) returns (b: nat)
      requires Valid()
      ensures b <= HEAD
      ensures b < HEAD ==> Caches(b, dev, blockno)
      ensures b == HEAD ==> !Cached(dev, blockno)
    {
      b := next[HEAD];
      ghost var i := 0;
      assert LinkedAt(next[..], prev[..], order, -1);
      while b != HEAD
        invariant 0 <= i <= |order| && b == NodeAt(order, i)
        invariant forall j :: 0 <= j < i ==> !Caches(order[j], dev, blockno)
        decreases |order| - i
      {
        if bufs[b].dev == dev && bufs[b].blockno == blockno {
          return;
        }
        assert LinkedAt(next[..], prev[..], order, i);
        b := next[b];
        i := i + 1;
      }
      forall a | 0 <= a < NBUF ensures !Caches(a, dev, blockno) {
        assert a in order;
      }
    }

    /** bget's second loop, from the least recently used buffer on. */
    method Victim() returns (b: nat, ghost i: nat)
      requires Valid()
      ensures b <= HEAD
      ensures b < HEAD ==> !Busy(b) && i < |order| && order[i] == b && forall j :: i < j < |order| ==> Busy(order[j])
      ensures b == HEAD ==> AllBusy()
    {
      b := prev[HEAD];
      i := 0;
      ghost var k := |order| - 1;
      assert LinkedAt(next[..], prev[..], order, k);
      while b != HEAD
        invariant -1 <= k < |order| && b == NodeAt(order, k)
        invariant forall j :: k < j < |order| ==> Busy(order[j])
        decreases k
      {
        if bufs[b].refcnt == 0 && !bufs[b].dirty {
          return b, k;
        }
        assert LinkedAt(next[..], prev[..], order, k - 1);
        b := prev[b];
        k := k - 1;
      }
      forall a | 0 <= a < NBUF ensures Busy(a) {
        assert a in order;
      }
    }

    /** bget up to acquiresleep: the block's buffer, or the least recently used one that is neither
        referenced nor dirty; a panic exactly when there is none of either kind. No reader notices. */
    method Bget(dev: nat, blockno: nat) returns (ok: bool, b: nat)
      requires Valid() && dev != 0
      modifies this`bufs
      ensures Valid() && View(bufs, disk) == old(View(bufs, disk))
      ensures ok ==> b < NBUF && Caches(b, dev, blockno) && bufs[b].refcnt == old(if Caches(b, dev, blockno) then bufs[b].refcnt + 1 else 1)
      ensures ok ==> old(Caches(b, dev, blockno)) || (!old(Busy(b)) && old(LeastRecent(b)) && !bufs[b].valid)
      ensures ok ==> bufs[b].lock == old(bufs[b].lock) && (old(Caches(b, dev, blockno)) ==> bufs[b] == old(bufs[b]).(refcnt := bufs[b].refcnt))
      ensures ok ==> forall a :: 0 <= a < NBUF && a != b ==> bufs[a] == old(bufs[a])
      ensures !ok ==> bufs == old(bufs)
      ensures !ok <==> old(AllBusy() && !Cached(dev, blockno))
    {
      b := Lookup(dev, blockno);
      if b != HEAD {
        ghost var was := bufs;
        bufs := bufs[b := bufs[b].(refcnt := bufs[b].refcnt + 1)];
        SameView(was, bufs, disk, disk, b);
        return true, b;
      }
      ghost var i;
      b, i := Victim();
      if b == HEAD {
        return false, b;
      }
      ghost var was := bufs;
      assert BufOk(bufs[b], disk) && InUseFrom(i + 1) && LeastRecent(b);
      forall a | 0 <= a < |was| ensures !(was[a].dev == dev && was[a].blockno == blockno) {
        assert !Caches(a, dev, blockno);
      }
      bufs := bufs[b := bufs[b].(dev := dev, blockno := blockno, valid := false, dirty := false, refcnt := 1)];
      SameView(was, bufs, disk, disk, b);
      return true, b;
    }

    /** acquiresleep on a buffer, when nobody holds it. */
    method Acquire(b: nat, me: nat)
      requires Valid() && b < NBUF && bufs[b].refcnt > 0 && bufs[b].lock == 0 && me != 0
      modifies this`bufs
      ensures Valid() && View(bufs, disk) == old(View(bufs, disk)) && bufs == old(bufs)[b := old(bufs[b]).(lock := me)]
    {
      ghost var was := bufs;
      bufs := bufs[b := bufs[b].(lock := me)];
      SameView(was, bufs, disk, disk, b);
    }

    /** iderw: a dirty buffer goes to the disk, an invalid one is filled from it. */
    method Iderw(b: nat)
      requires |bufs| == NBUF && b < NBUF && bufs[b].blockno < |disk| && (bufs[b].dirty || !bufs[b].valid)
      modifies this`bufs, this`disk
      ensures bufs == old(bufs)[b := old(bufs[b]).(valid := true, dirty := false,
                                                  data := if old(bufs[b]).dirty then old(bufs[b]).data else old(disk)[old(bufs[b].blockno)])]
      ensures disk == if old(bufs[b]).dirty then old(disk)[old(bufs[b].blockno) := bufs[b].data] else old(disk)
    {
      var x := bufs[b];
      if x.dirty {
        bufs := bufs[b := x.(dirty := false, valid := true)];
        disk := disk[x.blockno := x.data];
      } else {
        bufs := bufs[b := x.(data := disk[x.blockno], valid := true)];
      }
    }

    /** bread: the caller holds a buffer with what was last written to the block, or sleeps with a
        reference to it while another process holds it; Awake goes on from there. */
    method Bread(dev: nat, blockno: nat, me: nat) returns (ok: bool, got: bool, b: nat)
      requires Valid() && dev == ROOTDEV && blockno < |disk| && me != 0
      modifies this`bufs, this`disk
      ensures Valid() && View(bufs, disk) == old(View(bufs, disk)) && disk == old(disk)
      ensures !ok <==> old(AllBusy() && !Cached(dev, blockno))
      ensures ok ==> b < NBUF && Caches(b, dev, blockno) && bufs[b].refcnt == old(if Caches(b, dev, blockno) then bufs[b].refcnt + 1 else 1)
      ensures ok ==> (got <==> old(!Caches(b, dev, blockno) || bufs[b].lock == 0))
      ensures ok && got ==> bufs[b].lock == me && bufs[b].valid && bufs[b].data == old(View(bufs, disk))[blockno]
      ensures ok && !got ==> bufs[b] == old(bufs[b]).(refcnt := bufs[b].refcnt)
      ensures ok ==> forall a :: 0 <= a < NBUF && a != b ==> bufs[a] == old(bufs[a])
      ensures !ok ==> bufs == old(bufs)
    {
      ok, b := Bget(dev, blockno);
      got := false;
      if ok {
        assert old(Caches(b, dev, blockno)) || BufOk(old(bufs[b]), disk);
        if bufs[b].lock == 0 {
          Awake(b, me);
          got := true;
        }
      }
    }

    /** bread from acquiresleep on, once nobody holds the buffer. */
    method Awake(b: nat, me: nat)
      requires Valid() && b < NBUF && bufs[b].dev == ROOTDEV && bufs[b].blockno < |disk| && bufs[b].refcnt > 0 && bufs[b].lock == 0 && me != 0
      modifies this`bufs, this`disk
      ensures Valid() && View(bufs, disk) == old(View(bufs, disk)) && disk == old(disk)
      ensures bufs == old(bufs)[b := old(bufs[b]).(lock := me, valid := true, data := old(View(bufs, disk))[old(bufs[b].blockno)])]
    {
      ghost var bufs0, disk0 := bufs, disk;
      assert BufOk(bufs[b], disk);
      Acquire(b, me);
      if !bufs[b].valid {
        ghost var was := bufs;
        Iderw(b);
        SameView(was, bufs, disk, disk, b);
      }
      LookAt(bufs, disk, b);
      assert View(bufs, disk)[bufs[b].blockno] == View(bufs0, disk0)[bufs[b].blockno];
    }

    /** A caller stores into a buffer it holds. */
    method Store(b: nat, me: nat, data: Block)
      requires Valid() && b < NBUF && bufs[b].lock == me != 0 && bufs[b].valid
      modifies this`bufs
      ensures Valid() && old(bufs[b].blockno) < |disk| && View(bufs, disk) == old(View(bufs, disk))[old(bufs[b].blockno) := data]
      ensures bufs == old(bufs)[b := old(bufs[b]).(data := data)]
    {
      ghost var was, k := bufs, bufs[b].blockno;
      bufs := bufs[b := bufs[b].(data := data)];
      OneBlock(was, bufs, disk, b);
    }

    /** log_write's b->flags |= B_DIRTY. */
    method SetDirty(b: nat, me: nat)
      requires Valid() && b < NBUF && bufs[b].lock == me != 0 && bufs[b].valid
      modifies this`bufs
      ensures Valid() && View(bufs, disk) == old(View(bufs, disk)) && bufs == old(bufs)[b := old(bufs[b]).(dirty := true)]
    {
      ghost var was := bufs;
      bufs := bufs[b := bufs[b].(dirty := true)];
      SameView(was, bufs, disk, disk, b);
    }

    /** bwrite: the disk now holds the buffer; a panic exactly when the caller does not hold it. */
    method Bwrite(b: nat, me: nat) returns (ok: bool)
      requires Valid() && b < NBUF && me != 0 && (bufs[b].lock == me ==> bufs[b].valid)
      modifies this`bufs, this`disk
      ensures Valid() && View(bufs, disk) == old(View(bufs, disk))
      ensures ok <==> old(bufs[b].lock == me)
      ensures ok ==> old(bufs[b].blockno) < |old(disk)| && disk == old(disk)[old(bufs[b].blockno) := old(bufs[b].data)]
      ensures ok ==> bufs == old(bufs)[b := old(bufs[b]).(dirty := false)]
      ensures !ok ==> disk == old(disk) && bufs == old(bufs)
    {
      if bufs[b].lock != me {
        return false;
      }
      ghost var was, disk0 := bufs, disk;
      assert BufOk(bufs[b], disk);
      bufs := bufs[b := bufs[b].(dirty := true)];
      Iderw(b);
      SameView(was, bufs, disk0, disk, b);
      return true;
    }

    /** brelse: unlocked, and first in the list once nobody refers to it. The cache stays in order exactly
        when a caller that has changed the buffer has written it or marked it dirty. */
    method Brelse(b: nat, me: nat) returns (ok: bool)
      requires Valid() && b < NBUF && me != 0
      modifies this`bufs, this`order, next, prev
      ensures Listed() && View(bufs, disk) == old(View(bufs, disk))
      ensures Valid() <==> !ok || old(Settled(bufs[b], disk))
      ensures ok <==> old(bufs[b].lock == me)
      ensures ok ==> bufs == old(bufs)[b := old(bufs[b]).(lock := 0, refcnt := old(bufs[b]).refcnt - 1)]
      ensures ok && bufs[b].refcnt == 0 ==> exists k :: 0 <= k < |old(order)| && old(order)[k] == b && order == [b] + Without(old(order), k)
      ensures !ok ==> bufs == old(bufs)
      ensures !ok || bufs[b].refcnt != 0 ==> order == old(order)
    {
      if bufs[b].lock != me {
        return false;
      }
      ghost var was := bufs;
      assert BufOk(bufs[b], disk);
      bufs := bufs[b := bufs[b].(lock := 0, refcnt := bufs[b].refcnt - 1)];
      SettledOk(was, bufs, disk, b);
      forall k | 0 <= k < |disk| ensures Look(bufs, disk, k) == Look(was, disk, k) {
        SameLook(was, bufs, disk, k);
      }
      if bufs[b].refcnt == 0 {
        assert b in order;
        ghost var k :| 0 <= k < |order| && order[k] == b;
        MoveToFront(b, k);
      }
      return true;
    }

    /** brelse's splice. */
    method MoveToFront(b: nat, ghost k: nat)
      requires Listed() && b < NBUF && k < |order| && order[k] == b
      modifies this`order, next, prev
      ensures Listed() && order == [b] + Without(old(order), k)
    {
      ghost var was := order;
      Unlinked(next[..], prev[..], order, k);
      SameBuffers(order, k, b);
      ghost var n0, p0 := next[..], prev[..];
      prev[next[b]] := prev[b];
      next[prev[b]] := next[b];
      assert next[..] == n0[p0[b] := n0[b]] && prev[..] == p0[n0[b] := p0[b]];
      order := Without(order, k);
      InsertFront(b);
      forall a | 0 <= a < NBUF ensures a in order {
        SameBuffers(was, k, a);
      }
    }
  }
}
