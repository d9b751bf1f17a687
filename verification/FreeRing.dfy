/** The geometry of the K&R free list: a ring of chunks in address order with gaps between them. */
module FreeRing {

  /** A run of size units that starts with its own header at addr. */
  datatype Chunk = Chunk(addr: nat, size: nat) {
    ghost predicate Has(u: int) {
      addr <= u < addr + size
    }
  }

  /** The chunks in address order: the empty chunk base, which lies lowest, and then the free ones,
      none of them adjacent to the one before. */
  ghost predicate Ring(ring: seq<Chunk>, base: nat) {
    && |ring| > 0 && ring[0] == Chunk(base, 0)
    && (forall k :: 0 < k < |ring| ==> ring[k].size > 0)
    && forall j, k :: 0 <= j < k < |ring| ==> ring[j].addr + ring[j].size < ring[k].addr
  }

  ghost predicate InFree(ring: seq<Chunk>, u: int) {
    exists k :: 0 <= k < |ring| && ring[k].Has(u)
  }

  function After(k: nat, n: nat): nat {
    if k + 1 < n then k + 1 else 0
  }

  /** How many links lead from index j to index k. */
  function Steps(j: nat, k: nat, n: nat): int {
    if j <= k then k - j else k - j + n
  }

  /** The chunk that b belongs after. */
  ghost predicate Precedes(ring: seq<Chunk>, k: int, bp: nat) {
    0 <= k < |ring| && ring[k].addr < bp && (k + 1 < |ring| ==> bp < ring[k + 1].addr)
  }

  lemma {:induction false} Position(ring: seq<Chunk>, base: nat, bp: nat, n: nat) returns (k: nat)
    requires Ring(ring, base) && base < bp && (forall j :: 0 <= j < |ring| ==> ring[j].addr != bp)
    requires 0 < n <= |ring| && (n < |ring| ==> bp < ring[n].addr)
    ensures Precedes(ring, k, bp)
  {
    if ring[n - 1].addr < bp {
      k := n - 1;
    } else {
      k := Position(ring, base, bp, n - 1);
    }
  }

  /** The test of free's search holds exactly at the chunk that b belongs after, wherever the ring
      is entered. */
  lemma SearchStops(ring: seq<Chunk>, base: nat, bp: nat, k: nat, j: nat)
    requires Ring(ring, base) && Precedes(ring, k, bp) && j < |ring|
    ensures var p, q := ring[j].addr, ring[After(j, |ring|)].addr;
            j == k <==> (bp > p && bp < q) || (p >= q && (bp > p || bp < q))
  {
    if j + 1 < |ring| {
      assert ring[j].addr + ring[j].size < ring[j + 1].addr;
    }
    if j < k {
      assert ring[j + 1].addr <= ring[k].addr;
    }
  }

  ghost predicate Clear(ring: seq<Chunk>, b: Chunk) {
    forall u :: b.Has(u) ==> !InFree(ring, u)
  }

  function Room(ring: seq<Chunk>, k: nat): nat
    requires k < |ring|
  {
    ring[k].addr + ring[k].size
  }

  lemma Fits(ring: seq<Chunk>, base: nat, b: Chunk, k: nat)
    requires Ring(ring, base) && Precedes(ring, k, b.addr) && Clear(ring, b) && b.size > 0
    ensures Room(ring, k) <= b.addr && (k + 1 < |ring| ==> b.addr + b.size <= ring[k + 1].addr)
  {
    assert b.Has(b.addr) && !InFree(ring, b.addr);
    assert !ring[k].Has(b.addr);
    if k + 1 < |ring| && b.addr + b.size > ring[k + 1].addr {
      assert ring[k + 1].Has(ring[k + 1].addr);
      assert b.Has(ring[k + 1].addr);
      assert false;
    }
  }

  predicate JoinsRight(ring: seq<Chunk>, k: nat, b: Chunk) {
    k + 1 < |ring| && b.addr + b.size == ring[k + 1].addr
  }

  predicate JoinsLeft(ring: seq<Chunk>, k: nat, b: Chunk)
    requires k < |ring|
  {
    Room(ring, k) == b.addr
  }

  /** The chunks from lo up to hi replaced by one. */
  function Replaced(ring: seq<Chunk>, lo: nat, hi: nat, c: Chunk): seq<Chunk>
    requires lo <= hi <= |ring|
  {
    ring[..lo] + [c] + ring[hi..]
  }

  /** b with the free neighbours it touches. */
  function Merged(ring: seq<Chunk>, k: nat, b: Chunk): Chunk
    requires k < |ring|
  {
    var w := if JoinsRight(ring, k, b) then Chunk(b.addr, b.size + ring[k + 1].size) else b;
    if JoinsLeft(ring, k, b) then Chunk(ring[k].addr, ring[k].size + w.size) else w
  }

  function Low(ring: seq<Chunk>, k: nat, b: Chunk): nat
    requires k < |ring|
  {
    if JoinsLeft(ring, k, b) then k else k + 1
  }

  function High(ring: seq<Chunk>, k: nat, b: Chunk): nat
    requires k < |ring|
  {
    if JoinsRight(ring, k, b) then k + 2 else k + 1
  }

  /** The ring with b put back after chunk k and joined to the neighbours it touches. */
  function Inserted(ring: seq<Chunk>, k: nat, b: Chunk): seq<Chunk>
    requires k < |ring|
  {
    Replaced(ring, Low(ring, k, b), High(ring, k, b), Merged(ring, k, b))
  }

  lemma ReplacedRing(ring: seq<Chunk>, base: nat, lo: nat, hi: nat, c: Chunk)
    requires Ring(ring, base) && 1 <= lo <= hi <= |ring| && c.size > 0
    requires Room(ring, lo - 1) < c.addr && (hi < |ring| ==> c.addr + c.size < ring[hi].addr)
    ensures Ring(Replaced(ring, lo, hi, c), base)
  {
    var r := Replaced(ring, lo, hi, c);
    forall j, k | 0 <= j < k < |r| ensures r[j].addr + r[j].size < r[k].addr {
      if j < lo == k {
        assert j < lo - 1 ==> ring[j].addr + ring[j].size < ring[lo - 1].addr;
      } else if j == lo {
        assert k > lo + 1 ==> ring[hi].addr + ring[hi].size < ring[hi + (k - lo - 1)].addr;
      }
    }
  }

  lemma InsertedRing(ring: seq<Chunk>, base: nat, b: Chunk, k: nat)
    requires Ring(ring, base) && Precedes(ring, k, b.addr) && Clear(ring, b) && b.size > 0
    ensures Ring(Inserted(ring, k, b), base)
  {
    Fits(ring, base, b, k);
    ReplacedRing(ring, base, Low(ring, k, b), High(ring, k, b), Merged(ring, k, b));
  }

  lemma ReplacedUnits(ring: seq<Chunk>, lo: nat, hi: nat, c: Chunk, b: Chunk, u: int)
    requires lo <= hi <= |ring|
    requires c.Has(u) <==> b.Has(u) || exists j :: lo <= j < hi && ring[j].Has(u)
    ensures InFree(Replaced(ring, lo, hi, c), u) <==> InFree(ring, u) || b.Has(u)
  {
    var r := Replaced(ring, lo, hi, c);
    assert r[lo] == c;
    if InFree(ring, u) {
      var j :| 0 <= j < |ring| && ring[j].Has(u);
      var i := if j < lo then j else if j < hi then lo else j - hi + lo + 1;
      assert r[i].Has(u);
    }
    if b.Has(u) {
      assert r[lo].Has(u);
    }
    if InFree(r, u) {
      var j :| 0 <= j < |r| && r[j].Has(u);
      if j != lo {
        var i := if j < lo then j else j + hi - lo - 1;
        assert ring[i].Has(u);
      }
    }
  }

  /** Putting a block back frees its units and no others. */
  lemma InsertedUnits(ring: seq<Chunk>, base: nat, b: Chunk, k: nat, u: int)
    requires Ring(ring, base) && Precedes(ring, k, b.addr) && Clear(ring, b) && b.size > 0
    ensures InFree(Inserted(ring, k, b), u) <==> InFree(ring, u) || b.Has(u)
  {
    Fits(ring, base, b, k);
    var lo, hi, c := Low(ring, k, b), High(ring, k, b), Merged(ring, k, b);
    assert c.Has(u) <==> b.Has(u) || exists j :: lo <= j < hi && ring[j].Has(u) by {
      assert JoinsLeft(ring, k, b) ==> (ring[k].Has(u) || !ring[k].Has(u));
      assert JoinsRight(ring, k, b) ==> (ring[k + 1].Has(u) || !ring[k + 1].Has(u));
    }
    ReplacedUnits(ring, lo, hi, c, b, u);
  }

  /** Taking nunits from the end of chunk j, or the whole chunk if that is all there is. */
  function Taken(ring: seq<Chunk>, j: nat, nunits: nat): seq<Chunk>
    requires j < |ring| && nunits <= ring[j].size
  {
    if ring[j].size == nunits then ring[..j] + ring[j + 1..]
    else ring[j := Chunk(ring[j].addr, ring[j].size - nunits)]
  }

  function TakenAt(ring: seq<Chunk>, j: nat, nunits: nat): Chunk
    requires j < |ring| && nunits <= ring[j].size
  {
    Chunk(Room(ring, j) - nunits, nunits)
  }

  lemma TakenRing(ring: seq<Chunk>, base: nat, j: nat, nunits: nat)
    requires Ring(ring, base) && 0 < j < |ring| && 0 < nunits <= ring[j].size
    ensures Ring(Taken(ring, j, nunits), base)
  {}

  /** Taking a block uses its units and no others. */
  lemma TakenUnits(ring: seq<Chunk>, base: nat, j: nat, nunits: nat, u: int)
    requires Ring(ring, base) && 0 < j < |ring| && 0 < nunits <= ring[j].size
    ensures InFree(Taken(ring, j, nunits), u) <==> InFree(ring, u) && !TakenAt(ring, j, nunits).Has(u)
  {
    var b := TakenAt(ring, j, nunits);
    forall i | 0 <= i < |ring| && i != j && ring[i].Has(u) ensures !b.Has(u) {
      if i < j {
        assert ring[i].addr + ring[i].size < ring[j].addr;
      } else {
        assert ring[j].addr + ring[j].size < ring[i].addr;
      }
    }
    TakenHas(ring, j, nunits, u);
  }

  /** What is left after taking from chunk j: the other chunks, and the start of that one. */
  lemma TakenHas(ring: seq<Chunk>, j: nat, nunits: nat, u: int)
    requires j < |ring| && 0 < nunits <= ring[j].size
    ensures InFree(Taken(ring, j, nunits), u) <==>
              (exists i :: 0 <= i < |ring| && i != j && ring[i].Has(u)) || (ring[j].Has(u) && !TakenAt(ring, j, nunits).Has(u))
  {
    var r := Taken(ring, j, nunits);
    if InFree(r, u) {
      var i :| 0 <= i < |r| && r[i].Has(u);
      if |r| < |ring| {
        assert ring[if i >= j then i + 1 else i].Has(u);
      }
    }
    if i :| 0 <= i < |ring| && i != j && ring[i].Has(u) {
      assert r[if |r| < |ring| && i > j then i - 1 else i].Has(u);
    }
    if ring[j].Has(u) && !TakenAt(ring, j, nunits).Has(u) {
      assert r[j].Has(u);
    }
  }
}
