/** umalloc.c as it runs: malloc, free and morecore over headers linked in memory, and sbrk as the
    kernel answers it. A method whose first result is false stands for a page fault that kills the process. */
module Umalloc {
  import opened Collections
  import opened Param
  import opened PageTable
  import opened FreeRing
  import opened HeapModel

  /** The units of a block for nbytes bytes, one of them its header; size arithmetic in 32 bits. */
  function UnitsFor(nbytes: nat): nat {
    (nbytes + 8 - 1) % U32 / 8 + 1
  }

  function Ask(nu: nat): nat {
    if nu < 4096 then 4096 else nu
  }

  /** A 32-bit word read as an int. */
  function AsInt(w: nat): int {
    if w < 0x8000_0000 then w else w - U32
  }

  /** How many bytes morecore asks sbrk for: a product in 32 bits, read as an int. */
  function Asked(nunits: nat): int {
    AsInt(Ask(nunits) * 8 % U32)
  }

  lemma AskedFacts(nunits: nat)
    requires 0 < nunits <= SPACE
    ensures -0x8000_0000 <= Asked(nunits) < 0x8000_0000 && Asked(nunits) % 8 == 0
    ensures Asked(nunits) > 0 <==> nunits < LIMIT
    ensures Asked(nunits) > 0 ==> Asked(nunits) == Ask(nunits) * 8 >= 8 * PGSIZE
    ensures Asked(nunits) <= 0 ==> Ask(nunits) == nunits && Asked(nunits) == nunits * 8 - U32
  {}

  /** A request needs at least as many units as there are below KERNBASE exactly if it is for so many
      bytes, and the block is too small exactly if rounding nbytes up overflows. */
  lemma UnitsFacts(nbytes: nat)
    requires nbytes < U32
    ensures 0 < UnitsFor(nbytes) <= SPACE
    ensures UnitsFor(nbytes) >= LIMIT <==> 0x8000_0000 - 15 <= nbytes <= U32 - 8
    ensures (UnitsFor(nbytes) - 1) * 8 >= nbytes <==> nbytes <= U32 - 8
  {}

  /** The break that sbrk(n) tries for. One below 0 wraps to one above the present, and stays there. */
  function Moved(sz: nat, n: int): nat {
    if sz + n < 0 then sz else sz + n
  }

  /** How many units the pages of sz bytes have. */
  function Edge(sz: nat): nat {
    Up(sz) * (PGSIZE / 8)
  }

  lemma EdgeBounds(a: nat)
    ensures a <= 8 * Edge(a) < a + PGSIZE
    ensures Edge(0) == 0 && (a < KERNBASE ==> Edge(a) <= LIMIT)
  {}

  lemma EdgeFacts(a: nat, b: nat)
    requires a <= b
    ensures Edge(a) <= Edge(b)
    ensures a - a % PGSIZE <= b - b % PGSIZE
    ensures b < 8 * Edge(a) ==> Edge(a) == Edge(b) && a - a % PGSIZE == b - b % PGSIZE
  {
    hide Up;
    UpOf(a);
    UpOf(b);
    assert a / PGSIZE <= b / PGSIZE;
  }

  lemma UpOf(a: nat)
    ensures Up(a) == a / PGSIZE + if a % PGSIZE == 0 then 0 else 1
  {}

  /** The units that morecore counts on when it asks for nunits with the break at sz. */
  function Granted(sz: nat, nunits: nat): set<nat> {
    Interval(sz / 8, sz / 8 + Ask(nunits))
  }

  function Blank(units: set<nat>): (m: Memory)
    ensures m.Keys == units && forall u :: u in units ==> m[u] == Header(0, 0)
  {
    map u | u in units :: Header(0, 0)
  }

  lemma Extended(mem: Memory, a: nat, b: nat)
    requires a <= b && forall u: nat :: u in mem <==> u < a
    ensures var mem' := mem + Blank(Interval(a, b));
            && (forall u: nat :: u in mem' <==> u < b)
            && forall u :: u in mem' ==> mem'[u] == if u in mem then mem[u] else Header(0, 0)
  {
    hide Interval;
  }

  lemma Shrunk(mem: Memory, a: nat, b: nat)
    requires a <= b && forall u: nat :: u in mem <==> u < b
    ensures var mem' := mem - Interval(a, b); (forall u: nat :: u in mem' <==> u < a) && forall u :: u in mem' ==> mem'[u] == mem[u]
  {
    hide Interval;
  }

  /** growproc fails: the break would reach KERNBASE, or there is no room for the pages it needs. */
  predicate Refuses(sz: nat, n: int, room: bool) {
    n > 0 && (sz + n >= KERNBASE || (Edge(sz + n) > Edge(sz) && !room))
  }

  lemma RefusesExactly(sz: nat, n: int, room: bool)
    requires n >= PGSIZE
    ensures Refuses(sz, n, room) <==> sz + n >= KERNBASE || !room
  {
    hide Edge;
    EdgeBounds(sz);
    EdgeBounds(sz + n);
  }

  lemma WrappedAddress(u: nat)
    requires u < SPACE
    ensures Address(u + SPACE) == u
  {}

  /** After sbrk(n) the first unit behind the old break is there. */
  predicate Stays(sz: nat, n: int) {
    sz < 8 * Edge(Moved(sz, n))
  }

  /** Some free chunk holds nunits units. */
  ghost predicate Enough(ring: seq<Chunk>, nunits: nat) {
    exists i :: 0 <= i < |ring| && ring[i].size >= nunits
  }

  /** Every chunk that is large enough comes between index j and the end of the lap, index f. */
  ghost predicate Ahead(ring: seq<Chunk>, nunits: nat, j: nat, f: nat) {
    forall i :: 0 <= i < |ring| && ring[i].size >= nunits ==> Steps(j, i, |ring|) <= Steps(j, f, |ring|)
  }

  function Before(j: nat, n: nat): nat
    requires j < n
  {
    if j > 0 then j - 1 else n - 1
  }

  lemma NextLap(ring: seq<Chunk>, nunits: nat, f: nat)
    requires f < |ring|
    ensures After(f, |ring|) < |ring| && Before(After(f, |ring|), |ring|) == f
    ensures Ahead(ring, nunits, After(f, |ring|), f)
  {}

  lemma OneStep(ring: seq<Chunk>, nunits: nat, j: nat, f: nat)
    requires j < |ring| && f < |ring| && ring[j].size < nunits && Ahead(ring, nunits, j, f)
    ensures j == f ==> !Enough(ring, nunits)
    ensures j != f ==> Ahead(ring, nunits, After(j, |ring|), f) && After(j, |ring|) < |ring| && Before(After(j, |ring|), |ring|) == j
                       && 0 <= Steps(After(j, |ring|), f, |ring|) < Steps(j, f, |ring|)
  {}

  /** Whatever is put back makes room for as much. */
  lemma InsertedEnough(ring: seq<Chunk>, k: nat, b: Chunk)
    requires k < |ring|
    ensures Enough(Inserted(ring, k, b), b.size)
  {
    assert Inserted(ring, k, b)[Low(ring, k, b)] == Merged(ring, k, b);
  }

  /** No chunk is as large as all the memory below KERNBASE. */
  lemma NoneThatLarge(mem: Memory, ring: seq<Chunk>, live: map<nat, nat>, core: set<nat>, base: nat, nunits: nat)
    requires HeapOk(mem, ring, live, core, base) && nunits >= LIMIT && forall u :: u in core ==> u < LIMIT
    ensures !Enough(ring, nunits)
  {
    hide Linked, Headed, InLive, Apart;
    forall i | 0 <= i < |ring| ensures ring[i].size < nunits {
      if i > 0 {
        assert ring[i].Has(Room(ring, i) - 1) && InFree(ring, Room(ring, i) - 1);
        assert ring[0].addr + ring[0].size < ring[i].addr;
      }
    }
  }

  /** Every chunk of nunits units ends at unit end. */
  ghost predicate Only(ring: seq<Chunk>, nunits: nat, end: nat) {
    forall i :: 0 <= i < |ring| && ring[i].size >= nunits ==> Room(ring, i) == end
  }

  /** What the top of the heap is joined to ends there. */
  lemma InsertedOnly(ring: seq<Chunk>, b: Chunk, nunits: nat)
    requires |ring| > 0 && !Enough(ring, nunits)
    ensures Only(Inserted(ring, |ring| - 1, b), nunits, b.addr + b.size)
  {
    var k := |ring| - 1;
    var r := Inserted(ring, k, b);
    assert r == ring[..Low(ring, k, b)] + [Merged(ring, k, b)];
  }

  /** A block above all the others belongs at the top of the ring. */
  lemma OnTop(mem: Memory, ring: seq<Chunk>, live: map<nat, nat>, core: set<nat>, base: nat, bp: nat)
    requires HeapOk(mem, ring, live, core, base) && base < bp && forall u :: u in core ==> u < bp
    ensures Precedes(ring, |ring| - 1, bp) && ring[After(|ring| - 1, |ring|)].addr == base
  {
    hide Linked, Headed, InLive, Apart;
    var k := |ring| - 1;
    if k > 0 {
      assert ring[k].Has(ring[k].addr) && InFree(ring, ring[k].addr);
    }
  }

  lemma PrecedesUpTo(ring: seq<Chunk>, base: nat, k: nat, bp: nat, i: nat)
    requires Ring(ring, base) && Precedes(ring, k, bp) && i < |ring|
    ensures ring[i].addr < bp <==> i <= k
  {
    if i < k {
      assert ring[i].addr + ring[i].size < ring[k].addr;
    } else if i > k + 1 {
      assert ring[k + 1].addr + ring[k + 1].size < ring[i].addr;
    }
  }

  /** A block has one place in the ring. */
  lemma OnePlace(ring: seq<Chunk>, base: nat, k: nat, j: nat, bp: nat)
    requires Ring(ring, base) && Precedes(ring, k, bp) && Precedes(ring, j, bp)
    ensures j == k
  {
    PrecedesUpTo(ring, base, k, bp, j);
    PrecedesUpTo(ring, base, j, bp, k);
  }

  lemma EnoughFewer(ring: seq<Chunk>, n: nat, nunits: nat)
    requires Enough(ring, n) && nunits <= n
    ensures Enough(ring, nunits)
  {}

  /** Where the new chunk lies in the ring, and what it makes of it. */
  lemma Topped(mem: Memory, ring: seq<Chunk>, live: map<nat, nat>, core: set<nat>, base: nat, hp: nat, nu: nat, k: nat, nunits: nat)
    requires HeapOk(mem, ring, live, core, base) && Precedes(ring, k, hp) && base < hp && forall u :: u in core ==> u < hp
    ensures k == |ring| - 1 && (!Enough(ring, nunits) ==> Only(Inserted(ring, k, Chunk(hp, nu)), nunits, hp + nu))
  {
    hide Linked, Tiled, Headed, Inserted, Precedes, Enough, Only;
    OnTop(mem, ring, live, core, base, hp);
    OnePlace(ring, base, k, |ring| - 1, hp);
    if !Enough(ring, nunits) {
      InsertedOnly(ring, Chunk(hp, nu), nunits);
    }
  }

  class Heap {
    const base: nat
    var mem: Memory               // the pages that the process has
    var sz: nat                   // its size, the break
    var freep: nat                // 0 until the first malloc
    ghost var ring: seq<Chunk>
    ghost var live: map<nat, nat> // the blocks handed out: where and how many units
    ghost var core: set<nat>      // the units obtained from sbrk

    /** The pages below the break are there; base lies in one before the last. */
    ghost predicate Space()
      reads this
    {
      && base > 0 && sz % 8 == 0 && (base + 1) * 8 <= sz - sz % PGSIZE && sz < KERNBASE
      && forall u: nat :: u in mem <==> u < Edge(sz)
    }

    ghost predicate Entered(f: int)
      reads this
    {
      0 <= f < |ring| && ring[f].addr == freep
    }

    ghost predicate Sound()
      reads this
    {
      HeapOk(mem, ring, live, core, base) && Space() && freep != 0 && exists f :: Entered(f)
    }

    /** The units of the heap are all below the break. */
    ghost predicate Below()
      reads this
    {
      forall u :: u in core ==> (u + 1) * 8 <= sz
    }

    ghost predicate Ready()
      reads this
    {
      Sound() && Below()
    }

    ghost predicate Valid()
      reads this
    {
      && Space()
      && if freep == 0 then live == map[] && core == {} && ring == [] else Ready()
    }

    /** A live block at unit a has room for nbytes bytes, on pages that the process has, in units that
        the heap obtained from sbrk. */
    ghost predicate Serves(a: nat, nbytes: nat)
      reads this
    {
      a in live && (live[a] - 1) * 8 >= nbytes && forall u :: a <= u < a + live[a] ==> u in core && u in mem
    }

    constructor (base: nat, mem: Memory, sz: nat)
      requires base > 0 && sz % 8 == 0 && (base + 1) * 8 <= sz - sz % PGSIZE && sz < KERNBASE
      requires forall u: nat :: u in mem <==> u < Edge(sz)
      ensures Valid() && this.base == base && this.mem == mem && this.sz == sz && freep == 0
    {
      this.base, this.mem, this.sz, this.freep := base, mem, sz, 0;
      this.ring, this.live, this.core := [], map[], {};
    }

    /** sys_sbrk over growproc: -1 if refused, or else the old break. New pages are zeroed, and pages
        that are no longer needed are gone. So are all of them when nothing is left, but then the break
        is not moved. */
    method Sbrk(n: int, room: bool) returns (addr: int)
      requires Space() && -0x8000_0000 <= n < 0x8000_0000
      modifies this`mem, this`sz
      ensures addr == if Refuses(old(sz), n, room) || old(sz) + n == 0 then -1 else old(sz)
      ensures sz == if addr == -1 then old(sz) else Moved(old(sz), n)
      ensures forall u: nat :: u in mem <==> u < if old(sz) + n == 0 then 0 else Edge(sz)
      ensures forall u :: u in mem ==> mem[u] == if u in old(mem) then old(mem)[u] else Header(0, 0)
    {
      hide Edge, Interval;
      var oldsz := sz;
      EdgeBounds(sz);
      if n > 0 {
        if Refuses(sz, n, room) {
          return -1;
        }
        EdgeFacts(sz, sz + n);
        Extended(mem, Edge(sz), Edge(sz + n));
        mem := mem + Blank(Interval(Edge(sz), Edge(sz + n)));
        sz := sz + n;
      } else if n < 0 {
        var newsz := (sz + n) % U32;
        EdgeBounds(newsz);
        if newsz < sz {
          assert newsz == sz + n;
          EdgeFacts(newsz, sz);
          Shrunk(mem, Edge(newsz), Edge(sz));
          mem := mem - Interval(Edge(newsz), Edge(sz));
          if newsz == 0 {
            return -1;
          }
          sz := newsz;
        }
      }
      return oldsz;
    }

    /** Gives the block at ap back. The search over the ring ends wherever it starts. */
    method Free(ap: nat) returns (ghost k: nat)
      requires Sound() && ap >= 1 && ap - 1 in live
      requires Below() || (Precedes(ring, |ring| - 1, ap - 1) && Straight(ring, |ring| - 1, Chunk(ap - 1, live[ap - 1])))
      modifies this`mem, this`freep, this`ring, this`live
      ensures Sound() && mem.Keys == old(mem.Keys) && (old(Ready()) ==> Ready() && Valid()) && live == old(live) - {ap - 1}
      ensures LiveKept(old(mem), mem, live)
      ensures forall u :: InFree(ring, u) <==> old(InFree(ring, u)) || Chunk(ap - 1, old(live)[ap - 1]).Has(u)
      ensures Enough(ring, old(live)[ap - 1])
      ensures Precedes(old(ring), k, ap - 1) && ring == Inserted(old(ring), k, Chunk(ap - 1, old(live)[ap - 1])) && Entered(k)
    {
      hide HeapOk, Inserted, LiveKept, InFree, Precedes, FreedMemory, Straight, Edge;
      var bp := ap - 1;
      ghost var b := Chunk(bp, live[bp]);
      k := FreePlace(mem, ring, live, core, base, bp);
      Unwrapped(bp, k);
      var p := Search(bp, k);
      FreeKeeps(mem, ring, live, core, base, bp, k);
      FreedUnits(mem, ring, live, core, base, bp, k);
      InsertedEnough(ring, k, b);
      Link(bp, p);
      freep := p;
      live, ring := live - {bp}, Inserted(ring, k, b);
      assert Entered(k);
    }

    lemma Unwrapped(bp: nat, k: nat)
      requires Sound() && bp in live && Precedes(ring, k, bp)
      requires Below() || (Precedes(ring, |ring| - 1, bp) && Straight(ring, |ring| - 1, Chunk(bp, live[bp])))
      ensures Straight(ring, k, Chunk(bp, live[bp]))
    {
      hide Straight, Edge, Linked, Tiled, Headed;
      if Below() {
        BelowLimit(mem, ring, live, core, base, bp, k);
      } else {
        OnePlace(ring, base, k, |ring| - 1, bp);
      }
    }

    /** free's search: the chunk after which bp belongs. */
    method Search(bp: nat, ghost k: nat) returns (p: nat)
      requires Sound() && Precedes(ring, k, bp)
      ensures p == ring[k].addr
    {
      p := freep;
      ghost var j: nat :| Entered(j);
      while true
        invariant 0 <= j < |ring| && p == ring[j].addr
        decreases Steps(j, k, |ring|)
      {
        assert LinkAt(mem, ring, j);
        SearchStops(ring, base, bp, k, j);
        if bp > p && bp < mem[p].ptr {
          break;
        }
        if p >= mem[p].ptr && (bp > p || bp < mem[p].ptr) {
          break;
        }
        p := mem[p].ptr;
        j := After(j, |ring|);
      }
    }

    /** free's four assignments: bp joins the chunk behind it, and then the one at p. */
    method Link(bp: nat, p: nat)
      requires bp in mem && p in mem && mem[p].ptr in mem && p != bp
      modifies this`mem
      ensures mem == FreedMemory(old(mem), p, bp) && mem.Keys == old(mem.Keys)
    {
      if Address(bp + mem[bp].size) == mem[p].ptr {
        var q := mem[p].ptr;
        mem := mem[bp := Header(mem[q].ptr, mem[bp].size + mem[q].size)];
      } else {
        mem := mem[bp := mem[bp].(ptr := mem[p].ptr)];
      }
      if Address(p + mem[p].size) == bp {
        mem := mem[p := Header(mem[bp].ptr, mem[p].size + mem[bp].size)];
      } else {
        mem := mem[p := mem[p].(ptr := bp)];
      }
    }

    /** Asks sbrk for at least 4096 units and frees what it answers; 0 if it refuses. The product of
        units and their size overflows an int from LIMIT units on. sbrk then adds nothing, and the chunk
        freed is not memory; the process is killed unless its header happens to lie on a page that is there. */
    method Morecore(nunits: nat, room: bool) returns (ok: bool, p: nat)
      requires Ready() && 0 < nunits <= SPACE
      modifies this`mem, this`sz, this`freep, this`ring, this`live, this`core
      ensures ok <==> nunits < LIMIT || Stays(old(sz), Asked(nunits))
      ensures ok ==> Sound() && (nunits < LIMIT ==> Ready()) && live == old(live) && LiveKept(old(mem), mem, live)
      ensures ok ==> (p == 0 <==> Refuses(old(sz), Asked(nunits), room))
      ensures ok && p == 0 ==> mem == old(mem) && sz == old(sz) && freep == old(freep) && ring == old(ring) && core == old(core)
      ensures ok && p != 0 ==> p == freep && sz == Moved(old(sz), Asked(nunits)) && Enough(ring, nunits)
                               && core == old(core) + Granted(old(sz), nunits)
      ensures ok && p != 0 && !old(Enough(ring, nunits)) ==> Only(ring, nunits, old(sz) / 8 + Ask(nunits))
    {
      hide HeapOk, LiveKept, InFree, Edge, Enough, Inserted, Stays, Straight, Precedes, Only, Address, Interval;
      var nu := nunits;
      if nu < 4096 {
        nu := 4096;
      }
      var n := AsInt(nu * 8 % U32);
      AskedFacts(nunits);
      ghost var mem0, sz0 := mem, sz;
      ghost var f: nat :| Entered(f);
      var addr := Sbrk(n, room);
      assert Entered(f);
      Answered(mem0, sz0, n, room, addr);
      if mem == map[] {
        return false, 0;
      }
      if addr == -1 {
        KeptSelf(mem, live);
        return true, 0;
      }
      var hp := addr / 8;
      if hp !in mem {
        return false, 0;
      }
      p := Join(mem0, sz0, hp, nu, nunits);
      return true, p;
    }

    /** What sbrk's answer is to morecore. */
    lemma Answered(mem0: Memory, sz0: nat, n: int, room: bool, addr: int)
      requires base > 0 && sz0 % 8 == 0 && (base + 1) * 8 <= sz0 - sz0 % PGSIZE && sz0 < KERNBASE && n % 8 == 0
      requires forall u: nat :: u in mem0 <==> u < Edge(sz0)
      requires addr == if Refuses(sz0, n, room) || sz0 + n == 0 then -1 else sz0
      requires sz == if addr == -1 then sz0 else Moved(sz0, n)
      requires forall u: nat :: u in mem <==> u < if sz0 + n == 0 then 0 else Edge(sz)
      requires forall u :: u in mem ==> mem[u] == if u in mem0 then mem0[u] else Header(0, 0)
      ensures mem == map[] <==> sz0 + n == 0
      ensures sz0 + n == 0 ==> !Stays(sz0, n)
      ensures Refuses(sz0, n, room) ==> mem == mem0
      ensures addr != -1 ==> (sz0 / 8 in mem <==> n > 0 || Stays(sz0, n))
      ensures addr != -1 && sz0 / 8 in mem ==> Space() && forall u :: u in mem0 ==> u in mem && mem[u] == mem0[u]
    {
      hide Edge;
      EdgeBounds(sz0);
      EdgeBounds(sz);
      if sz <= sz0 {
        EdgeFacts(sz, sz0);
      } else {
        EdgeFacts(sz0, sz);
      }
      if sz0 + n != 0 {
        assert 0 in mem;
      }
    }

    /** The chunk at the old break joins the ring. */
    method Join(ghost mem0: Memory, ghost sz0: nat, hp: nat, nu: nat, ghost nunits: nat) returns (p: nat)
      requires Space() && freep != 0 && (exists f :: Entered(f)) && HeapOk(mem0, ring, live, core, base)
      requires 0 < nunits <= SPACE && nu == Ask(nunits) && hp == sz0 / 8 && sz0 % 8 == 0 && hp in mem && sz == Moved(sz0, Asked(nunits))
      requires forall u :: u in core ==> u < hp
      requires (base + 1) * 8 <= sz0 - sz0 % PGSIZE && sz0 < KERNBASE && forall u :: u in mem0 ==> u in mem && mem[u] == mem0[u]
      modifies this`mem, this`freep, this`ring, this`live, this`core
      ensures Sound() && (nunits < LIMIT ==> Ready()) && live == old(live) && LiveKept(mem0, mem, live) && p == freep
      ensures Enough(ring, nunits) && core == old(core) + Granted(sz0, nunits)
      ensures !old(Enough(ring, nunits)) ==> Only(ring, nunits, hp + nu)
    {
      hide HeapOk, LiveKept, InFree, Edge, Enough, Inserted, Straight, Precedes, Only, Address, Interval, Space, Below, Asked, Moved, Granted;
      ExtendKeeps(mem0, mem, ring, live, core, base);
      ghost var mem1, ring1, live1 := mem, ring, live;
      Above(hp, nu, nunits, sz0);
      Grow(hp, nu);
      assert core == old(core) + Granted(sz0, nunits) by {
        GrantedIs(sz0, nunits);
      }
      ghost var mem2 := mem;
      if nunits < LIMIT {
        BelowStill(old(core), sz0, nunits);
      }
      ghost var k := Free(hp + 1);
      assert live == live1;
      KeptTwice(mem0, mem1, mem2, live);
      KeptTwice(mem0, mem2, mem, live);
      EnoughFewer(ring, nu, nunits);
      Topped(mem1, ring1, live1, old(core), base, hp, nu, k, nunits);
      return freep;
    }

    /** What follows the new chunk in the ring is base, which lies below it, and pointer arithmetic
        agrees. */
    lemma Above(hp: nat, nu: nat, nunits: nat, sz0: nat)
      requires Space() && HeapOk(mem, ring, live, core, base) && forall u :: u in core ==> u < hp
      requires 0 < nunits <= SPACE && nu == Ask(nunits) && hp == sz0 / 8 && sz0 % 8 == 0 && hp in mem && sz == Moved(sz0, Asked(nunits))
      requires (base + 1) * 8 <= sz0 - sz0 % PGSIZE && sz0 < KERNBASE
      ensures base < hp && Precedes(ring, |ring| - 1, hp) && Straight(ring, |ring| - 1, Chunk(hp, nu))
    {
      hide HeapOk, Precedes, Edge, Ask, Asked, Address;
      AskedFacts(nunits);
      EdgeBounds(sz);
      if sz <= sz0 {
        EdgeFacts(sz, sz0);
      }
      OnTop(mem, ring, live, core, base, hp);
      if nunits < LIMIT || sz0 + Asked(nunits) < 0 {
        SameAddress(hp + nu);
      } else {
        WrappedAddress(sz / 8);
      }
    }

    lemma GrantedIs(sz0: nat, nunits: nat)
      ensures Granted(sz0, nunits) == Interval(sz0 / 8, sz0 / 8 + Ask(nunits))
    {}

    lemma BelowStill(core0: set<nat>, sz0: nat, nunits: nat)
      requires 0 < nunits < LIMIT && sz0 % 8 == 0 && sz == Moved(sz0, Asked(nunits)) && core == core0 + Granted(sz0, nunits)
      requires forall u :: u in core0 ==> u < sz0 / 8
      ensures Below()
    {
      hide Interval;
      AskedFacts(nunits);
    }

    /** morecore's new block, with its size stored in it. */
    method Grow(hp: nat, nu: nat)
      requires Sound() && 0 < nu && hp in mem && base < hp && forall u :: hp <= u < hp + nu ==> u !in core
      modifies this`mem, this`live, this`core
      ensures Sound() && hp !in old(live) && live == old(live)[hp := nu] && LiveKept(old(mem), mem, old(live))
      ensures core == old(core) + Interval(hp, hp + nu)
    {
      hide HeapOk, LiveKept, Edge, Interval;
      ghost var f: nat :| Entered(f);
      GrowKeeps(mem, ring, live, core, base, Chunk(hp, nu));
      mem := mem[hp := mem[hp].(size := nu)];
      live, core := live[hp := nu], core + Interval(hp, hp + nu);
      assert Entered(f);
    }

    /** A block of nbytes bytes, or 0 when no free chunk is large enough and sbrk refuses. The walk over
        the ring ends after at most one answer of sbrk. For LIMIT units or more that answer adds no
        memory: the process is killed, or gets what was behind the old break and is no part of the heap,
        which is as before except that the break may have sunk into it. */
    method Malloc(nbytes: nat, room: bool) returns (ok: bool, r: nat)
      requires Valid() && nbytes < U32
      modifies this`mem, this`sz, this`freep, this`ring, this`live, this`core
      ensures ok <==> UnitsFor(nbytes) < LIMIT || Stays(old(sz), Asked(UnitsFor(nbytes)))
      ensures ok ==> Sound() && LiveKept(old(mem), mem, old(live))
      ensures ok && r != 0 ==> (Serves(r - 1, nbytes) <==> nbytes < 0x8000_0000 - 15)
      ensures UnitsFor(nbytes) < LIMIT ==>
                && Ready() && Valid() && live == (if r == 0 then old(live) else old(live)[r - 1 := UnitsFor(nbytes)])
                && (r == 0 <==> !old(Enough(ring, UnitsFor(nbytes))) && (old(sz) + Asked(UnitsFor(nbytes)) >= KERNBASE || !room))
                && (r != 0 ==> r - 1 !in old(live))
      ensures UnitsFor(nbytes) < LIMIT ==>
                if r == 0 || old(Enough(ring, UnitsFor(nbytes))) then core == old(core) && sz == old(sz)
                else core == old(core) + Granted(old(sz), UnitsFor(nbytes)) && sz == old(sz) + Asked(UnitsFor(nbytes))
      ensures UnitsFor(nbytes) >= LIMIT && ok ==>
                && r - 1 == old(sz) / 8 && r - 1 !in core && live == old(live) && core == old(core)
                && sz == Moved(old(sz), Asked(UnitsFor(nbytes))) && (Valid() <==> Below())
    {
      hide HeapOk, LiveKept, Enough, Asked, Stays, Edge, Refuses, Ask, Serves, Granted, Space;
      var nunits := (nbytes + 8 - 1) % U32 / 8 + 1;
      UnitsFacts(nbytes);
      AskedFacts(nunits);
      ghost var mem0, live0, core0, sz0 := mem, live, core, sz;
      Begin(nunits);
      if nunits < LIMIT {
        RefusesExactly(sz0, Asked(nunits), room);
      }
      Behind();
      ghost var mem1 := mem;
      ok, r := FirstFit(nunits, room);
      if ok {
        KeptTwice(mem0, mem1, mem, live0);
        if nunits >= LIMIT {
          Forget(sz0, nunits, live0, core0);
        }
        if r != 0 {
          ServesIf(r - 1, nbytes);
        }
      }
    }

    lemma Behind()
      requires Ready()
      ensures sz % 8 == 0 && forall u :: u in core ==> u < sz / 8
    {}

    /** A live block of the heap serves if it is large enough, and what is no part of the heap does not. */
    lemma ServesIf(a: nat, nbytes: nat)
      requires Sound()
      ensures a in live && Below() ==> (Serves(a, nbytes) <==> (live[a] - 1) * 8 >= nbytes)
      ensures a !in core ==> !Serves(a, nbytes)
    {
      hide Ring, Linked, InFree, InLive, Edge;
      EdgeBounds(sz);
      if a in live {
        forall u | a <= u < a + live[a] ensures u in core && (Below() ==> u in mem) {
          LiveUnit(ring, live, core, a, u);
        }
        LiveUnit(ring, live, core, a, a);
      }
    }

    /** What is no memory is no part of the heap. */
    ghost method Forget(sz0: nat, nunits: nat, live0: map<nat, nat>, core0: set<nat>)
      requires Sound() && Ask(nunits) == nunits && sz0 / 8 !in live0 && forall u :: u in core0 ==> u < sz0 / 8
      requires live == live0[sz0 / 8 := nunits] && core == core0 + Granted(sz0, nunits)
      modifies this`live, this`core
      ensures Sound() && live == live0 && core == core0
    {
      hide HeapOk, Edge, Interval;
      ghost var f: nat :| Entered(f);
      Forgotten(mem, ring, live0, core0, base, Chunk(sz0 / 8, nunits));
      live, core := live0, core0;
      assert Entered(f);
    }

    /** malloc's loop, from freep on. */
    method FirstFit(nunits: nat, room: bool) returns (ok: bool, r: nat)
      requires Ready() && 0 < nunits <= SPACE
      modifies this`mem, this`sz, this`freep, this`ring, this`live, this`core
      ensures ok <==> nunits < LIMIT || Stays(old(sz), Asked(nunits))
      ensures ok ==> Sound() && LiveKept(old(mem), mem, old(live)) && (nunits < LIMIT ==> Below())
      ensures ok ==> (r == 0 <==> !old(Enough(ring, nunits)) && Refuses(old(sz), Asked(nunits), room))
      ensures ok ==> live == if r == 0 then old(live) else old(live)[r - 1 := nunits]
      ensures ok && r != 0 ==> r - 1 !in old(live) && (nunits >= LIMIT ==> r - 1 == old(sz) / 8)
      ensures ok ==> if r == 0 || old(Enough(ring, nunits)) then core == old(core) && sz == old(sz) && nunits < LIMIT
                     else core == old(core) + Granted(old(sz), nunits) && sz == Moved(old(sz), Asked(nunits))
    {
      hide HeapOk, LiveKept, Enough, Ahead, Ask, Asked, Stays, Edge, Only, Granted, Space;
      AskedFacts(nunits);
      Spacious(nunits);
      Behind();
      ghost var f: nat :| Entered(f);
      ghost var j, grown := After(f, |ring|), false;
      HeaderAt(mem, ring, live, core, base, f);
      NextLap(ring, nunits, f);
      KeptSelf(mem, live);
      var prevp := freep;
      var p := mem[prevp].ptr;
      while true
        invariant Sound() && Entered(f) && 0 <= j < |ring| && p == ring[j].addr && prevp == ring[Before(j, |ring|)].addr
        invariant live == old(live) && LiveKept(old(mem), mem, live) && Ahead(ring, nunits, j, f) && (nunits < LIMIT || !grown ==> Below())
        invariant if grown then && !old(Enough(ring, nunits)) && Enough(ring, nunits) && (nunits < LIMIT || Stays(old(sz), Asked(nunits)))
                                && !Refuses(old(sz), Asked(nunits), room)
                                && Only(ring, nunits, old(sz) / 8 + Ask(nunits)) && sz == Moved(old(sz), Asked(nunits))
                                && core == old(core) + Granted(old(sz), nunits)
                  else mem == old(mem) && ring == old(ring) && core == old(core) && sz == old(sz)
        decreases !grown, Steps(j, f, |ring|)
      {
        HeaderAt(mem, ring, live, core, base, j);
        if mem[p].size >= nunits {
          EnoughAt(ring, nunits, j);
          ghost var mem1 := mem;
          Cuttable(j, nunits, old(sz));
          r := Take(prevp, p, nunits, j);
          KeptTwice(old(mem), mem1, mem, old(live));
          return true, r;
        }
        OneStep(ring, nunits, j, f);
        if p == freep {
          SameIndex(mem, ring, live, core, base, j, f);
          ok, p := Morecore(nunits, room);
          if !ok {
            return false, 0;
          }
          if p == 0 {
            return true, 0;
          }
          grown := true;
          f := Entry();
          j := f;
          NextLap(ring, nunits, f);
          HeaderAt(mem, ring, live, core, base, j);
        }
        prevp := p;
        p := mem[p].ptr;
        j := After(j, |ring|);
      }
    }

    lemma Spacious(nunits: nat)
      requires Ready()
      ensures nunits >= LIMIT ==> !Enough(ring, nunits)
    {
      hide HeapOk, Edge, Enough;
      if nunits >= LIMIT {
        NoneThatLarge(mem, ring, live, core, base, nunits);
      }
    }

    /** The header of the block that is taken can be written. */
    lemma Cuttable(j: nat, nunits: nat, sz0: nat)
      requires Sound() && j < |ring| && 0 < nunits <= ring[j].size && nunits <= SPACE && sz0 % 8 == 0
      requires Below() || (nunits >= LIMIT && Only(ring, nunits, sz0 / 8 + Ask(nunits)))
      requires nunits >= LIMIT ==> sz == Moved(sz0, Asked(nunits)) && Stays(sz0, Asked(nunits))
      ensures TakenAt(ring, j, nunits).addr in mem
      ensures nunits >= LIMIT && Only(ring, nunits, sz0 / 8 + Ask(nunits)) ==> TakenAt(ring, j, nunits).addr == sz0 / 8
    {
      hide Linked, Headed, InLive, Apart, Edge;
      AskedFacts(nunits);
      EdgeBounds(sz);
      if Below() {
        assert ring[j].Has(Room(ring, j) - nunits) && InFree(ring, Room(ring, j) - nunits);
      }
    }

    ghost method Entry() returns (f: nat)
      requires Sound()
      ensures Entered(f)
    {
      f :| Entered(f);
    }

    /** malloc up to its loop. */
    method Begin(ghost nunits: nat)
      requires Valid() && nunits > 0
      modifies this`mem, this`freep, this`ring
      ensures Ready() && LiveKept(old(mem), mem, live) && (Enough(ring, nunits) <==> old(Enough(ring, nunits)))
    {
      hide HeapOk, LiveKept, Enough, Edge;
      if freep == 0 {
        Start();
        NotEnough(nunits, base);
        KeptNone(old(mem), mem);
      } else {
        KeptSelf(mem, live);
      }
    }

    /** malloc's first call: the ring is base alone. */
    method Start()
      requires Valid() && freep == 0
      modifies this`mem, this`freep, this`ring
      ensures Ready() && freep == base && ring == [Chunk(base, 0)]
      ensures mem == old(mem)[base := Header(base, 0)]
    {
      hide Edge;
      EdgeBounds(sz);
      mem := mem[base := mem[base].(ptr := base)];
      freep := base;
      mem := mem[base := mem[base].(size := 0)];
      ring := [Chunk(base, 0)];
      assert Entered(0);
    }

    /** The chunk at p, or the end of it, becomes a live block. */
    method Take(prevp: nat, p: nat, nunits: nat, ghost j: nat) returns (r: nat)
      requires Sound() && j < |ring| && 0 < nunits <= ring[j].size && p == ring[j].addr && prevp == ring[Before(j, |ring|)].addr
      requires TakenAt(ring, j, nunits).addr in mem
      modifies this`mem, this`freep, this`ring, this`live
      ensures Sound() && LiveKept(old(mem), mem, old(live))
      ensures r > 1 && r - 1 !in old(live) && live == old(live)[r - 1 := nunits] && r - 1 == TakenAt(old(ring), j, nunits).addr
    {
      hide HeapOk, LiveKept, Taken, TakenMemory, Edge;
      ChunkFound(mem, ring, live, core, base, j);
      TakeKeeps(mem, ring, live, core, base, j, nunits);
      ghost var b, ring' := TakenAt(ring, j, nunits), Taken(ring, j, nunits);
      TakenBefore(ring, j, nunits);
      var q := Cut(prevp, p, nunits);
      freep := prevp;
      live, ring := live[b.addr := nunits], ring';
      assert Entered(j - 1);
      return q + 1;
    }

    /** malloc's assignments to headers. */
    method Cut(prevp: nat, p: nat, nunits: nat) returns (q: nat)
      requires p in mem && prevp in mem && nunits <= mem[p].size
      requires mem[p].size > nunits ==> p + mem[p].size - nunits in mem
      modifies this`mem
      ensures mem == TakenMemory(old(mem), prevp, p, nunits) && q == p + old(mem)[p].size - nunits && mem.Keys == old(mem.Keys)
    {
      q := p;
      if mem[p].size == nunits {
        mem := mem[prevp := mem[prevp].(ptr := mem[p].ptr)];
      } else {
        mem := mem[p := mem[p].(size := mem[p].size - nunits)];
        q := p + mem[p].size;
        mem := mem[q := mem[q].(size := nunits)];
      }
    }
  }

  /** 5001 units behind two pages: the heap of a process that has asked for 40000 bytes. */
  method OneBlock() returns (h: Heap)
    ensures fresh(h) && h.Valid() && h.sz == 48200 && h.freep != 0 && 48200 / 8 - 1 in h.core
  {
    hide Interval, HeapOk, LiveKept, Enough;
    h := new Heap(100, Blank(Interval(0, 1024)), 8192);
    UnitsFacts(40000);
    NotEnough(5001, 100);
    assert UnitsFor(40000) == 5001 && Asked(5001) == 40008;
    var ok, r := h.Malloc(40000, true);
  }

  /** The largest request of all gets a block of nothing but its header. */
  method TooSmall() returns (h: Heap, r: nat)
    ensures fresh(h) && h.Valid() && r != 0 && r - 1 in h.live && h.live[r - 1] == 1 && !h.Serves(r - 1, U32 - 1)
  {
    hide HeapOk, LiveKept, Enough, Interval;
    h := OneBlock();
    UnitsFacts(U32 - 1);
    var ok;
    ok, r := h.Malloc(U32 - 1, true);
  }

  /** 2^31 bytes, and the block is where the heap ends. */
  method NoMemory() returns (h: Heap, r: nat)
    ensures fresh(h) && h.Valid() && r - 1 == 48200 / 8 && r - 1 !in h.core
  {
    hide HeapOk, LiveKept, Enough, Interval;
    h := OneBlock();
    UnitsFacts(0x8000_0000);
    assert Asked(UnitsFor(0x8000_0000)) == 8 - 0x8000_0000;
    var ok;
    ok, r := h.Malloc(0x8000_0000, true);
  }

  /** The break sinks into the heap, so that the next grant will be of a unit in use. */
  method Sunk() returns (h: Heap, r: nat)
    ensures fresh(h) && r != 0 && h.sz / 8 in h.core && !h.Valid()
  {
    hide HeapOk, LiveKept, Enough, Interval;
    h := OneBlock();
    UnitsFacts(U32 - 16);
    assert Asked(UnitsFor(U32 - 16)) == -8;
    var ok;
    ok, r := h.Malloc(U32 - 16, true);
  }

  lemma TakenBefore(ring: seq<Chunk>, j: nat, nunits: nat)
    requires 0 < j < |ring| && nunits <= ring[j].size
    ensures j - 1 < |Taken(ring, j, nunits)| && Taken(ring, j, nunits)[j - 1] == ring[j - 1]
  {}

  lemma NotEnough(nunits: nat, base: nat)
    requires nunits > 0
    ensures !Enough([], nunits) && !Enough([Chunk(base, 0)], nunits)
  {}

  lemma EnoughAt(ring: seq<Chunk>, nunits: nat, j: nat)
    requires j < |ring| && ring[j].size >= nunits
    ensures Enough(ring, nunits)
  {}

  lemma SameIndex(mem: Memory, ring: seq<Chunk>, live: map<nat, nat>, core: set<nat>, base: nat, j: nat, f: nat)
    requires HeapOk(mem, ring, live, core, base) && j < |ring| && f < |ring| && ring[j].addr == ring[f].addr
    ensures j == f
  {
    if j != f {
      Distinct(ring, base, j, f);
    }
  }

  /** Only base holds nothing, and it comes first. */
  lemma ChunkFound(mem: Memory, ring: seq<Chunk>, live: map<nat, nat>, core: set<nat>, base: nat, j: nat)
    requires HeapOk(mem, ring, live, core, base) && j < |ring| && ring[j].size > 0
    ensures j > 0 && ring[j - 1].addr >= base && ring[j - 1].addr in mem && ring[j].addr in mem && mem[ring[j].addr].size == ring[j].size
  {
    HeaderAt(mem, ring, live, core, base, j);
    HeaderAt(mem, ring, live, core, base, j - 1);
  }

  // ---------------------------------------------------------- conservation

  /** The sizes of the first n chunks together. */
  function FreeTotal(ring: seq<Chunk>, n: nat): nat
    requires n <= |ring|
  {
    if n == 0 then 0 else FreeTotal(ring, n - 1) + ring[n - 1].size
  }

  ghost function FreeSet(ring: seq<Chunk>, n: nat): set<nat>
    requires n <= |ring|
  {
    if n == 0 then {} else FreeSet(ring, n - 1) + Interval(ring[n - 1].addr, Room(ring, n - 1))
  }

  lemma {:induction false} FreeSetHas(ring: seq<Chunk>, n: nat, u: nat)
    requires n <= |ring|
    ensures u in FreeSet(ring, n) <==> exists k :: 0 <= k < n && ring[k].Has(u)
  {
    hide Interval;
    if n > 0 {
      FreeSetHas(ring, n - 1, u);
      assert ring[n - 1].Has(u) || !ring[n - 1].Has(u);
    }
  }

  ghost function LiveTotal(live: map<nat, nat>): nat {
    if live == map[] then 0
    else var a :| a in live; live[a] + LiveTotal(live - {a})
  }

  lemma LastApart(ring: seq<Chunk>, base: nat, n: nat)
    requires Ring(ring, base) && 0 < n <= |ring|
    ensures FreeSet(ring, n - 1) !! Interval(ring[n - 1].addr, Room(ring, n - 1))
  {
    hide Interval, FreeSet;
    var last := Interval(ring[n - 1].addr, Room(ring, n - 1));
    forall u | u in FreeSet(ring, n - 1) ensures u !in last {
      FreeSetHas(ring, n - 1, u);
      var k :| 0 <= k < n - 1 && ring[k].Has(u);
      assert ring[k].addr + ring[k].size < ring[n - 1].addr;
    }
  }

  lemma {:induction false} FreeCount(ring: seq<Chunk>, base: nat, n: nat)
    requires Ring(ring, base) && n <= |ring|
    ensures |FreeSet(ring, n)| == FreeTotal(ring, n)
  {
    hide Interval, Ring;
    if n > 0 {
      FreeCount(ring, base, n - 1);
      LastApart(ring, base, n);
    }
  }

  lemma {:induction false} LiveCount(live: map<nat, nat>, core: set<nat>)
    requires Apart(live) && forall u :: u in core <==> 0 <= u && InLive(live, u)
    ensures |core| == LiveTotal(live)
  {
    hide Apart;
    if live == map[] {
      assert forall u :: !InLive(live, u);
      assert core == {};
    } else {
      var a :| a in live && LiveTotal(live) == live[a] + LiveTotal(live - {a});
      var units := Interval(a, a + live[a]);
      forall u | u in units ensures u in core {
        assert LiveHas(live, a, u);
      }
      forall u ensures u in core - units <==> 0 <= u && InLive(live - {a}, u) {
        LiveWithout(live, a, u);
      }
      ApartWithout(live, a);
      LiveCount(live - {a}, core - units);
      assert core == core - units + units;
    }
  }

  /** Free units and live units are all the units obtained from sbrk. */
  lemma Conserved(mem: Memory, ring: seq<Chunk>, live: map<nat, nat>, core: set<nat>, base: nat)
    requires HeapOk(mem, ring, live, core, base)
    ensures FreeTotal(ring, |ring|) + LiveTotal(live) == |core|
  {
    TilesCount(ring, live, core, base);
  }

  lemma TilesCount(ring: seq<Chunk>, live: map<nat, nat>, core: set<nat>, base: nat)
    requires Ring(ring, base) && Tiled(ring, live, core)
    ensures FreeTotal(ring, |ring|) + LiveTotal(live) == |core|
  {
    hide Ring, Tiled, Apart, InLive, FreeSet, FreeTotal, LiveTotal;
    var free := FreeSet(ring, |ring|);
    FreeCount(ring, base, |ring|);
    FreeUnits(ring, live, core);
    LiveCount(live, core - free);
    assert core == free + (core - free);
  }

  lemma FreeUnits(ring: seq<Chunk>, live: map<nat, nat>, core: set<nat>)
    requires Tiled(ring, live, core)
    ensures FreeSet(ring, |ring|) <= core && Apart(live)
    ensures forall u :: u in core - FreeSet(ring, |ring|) <==> 0 <= u && InLive(live, u)
  {
    hide Apart;
    var free := FreeSet(ring, |ring|);
    forall u: nat ensures u in free <==> InFree(ring, u) {
      FreeSetHas(ring, |ring|, u);
    }
  }
}
