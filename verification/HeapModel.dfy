/** The heap of umalloc.c as a value: memory in units of one header, its free ring, its live blocks. */
module HeapModel {
  import opened Collections
  import opened Param
  import opened FreeRing

  import PageTable

  /** A unit of memory seen as a header; in the middle of a block it is a caller's data. */
  datatype Header = Header(ptr: nat, size: nat)

  /** The end of user memory, in units. */
  const LIMIT: nat := PageTable.KERNBASE / 8

  /** How many units there are addresses for. */
  const SPACE: nat := 0x2000_0000

  /** Pointer arithmetic, which is in 32 bits. */
  function Address(u: nat): nat {
    u % SPACE
  }

  lemma SameAddress(u: nat)
    requires u < SPACE
    ensures Address(u) == u
  {}

  type Memory = map<nat, Header>

  ghost predicate LinkAt(mem: Memory, ring: seq<Chunk>, k: nat)
    requires k < |ring|
  {
    ring[k].addr in mem && mem[ring[k].addr] == Header(ring[After(k, |ring|)].addr, ring[k].size)
  }

  /** The headers of the chunks link them into a ring. */
  ghost predicate Linked(mem: Memory, ring: seq<Chunk>) {
    forall k :: 0 <= k < |ring| ==> LinkAt(mem, ring, k)
  }

  ghost predicate LiveHas(live: map<nat, nat>, a: nat, u: int) {
    a in live && a <= u < a + live[a]
  }

  ghost predicate InLive(live: map<nat, nat>, u: int) {
    exists a :: LiveHas(live, a, u)
  }

  ghost predicate Apart(live: map<nat, nat>) {
    && (forall a :: a in live ==> live[a] > 0)
    && forall a, c, u :: LiveHas(live, a, u) && LiveHas(live, c, u) ==> a == c
  }

  /** Every unit ever obtained from sbrk lies in exactly one free chunk or live block. */
  ghost predicate Tiled(ring: seq<Chunk>, live: map<nat, nat>, core: set<nat>) {
    && (forall u :: 0 <= u ==> (u in core <==> InFree(ring, u) || InLive(live, u)))
    && (forall u :: !(InFree(ring, u) && InLive(live, u)))
    && Apart(live)
  }

  /** A live block's header still says how large it is. */
  ghost predicate Headed(mem: Memory, live: map<nat, nat>) {
    forall a :: a in live ==> a in mem && mem[a].size == live[a]
  }

  ghost predicate HeapOk(mem: Memory, ring: seq<Chunk>, live: map<nat, nat>, core: set<nat>, base: nat) {
    && Ring(ring, base) && Linked(mem, ring) && Tiled(ring, live, core) && Headed(mem, live)
    && base in mem && forall u :: u in core ==> base < u
  }

  /** No unit of a live block has changed. */
  ghost predicate LiveKept(mem: Memory, mem': Memory, live: map<nat, nat>) {
    forall u :: u in mem && InLive(live, u) ==> u in mem' && mem'[u] == mem[u]
  }

  // ----------------------------------------------------------------- free

  lemma LiveApart(mem: Memory, ring: seq<Chunk>, live: map<nat, nat>, core: set<nat>, base: nat, bp: nat)
    requires HeapOk(mem, ring, live, core, base) && bp in live
    ensures base < bp && Clear(ring, Chunk(bp, live[bp]))
    ensures forall j :: 0 <= j < |ring| ==> ring[j].addr != bp
  {
    var b := Chunk(bp, live[bp]);
    forall u | b.Has(u) ensures !InFree(ring, u) && u in core {
      assert LiveHas(live, bp, u);
    }
    assert b.Has(bp) && b.Has(bp + live[bp] - 1);
    forall j | 0 <= j < |ring| ensures ring[j].addr != bp {
      if j > 0 {
        assert ring[j].Has(ring[j].addr);
      }
    }
  }

  /** In 32-bit pointer arithmetic too, b ends where the chunk after chunk k starts only if it does. */
  ghost predicate Straight(ring: seq<Chunk>, k: nat, b: Chunk)
    requires k < |ring|
  {
    && b.addr < SPACE
    && (ring[After(k, |ring|)].addr == Address(b.addr + b.size) <==> ring[After(k, |ring|)].addr == b.addr + b.size)
  }

  lemma BelowLimit(mem: Memory, ring: seq<Chunk>, live: map<nat, nat>, core: set<nat>, base: nat, bp: nat, k: nat)
    requires HeapOk(mem, ring, live, core, base) && bp in live && k < |ring| && forall u :: u in core ==> u < LIMIT
    ensures Straight(ring, k, Chunk(bp, live[bp]))
  {
    hide Ring, Linked, Headed, InFree, InLive, Address;
    LiveUnit(ring, live, core, bp, bp + live[bp] - 1);
    SameAddress(bp + live[bp]);
  }

  lemma LiveUnit(ring: seq<Chunk>, live: map<nat, nat>, core: set<nat>, bp: nat, u: int)
    requires Tiled(ring, live, core) && bp in live
    ensures live[bp] > 0 && (bp <= u < bp + live[bp] ==> u in core)
  {
    hide InFree;
    if bp <= u < bp + live[bp] {
      assert LiveHas(live, bp, u);
    }
  }

  /** What free has written when it is done. */
  function FreedMemory(mem: Memory, p: nat, bp: nat): Memory
    requires p in mem && bp in mem && mem[p].ptr in mem
  {
    var next := mem[p].ptr;
    var b := if Address(bp + mem[bp].size) == next then Header(mem[next].ptr, mem[bp].size + mem[next].size)
             else Header(next, mem[bp].size);
    var m := mem[bp := b];
    m[p := if Address(p + m[p].size) == bp then Header(b.ptr, m[p].size + b.size) else Header(bp, m[p].size)]
  }

  /** The header of a chunk that replaces some others, and of the one before it. */
  lemma ReplacedLinked(mem: Memory, mem': Memory, ring: seq<Chunk>, base: nat, lo: nat, hi: nat, c: Chunk)
    requires Ring(ring, base) && Linked(mem, ring) && 1 <= lo <= hi <= |ring|
    requires c.addr in mem' && mem'[c.addr] == Header(if hi < |ring| then ring[hi].addr else base, c.size)
    requires ring[lo - 1].addr in mem' && mem'[ring[lo - 1].addr] == Header(c.addr, ring[lo - 1].size)
    requires forall i :: (0 <= i < lo - 1 || hi <= i < |ring|) ==> ring[i].addr in mem && ring[i].addr in mem' && mem'[ring[i].addr] == mem[ring[i].addr]
    ensures Linked(mem', Replaced(ring, lo, hi, c))
  {
    var r := Replaced(ring, lo, hi, c);
    forall j | 0 <= j < |r| ensures LinkAt(mem', r, j) {
      if j < lo - 1 {
        assert LinkAt(mem, ring, j);
      } else if j > lo {
        assert r[j] == ring[j - lo - 1 + hi];
        assert LinkAt(mem, ring, j - lo - 1 + hi);
      }
    }
  }

  lemma Distinct(ring: seq<Chunk>, base: nat, i: nat, j: nat)
    requires Ring(ring, base) && i < |ring| && j < |ring| && i != j
    ensures ring[i].addr != ring[j].addr
  {
    if i < j {
      assert ring[i].addr + ring[i].size < ring[j].addr;
    } else {
      assert ring[j].addr + ring[j].size < ring[i].addr;
    }
  }

  lemma NotInRing(ring: seq<Chunk>, base: nat, b: Chunk)
    requires Ring(ring, base) && Clear(ring, b) && b.size > 0 && base < b.addr
    ensures forall i :: 0 <= i < |ring| ==> ring[i].addr != b.addr
  {
    assert b.Has(b.addr);
    forall i | 0 <= i < |ring| ensures ring[i].addr != b.addr {
      if i > 0 {
        assert ring[i].Has(ring[i].addr);
      }
    }
  }

  lemma FreedLinked(mem: Memory, ring: seq<Chunk>, base: nat, b: Chunk, k: nat)
    requires Ring(ring, base) && Linked(mem, ring) && Precedes(ring, k, b.addr) && Clear(ring, b) && b.size > 0 && base < b.addr
    requires b.addr in mem && mem[b.addr].size == b.size
    requires k < |ring| && Straight(ring, k, b)
    ensures LinkAt(mem, ring, k) && LinkAt(mem, ring, After(k, |ring|))
    ensures Linked(FreedMemory(mem, ring[k].addr, b.addr), Inserted(ring, k, b))
  {
    assert LinkAt(mem, ring, k) && LinkAt(mem, ring, After(k, |ring|));
    var mem' := FreedMemory(mem, ring[k].addr, b.addr);
    var lo, hi, c := Low(ring, k, b), High(ring, k, b), Merged(ring, k, b);
    NotInRing(ring, base, b);
    forall i | (0 <= i < lo - 1 || hi <= i < |ring|)
      ensures ring[i].addr in mem && ring[i].addr in mem' && mem'[ring[i].addr] == mem[ring[i].addr]
    {
      Distinct(ring, base, i, k);
      assert LinkAt(mem, ring, i);
    }
    Fits(ring, base, b, k);
    FreedHeaders(mem, ring, base, b, k);
    ReplacedLinked(mem, mem', ring, base, lo, hi, c);
  }

  lemma LinkOf(mem: Memory, ring: seq<Chunk>, k: nat)
    requires Linked(mem, ring) && k < |ring|
    ensures LinkAt(mem, ring, k)
  {}

  lemma PrecedesIn(ring: seq<Chunk>, k: nat, a: nat)
    requires Precedes(ring, k, a)
    ensures k < |ring|
  {}

  lemma FreedHeaders(mem: Memory, ring: seq<Chunk>, base: nat, b: Chunk, k: nat)
    requires Ring(ring, base) && Linked(mem, ring) && Precedes(ring, k, b.addr) && Clear(ring, b) && b.size > 0 && base < b.addr
    requires b.addr in mem && mem[b.addr].size == b.size
    requires k < |ring| && Straight(ring, k, b) && Room(ring, k) <= b.addr
    requires LinkAt(mem, ring, k) && LinkAt(mem, ring, After(k, |ring|)) && forall i :: 0 <= i < |ring| ==> ring[i].addr != b.addr
    ensures var mem' := FreedMemory(mem, ring[k].addr, b.addr);
            var lo, hi, c := Low(ring, k, b), High(ring, k, b), Merged(ring, k, b);
            && 1 <= lo <= hi <= |ring|
            && c.addr in mem' && mem'[c.addr] == Header(if hi < |ring| then ring[hi].addr else base, c.size)
            && ring[lo - 1].addr in mem' && mem'[ring[lo - 1].addr] == Header(c.addr, ring[lo - 1].size)
  {
    hide Ring, Linked, Clear, Precedes, After, Address;
    PrecedesIn(ring, k, b.addr);
    AfterAddr(ring, base, k);
    SameAddress(Room(ring, k));
    if JoinsRight(ring, k, b) {
      LinkOf(mem, ring, k + 1);
      AfterAddr(ring, base, k + 1);
    }
    if JoinsLeft(ring, k, b) {
      LeftNotFirst(ring, base, k, b);
      LinkOf(mem, ring, k - 1);
      AfterAddr(ring, base, k - 1);
      Distinct(ring, base, k - 1, k);
    }
  }

  lemma AfterAddr(ring: seq<Chunk>, base: nat, k: nat)
    requires Ring(ring, base) && k < |ring|
    ensures After(k, |ring|) < |ring| && ring[After(k, |ring|)].addr == if k + 1 < |ring| then ring[k + 1].addr else base
  {}

  lemma LeftNotFirst(ring: seq<Chunk>, base: nat, k: nat, b: Chunk)
    requires Ring(ring, base) && k < |ring| && JoinsLeft(ring, k, b) && base < b.addr
    ensures k > 0
  {}

  lemma FreedTiled(ring: seq<Chunk>, live: map<nat, nat>, core: set<nat>, base: nat, bp: nat, k: nat)
    requires Ring(ring, base) && Tiled(ring, live, core) && bp in live && live[bp] > 0
    requires Clear(ring, Chunk(bp, live[bp])) && Precedes(ring, k, bp)
    ensures Tiled(Inserted(ring, k, Chunk(bp, live[bp])), live - {bp}, core)
    ensures forall u :: InLive(live - {bp}, u) ==> InLive(live, u) && !Chunk(bp, live[bp]).Has(u)
  {
    var b := Chunk(bp, live[bp]);
    var r, live' := Inserted(ring, k, b), live - {bp};
    ApartWithout(live, bp);
    forall u ensures InFree(r, u) <==> InFree(ring, u) || b.Has(u) {
      InsertedUnits(ring, base, b, k, u);
    }
    forall u ensures InLive(live', u) <==> InLive(live, u) && !b.Has(u) {
      LiveWithout(live, bp, u);
    }
    forall u | 0 <= u ensures u in core <==> InFree(r, u) || InLive(live', u) {
      if b.Has(u) {
        assert LiveHas(live, bp, u);
      }
    }
  }

  lemma LiveWithout(live: map<nat, nat>, bp: nat, u: int)
    requires bp in live && Apart(live)
    ensures InLive(live - {bp}, u) <==> InLive(live, u) && !Chunk(bp, live[bp]).Has(u)
  {
    if InLive(live, u) {
      var a :| LiveHas(live, a, u);
      if a != bp {
        assert LiveHas(live - {bp}, a, u);
        assert !LiveHas(live, bp, u);
      }
    }
    if InLive(live - {bp}, u) {
      var a :| LiveHas(live - {bp}, a, u);
      assert LiveHas(live, a, u);
      assert !LiveHas(live, bp, u);
    }
  }

  lemma ApartWithout(live: map<nat, nat>, bp: nat)
    requires Apart(live)
    ensures Apart(live - {bp})
  {
    forall a, c, u | LiveHas(live - {bp}, a, u) && LiveHas(live - {bp}, c, u) ensures a == c {
      assert LiveHas(live, a, u) && LiveHas(live, c, u);
    }
  }

  lemma ApartWith(live: map<nat, nat>, b: Chunk)
    requires Apart(live) && b.size > 0 && b.addr !in live && forall u :: b.Has(u) ==> !InLive(live, u)
    ensures Apart(live[b.addr := b.size])
  {
    var live' := live[b.addr := b.size];
    forall a, c, u | LiveHas(live', a, u) && LiveHas(live', c, u) ensures a == c {
      assert if a == b.addr then b.Has(u) else LiveHas(live, a, u);
      assert if c == b.addr then b.Has(u) else LiveHas(live, c, u);
    }
  }

  /** Giving a live block back keeps the heap and every other block. */
  lemma FreeKeeps(mem: Memory, ring: seq<Chunk>, live: map<nat, nat>, core: set<nat>, base: nat, bp: nat, k: nat)
    requires HeapOk(mem, ring, live, core, base) && bp in live && Precedes(ring, k, bp) && Straight(ring, k, Chunk(bp, live[bp]))
    ensures LinkAt(mem, ring, k) && LinkAt(mem, ring, After(k, |ring|)) && Clear(ring, Chunk(bp, live[bp]))
    ensures var mem' := FreedMemory(mem, ring[k].addr, bp);
            && HeapOk(mem', Inserted(ring, k, Chunk(bp, live[bp])), live - {bp}, core, base)
            && LiveKept(mem, mem', live - {bp})
  {
    var b := Chunk(bp, live[bp]);
    LiveApart(mem, ring, live, core, base, bp);
    FreedLinked(mem, ring, base, b, k);
    InsertedRing(ring, base, b, k);
    FreedTiled(ring, live, core, base, bp, k);
    var mem' := FreedMemory(mem, ring[k].addr, bp);
    forall u | InLive(live - {bp}, u) ensures u != bp && u != ring[k].addr {
      assert InLive(live, u);
      if k > 0 {
        assert ring[k].Has(ring[k].addr);
      } else {
        InLiveAbove(mem, ring, live, core, base, u);
      }
    }
    forall a | a in live - {bp} ensures a in mem' && mem'[a].size == live[a] {
      assert (live - {bp})[a] == live[a] > 0;
      assert LiveHas(live - {bp}, a, a);
      assert InLive(live - {bp}, a);
      assert a in mem && mem[a].size == live[a];
    }
  }

  lemma InLiveAbove(mem: Memory, ring: seq<Chunk>, live: map<nat, nat>, core: set<nat>, base: nat, u: int)
    requires HeapOk(mem, ring, live, core, base) && InLive(live, u)
    ensures u > base
  {
    assert u in core;
  }

  // --------------------------------------------------------------- malloc

  /** What malloc has written once it has found a chunk at p behind prevp. */
  function TakenMemory(mem: Memory, prevp: nat, p: nat, nunits: nat): Memory
    requires p in mem && prevp in mem && nunits <= mem[p].size
    requires mem[p].size > nunits ==> p + mem[p].size - nunits in mem
  {
    if mem[p].size == nunits then mem[prevp := mem[prevp].(ptr := mem[p].ptr)]
    else
      var m := mem[p := mem[p].(size := mem[p].size - nunits)];
      m[p + m[p].size := m[p + m[p].size].(size := nunits)]
  }

  lemma TakenWrites(mem: Memory, prevp: nat, p: nat, nunits: nat)
    requires p in mem && prevp in mem && prevp != p && nunits <= mem[p].size && p + mem[p].size - nunits in mem
    requires p + mem[p].size - nunits != prevp
    ensures var mem' := TakenMemory(mem, prevp, p, nunits);
            && mem'.Keys == mem.Keys && mem'[p + mem[p].size - nunits].size == nunits
            && forall u :: u in mem && u != prevp && u != p && u != p + mem[p].size - nunits ==> mem'[u] == mem[u]
  {}

  lemma TakenLinked(mem: Memory, ring: seq<Chunk>, base: nat, j: nat, nunits: nat)
    requires Ring(ring, base) && Linked(mem, ring) && 0 < j < |ring| && 0 < nunits <= ring[j].size
    requires TakenAt(ring, j, nunits).addr in mem
    ensures LinkAt(mem, ring, j - 1) && LinkAt(mem, ring, j)
    ensures Linked(TakenMemory(mem, ring[j - 1].addr, ring[j].addr, nunits), Taken(ring, j, nunits))
  {
    assert LinkAt(mem, ring, j - 1) && LinkAt(mem, ring, j);
    var mem' := TakenMemory(mem, ring[j - 1].addr, ring[j].addr, nunits);
    if ring[j].size == nunits {
      WholeLinked(mem, mem', ring, base, j);
    } else {
      var b := TakenAt(ring, j, nunits);
      forall i | 0 <= i < |ring| && i != j
        ensures ring[i].addr in mem && ring[i].addr in mem' && mem'[ring[i].addr] == mem[ring[i].addr]
      {
        assert LinkAt(mem, ring, i);
        Distinct(ring, base, i, j);
        if i > j {
          assert ring[j].addr + ring[j].size < ring[i].addr;
        }
      }
      var c := Chunk(ring[j].addr, ring[j].size - nunits);
      ReplacedLinked(mem, mem', ring, base, j, j + 1, c);
      assert Taken(ring, j, nunits) == Replaced(ring, j, j + 1, c);
    }
  }

  lemma WholeLinked(mem: Memory, mem': Memory, ring: seq<Chunk>, base: nat, j: nat)
    requires Ring(ring, base) && Linked(mem, ring) && 0 < j < |ring| && LinkAt(mem, ring, j - 1) && LinkAt(mem, ring, j)
    requires mem' == mem[ring[j - 1].addr := mem[ring[j - 1].addr].(ptr := mem[ring[j].addr].ptr)]
    ensures Linked(mem', ring[..j] + ring[j + 1..])
  {
    hide Ring;
    var r := ring[..j] + ring[j + 1..];
    forall i | 0 <= i < |r| ensures LinkAt(mem', r, i) {
      var i' := if i >= j then i + 1 else i;
      assert LinkAt(mem, ring, i');
      if i' != j - 1 {
        Distinct(ring, base, i', j - 1);
      }
    }
  }

  lemma TakenTiled(ring: seq<Chunk>, live: map<nat, nat>, core: set<nat>, base: nat, j: nat, nunits: nat)
    requires Ring(ring, base) && Tiled(ring, live, core) && 0 < j < |ring| && 0 < nunits <= ring[j].size
    ensures var b := TakenAt(ring, j, nunits);
            && b.addr !in live && Tiled(Taken(ring, j, nunits), live[b.addr := nunits], core)
            && (forall u :: b.Has(u) ==> InFree(ring, u))
  {
    var b := TakenAt(ring, j, nunits);
    var r, live' := Taken(ring, j, nunits), live[b.addr := nunits];
    forall u | b.Has(u) ensures InFree(ring, u) {
      assert ring[j].Has(u);
    }
    assert b.Has(b.addr);
    assert b.addr !in live || LiveHas(live, b.addr, b.addr);
    ApartWith(live, b);
    forall u ensures InFree(r, u) <==> InFree(ring, u) && !b.Has(u) {
      TakenUnits(ring, base, j, nunits, u);
    }
    forall u ensures InLive(live', u) <==> InLive(live, u) || b.Has(u) {
      LiveWith(live, b, u);
    }
  }

  lemma LiveWith(live: map<nat, nat>, b: Chunk, u: int)
    requires b.addr !in live
    ensures InLive(live[b.addr := b.size], u) <==> InLive(live, u) || b.Has(u)
  {
    var live' := live[b.addr := b.size];
    if InLive(live, u) {
      var a :| LiveHas(live, a, u);
      assert LiveHas(live', a, u);
    }
    if b.Has(u) {
      assert LiveHas(live', b.addr, u);
    }
    if InLive(live', u) {
      var a :| LiveHas(live', a, u);
      assert a != b.addr ==> LiveHas(live, a, u);
    }
  }

  /** No live unit is one that malloc writes. */
  lemma TakeApart(mem: Memory, ring: seq<Chunk>, live: map<nat, nat>, core: set<nat>, base: nat, j: nat, nunits: nat, u: int)
    requires HeapOk(mem, ring, live, core, base) && 0 < j < |ring| && 0 < nunits <= ring[j].size && InLive(live, u)
    ensures u != TakenAt(ring, j, nunits).addr && u != ring[j - 1].addr && u != ring[j].addr
  {
    InLiveAbove(mem, ring, live, core, base, u);
    assert ring[j].Has(ring[j].addr) && ring[j].Has(TakenAt(ring, j, nunits).addr);
    if j > 1 {
      assert ring[j - 1].Has(ring[j - 1].addr);
    }
  }

  /** Taking a block whose first unit is there keeps the heap and every other block, and the block was
      free. */
  lemma TakeKeeps(mem: Memory, ring: seq<Chunk>, live: map<nat, nat>, core: set<nat>, base: nat, j: nat, nunits: nat)
    requires HeapOk(mem, ring, live, core, base) && 0 < j < |ring| && 0 < nunits <= ring[j].size
    requires TakenAt(ring, j, nunits).addr in mem
    ensures LinkAt(mem, ring, j - 1) && LinkAt(mem, ring, j)
    ensures var b := TakenAt(ring, j, nunits);
            && b.addr !in live && b.addr > base
            && var mem' := TakenMemory(mem, ring[j - 1].addr, ring[j].addr, nunits);
            && HeapOk(mem', Taken(ring, j, nunits), live[b.addr := nunits], core, base)
            && LiveKept(mem, mem', live)
  {
    hide Linked, TakenMemory, Taken, Tiled, InLive;
    var b := TakenAt(ring, j, nunits);
    TakenTiled(ring, live, core, base, j, nunits);
    TakenInCore(mem, ring, live, core, base, j, nunits);
    TakenLinked(mem, ring, base, j, nunits);
    TakenRing(ring, base, j, nunits);
    Distinct(ring, base, j - 1, j);
    assert ring[j - 1].addr + ring[j - 1].size < ring[j].addr;
    TakenWrites(mem, ring[j - 1].addr, ring[j].addr, nunits);
    TakenLive(mem, ring, live, core, base, j, nunits);
  }

  lemma TakenInCore(mem: Memory, ring: seq<Chunk>, live: map<nat, nat>, core: set<nat>, base: nat, j: nat, nunits: nat)
    requires HeapOk(mem, ring, live, core, base) && 0 < j < |ring| && 0 < nunits <= ring[j].size
    ensures TakenAt(ring, j, nunits).addr in core
  {
    assert ring[j].Has(TakenAt(ring, j, nunits).addr);
  }

  lemma TakenLive(mem: Memory, ring: seq<Chunk>, live: map<nat, nat>, core: set<nat>, base: nat, j: nat, nunits: nat)
    requires HeapOk(mem, ring, live, core, base) && 0 < j < |ring| && 0 < nunits <= ring[j].size
    requires LinkAt(mem, ring, j - 1) && LinkAt(mem, ring, j) && TakenAt(ring, j, nunits).addr in mem
    ensures var mem' := TakenMemory(mem, ring[j - 1].addr, ring[j].addr, nunits);
            LiveKept(mem, mem', live) && Headed(mem', live)
  {
    hide Linked, TakenMemory, Ring, Tiled;
    Distinct(ring, base, j - 1, j);
    TakenAfter(ring, base, j, nunits);
    TakenWrites(mem, ring[j - 1].addr, ring[j].addr, nunits);
    var mem' := TakenMemory(mem, ring[j - 1].addr, ring[j].addr, nunits);
    forall u | u in mem && InLive(live, u) ensures u in mem' && mem'[u] == mem[u] {
      TakeApart(mem, ring, live, core, base, j, nunits, u);
    }
    TiledApart(ring, live, core);
    forall a | a in live ensures a in mem' && mem'[a].size == live[a] {
      assert LiveHas(live, a, a);
      assert InLive(live, a);
    }
  }

  lemma TakenAfter(ring: seq<Chunk>, base: nat, j: nat, nunits: nat)
    requires Ring(ring, base) && 0 < j < |ring| && 0 < nunits <= ring[j].size
    ensures ring[j - 1].addr < TakenAt(ring, j, nunits).addr
  {
    assert ring[j - 1].addr + ring[j - 1].size < ring[j].addr;
  }

  lemma TiledApart(ring: seq<Chunk>, live: map<nat, nat>, core: set<nat>)
    requires Tiled(ring, live, core)
    ensures Apart(live)
  {}

  // ------------------------------------------------------------- morecore

  /** A new block of units that were in no other. */
  lemma GrowTiled(ring: seq<Chunk>, live: map<nat, nat>, core: set<nat>, b: Chunk)
    requires Tiled(ring, live, core) && b.size > 0 && forall u :: b.Has(u) ==> u !in core
    ensures b.addr !in live && Tiled(ring, live[b.addr := b.size], core + Interval(b.addr, b.addr + b.size))
  {
    hide InFree, InLive, Apart;
    assert b.Has(b.addr);
    NewBlock(ring, live, core, b);
    ApartWith(live, b);
    forall u ensures InLive(live[b.addr := b.size], u) <==> InLive(live, u) || b.Has(u) {
      LiveWith(live, b, u);
    }
  }

  lemma NewBlock(ring: seq<Chunk>, live: map<nat, nat>, core: set<nat>, b: Chunk)
    requires Tiled(ring, live, core) && b.size > 0 && forall u :: b.Has(u) ==> u !in core
    ensures b.addr !in live && forall u :: b.Has(u) ==> !InFree(ring, u) && !InLive(live, u)
  {
    hide InFree;
    assert b.Has(b.addr);
    forall u | b.Has(u) ensures !InFree(ring, u) && !InLive(live, u) {
      assert u !in core;
    }
    assert b.addr in live ==> LiveHas(live, b.addr, b.addr);
  }

  /** More memory, with the old as it was. */
  lemma ExtendKeeps(mem: Memory, mem': Memory, ring: seq<Chunk>, live: map<nat, nat>, core: set<nat>, base: nat)
    requires HeapOk(mem, ring, live, core, base) && forall u :: u in mem ==> u in mem' && mem'[u] == mem[u]
    ensures HeapOk(mem', ring, live, core, base) && LiveKept(mem, mem', live)
  {
    hide Ring, Tiled, InLive;
    forall k | 0 <= k < |ring| ensures LinkAt(mem', ring, k) {
      assert LinkAt(mem, ring, k);
    }
  }

  /** morecore's new block, with its size in its header, counts as live until it is freed. */
  lemma GrowKeeps(mem: Memory, ring: seq<Chunk>, live: map<nat, nat>, core: set<nat>, base: nat, b: Chunk)
    requires HeapOk(mem, ring, live, core, base) && b.size > 0 && b.addr in mem && base < b.addr
    requires forall u :: b.Has(u) ==> u !in core
    ensures b.addr !in live
    ensures var mem' := mem[b.addr := mem[b.addr].(size := b.size)];
            && HeapOk(mem', ring, live[b.addr := b.size], core + Interval(b.addr, b.addr + b.size), base)
            && LiveKept(mem, mem', live)
  {
    hide Ring, Linked, Tiled, InLive, InFree, Apart;
    GrowTiled(ring, live, core, b);
    NewUnit(ring, live, core, base, b);
    StoredLinked(mem, ring, b.addr, mem[b.addr].(size := b.size));
  }

  lemma StoredLinked(mem: Memory, ring: seq<Chunk>, a: nat, h: Header)
    requires Linked(mem, ring) && forall k :: 0 <= k < |ring| ==> ring[k].addr != a
    ensures Linked(mem[a := h], ring)
  {
    var mem' := mem[a := h];
    forall k | 0 <= k < |ring| ensures LinkAt(mem', ring, k) {
      assert LinkAt(mem, ring, k);
    }
  }

  lemma NewUnit(ring: seq<Chunk>, live: map<nat, nat>, core: set<nat>, base: nat, b: Chunk)
    requires Ring(ring, base) && Tiled(ring, live, core) && b.addr !in core && base < b.addr
    ensures !InLive(live, b.addr) && forall k :: 0 <= k < |ring| ==> ring[k].addr != b.addr
  {
    forall k | 0 <= k < |ring| ensures ring[k].addr != b.addr {
      if k > 0 {
        assert ring[k].Has(ring[k].addr);
      }
    }
  }

  /** And without that block the rest is a heap still. */
  lemma Forgotten(mem: Memory, ring: seq<Chunk>, live: map<nat, nat>, core: set<nat>, base: nat, b: Chunk)
    requires b.addr !in live && b.size > 0 && forall u :: b.Has(u) ==> u !in core
    requires HeapOk(mem, ring, live[b.addr := b.size], core + Interval(b.addr, b.addr + b.size), base)
    ensures HeapOk(mem, ring, live, core, base)
  {
    hide Ring, Linked, InLive, InFree, Apart;
    var live' := live[b.addr := b.size];
    assert live' - {b.addr} == live;
    ApartWithout(live', b.addr);
    forall u ensures InLive(live, u) <==> InLive(live', u) && !b.Has(u) {
      LiveWithout(live', b.addr, u);
    }
    forall u | b.Has(u) ensures InLive(live', u) {
      LiveWith(live, b, u);
    }
    forall a | a in live ensures a in mem && mem[a].size == live[a] {
      assert live'[a] == live[a];
    }
  }

  // ------------------------------------------------- what the code relies on

  /** The header of a chunk, and where it leads. */
  lemma HeaderAt(mem: Memory, ring: seq<Chunk>, live: map<nat, nat>, core: set<nat>, base: nat, j: nat)
    requires HeapOk(mem, ring, live, core, base) && j < |ring|
    ensures After(j, |ring|) < |ring| && ring[j].addr in mem && base <= ring[j].addr
    ensures mem[ring[j].addr] == Header(ring[After(j, |ring|)].addr, ring[j].size)
  {
    assert LinkAt(mem, ring, j);
  }

  /** A live block has a place in the ring, and the headers that free will change are there. */
  lemma FreePlace(mem: Memory, ring: seq<Chunk>, live: map<nat, nat>, core: set<nat>, base: nat, bp: nat) returns (k: nat)
    requires HeapOk(mem, ring, live, core, base) && bp in live
    ensures Precedes(ring, k, bp) && bp in mem && ring[k].addr in mem && ring[k].addr != bp && mem[ring[k].addr].ptr in mem
    ensures ring[k].addr >= base && Inserted(ring, k, Chunk(bp, live[bp]))[k].addr == ring[k].addr
    ensures k < |Inserted(ring, k, Chunk(bp, live[bp]))|
  {
    LiveApart(mem, ring, live, core, base, bp);
    k := Position(ring, base, bp, |ring|);
    HeaderAt(mem, ring, live, core, base, k);
    HeaderAt(mem, ring, live, core, base, After(k, |ring|));
  }

  lemma FreedUnits(mem: Memory, ring: seq<Chunk>, live: map<nat, nat>, core: set<nat>, base: nat, bp: nat, k: nat)
    requires HeapOk(mem, ring, live, core, base) && bp in live && Precedes(ring, k, bp)
    ensures forall u :: InFree(Inserted(ring, k, Chunk(bp, live[bp])), u) <==> InFree(ring, u) || Chunk(bp, live[bp]).Has(u)
  {
    var b := Chunk(bp, live[bp]);
    LiveApart(mem, ring, live, core, base, bp);
    forall u ensures InFree(Inserted(ring, k, b), u) <==> InFree(ring, u) || b.Has(u) {
      InsertedUnits(ring, base, b, k, u);
    }
  }

  lemma KeptTwice(a: Memory, b: Memory, c: Memory, live: map<nat, nat>)
    requires LiveKept(a, b, live) && LiveKept(b, c, live)
    ensures LiveKept(a, c, live)
  {}

  lemma KeptSelf(a: Memory, live: map<nat, nat>)
    ensures LiveKept(a, a, live)
  {}

  lemma KeptNone(a: Memory, b: Memory)
    ensures LiveKept(a, b, map[])
  {
    assert forall u :: !InLive(map[], u);
  }

  lemma BaseIn(mem: Memory, ring: seq<Chunk>, live: map<nat, nat>, core: set<nat>, base: nat)
    requires HeapOk(mem, ring, live, core, base)
    ensures base in mem
  {}
}
