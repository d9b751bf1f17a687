/** What the virtual memory operations do to the trees of page tables, as relations between two
    states: the effect of each store, and what it leaves alone. */
module VmModel {
  import opened Collections
  import opened Param
  import opened PageTable

  /** Physical memory, the free list, and what each page in use is for. */
  datatype Vm = Vm(mem: Pages, free: seq<nat>, owner: Owners)

  ghost predicate Ok(s: Vm, low: nat, high: nat) {
    VmOk(s.mem, s.free, s.owner, low, high)
  }

  ghost predicate Tree(s: Vm, r: nat) {
    IsRoot(s.owner, r) && r < |s.mem|
  }

  /** Virtual page v of tree r: the same entry, and for a user page the same contents. */
  ghost predicate SamePage(s: Vm, s': Vm, r: nat, v: nat)
    requires r < |s.mem| && r < |s'.mem| && v < VPAGES
  {
    var e := Pte(s.mem, r, v);
    && Pte(s'.mem, r, v) == e
    && (v < USERPAGES && Present(e) && Frame(e) < |s.mem| ==> Frame(e) < |s'.mem| && s'.mem[Frame(e)] == s.mem[Frame(e)])
  }

  ghost predicate SameSpace(s: Vm, s': Vm, r: nat)
    requires r < |s.mem| && r < |s'.mem|
  {
    forall v: nat :: v < VPAGES ==> SamePage(s, s', r, v)
  }

  /** Every tree outside roots is as it was, and so is every page held by the kernel outside pages. */
  ghost predicate Kept(s: Vm, s': Vm, roots: set<nat>, pages: set<nat>) {
    && |s'.mem| == |s.mem|
    && (forall q: nat :: Tree(s, q) && q !in roots ==> Tree(s', q) && SameSpace(s, s', q))
    && (forall p :: p in s.owner && s.owner[p] == Held && p !in pages && p < |s.mem| ==>
          p in s'.owner && s'.owner[p] == Held && s'.mem[p] == s.mem[p])
  }

  lemma KeptSelf(s: Vm)
    ensures Kept(s, s, {}, {})
  {}

  lemma KeptWider(s: Vm, s': Vm, roots: set<nat>, pages: set<nat>, roots': set<nat>, pages': set<nat>)
    requires Kept(s, s', roots, pages) && roots <= roots' && pages <= pages'
    ensures Kept(s, s', roots', pages')
  {}

  lemma SpaceTwice(s: Vm, t: Vm, u: Vm, r: nat)
    requires r < |s.mem| == |t.mem| == |u.mem| && SameSpace(s, t, r) && SameSpace(t, u, r)
    ensures SameSpace(s, u, r)
  {
    forall v: nat | v < VPAGES ensures SamePage(s, u, r, v) {
      assert SamePage(s, t, r, v) && SamePage(t, u, r, v);
    }
  }

  lemma KeptTwice(s: Vm, t: Vm, u: Vm, roots: set<nat>, pages: set<nat>)
    requires Kept(s, t, roots, pages) && Kept(t, u, roots, pages)
    ensures Kept(s, u, roots, pages)
  {
    forall q: nat | Tree(s, q) && q !in roots ensures Tree(u, q) && SameSpace(s, u, q) {
      SpaceTwice(s, t, u, q);
    }
  }

  /** A page that comes into being between s and t may change after that. */
  lemma KeptFresh(s: Vm, t: Vm, u: Vm, roots: set<nat>, p: nat)
    requires Kept(s, t, roots, {}) && p !in s.owner && Kept(t, u, roots, {p})
    ensures Kept(s, u, roots, {})
  {
    forall q: nat | Tree(s, q) && q !in roots ensures Tree(u, q) && SameSpace(s, u, q) {
      SpaceTwice(s, t, u, q);
    }
  }

  /** So may a tree. */
  lemma KeptFreshTree(s: Vm, t: Vm, u: Vm, r: nat)
    requires Kept(s, t, {}, {}) && !Tree(s, r) && Kept(t, u, {r}, {})
    ensures Kept(s, u, {}, {})
  {
    forall q: nat | Tree(s, q) ensures Tree(u, q) && SameSpace(s, u, q) {
      SpaceTwice(s, t, u, q);
    }
  }

  // --------------------------------------------------------- single stores

  /** kalloc: the first free page is held; its contents, not yet known, are now the caller's. */
  lemma TakeStep(s: Vm, low: nat, high: nat)
    requires Ok(s, low, high) && s.free != []
    ensures var p := s.free[0]; var s' := Vm(s.mem, s.free[1..], s.owner[p := Held]);
            low <= p < high <= |s.mem| && p !in s.owner && Ok(s', low, high) && Kept(s, s', {}, {})
  {
    var p := s.free[0];
    TakeFree(s.free, s.owner, low, high, Held);
    HeldKeeps(s.mem, s.owner, s.owner[p := Held], p);
  }

  /** kfree */
  lemma FreeStep(s: Vm, low: nat, high: nat, p: nat)
    requires Ok(s, low, high) && p in s.owner && s.owner[p] == Held
    ensures p < |s.mem|
    ensures var s' := Vm(s.mem[p := Junk()], [p] + s.free, s.owner - {p});
            Ok(s', low, high) && Kept(s, s', {}, {p})
  {
    GiveFree(s.free, s.owner, low, high, p);
    HeldKeeps(s.mem, s.owner, s.owner - {p}, p);
    PlainKeeps(s.mem, s.mem[p := Junk()], s.owner - {p});
    PlainSame(s, s.mem[p := Junk()], p);
    var s' := Vm(s.mem[p := Junk()], [p] + s.free, s.owner - {p});
    forall q: nat | Tree(s, q) ensures Tree(s', q) && SameSpace(s, s', q) {
      forall v: nat | v < VPAGES ensures SamePage(s, s', q, v) {
        assert SamePage(s, s.(mem := s.mem[p := Junk()]), q, v);
      }
    }
  }

  /** A store into a page held by the kernel changes no tree. */
  lemma PlainSame(s: Vm, mem': Pages, p: nat)
    requires Trees(s.mem, s.owner) && p in s.owner && s.owner[p] == Held && p < |s.mem|
    requires |mem'| == |s.mem| && forall q :: 0 <= q < |s.mem| && q != p ==> mem'[q] == s.mem[q]
    ensures Trees(mem', s.owner)
    ensures forall q: nat, v: nat :: Tree(s, q) && v < VPAGES ==> SamePage(s, s.(mem := mem'), q, v)
  {
    PlainKeeps(s.mem, mem', s.owner);
    forall q: nat, v: nat | Tree(s, q) && v < VPAGES ensures SamePage(s, s.(mem := mem'), q, v) {
      assert MapOk(s.mem, s.owner, q, v);
    }
  }

  lemma WriteStep(s: Vm, low: nat, high: nat, p: nat, data: Page)
    requires Ok(s, low, high) && p in s.owner && s.owner[p] == Held
    ensures p < |s.mem|
    ensures var s' := s.(mem := s.mem[p := data]);
            Ok(s', low, high) && Kept(s, s', {}, {p})
  {
    PlainSame(s, s.mem[p := data], p);
    var s' := s.(mem := s.mem[p := data]);
    forall q: nat | Tree(s, q) ensures Tree(s', q) && SameSpace(s, s', q) {}
  }

  /** A held page made the table behind a missing directory entry. */
  lemma TableStep(s: Vm, low: nat, high: nat, r: nat, d: nat, t: nat)
    requires Ok(s, low, high) && Tree(s, r) && d < ENTRIES && !Present(s.mem[r][d])
    requires t in s.owner && s.owner[t] == Held && t < |s.mem| && s.mem[t] == Zeros()
    ensures var s' := s.(mem := s.mem[r := s.mem[r][d := Entry(t, PTE_W + PTE_U)]], owner := s.owner[t := Table(r, d)]);
            Ok(s', low, high) && Tree(s', r) && Kept(s, s', {}, {t})
  {
    TableKeeps(s.mem, s.owner, r, d, t);
    var s' := s.(mem := s.mem[r := s.mem[r][d := Entry(t, PTE_W + PTE_U)]], owner := s.owner[t := Table(r, d)]);
    forall q: nat | Tree(s, q) ensures Tree(s', q) && SameSpace(s, s', q) {
      forall v: nat | v < VPAGES ensures SamePage(s, s', q, v) {
        assert MapOk(s.mem, s.owner, q, v);
      }
    }
  }

  /** Only the entry for v has changed in tree r, to e. */
  ghost predicate OneEntry(s: Vm, s': Vm, r: nat, v: nat, e: nat)
    requires r < |s.mem| && r < |s'.mem| && v < VPAGES
  {
    Pte(s'.mem, r, v) == e && forall w: nat :: w < VPAGES && w != v ==> SamePage(s, s', r, w)
  }

  /** The state after a store of e into the entry for v, with page p put to use u. */
  function Stored(s: Vm, r: nat, v: nat, e: nat, p: nat, u: Use): Vm
    requires r < |s.mem| && v < VPAGES && Frame(s.mem[r][v / ENTRIES]) < |s.mem|
  {
    var t := Frame(s.mem[r][v / ENTRIES]);
    s.(mem := s.mem[t := s.mem[t][v % ENTRIES := e]], owner := s.owner[p := u])
  }

  lemma StoredSame(s: Vm, r: nat, v: nat, e: nat, p: nat, u: Use)
    requires Trees(s.mem, s.owner) && Tree(s, r) && v < VPAGES && Present(s.mem[r][v / ENTRIES])
    requires p in s.owner && s.owner[p] != Root && !s.owner[p].Table? && u != Root
    ensures Frame(s.mem[r][v / ENTRIES]) < |s.mem|
    ensures var s' := Stored(s, r, v, e, p, u);
            Tree(s', r) && OneEntry(s, s', r, v, e) && Kept(s, s', {r}, {p})
  {
    PteStored(s.mem, s.owner, r, v, e, r, v);
    var s' := Stored(s, r, v, e, p, u);
    forall q: nat, w: nat | Tree(s, q) && w < VPAGES && !(q == r && w == v) ensures SamePage(s, s', q, w) {
      PteStored(s.mem, s.owner, r, v, e, q, w);
      assert MapOk(s.mem, s.owner, q, w);
    }
    forall q: nat | Tree(s, q) && q != r ensures Tree(s', q) && SameSpace(s, s', q) {
      PteStored(s.mem, s.owner, r, v, e, q, 0);
    }
    PteStored(s.mem, s.owner, r, v, e, r, 0);
  }

  lemma MapStep(s: Vm, low: nat, high: nat, r: nat, v: nat, p: nat, perm: nat)
    requires Ok(s, low, high) && Tree(s, r) && v < USERPAGES && Present(s.mem[r][v / ENTRIES]) && !Present(Pte(s.mem, r, v))
    requires p in s.owner && s.owner[p] == Held && perm < PGSIZE
    ensures Frame(s.mem[r][v / ENTRIES]) < |s.mem|
    ensures var s' := Stored(s, r, v, Entry(p, perm), p, User(r, v));
            Ok(s', low, high) && Tree(s', r) && OneEntry(s, s', r, v, Entry(p, perm)) && Kept(s, s', {r}, {p}) && s'.mem[p] == s.mem[p]
  {
    MapKeeps(s.mem, s.owner, r, v, p, perm);
    StoredSame(s, r, v, Entry(p, perm), p, User(r, v));
    PteStored(s.mem, s.owner, r, v, Entry(p, perm), r, v);
  }

  lemma UnmapStep(s: Vm, low: nat, high: nat, r: nat, v: nat)
    requires Ok(s, low, high) && Tree(s, r) && v < USERPAGES && Present(Pte(s.mem, r, v))
    ensures Frame(s.mem[r][v / ENTRIES]) < |s.mem| && Present(s.mem[r][v / ENTRIES])
    ensures var p := Frame(Pte(s.mem, r, v)); var s' := Stored(s, r, v, 0, p, Held);
            && p in s.owner && s.owner[p] == User(r, v) && p < |s.mem|
            && Ok(s', low, high) && Tree(s', r) && OneEntry(s, s', r, v, 0) && Kept(s, s', {r}, {})
  {
    UnmapKeeps(s.mem, s.owner, r, v);
    StoredSame(s, r, v, 0, Frame(Pte(s.mem, r, v)), Held);
  }

  lemma KernelMapStep(s: Vm, low: nat, high: nat, r: nat, v: nat, e: nat)
    requires Ok(s, low, high) && Tree(s, r) && USERPAGES <= v < VPAGES && Present(s.mem[r][v / ENTRIES])
    ensures var t := Frame(s.mem[r][v / ENTRIES]);
            && t < |s.mem|
            && var s' := s.(mem := s.mem[t := s.mem[t][v % ENTRIES := e]]);
            Ok(s', low, high) && Tree(s', r) && OneEntry(s, s', r, v, e) && Kept(s, s', {r}, {})
  {
    KernelMapKeeps(s.mem, s.owner, r, v, e);
    var t := Frame(s.mem[r][v / ENTRIES]);
    PteStored(s.mem, s.owner, r, v, e, r, v);
    var s' := s.(mem := s.mem[t := s.mem[t][v % ENTRIES := e]]);
    forall q: nat, w: nat | Tree(s, q) && w < VPAGES && !(q == r && w == v) ensures SamePage(s, s', q, w) {
      PteStored(s.mem, s.owner, r, v, e, q, w);
      assert MapOk(s.mem, s.owner, q, w);
    }
    forall q: nat | Tree(s, q) && q != r ensures Tree(s', q) && SameSpace(s, s', q) {
      PteStored(s.mem, s.owner, r, v, e, q, 0);
    }
  }

  lemma NotRoot(s: Vm, low: nat, high: nat, r: nat, d: nat)
    requires Ok(s, low, high) && Tree(s, r) && d < ENTRIES && Present(s.mem[r][d])
    ensures Frame(s.mem[r][d]) != r && Frame(s.mem[r][d]) < |s.mem|
  {
    assert DirOk(s.mem, s.owner, r, d);
  }

  lemma RootStep(s: Vm, low: nat, high: nat, r: nat)
    requires Ok(s, low, high) && r in s.owner && s.owner[r] == Held && r < |s.mem| && s.mem[r] == Zeros()
    ensures var s' := s.(owner := s.owner[r := Root]);
            Ok(s', low, high) && Tree(s', r) && Kept(s, s', {}, {r}) && forall v: nat :: v < VPAGES ==> Pte(s'.mem, r, v) == 0
  {
    RootKeeps(s.mem, s.owner, r);
    forall q: nat | Tree(s, q) ensures SameSpace(s, s.(owner := s.owner[r := Root]), q) {}
  }

  /** freevm between its two halves: the tree's own pages are no longer tied together. */
  lemma LoosenStep(s: Vm, low: nat, high: nat, r: nat)
    requires Ok(s, low, high) && Tree(s, r) && forall v: nat :: v < USERPAGES ==> !Present(Pte(s.mem, r, v))
    ensures var s' := s.(owner := Loosened(s.owner, r));
            Ok(s', low, high) && Kept(s, s', {r}, {}) && s'.owner.Keys == s.owner.Keys
    ensures forall p :: p in s.owner ==> !(s.owner[p].User? && s.owner[p].root == r)
  {
    LoosenKeeps(s.mem, s.owner, r);
    var s' := s.(owner := Loosened(s.owner, r));
    assert s'.owner.Keys == s.owner.Keys;
    forall q: nat | Tree(s, q) && q != r ensures Tree(s', q) && SameSpace(s, s', q) {}
  }

  /** The pages in use are those that were and new tables of tree r; only those in pages have a new use. */
  ghost predicate Grew(o: Owners, o': Owners, r: nat, pages: set<nat>) {
    && (forall q :: q in o ==> q in o' && (q in pages || o'[q] == o[q]))
    && (forall q :: q in o' && q !in o ==> o'[q].Table? && o'[q].root == r)
  }

  lemma GrewNot(o: Owners, r: nat)
    ensures Grew(o, o, r, {})
  {}

  /** The page that a mapping at v takes out of the kernel's hands: a user page, if it is one. */
  ghost function Handed(v: nat, p: nat): set<nat> {
    if v < USERPAGES then {p} else {}
  }

  lemma GrewEntry(o: Owners, o1: Owners, o2: Owners, r: nat, v: nat, t: nat, p: nat)
    requires o1.Keys == o.Keys || (t !in o && o1 == o[t := Table(r, v / ENTRIES)])
    requires forall q :: q in o ==> q in o1 && o1[q] == o[q]
    requires v < USERPAGES ==> p in o
    requires o2 == if v < USERPAGES then o1[p := User(r, v)] else o1
    ensures Grew(o, o2, r, Handed(v, p))
  {}

  /** The entries from v on, n of them, map consecutive pages from p; all others are the same. */
  ghost predicate Mapped(s: Vm, s': Vm, r: nat, v: nat, n: nat, p: nat, perm: nat)
    requires r < |s.mem| && r < |s'.mem| && v + n <= VPAGES && perm < PGSIZE
  {
    forall w: nat :: w < VPAGES ==>
      if v <= w < v + n then Pte(s'.mem, r, w) == Entry(p + (w - v), perm) else SamePage(s, s', r, w)
  }

  /** One more entry of a range. */
  lemma MappedMore(s: Vm, t: Vm, u: Vm, r: nat, v: nat, n: nat, p: nat, perm: nat)
    requires r < |s.mem| == |t.mem| == |u.mem| && v + n + 1 <= VPAGES && perm < PGSIZE
    requires Mapped(s, t, r, v, n, p, perm) && OneEntry(t, u, r, v + n, Entry(p + n, perm))
    ensures Mapped(s, u, r, v, n + 1, p, perm)
  {
    forall w: nat | w < VPAGES
      ensures if v <= w < v + (n + 1) then Pte(u.mem, r, w) == Entry(p + (w - v), perm) else SamePage(s, u, r, w)
    {
      if w != v + n {
        assert SamePage(t, u, r, w);
      }
    }
  }

  lemma MappedNone(s: Vm, r: nat, v: nat, p: nat, perm: nat)
    requires r < |s.mem| && v <= VPAGES && perm < PGSIZE
    ensures Mapped(s, s, r, v, 0, p, perm)
  {
    forall w: nat | w < VPAGES ensures SamePage(s, s, r, w) {}
  }

  /** A table added on the way does not show. */
  lemma EntryAfter(s: Vm, t: Vm, u: Vm, r: nat, v: nat, e: nat)
    requires r < |s.mem| == |t.mem| == |u.mem| && v < VPAGES && SameSpace(s, t, r) && OneEntry(t, u, r, v, e)
    ensures OneEntry(s, u, r, v, e)
  {
    forall w: nat | w < VPAGES && w != v ensures SamePage(s, u, r, w) {
      assert SamePage(s, t, r, w) && SamePage(t, u, r, w);
    }
  }

  lemma TreeStays(s: Vm, s': Vm, roots: set<nat>, pages: set<nat>, r: nat)
    requires Kept(s, s', roots, pages) && Tree(s, r) && r !in roots
    ensures Tree(s', r) && SameSpace(s, s', r) && |s.mem| == |s'.mem|
  {}

  lemma HeldStays(s: Vm, s': Vm, roots: set<nat>, pages: set<nat>, p: nat)
    requires Kept(s, s', roots, pages) && p in s.owner && s.owner[p] == Held && p !in pages && p < |s.mem|
    ensures p in s'.owner && s'.owner[p] == Held && p < |s'.mem| && s'.mem[p] == s.mem[p]
  {}

  // --------------------------------------------------- how many pages it takes

  /** The tables that tree r has. */
  ghost function Tables(s: Vm, r: nat): set<nat>
    requires r < |s.mem|
  {
    set d | 0 <= d < ENTRIES && Present(s.mem[r][d])
  }

  /** The tables that virtual pages from v on, up to w, are in. */
  function Span(v: nat, w: nat): set<nat> {
    set u | v <= u < w :: u / ENTRIES
  }

  /** Tree r has got the tables it lacked of some, and n more pages have been taken; no others have. */
  ghost predicate Drew(s: Vm, s': Vm, r: nat, tables: set<nat>, n: nat)
    requires r < |s.mem| && r < |s'.mem|
  {
    Tables(s', r) == Tables(s, r) + tables && |s.free| == |s'.free| + |tables - Tables(s, r)| + n
  }

  /** There are too few free pages for that. */
  ghost predicate Short(s: Vm, r: nat, tables: set<nat>, n: nat)
    requires r < |s.mem|
  {
    |s.free| < |tables - Tables(s, r)| + n
  }

  lemma Lacking(d: set<nat>, a: set<nat>, b: set<nat>)
    ensures |a + b - d| == |a - d| + |b - (d + a)|
  {
    assert a + b - d == (a - d) + (b - (d + a)) && (a - d) !! (b - (d + a));
  }

  lemma DrewTwice(s: Vm, t: Vm, u: Vm, r: nat, a: set<nat>, m: nat, b: set<nat>, n: nat)
    requires r < |s.mem| && r < |t.mem| && r < |u.mem| && Drew(s, t, r, a, m) && Drew(t, u, r, b, n)
    ensures Drew(s, u, r, a + b, m + n)
  {
    Lacking(Tables(s, r), a, b);
    assert Tables(s, r) + (a + b) == Tables(s, r) + a + b;
  }

  lemma DrewShort(s: Vm, t: Vm, r: nat, a: set<nat>, m: nat, b: set<nat>, n: nat)
    requires r < |s.mem| && r < |t.mem| && Drew(s, t, r, a, m) && Short(t, r, b, n)
    ensures Short(s, r, a + b, m + n)
  {
    Lacking(Tables(s, r), a, b);
  }

  lemma ShortMore(s: Vm, r: nat, a: set<nat>, m: nat, b: set<nat>, n: nat)
    requires r < |s.mem| && Short(s, r, a, m) && a <= b && m <= n
    ensures Short(s, r, b, n)
  {
    Lacking(Tables(s, r), a, b);
    assert a + b == b;
  }

  lemma DrewNothing(s: Vm, r: nat)
    requires r < |s.mem|
    ensures Drew(s, s, r, {}, 0)
  {
    assert {} - Tables(s, r) == {};
  }

  /** A table that was there. */
  lemma DrewOld(s: Vm, r: nat, d: nat)
    requires r < |s.mem| && d < ENTRIES && Present(s.mem[r][d])
    ensures Drew(s, s, r, {d}, 0)
  {
    assert {d} - Tables(s, r) == {};
    assert Tables(s, r) + {d} == Tables(s, r);
  }

  /** A table that was not. */
  lemma DrewTable(s: Vm, s': Vm, r: nat, d: nat, e: nat)
    requires r < |s.mem| && r < |s'.mem| && d < ENTRIES && !Present(s.mem[r][d]) && Present(e)
    requires s'.mem[r] == s.mem[r][d := e] && |s.free| == |s'.free| + 1
    ensures Drew(s, s', r, {d}, 0)
  {
    assert {d} - Tables(s, r) == {d};
  }

  lemma ShortTable(s: Vm, r: nat, d: nat)
    requires r < |s.mem| && d < ENTRIES && !Present(s.mem[r][d]) && s.free == []
    ensures Short(s, r, {d}, 0)
  {
    assert {d} - Tables(s, r) == {d};
  }

  /** Pages taken for something else than tables. */
  lemma DrewPages(s: Vm, t: Vm, u: Vm, r: nat, a: set<nat>, m: nat, n: nat)
    requires r < |s.mem| && r < |t.mem| && r < |u.mem| && Drew(s, t, r, a, m)
    requires u.mem[r] == t.mem[r] && |t.free| == |u.free| + n
    ensures Drew(s, u, r, a, m + n)
  {}

  lemma SpanMore(v: nat, w: nat, x: nat)
    requires v <= w <= x
    ensures Span(v, w) + Span(w, x) == Span(v, x) && Span(v, w) <= Span(v, x)
    ensures x == w + 1 ==> Span(w, x) == {w / ENTRIES}
  {
    forall d | d in Span(v, x) ensures d in Span(v, w) + Span(w, x) {
      var u :| v <= u < x && u / ENTRIES == d;
      assert u < w || w <= u;
    }
    if x == w + 1 {
      assert w / ENTRIES in Span(w, x);
    }
  }

  lemma DrewNone(s: Vm, r: nat, v: nat)
    requires r < |s.mem|
    ensures Drew(s, s, r, Span(v, v), 0)
  {
    assert Span(v, v) == {};
    DrewNothing(s, r);
  }

  /** One more virtual page, with or without a new table. */
  lemma SpanDrew(s: Vm, t: Vm, u: Vm, r: nat, v: nat, w: nat, m: nat)
    requires r < |s.mem| && r < |t.mem| && r < |u.mem| && v <= w && Drew(s, t, r, Span(v, w), m) && Drew(t, u, r, {w / ENTRIES}, 0)
    ensures Drew(s, u, r, Span(v, w + 1), m)
  {
    SpanMore(v, w, w + 1);
    DrewTwice(s, t, u, r, Span(v, w), m, {w / ENTRIES}, 0);
  }

  lemma SpanShort(s: Vm, t: Vm, r: nat, v: nat, w: nat, x: nat, m: nat)
    requires r < |s.mem| && r < |t.mem| && v <= w < x && Drew(s, t, r, Span(v, w), m) && Short(t, r, {w / ENTRIES}, 0)
    ensures Short(s, r, Span(v, x), m)
  {
    SpanMore(v, w, w + 1);
    SpanMore(v, w + 1, x);
    DrewShort(s, t, r, Span(v, w), m, {w / ENTRIES}, 0);
    ShortMore(s, r, Span(v, w + 1), m, Span(v, x), m);
  }

  // ----------------------------------------------------- pages already mapped

  /** None of n virtual pages from v on is mapped. */
  ghost predicate Vacant(s: Vm, r: nat, v: nat, n: nat)
    requires r < |s.mem| && v + n <= VPAGES
  {
    forall w: nat :: v <= w < v + n ==> !Present(Pte(s.mem, r, w))
  }

  /** The i-th page from v on is the first that is mapped already. */
  ghost predicate Blocked(s: Vm, r: nat, v: nat, i: nat)
    requires r < |s.mem|
  {
    v + i < VPAGES && Vacant(s, r, v, i) && Present(Pte(s.mem, r, v + i))
  }

  /** Page i from v on, unmapped like those before it, is the first whose table there is no page for;
      m pages are wanted for other things by then. */
  ghost predicate Starved(s: Vm, r: nat, v: nat, i: nat, m: nat)
    requires r < |s.mem|
  {
    v + i < VPAGES && Vacant(s, r, v, i + 1) && Short(s, r, Span(v, v + i + 1), m)
  }

  /** The three ways that mappages can go: there is room and nothing in the way, there are too few pages
      for a table before anything is in the way, or a page that is mapped already comes first. */
  ghost predicate Maps(s: Vm, r: nat, v: nat, n: nat)
    requires r < |s.mem| && v + n <= VPAGES
  {
    Vacant(s, r, v, n) && !Short(s, r, Span(v, v + n), 0)
  }

  ghost predicate Starves(s: Vm, r: nat, v: nat, n: nat)
    requires r < |s.mem|
  {
    exists i: nat :: i < n && Starved(s, r, v, i, 0)
  }

  ghost predicate Collides(s: Vm, r: nat, v: nat, n: nat)
    requires r < |s.mem|
  {
    exists i: nat :: i < n && Blocked(s, r, v, i) && !Short(s, r, Span(v, v + i), 0)
  }

  lemma StarvedLater(s: Vm, r: nat, v: nat, i: nat, j: nat)
    requires r < |s.mem| && Starved(s, r, v, i, 0) && i < j
    ensures Short(s, r, Span(v, v + j), 0)
  {
    hide Short, Span;
    SpanMore(v, v + i + 1, v + j);
    ShortMore(s, r, Span(v, v + i + 1), 0, Span(v, v + j), 0);
  }

  lemma OneWay(s: Vm, r: nat, v: nat, n: nat)
    requires r < |s.mem| && v + n <= VPAGES
    ensures !(Maps(s, r, v, n) && Starves(s, r, v, n)) && !(Maps(s, r, v, n) && Collides(s, r, v, n))
    ensures !(Starves(s, r, v, n) && Collides(s, r, v, n))
  {
    hide Short, Span;
    forall i: nat | i < n && Starved(s, r, v, i, 0)
      ensures !Maps(s, r, v, n) && forall j: nat :: j < n && Blocked(s, r, v, j) ==> Short(s, r, Span(v, v + j), 0)
    {
      StarvedLater(s, r, v, i, n);
      forall j: nat | j < n && Blocked(s, r, v, j) ensures Short(s, r, Span(v, v + j), 0) {
        if i < j {
          StarvedLater(s, r, v, i, j);
        }
      }
    }
  }

  lemma VacantMore(s: Vm, r: nat, v: nat, i: nat)
    requires r < |s.mem| && v + i < VPAGES && Vacant(s, r, v, i) && !Present(Pte(s.mem, r, v + i))
    ensures Vacant(s, r, v, i + 1)
  {}

  lemma NoTableVacant(s: Vm, r: nat, v: nat)
    requires r < |s.mem| && v < VPAGES && Short(s, r, {v / ENTRIES}, 0)
    ensures !Present(Pte(s.mem, r, v))
  {
    assert !(v / ENTRIES in Tables(s, r));
  }

  lemma NotShort(s: Vm, t: Vm, r: nat, a: set<nat>, m: nat)
    requires r < |s.mem| && r < |t.mem| && Drew(s, t, r, a, m)
    ensures !Short(s, r, a, m)
  {}

  /** What n entries of a range have come to. */
  ghost predicate Mapping(s: Vm, t: Vm, r: nat, v: nat, n: nat, p: nat, perm: nat, pages: set<nat>)
    requires r < |s.mem| && r < |t.mem| && v + n <= VPAGES && perm < PGSIZE
  {
    && Mapped(s, t, r, v, n, p, perm) && Kept(s, t, {r}, pages) && Grew(s.owner, t.owner, r, pages)
    && Drew(s, t, r, Span(v, v + n), 0) && Vacant(s, r, v, n)
  }

  lemma MappingDone(s: Vm, t: Vm, r: nat, v: nat, n: nat, p: nat, perm: nat, pages: set<nat>)
    requires r < |s.mem| && r < |t.mem| && v + n <= VPAGES && perm < PGSIZE && Mapping(s, t, r, v, n, p, perm, pages)
    ensures Mapped(s, t, r, v, n, p, perm) && Kept(s, t, {r}, pages) && Grew(s.owner, t.owner, r, pages)
    ensures Drew(s, t, r, Span(v, v + n), 0) && Vacant(s, r, v, n)
  {}

  lemma MappingStart(s: Vm, r: nat, v: nat, p: nat, perm: nat, pages: set<nat>)
    requires r < |s.mem| && v <= VPAGES && perm < PGSIZE
    ensures Mapping(s, s, r, v, 0, p, perm, pages)
  {
    DrewNone(s, r, v);
    MappedNone(s, r, v, p, perm);
    KeptSelf(s);
    KeptWider(s, s, {}, {}, {r}, pages);
  }

  lemma MappingAbove(s: Vm, t: Vm, r: nat, v: nat, n: nat, p: nat, perm: nat, pages: set<nat>)
    requires r < |s.mem| && r < |t.mem| && v + n < VPAGES && perm < PGSIZE && Mapping(s, t, r, v, n, p, perm, pages)
    ensures Pte(t.mem, r, v + n) == Pte(s.mem, r, v + n)
  {
    var w := v + n;
    assert SamePage(s, t, r, w);
  }

  lemma MappingMore(s: Vm, t: Vm, u: Vm, r: nat, v: nat, n: nat, p: nat, perm: nat, pages: set<nat>)
    requires r < |s.mem| == |t.mem| == |u.mem| && v + n < VPAGES && perm < PGSIZE && Mapping(s, t, r, v, n, p, perm, pages)
    requires OneEntry(t, u, r, v + n, Entry(p + n, perm)) && Kept(t, u, {r}, pages) && Grew(t.owner, u.owner, r, pages)
    requires Drew(t, u, r, {(v + n) / ENTRIES}, 0) && pages <= s.owner.Keys && !Present(Pte(s.mem, r, v + n))
    ensures Mapping(s, u, r, v, n + 1, p, perm, pages)
  {
    hide Mapped, Kept, Drew, OneEntry, Grew, Span, Vacant;
    VacantMore(s, r, v, n);
    KeptTwice(s, t, u, {r}, pages);
    GrewThen(s.owner, t.owner, u.owner, r, pages, pages);
    MappedMore(s, t, u, r, v, n, p, perm);
    SpanDrew(s, t, u, r, v, v + n, 0);
  }

  /** A range that cannot be finished, for want of a page for a table. */
  lemma MappingFailed(s: Vm, t: Vm, u: Vm, r: nat, v: nat, i: nat, n: nat, p: nat, perm: nat, pages: set<nat>)
    requires Tree(t, r) && r < |s.mem| == |t.mem| == |u.mem| && i < n && v + n <= VPAGES && perm < PGSIZE
    requires Mapping(s, t, r, v, i, p, perm, pages) && Kept(t, u, {}, {}) && Grew(t.owner, u.owner, r, {})
    requires Short(t, r, {(v + i) / ENTRIES}, 0)
    ensures Mapped(s, u, r, v, i, p, perm) && Kept(s, u, {r}, pages) && Grew(s.owner, u.owner, r, pages)
    ensures Short(s, r, Span(v, v + n), 0) && Starved(s, r, v, i, 0)
  {
    hide Mapped, Short, Drew, SameSpace, Kept, Grew, Span, Vacant, Tables;
    MappingAbove(s, t, r, v, i, p, perm, pages);
    NoTableVacant(t, r, v + i);
    VacantMore(s, r, v, i);
    SpanShort(s, t, r, v, v + i, v + i + 1, 0);
    TreeStays(t, u, {}, {}, r);
    KeptWider(t, u, {}, {}, {r}, pages);
    KeptTwice(s, t, u, {r}, pages);
    GrewThen(s.owner, t.owner, u.owner, r, pages, {});
    SpanShort(s, t, r, v, v + i, v + n, 0);
    MappedThen(s, t, u, r, v, i, p, perm);
  }

  /** A range that meets a page mapped already. */
  lemma MappingBlocked(s: Vm, t: Vm, r: nat, v: nat, i: nat, p: nat, perm: nat, pages: set<nat>)
    requires r < |s.mem| && r < |t.mem| && v + i < VPAGES && perm < PGSIZE && Mapping(s, t, r, v, i, p, perm, pages)
    requires Present(Pte(s.mem, r, v + i))
    ensures Blocked(s, r, v, i) && !Short(s, r, Span(v, v + i), 0)
    ensures Grew(s.owner, t.owner, r, pages) && Kept(s, t, {r}, pages)
  {
    hide Mapped, Kept, Grew, Vacant;
    NotShort(s, t, r, Span(v, v + i), 0);
  }

  lemma GrewThen(o: Owners, o1: Owners, o2: Owners, r: nat, pages: set<nat>, more: set<nat>)
    requires Grew(o, o1, r, pages) && Grew(o1, o2, r, more) && more <= pages && more <= o.Keys
    ensures Grew(o, o2, r, pages)
  {}

  lemma MappedThen(s: Vm, t: Vm, u: Vm, r: nat, v: nat, n: nat, p: nat, perm: nat)
    requires r < |s.mem| == |t.mem| == |u.mem| && v + n <= VPAGES && perm < PGSIZE && Mapped(s, t, r, v, n, p, perm) && SameSpace(t, u, r)
    ensures Mapped(s, u, r, v, n, p, perm)
  {
    forall w: nat | w < VPAGES
      ensures if v <= w < v + n then Pte(u.mem, r, w) == Entry(p + (w - v), perm) else SamePage(s, u, r, w)
    {
      assert SamePage(t, u, r, w);
    }
  }

  /** The first n virtual pages are in n/1024 tables, rounded up. */
  lemma SpanCount(n: nat)
    ensures |Span(0, n)| == (n + ENTRIES - 1) / ENTRIES
  {
    var k := (n + ENTRIES - 1) / ENTRIES;
    forall d | 0 <= d < k ensures d in Span(0, n) {
      assert d * ENTRIES / ENTRIES == d;
    }
    assert Span(0, n) == Interval(0, k);
  }

  // ------------------------------------------------------- taking pages away

  /** The user pages of tree r from one page on, up to another and no further than to, are gone; all
      other entries are the same. */
  ghost predicate Cleared(s: Vm, s': Vm, r: nat, from: nat, a: nat, to: nat)
    requires r < |s.mem| && r < |s'.mem|
  {
    forall w: nat :: w < VPAGES ==> if from <= w < a && w < to then !Present(Pte(s'.mem, r, w)) else SamePage(s, s', r, w)
  }

  ghost predicate InRun(u: Use, r: nat, from: nat, to: nat) {
    u.User? && u.root == r && from <= u.v < to
  }

  /** The pages in use without the user pages that were taken away. */
  ghost function Dropped(o: Owners, r: nat, from: nat, to: nat): Owners {
    map q | q in o && !InRun(o[q], r, from, to) :: o[q]
  }

  lemma ClearedNone(s: Vm, r: nat, from: nat, to: nat)
    requires r < |s.mem|
    ensures Cleared(s, s, r, from, from, to) && Dropped(s.owner, r, from, from) == s.owner
  {
    forall w: nat | w < VPAGES ensures SamePage(s, s, r, w) {}
  }

  /** Entries that are not present need nothing done, a whole missing table of them included. */
  lemma ClearedSkip(s: Vm, t: Vm, low: nat, high: nat, r: nat, from: nat, a: nat, b: nat, to: nat)
    requires r < |s.mem| && Ok(t, low, high) && Tree(t, r) && Cleared(s, t, r, from, a, to) && from <= a <= b <= USERPAGES
    requires t.owner == Dropped(s.owner, r, from, Min(a, to))
    requires forall w: nat :: a <= w < b ==> !Present(Pte(t.mem, r, w))
    ensures Cleared(s, t, r, from, b, to) && t.owner == Dropped(s.owner, r, from, Min(b, to))
  {
    forall q | q in t.owner ensures !InRun(t.owner[q], r, a, b) {
      assert UseOk(t.mem, t.owner, q);
    }
    forall q | q in s.owner ensures q in t.owner <==> !InRun(s.owner[q], r, from, Min(b, to)) {}
  }

  lemma MissingTable(t: Vm, r: nat, a: nat, w: nat)
    requires r < |t.mem| && a < VPAGES && w < VPAGES && w / ENTRIES == a / ENTRIES && !Present(t.mem[r][a / ENTRIES])
    ensures Pte(t.mem, r, w) == 0
  {}

  /** One page unmapped and freed. */
  lemma ClearedOne(s: Vm, t: Vm, u: Vm, low: nat, high: nat, r: nat, from: nat, a: nat, to: nat)
    requires r < |s.mem| && Ok(t, low, high) && Tree(t, r) && r < |u.mem| == |t.mem| && Cleared(s, t, r, from, a, to)
    requires from <= a < to <= USERPAGES && t.owner == Dropped(s.owner, r, from, a) && Present(Pte(t.mem, r, a))
    requires OneEntry(t, u, r, a, 0) && u.owner == t.owner - {Frame(Pte(t.mem, r, a))}
    ensures Cleared(s, u, r, from, a + 1, to) && u.owner == Dropped(s.owner, r, from, a + 1)
  {
    forall w: nat | w < VPAGES
      ensures if from <= w < a + 1 && w < to then !Present(Pte(u.mem, r, w)) else SamePage(s, u, r, w)
    {
      if w != a {
        assert SamePage(t, u, r, w);
      }
    }
    assert MapOk(t.mem, t.owner, r, a);
    forall q | q in t.owner ensures InRun(t.owner[q], r, a, a + 1) <==> q == Frame(Pte(t.mem, r, a)) {
      assert UseOk(t.mem, t.owner, q);
    }
    forall q | q in s.owner ensures q in u.owner <==> !InRun(s.owner[q], r, from, a + 1) {}
  }

  /** The state once the page mapped at v is unmapped and on the free list. */
  function Unmapped(s: Vm, r: nat, v: nat): Vm
    requires r < |s.mem| && v < VPAGES && Frame(s.mem[r][v / ENTRIES]) < |s.mem| && Frame(Pte(s.mem, r, v)) < |s.mem|
  {
    var p := Frame(Pte(s.mem, r, v));
    var t := Stored(s, r, v, 0, p, Held);
    Vm(t.mem[p := Junk()], [p] + t.free, t.owner - {p})
  }

  lemma UnmappedStep(s: Vm, low: nat, high: nat, r: nat, v: nat)
    requires Ok(s, low, high) && Tree(s, r) && v < USERPAGES && Present(Pte(s.mem, r, v))
    ensures Frame(s.mem[r][v / ENTRIES]) < |s.mem| && Frame(Pte(s.mem, r, v)) < |s.mem| && 0 < low <= Frame(Pte(s.mem, r, v))
    ensures Frame(s.mem[r][v / ENTRIES]) != Frame(Pte(s.mem, r, v))
    ensures var s' := Unmapped(s, r, v);
            && Ok(s', low, high) && Tree(s', r) && OneEntry(s, s', r, v, 0) && Kept(s, s', {r}, {})
            && s'.owner == s.owner - {Frame(Pte(s.mem, r, v))}
  {
    UnmapStep(s, low, high, r, v);
    UnmapKeeps(s.mem, s.owner, r, v);
    var p := Frame(Pte(s.mem, r, v));
    var t, s' := Stored(s, r, v, 0, p, Held), Unmapped(s, r, v);
    FreeStep(t, low, high, p);
    assert s'.owner == s.owner - {p};
    TreeStays(t, s', {}, {p}, r);
    forall w: nat | w < VPAGES && w != v ensures SamePage(s, s', r, w) {
      assert SamePage(s, t, r, w) && SamePage(t, s', r, w);
    }
    assert SamePage(t, s', r, v);
    UnmappedKept(s, t, s', r, p);
  }

  lemma UnmappedKept(s: Vm, t: Vm, u: Vm, r: nat, p: nat)
    requires Kept(s, t, {r}, {}) && Kept(t, u, {}, {p}) && p in s.owner && s.owner[p] != Held
    ensures Kept(s, u, {r}, {})
  {
    forall q: nat | Tree(s, q) && q != r ensures Tree(u, q) && SameSpace(s, u, q) {
      SpaceTwice(s, t, u, q);
    }
  }

  // ------------------------------------------------------- handing pages out

  /** Tree r maps virtual page v to a page of its own that holds contents, with the flags given. */
  ghost predicate MapsTo(s: Vm, r: nat, v: nat, flags: nat, contents: Page)
    requires r < |s.mem| && v < VPAGES
  {
    var e := Pte(s.mem, r, v);
    Present(e) && Flags(e) == flags && Frame(e) < |s.mem| && s.mem[Frame(e)] == contents
  }

  /** New zeroed pages, for the user to write, from one page on up to another; the rest is the same. */
  ghost predicate ZeroFilled(s: Vm, s': Vm, r: nat, from: nat, to: nat)
    requires r < |s.mem| && r < |s'.mem|
  {
    forall w: nat :: w < VPAGES ==> FilledAt(s, s', r, from, to, w)
  }

  ghost predicate FilledAt(s: Vm, s': Vm, r: nat, from: nat, to: nat, w: nat)
    requires r < |s.mem| && r < |s'.mem| && w < VPAGES
  {
    if from <= w < to then MapsTo(s', r, w, PTE_P + PTE_W + PTE_U, Zeros()) else SamePage(s, s', r, w)
  }

  /** The same pages are mapped, to the same pages with the same contents. */
  ghost predicate SameMappings(s: Vm, s': Vm, r: nat)
    requires r < |s.mem| && r < |s'.mem|
  {
    forall w: nat :: w < VPAGES ==> SamePage(s, s', r, w) || (!Present(Pte(s.mem, r, w)) && !Present(Pte(s'.mem, r, w)))
  }

  lemma ZeroNone(s: Vm, r: nat, from: nat)
    requires r < |s.mem|
    ensures ZeroFilled(s, s, r, from, from)
  {
    forall w: nat | w < VPAGES ensures FilledAt(s, s, r, from, from, w) {}
  }

  /** Nothing visible has happened between t and u. */
  lemma ZeroStays(s: Vm, t: Vm, u: Vm, r: nat, from: nat, a: nat)
    requires r < |s.mem| == |t.mem| == |u.mem| && a <= USERPAGES && ZeroFilled(s, t, r, from, a) && SameSpace(t, u, r)
    ensures ZeroFilled(s, u, r, from, a)
  {
    forall w: nat | w < VPAGES ensures FilledAt(s, u, r, from, a, w) {
      assert FilledAt(s, t, r, from, a, w);
      assert SamePage(t, u, r, w);
    }
  }

  /** One more page, zeroed and mapped. */
  lemma ZeroMore(s: Vm, t: Vm, u: Vm, r: nat, from: nat, a: nat, p: nat)
    requires r < |s.mem| == |t.mem| == |u.mem| && from <= a < USERPAGES && ZeroFilled(s, t, r, from, a)
    requires Mapped(t, u, r, a, 1, p, PTE_W + PTE_U) && p < |u.mem| && u.mem[p] == Zeros()
    ensures ZeroFilled(s, u, r, from, a + 1)
  {
    var b := a + 1;
    forall w: nat | w < VPAGES ensures FilledAt(s, u, r, from, b, w) {
      if w != a {
        assert FilledAt(s, t, r, from, a, w);
        assert SamePage(t, u, r, w);
      }
    }
  }

  /** What allocuvm added is gone again. */
  lemma ZeroUndone(s: Vm, t: Vm, u: Vm, r: nat, from: nat, a: nat, to: nat)
    requires r < |s.mem| == |t.mem| == |u.mem| && from <= a <= to && ZeroFilled(s, t, r, from, a) && Cleared(t, u, r, from, to, to)
    ensures Cleared(s, u, r, from, to, to)
  {
    forall w: nat | w < VPAGES && !(from <= w < to) ensures SamePage(s, u, r, w) {
      assert FilledAt(s, t, r, from, a, w);
      assert SamePage(s, t, r, w) && SamePage(t, u, r, w);
    }
  }

  /** The pages in use are those that were, new tables of tree r, and the user pages of a run. */
  ghost predicate GrewRun(o: Owners, o': Owners, r: nat, from: nat, to: nat) {
    && (forall q :: q in o ==> q in o' && o'[q] == o[q])
    && (forall q :: q in o' && q !in o ==> (o'[q].Table? && o'[q].root == r) || InRun(o'[q], r, from, to))
  }

  lemma GrewMore(o: Owners, o1: Owners, o2: Owners, o3: Owners, r: nat, from: nat, a: nat, p: nat)
    requires GrewRun(o, o1, r, from, a) && from <= a && p !in o1 && o2 == o1[p := Held] && Grew(o2, o3, r, {p}) && p in o3 && o3[p] == User(r, a)
    ensures GrewRun(o, o3, r, from, a + 1)
  {}

  /** Dropping the run leaves the tables. */
  lemma GrewDropped(o: Owners, o1: Owners, r: nat, from: nat, a: nat, to: nat)
    requires GrewRun(o, o1, r, from, a) && a <= to
    ensures Grew(Dropped(o, r, from, to), Dropped(o1, r, from, to), r, {})
  {}

  /** A tree that maps nothing in a run owns no pages there. */
  lemma NoRun(s: Vm, low: nat, high: nat, r: nat, from: nat, to: nat)
    requires Ok(s, low, high) && r < |s.mem| && to <= VPAGES && forall w: nat :: from <= w < to ==> !Present(Pte(s.mem, r, w))
    ensures forall q :: q in s.owner ==> !InRun(s.owner[q], r, from, to)
  {
    forall q | q in s.owner ensures !InRun(s.owner[q], r, from, to) {
      assert UseOk(s.mem, s.owner, q);
    }
  }

  /** A page taken and given back leaves the new tables. */
  lemma GrewFailed(o: Owners, o1: Owners, o3: Owners, r: nat, from: nat, a: nat, to: nat, p: nat)
    requires GrewRun(o, o1, r, from, a) && a <= to && p !in o1 && Grew(o1[p := Held], o3, r, {})
    ensures Grew(Dropped(o, r, from, to), Dropped(o3, r, from, to) - {p}, r, {})
    ensures p in Dropped(o3, r, from, to) && Dropped(o3, r, from, to)[p] == Held
  {
    assert o1[p := Held][p] == Held;
  }

  /** Where nothing was mapped, nothing is lost. */
  lemma NothingLost(s: Vm, u: Vm, low: nat, high: nat, r: nat, from: nat, to: nat)
    requires Ok(s, low, high) && r < |s.mem| == |u.mem| && from <= to <= VPAGES && Vacant(s, r, from, to - from)
    requires Cleared(s, u, r, from, to, to)
    ensures SameMappings(s, u, r) && Dropped(s.owner, r, from, to) == s.owner
  {
    NoRun(s, low, high, r, from, to);
    forall w: nat | w < VPAGES
      ensures SamePage(s, u, r, w) || (!Present(Pte(s.mem, r, w)) && !Present(Pte(u.mem, r, w)))
    {
    }
  }

  lemma NothingGrown(s: Vm, r: nat, from: nat)
    requires r < |s.mem|
    ensures SameMappings(s, s, r) && Grew(s.owner, s.owner, r, {}) && ZeroFilled(s, s, r, from, from) && GrewRun(s.owner, s.owner, r, from, from)
  {
    ZeroNone(s, r, from);
    forall w: nat | w < VPAGES ensures SamePage(s, s, r, w) {}
  }

  // --------------------------------------------------------- a whole tree

  /** q is the directory, a table or a user page of tree r. */
  ghost predicate InTree(o: Owners, r: nat, q: nat)
    requires q in o
  {
    q == r || (o[q].Table? && o[q].root == r) || (o[q].User? && o[q].root == r)
  }

  /** The pages in use when tree r is gone. */
  ghost function Felled(o: Owners, r: nat): Owners {
    map q | q in o && !InTree(o, r, q) :: o[q]
  }

  /** The tables behind the first i entries of tree r's directory are already free. */
  ghost predicate Falling(s1: Vm, s: Vm, r: nat, i: nat, gone: set<nat>) {
    && s.owner == Loosened(s1.owner, r) - gone
    && (forall q :: q in gone <==> q in s1.owner && s1.owner[q].Table? && s1.owner[q].root == r && s1.owner[q].d < i)
  }

  lemma FallStart(s1: Vm, low: nat, high: nat, r: nat)
    requires Ok(s1, low, high) && Tree(s1, r)
    ensures Falling(s1, s1.(owner := Loosened(s1.owner, r)), r, 0, {}) && r in Loosened(s1.owner, r) && Loosened(s1.owner, r)[r] == Held
  {}

  lemma FallTable(s1: Vm, s: Vm, low: nat, high: nat, r: nat, i: nat, gone: set<nat>)
    requires Ok(s1, low, high) && Tree(s1, r) && Falling(s1, s, r, i, gone) && i < ENTRIES && Present(s1.mem[r][i])
    ensures var t := Frame(s1.mem[r][i]);
            && t in s.owner && s.owner[t] == Held && t != r && s1.owner[t] == Table(r, i)
            && Falling(s1, s.(owner := s.owner - {t}), r, i + 1, gone + {t})
  {
    assert DirOk(s1.mem, s1.owner, r, i);
    var t := Frame(s1.mem[r][i]);
    forall q | q in s1.owner && s1.owner[q] == Table(r, i) ensures q == t {
      assert UseOk(s1.mem, s1.owner, q);
    }
  }

  lemma FallSkip(s1: Vm, s: Vm, low: nat, high: nat, r: nat, i: nat, gone: set<nat>)
    requires Ok(s1, low, high) && Tree(s1, r) && Falling(s1, s, r, i, gone) && i < ENTRIES && !Present(s1.mem[r][i])
    ensures Falling(s1, s, r, i + 1, gone)
  {
    forall q | q in s1.owner ensures s1.owner[q] != Table(r, i) {
      assert UseOk(s1.mem, s1.owner, q);
    }
  }

  lemma Fallen(s0: Vm, s1: Vm, s: Vm, low: nat, high: nat, r: nat, gone: set<nat>)
    requires Ok(s0, low, high) && Ok(s1, low, high) && Tree(s1, r) && Falling(s1, s, r, ENTRIES, gone)
    requires s1.owner == Dropped(s0.owner, r, 0, USERPAGES)
    ensures s.owner - {r} == Felled(s0.owner, r)
  {
    forall q | q in s1.owner ensures s1.owner[q].Table? && s1.owner[q].root == r ==> q in gone {
      assert UseOk(s1.mem, s1.owner, q);
    }
    forall q | q in s0.owner ensures UseOk(s0.mem, s0.owner, q) {}
  }

  /** Pages held since the tree was loosened may change; nothing else had them. */
  lemma KeptLoose(s: Vm, t: Vm, u: Vm, r: nat, q: nat)
    requires Kept(s, t, {r}, {}) && Kept(t, u, {}, {q}) && q in s.owner && s.owner[q] != Held
    ensures Kept(s, u, {r}, {})
  {
    forall p: nat | Tree(s, p) && p != r ensures Tree(u, p) && SameSpace(s, u, p) {
      SpaceTwice(s, t, u, p);
    }
  }

  lemma ClearedAll(s0: Vm, s1: Vm, r: nat)
    requires r < |s0.mem| && r < |s1.mem| && Cleared(s0, s1, r, 0, USERPAGES, USERPAGES)
    ensures forall v: nat :: v < USERPAGES ==> !Present(Pte(s1.mem, r, v))
  {}

  /** A new tree: its directory and tables are the only new pages in use. */
  ghost predicate GrewTree(o: Owners, o': Owners, d: nat) {
    && d !in o && d in o' && o'[d] == Root
    && (forall q :: q in o ==> q in o' && o'[q] == o[q])
    && (forall q :: q in o' && q !in o && q != d ==> (o'[q].Table? || o'[q].User?) && o'[q].root == d)
  }

  /** Felling a new tree leaves what there was before it. */
  lemma NewTreeFelled(s: Vm, low: nat, high: nat, o: Owners, d: nat)
    requires Ok(s, low, high) && GrewTree(o, s.owner, d) && forall q :: q in o ==> !InTree(o, d, q)
    ensures Felled(s.owner, d) == o
  {
    assert forall q :: q in Felled(s.owner, d) <==> q in o;
  }

  lemma NotInNew(s: Vm, low: nat, high: nat, d: nat)
    requires Ok(s, low, high) && d !in s.owner
    ensures forall q :: q in s.owner ==> !InTree(s.owner, d, q)
  {
    forall q | q in s.owner ensures !InTree(s.owner, d, q) {
      assert UseOk(s.mem, s.owner, q);
    }
  }

  lemma TreeGrows(o: Owners, o1: Owners, o2: Owners, d: nat)
    requires GrewTree(o, o1, d) && Grew(o1, o2, d, {})
    ensures GrewTree(o, o2, d)
  {}

  // ------------------------------------------------------- the kernel's half

  /** The entry that kmap asks for at v, 0 outside its ranges: I/O space, kernel text, kernel data and
      free memory, devices. */
  function KernelPte(data: nat, v: nat): nat
    requires v < VPAGES
  {
    if v < USERPAGES then 0
    else if v < USERPAGES + 0x100 then Entry(v - USERPAGES, PTE_W)
    else if v < USERPAGES + data then Entry(v - USERPAGES, 0)
    else if v < USERPAGES + 0xE000 then Entry(v - USERPAGES, PTE_W)
    else if v < 0xFE000 then 0
    else Entry(v, PTE_W)
  }

  /** The kernel map is in place below v and nothing above. */
  ghost predicate KernelBelow(s: Vm, r: nat, data: nat, v: nat)
    requires r < |s.mem|
  {
    forall w: nat :: w < VPAGES ==> Pte(s.mem, r, w) == if w < v then KernelPte(data, w) else 0
  }

  lemma KernelMore(s: Vm, t: Vm, r: nat, data: nat, v0: nat, v: nat, n: nat, p: nat, perm: nat)
    requires r < |s.mem| && r < |t.mem| && USERPAGES <= v && v0 <= v && v + n <= VPAGES && perm < PGSIZE
    requires KernelBelow(s, r, data, v0) && Mapped(s, t, r, v, n, p, perm)
    requires forall w: nat :: v0 <= w < v ==> KernelPte(data, w) == 0
    requires forall w: nat :: v <= w < v + n ==> KernelPte(data, w) == Entry(p + (w - v), perm)
    ensures KernelBelow(t, r, data, v + n)
  {
    forall w: nat | w < VPAGES ensures Pte(t.mem, r, w) == if w < v + n then KernelPte(data, w) else 0 {
      if !(v <= w < v + n) {
        assert SamePage(s, t, r, w);
      }
    }
  }

  /** A tree as setupkvm leaves it. */
  ghost predicate Fresh(s: Vm, s': Vm, d: nat, data: nat) {
    Tree(s', d) && d !in s.owner && GrewTree(s.owner, s'.owner, d) && KernelBelow(s', d, data, VPAGES)
  }

  predicate InRuns(a: nat, b: nat, c: nat, d: nat) {
    a <= d < b || c <= d
  }

  function Runs(a: nat, b: nat, c: nat, e: nat): set<nat> {
    set d | 0 <= d < e && InRuns(a, b, c, d)
  }

  lemma RunsCount(a: nat, b: nat, c: nat, e: nat)
    requires a <= b <= c <= e
    ensures |Runs(a, b, c, e)| == b - a + e - c
  {
    assert Runs(a, b, c, e) == Interval(a, b) + Interval(c, e);
    assert Interval(a, b) !! Interval(c, e);
  }

  /** The tables of the kernel map: 56 for the memory from KERNBASE up to PHYSTOP and 8 for devices. */
  function KernelTables(): set<nat> {
    Runs(512, 568, 1016, 1024)
  }

  /** The pages that setupkvm takes: a directory and those tables. */
  const KERNEL_TREE: nat := 65

  lemma KernelTablesCount()
    ensures |KernelTables()| == KERNEL_TREE - 1
  {
    RunsCount(512, 568, 1016, 1024);
  }

  // ------------------------------------------------------------- copyuvm

  /** Page w of tree d is a copy, on a page of its own, of page w of tree r. */
  ghost predicate CopyAt(s: Vm, r: nat, d: nat, upto: nat, w: nat)
    requires r < |s.mem| && d < |s.mem| && w < VPAGES
  {
    var e, f := Pte(s.mem, r, w), Pte(s.mem, d, w);
    if w < upto then
      && Present(e) && Present(f) && Flags(f) == Flags(e) && Frame(e) < |s.mem| && Frame(f) < |s.mem|
      && Frame(f) != Frame(e) && s.mem[Frame(f)] == s.mem[Frame(e)]
    else w < USERPAGES ==> !Present(f)
  }

  ghost predicate Copied(s: Vm, r: nat, d: nat, upto: nat)
    requires r < |s.mem| && d < |s.mem|
  {
    forall w: nat :: w < USERPAGES ==> CopyAt(s, r, d, upto, w)
  }

  /** The first page from i on, below n, that is not mapped; n if there is none. */
  ghost function FirstGap(s: Vm, r: nat, i: nat, n: nat): (g: nat)
    requires r < |s.mem| && i <= n <= VPAGES
    ensures i <= g <= n && forall w: nat :: i <= w < g ==> Present(Pte(s.mem, r, w))
    ensures g < n ==> !Present(Pte(s.mem, r, g))
    decreases n - i
  {
    if i == n || !Present(Pte(s.mem, r, i)) then i else FirstGap(s, r, i + 1, n)
  }

  lemma CopyStart(s: Vm, r: nat, d: nat, data: nat)
    requires r < |s.mem| && d < |s.mem| && KernelBelow(s, d, data, VPAGES)
    ensures Copied(s, r, d, 0) && KernelIn(s, d, data)
  {}

  /** The kernel's part of tree d is the kernel map. */
  ghost predicate KernelIn(s: Vm, d: nat, data: nat)
    requires d < |s.mem|
  {
    forall w: nat :: USERPAGES <= w < VPAGES ==> Pte(s.mem, d, w) == KernelPte(data, w)
  }

  lemma KernelStays(t: Vm, u: Vm, d: nat, data: nat)
    requires d < |t.mem| == |u.mem| && KernelIn(t, d, data) && SameSpace(t, u, d)
    ensures KernelIn(u, d, data)
  {
    forall w: nat | USERPAGES <= w < VPAGES ensures Pte(u.mem, d, w) == KernelPte(data, w) {
      assert SamePage(t, u, d, w);
    }
  }

  lemma KernelBeside(t: Vm, u: Vm, d: nat, data: nat, v: nat, p: nat, perm: nat)
    requires d < |t.mem| == |u.mem| && KernelIn(t, d, data) && v < USERPAGES && perm < PGSIZE && Mapped(t, u, d, v, 1, p, perm)
    ensures KernelIn(u, d, data)
  {
    forall w: nat | USERPAGES <= w < VPAGES ensures Pte(u.mem, d, w) == KernelPte(data, w) {
      assert SamePage(t, u, d, w);
    }
  }

  /** One more page copied and mapped. */
  lemma CopyMore(t: Vm, u: Vm, low: nat, high: nat, r: nat, d: nat, a: nat, p: nat)
    requires Ok(t, low, high) && Tree(t, r) && d < |t.mem| == |u.mem| && r != d && a < USERPAGES && Copied(t, r, d, a)
    requires Present(Pte(t.mem, r, a)) && SameSpace(t, u, r)
    requires Mapped(t, u, d, a, 1, p, Flags(Pte(t.mem, r, a))) && p < |u.mem| && p in t.owner && t.owner[p] == Held
    requires Frame(Pte(t.mem, r, a)) < |t.mem| && u.mem[p] == t.mem[Frame(Pte(t.mem, r, a))]
    ensures Copied(u, r, d, a + 1)
  {
    assert MapOk(t.mem, t.owner, r, a);
    var b := a + 1;
    forall w: nat | w < USERPAGES ensures CopyAt(u, r, d, b, w) {
      assert SamePage(t, u, r, w);
      assert CopyAt(t, r, d, a, w);
      if w == a {
        assert Pte(u.mem, d, w) == Entry(p + (w - a), Flags(Pte(t.mem, r, a)));
        FlagsKept(Pte(t.mem, r, a));
      } else {
        assert SamePage(t, u, d, w);
      }
    }
  }

  lemma FlagsKept(e: nat)
    requires Present(e)
    ensures Flags(e) < PGSIZE && Flags(e) % 2 == 1
  {}

  /** What does not touch either tree keeps the copy. */
  lemma CopyStays(t: Vm, u: Vm, r: nat, d: nat, a: nat)
    requires r < |t.mem| == |u.mem| && d < |t.mem| && Copied(t, r, d, a) && SameSpace(t, u, r) && SameSpace(t, u, d)
    ensures Copied(u, r, d, a)
  {
    forall w: nat | w < USERPAGES ensures CopyAt(u, r, d, a, w) {
      assert CopyAt(t, r, d, a, w);
      assert SamePage(t, u, r, w) && SamePage(t, u, d, w);
    }
  }

  lemma UserGrows(o: Owners, o1: Owners, o2: Owners, o3: Owners, d: nat, a: nat, p: nat)
    requires GrewTree(o, o1, d) && p !in o1 && o2 == o1[p := Held] && Grew(o2, o3, d, {p}) && p in o3 && o3[p] == User(d, a)
    ensures GrewTree(o, o3, d)
  {}

  lemma NotBefore(o: Owners, o1: Owners, d: nat, p: nat)
    requires GrewTree(o, o1, d) && p !in o1
    ensures p !in o
  {}

  lemma CopyFails(o: Owners, o1: Owners, o3: Owners, d: nat, p: nat)
    requires GrewTree(o, o1, d) && p !in o1 && Grew(o1[p := Held], o3, d, {})
    ensures p in o3 && o3[p] == Held && GrewTree(o, o3 - {p}, d)
  {
    assert o1[p := Held][p] == Held;
  }

  /** A tree that is kept maps what it mapped. */
  lemma SourceAt(s: Vm, t: Vm, low: nat, high: nat, r: nat, w: nat)
    requires Ok(s, low, high) && Tree(s, r) && r < |t.mem| == |s.mem| && SameSpace(s, t, r) && w < USERPAGES && Present(Pte(s.mem, r, w))
    ensures Pte(t.mem, r, w) == Pte(s.mem, r, w) && Frame(Pte(s.mem, r, w)) < |s.mem|
    ensures t.mem[Frame(Pte(s.mem, r, w))] == s.mem[Frame(Pte(s.mem, r, w))]
    ensures Present(t.mem[r][w / ENTRIES])
  {
    assert SamePage(s, t, r, w);
    assert MapOk(s.mem, s.owner, r, w);
    assert Pte(t.mem, r, w) != 0;
  }
}
