/** Physical pages and the two-level page tables kept in them: every page is on the free list or in
    exactly one place of one tree, or held by the kernel for something else. */
module PageTable {
  import opened Collections

  const ENTRIES: nat := 1024
  const PGSIZE: nat := 4096
  const KERNBASE: nat := 0x8000_0000
  const USERPAGES: nat := KERNBASE / PGSIZE
  const VPAGES: nat := 0x10_0000

  const PTE_P: nat := 1
  const PTE_W: nat := 2
  const PTE_U: nat := 4

  /** PGROUNDUP, in pages. */
  function Up(size: nat): nat {
    (size + PGSIZE - 1) / PGSIZE
  }

  /** A page as 1024 words. */
  type Page = p: seq<nat> | |p| == 1024 witness seq(1024, i => 0)

  type Pages = seq<Page>

  predicate Present(e: nat) {
    e % 2 == 1
  }

  function Frame(e: nat): nat {
    e / PGSIZE
  }

  function Flags(e: nat): nat {
    e % PGSIZE
  }

  /** pa | perm | PTE_P */
  function Entry(p: nat, perm: nat): (e: nat)
    requires perm < PGSIZE
    ensures Present(e) && Frame(e) == p && Flags(e) == (if perm % 2 == 1 then perm else perm + 1)
  {
    var flags := if perm % 2 == 1 then perm else perm + 1;
    PageParts(p, flags);
    p * PGSIZE + flags
  }

  lemma PageParts(p: nat, flags: nat)
    requires flags < PGSIZE
    ensures (p * PGSIZE + flags) / PGSIZE == p && (p * PGSIZE + flags) % PGSIZE == flags
    ensures (p * PGSIZE + flags) % 2 == flags % 2
  {}

  function Zeros(): Page {
    seq(ENTRIES, i => 0)
  }

  /** What kfree fills a page with. */
  function Junk(): Page {
    seq(ENTRIES, i => 0x0101_0101)
  }

  /** The page table entry for virtual page v, 0 if its table is missing. */
  function Pte(mem: Pages, root: nat, v: nat): nat
    requires root < |mem| && v < VPAGES
  {
    var pde := mem[root][v / ENTRIES];
    if Present(pde) && Frame(pde) < |mem| then mem[Frame(pde)][v % ENTRIES] else 0
  }

  /** What a page is in use for: the directory of a tree, the table behind its entry d, the user
      page that the tree maps at v, or something else the kernel keeps track of. */
  datatype Use = Root | Table(root: nat, d: nat) | User(root: nat, v: nat) | Held

  type Owners = map<nat, Use>

  ghost predicate IsRoot(owner: Owners, r: nat) {
    r in owner && owner[r] == Root
  }

  ghost predicate UseOk(mem: Pages, owner: Owners, p: nat)
    requires p in owner
  {
    match owner[p]
    case Root => true
    case Held => true
    case Table(r, d) => IsRoot(owner, r) && r < |mem| && d < ENTRIES && Present(mem[r][d]) && Frame(mem[r][d]) == p
    case User(r, v) => IsRoot(owner, r) && r < |mem| && v < USERPAGES && Present(Pte(mem, r, v)) && Frame(Pte(mem, r, v)) == p
  }

  ghost predicate DirOk(mem: Pages, owner: Owners, r: nat, d: nat)
    requires r < |mem| && d < ENTRIES
  {
    Present(mem[r][d]) ==> Frame(mem[r][d]) in owner && owner[Frame(mem[r][d])] == Table(r, d) && Flags(mem[r][d]) == 7
  }

  ghost predicate MapOk(mem: Pages, owner: Owners, r: nat, v: nat)
    requires r < |mem| && v < VPAGES
  {
    v < USERPAGES && Present(Pte(mem, r, v)) ==> Frame(Pte(mem, r, v)) in owner && owner[Frame(Pte(mem, r, v))] == User(r, v)
  }

  /** The pages in use agree with the tables, both ways. */
  ghost predicate Trees(mem: Pages, owner: Owners) {
    && (forall p :: p in owner ==> p < |mem| && UseOk(mem, owner, p))
    && (forall r: nat, d: nat :: IsRoot(owner, r) && r < |mem| && d < ENTRIES ==> DirOk(mem, owner, r, d))
    && (forall r: nat, v: nat :: IsRoot(owner, r) && r < |mem| && v < VPAGES ==> MapOk(mem, owner, r, v))
  }

  /** Every page the allocator was given is free or in use, never both. */
  ghost predicate Conserved(free: seq<nat>, owner: Owners, low: nat, high: nat) {
    && NoDup(free)
    && (forall p :: p in free <==> low <= p < high && p !in owner)
    && (forall p :: p in owner ==> low <= p < high)
  }

  ghost predicate VmOk(mem: Pages, free: seq<nat>, owner: Owners, low: nat, high: nat) {
    0 < low && high <= |mem| && Conserved(free, owner, low, high) && Trees(mem, owner)
  }

  // ----------------------------------------------------- the free list

  lemma TakeFree(free: seq<nat>, owner: Owners, low: nat, high: nat, u: Use)
    requires Conserved(free, owner, low, high) && free != []
    ensures low <= free[0] < high && free[0] !in owner && Conserved(free[1..], owner[free[0] := u], low, high)
  {
    var p := free[0];
    assert p in free;
    forall q ensures q in free[1..] <==> low <= q < high && q !in owner[p := u] {
      if q in free && q != p {
        var i :| 0 <= i < |free| && free[i] == q;
        assert free[1..][i - 1] == q;
      }
    }
  }

  lemma GiveFree(free: seq<nat>, owner: Owners, low: nat, high: nat, p: nat)
    requires Conserved(free, owner, low, high) && p in owner
    ensures Conserved([p] + free, owner - {p}, low, high)
  {
    forall q ensures q in [p] + free <==> low <= q < high && q !in owner - {p} {}
    assert p !in free;
  }

  function Elements(free: seq<nat>): (r: set<nat>)
    ensures forall p :: p in r <==> p in free
  {
    if free == [] then {} else {free[0]} + Elements(free[1..])
  }

  lemma {:induction false} ElementsCount(free: seq<nat>)
    requires NoDup(free)
    ensures |Elements(free)| == |free|
  {
    if free != [] {
      assert free[0] !in free[1..];
      ElementsCount(free[1..]);
    }
  }

  /** Free pages and pages in use add up to all the pages there are. */
  lemma PagesAddUp(free: seq<nat>, owner: Owners, low: nat, high: nat)
    requires Conserved(free, owner, low, high) && low <= high
    ensures |free| + |owner| == high - low
  {
    ElementsCount(free);
    assert Interval(low, high) == Elements(free) + owner.Keys && Elements(free) !! owner.Keys;
    assert |owner| == |owner.Keys|;
  }

  // ------------------------------------------------------- the page tables

  /** Pages that are no directory and no table can be written freely. */
  ghost predicate Plain(owner: Owners, p: nat) {
    p !in owner || owner[p] == Held || owner[p].User?
  }

  lemma PteKept(mem: Pages, mem': Pages, owner: Owners, r: nat, v: nat)
    requires Trees(mem, owner) && IsRoot(owner, r) && r < |mem| == |mem'| && v < VPAGES
    requires forall q :: q in owner && (owner[q] == Root || owner[q].Table?) ==> q < |mem| && mem'[q] == mem[q]
    ensures Pte(mem', r, v) == Pte(mem, r, v)
  {
    assert DirOk(mem, owner, r, v / ENTRIES);
  }

  /** Stores into pages that hold no tables keep the trees. */
  lemma PlainKeeps(mem: Pages, mem': Pages, owner: Owners)
    requires Trees(mem, owner) && |mem'| == |mem|
    requires forall q :: q in owner && (owner[q] == Root || owner[q].Table?) ==> q < |mem| && mem'[q] == mem[q]
    ensures Trees(mem', owner)
    ensures forall r: nat, v: nat :: IsRoot(owner, r) && r < |mem| && v < VPAGES ==> Pte(mem', r, v) == Pte(mem, r, v)
  {
    forall r: nat, v: nat | IsRoot(owner, r) && r < |mem| && v < VPAGES ensures Pte(mem', r, v) == Pte(mem, r, v) {
      PteKept(mem, mem', owner, r, v);
    }
    forall p | p in owner ensures UseOk(mem', owner, p) {
      assert UseOk(mem, owner, p);
    }
    forall r: nat, d: nat | IsRoot(owner, r) && r < |mem| && d < ENTRIES ensures DirOk(mem', owner, r, d) {
      assert DirOk(mem, owner, r, d);
    }
    forall r: nat, v: nat | IsRoot(owner, r) && r < |mem| && v < VPAGES ensures MapOk(mem', owner, r, v) {
      assert MapOk(mem, owner, r, v);
    }
  }

  /** A page that comes into use with no place in a tree, or leaves it. */
  lemma HeldKeeps(mem: Pages, owner: Owners, owner': Owners, p: nat)
    requires Trees(mem, owner) && p < |mem| && Plain(owner, p) && !(p in owner && owner[p].User?)
    requires owner' == owner[p := Held] || owner' == owner - {p}
    ensures Trees(mem, owner')
  {
    forall q | q in owner' ensures q < |mem| && UseOk(mem, owner', q) {
      if q in owner {
        assert UseOk(mem, owner, q);
      }
    }
    forall r: nat, d: nat | IsRoot(owner', r) && r < |mem| && d < ENTRIES ensures DirOk(mem, owner', r, d) {
      assert DirOk(mem, owner, r, d);
    }
    forall r: nat, v: nat | IsRoot(owner', r) && r < |mem| && v < VPAGES ensures MapOk(mem, owner', r, v) {
      assert MapOk(mem, owner, r, v);
    }
  }

  /** walkpgdir's new table: a zeroed page behind an entry of the directory that was not present. */
  lemma TableKeeps(mem: Pages, owner: Owners, r: nat, d: nat, t: nat)
    requires Trees(mem, owner) && IsRoot(owner, r) && r < |mem| && d < ENTRIES && !Present(mem[r][d])
    requires t in owner && owner[t] == Held && t < |mem| && mem[t] == Zeros()
    ensures var mem' := mem[r := mem[r][d := Entry(t, PTE_W + PTE_U)]];
            && Trees(mem', owner[t := Table(r, d)])
            && forall q: nat, v: nat :: IsRoot(owner, q) && q < |mem| && v < VPAGES ==> Pte(mem', q, v) == Pte(mem, q, v)
  {
    var mem', owner' := mem[r := mem[r][d := Entry(t, PTE_W + PTE_U)]], owner[t := Table(r, d)];
    forall q: nat, v: nat | IsRoot(owner, q) && q < |mem| && v < VPAGES ensures Pte(mem', q, v) == Pte(mem, q, v) {
      assert DirOk(mem, owner, q, v / ENTRIES);
    }
    forall p | p in owner' ensures p < |mem| && UseOk(mem', owner', p) {
      assert UseOk(mem, owner, p);
    }
    forall q: nat, e: nat | IsRoot(owner', q) && q < |mem| && e < ENTRIES ensures DirOk(mem', owner', q, e) {
      assert DirOk(mem, owner, q, e);
    }
    forall q: nat, v: nat | IsRoot(owner', q) && q < |mem| && v < VPAGES ensures MapOk(mem', owner', q, v) {
      assert MapOk(mem, owner, q, v);
    }
  }

  /** Two virtual pages share a table and an index in it only if they are the same page. */
  lemma SameEntry(v: nat, w: nat)
    requires v / ENTRIES == w / ENTRIES && v % ENTRIES == w % ENTRIES
    ensures v == w
  {}

  /** The one entry that a store into a table changes. */
  lemma PteStored(mem: Pages, owner: Owners, r: nat, v: nat, e: nat, q: nat, w: nat)
    requires Trees(mem, owner) && IsRoot(owner, r) && r < |mem| && v < VPAGES && Present(mem[r][v / ENTRIES])
    requires IsRoot(owner, q) && q < |mem| && w < VPAGES
    ensures var t := Frame(mem[r][v / ENTRIES]);
            && t < |mem| && t in owner && owner[t] == Table(r, v / ENTRIES)
            && var mem' := mem[t := mem[t][v % ENTRIES := e]];
            && Pte(mem', q, w) == (if q == r && w == v then e else Pte(mem, q, w))
            && mem'[q] == mem[q]
  {
    assert DirOk(mem, owner, r, v / ENTRIES) && DirOk(mem, owner, q, w / ENTRIES);
    if q == r && w / ENTRIES == v / ENTRIES && w % ENTRIES == v % ENTRIES {
      SameEntry(v, w);
    }
  }

  /** mappages on one user page, held until now. */
  lemma MapKeeps(mem: Pages, owner: Owners, r: nat, v: nat, p: nat, perm: nat)
    requires Trees(mem, owner) && IsRoot(owner, r) && r < |mem| && v < USERPAGES && Present(mem[r][v / ENTRIES])
    requires !Present(Pte(mem, r, v)) && p in owner && owner[p] == Held && perm < PGSIZE
    ensures var t := Frame(mem[r][v / ENTRIES]);
            t < |mem| && t in owner && Trees(mem[t := mem[t][v % ENTRIES := Entry(p, perm)]], owner[p := User(r, v)])
  {
    PteStored(mem, owner, r, v, Entry(p, perm), r, v);
    var t := Frame(mem[r][v / ENTRIES]);
    var mem', owner' := mem[t := mem[t][v % ENTRIES := Entry(p, perm)]], owner[p := User(r, v)];
    forall q | q in owner' ensures q < |mem| && UseOk(mem', owner', q) {
      assert UseOk(mem, owner, q);
      if owner[q].User? {
        PteStored(mem, owner, r, v, Entry(p, perm), owner[q].root, owner[q].v);
      } else if owner[q].Table? {
        PteStored(mem, owner, r, v, Entry(p, perm), owner[q].root, 0);
      }
    }
    forall q: nat, d: nat | IsRoot(owner', q) && q < |mem| && d < ENTRIES ensures DirOk(mem', owner', q, d) {
      PteStored(mem, owner, r, v, Entry(p, perm), q, 0);
      assert DirOk(mem, owner, q, d);
    }
    forall q: nat, w: nat | IsRoot(owner', q) && q < |mem| && w < VPAGES ensures MapOk(mem', owner', q, w) {
      PteStored(mem, owner, r, v, Entry(p, perm), q, w);
      assert MapOk(mem, owner, q, w);
    }
  }

  /** mappages on one kernel page: it belongs to no tree. */
  lemma KernelMapKeeps(mem: Pages, owner: Owners, r: nat, v: nat, e: nat)
    requires Trees(mem, owner) && IsRoot(owner, r) && r < |mem| && USERPAGES <= v < VPAGES && Present(mem[r][v / ENTRIES])
    ensures var t := Frame(mem[r][v / ENTRIES]);
            t < |mem| && t in owner && Trees(mem[t := mem[t][v % ENTRIES := e]], owner)
  {
    PteStored(mem, owner, r, v, e, r, v);
    var t := Frame(mem[r][v / ENTRIES]);
    var mem' := mem[t := mem[t][v % ENTRIES := e]];
    forall q | q in owner ensures q < |mem| && UseOk(mem', owner, q) {
      assert UseOk(mem, owner, q);
      if owner[q].User? {
        PteStored(mem, owner, r, v, e, owner[q].root, owner[q].v);
      } else if owner[q].Table? {
        PteStored(mem, owner, r, v, e, owner[q].root, 0);
      }
    }
    forall q: nat, d: nat | IsRoot(owner, q) && q < |mem| && d < ENTRIES ensures DirOk(mem', owner, q, d) {
      PteStored(mem, owner, r, v, e, q, 0);
      assert DirOk(mem, owner, q, d);
    }
    forall q: nat, w: nat | IsRoot(owner, q) && q < |mem| && w < VPAGES ensures MapOk(mem', owner, q, w) {
      PteStored(mem, owner, r, v, e, q, w);
      assert MapOk(mem, owner, q, w);
    }
  }

  /** deallocuvm on one mapped page: its entry is cleared and the page is held again. */
  lemma UnmapKeeps(mem: Pages, owner: Owners, r: nat, v: nat)
    requires Trees(mem, owner) && IsRoot(owner, r) && r < |mem| && v < USERPAGES && Present(Pte(mem, r, v))
    ensures var t, p := Frame(mem[r][v / ENTRIES]), Frame(Pte(mem, r, v));
            && t < |mem| && t in owner && p in owner && owner[p] == User(r, v) && t != p
            && Trees(mem[t := mem[t][v % ENTRIES := 0]], owner[p := Held])
  {
    assert MapOk(mem, owner, r, v);
    PteStored(mem, owner, r, v, 0, r, v);
    var t, p := Frame(mem[r][v / ENTRIES]), Frame(Pte(mem, r, v));
    var mem', owner' := mem[t := mem[t][v % ENTRIES := 0]], owner[p := Held];
    forall q | q in owner' ensures q < |mem| && UseOk(mem', owner', q) {
      assert UseOk(mem, owner, q);
      if owner[q].User? {
        PteStored(mem, owner, r, v, 0, owner[q].root, owner[q].v);
      } else if owner[q].Table? {
        PteStored(mem, owner, r, v, 0, owner[q].root, 0);
      }
    }
    forall q: nat, d: nat | IsRoot(owner', q) && q < |mem| && d < ENTRIES ensures DirOk(mem', owner', q, d) {
      PteStored(mem, owner, r, v, 0, q, 0);
      assert DirOk(mem, owner, q, d);
    }
    forall q: nat, w: nat | IsRoot(owner', q) && q < |mem| && w < VPAGES ensures MapOk(mem', owner', q, w) {
      PteStored(mem, owner, r, v, 0, q, w);
      assert MapOk(mem, owner, q, w);
    }
  }

  /** A held zeroed page becomes the directory of an empty tree. */
  lemma RootKeeps(mem: Pages, owner: Owners, r: nat)
    requires Trees(mem, owner) && r in owner && owner[r] == Held && r < |mem| && mem[r] == Zeros()
    ensures Trees(mem, owner[r := Root]) && forall v :: 0 <= v < VPAGES ==> Pte(mem, r, v) == 0
  {
    var owner' := owner[r := Root];
    forall p | p in owner' ensures UseOk(mem, owner', p) {
      assert UseOk(mem, owner, p);
    }
    forall q: nat, d: nat | IsRoot(owner', q) && q < |mem| && d < ENTRIES ensures DirOk(mem, owner', q, d) {
      if q != r {
        assert DirOk(mem, owner, q, d);
      }
    }
    forall q: nat, v: nat | IsRoot(owner', q) && q < |mem| && v < VPAGES ensures MapOk(mem, owner', q, v) {
      if q != r {
        assert MapOk(mem, owner, q, v);
      }
    }
  }

  /** The directory and the tables of a tree, no longer part of one. */
  ghost function Loosened(owner: Owners, r: nat): Owners {
    map p | p in owner :: if p == r || (owner[p].Table? && owner[p].root == r) then Held else owner[p]
  }

  /** freevm, once every user page is gone: nothing in another tree depends on this one. */
  lemma LoosenKeeps(mem: Pages, owner: Owners, r: nat)
    requires Trees(mem, owner) && IsRoot(owner, r) && r < |mem| && forall v :: 0 <= v < USERPAGES ==> !Present(Pte(mem, r, v))
    ensures Trees(mem, Loosened(owner, r))
    ensures forall p :: p in owner ==> !(owner[p].User? && owner[p].root == r)
  {
    var owner' := Loosened(owner, r);
    forall p | p in owner ensures UseOk(mem, owner', p) && !(owner[p].User? && owner[p].root == r) {
      assert UseOk(mem, owner, p);
    }
    forall q: nat, d: nat | IsRoot(owner', q) && q < |mem| && d < ENTRIES ensures DirOk(mem, owner', q, d) {
      assert DirOk(mem, owner, q, d);
    }
    forall q: nat, v: nat | IsRoot(owner', q) && q < |mem| && v < VPAGES ensures MapOk(mem, owner', q, v) {
      assert MapOk(mem, owner, q, v);
    }
  }
}
