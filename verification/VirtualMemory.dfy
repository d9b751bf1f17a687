/** kalloc.c and vm.c as they run: the free list, and page tables filled, copied and torn down in
    place. A method's first result is 0 or false where the kernel's is 0 or -1. */
module VirtualMemory {
  import opened Collections
  import opened Param
  import opened PageTable
  import opened VmModel
  import opened Mmu

  /** The range of the kernel map: where it starts, the physical page that goes with its first page,
      how many pages, and their permission. */
  datatype Range = Range(virt: nat, phys: nat, count: nat, perm: nat)

  /** The tables of a range, and of some. */
  function RangeSpan(range: Range): set<nat> {
    Span(range.virt, range.virt + range.count)
  }

  function SpanTo(ranges: seq<Range>, k: nat): set<nat>
    requires k <= |ranges|
  {
    if k == 0 then {} else SpanTo(ranges, k - 1) + RangeSpan(ranges[k - 1])
  }

  /** The kernel map: I/O space, text, data and free memory, devices. */
  function KernelMap(data: nat): (r: seq<Range>)
    requires 0x100 < data < 0xE000
    ensures |r| == 4
  {
    [Range(USERPAGES, 0, 0x100, PTE_W), Range(USERPAGES + 0x100, 0x100, data - 0x100, 0),
     Range(USERPAGES + data, data, 0xE000 - data, PTE_W), Range(0xFE000, 0xFE000, VPAGES - 0xFE000, PTE_W)]
  }

  /** Where the first k ranges end. */
  function RangeEnd(data: nat, k: nat): nat
    requires 0x100 < data < 0xE000 && k <= 4
  {
    if k == 0 then USERPAGES else KernelMap(data)[k - 1].virt + KernelMap(data)[k - 1].count
  }

  /** What mappages does: it returns 0, or -1 for want of a page, or panics with "remap". */
  datatype Outcome = Success | NoMemory | Panic

  class Memory {
    const low: nat              // the first page after the kernel
    const high: nat             // PHYSTOP in pages
    const data: nat             // V2P(data) in pages
    var mem: Pages
    var freelist: seq<nat>
    ghost var owner: Owners

    ghost function S(): Vm
      reads this
    {
      Vm(mem, freelist, owner)
    }

    ghost predicate Valid()
      reads this
    {
      Ok(S(), low, high) && 0x100 < data < 0xE000
    }

    /** kinit1 and kinit2 on a machine with nothing in use: freerange frees every page up to PHYSTOP. */
    constructor (low: nat, high: nat, data: nat, mem: Pages)
      requires 0 < low <= high <= |mem| && 0x100 < data < 0xE000
      ensures Valid() && owner == map[] && this.low == low && this.high == high
      ensures forall p :: p in freelist <==> low <= p < high
    {
      this.low, this.high, this.data, this.mem := low, high, data, mem;
      this.freelist, this.owner := [], map[];
      new;
      var p := low;
      while p < high
        invariant low <= p <= high && owner == map[] && this.low == low && this.high == high && this.data == data && |this.mem| == |mem|
        invariant NoDup(freelist) && forall q :: q in freelist <==> low <= q < p
      {
        assert p !in freelist;
        this.mem := this.mem[p := Junk()];
        freelist := [p] + freelist;
        p := p + 1;
      }
    }

    /** A page, or 0 if there is none. */
    method Kalloc() returns (p: nat)
      requires Valid()
      modifies this`freelist, this`owner
      ensures Valid() && Kept(old(S()), S(), {}, {})
      ensures p == 0 <==> old(freelist) == []
      ensures p == 0 ==> S() == old(S())
      ensures p != 0 ==> low <= p < high <= |mem| && p !in old(owner) && owner == old(owner)[p := Held]
      ensures p != 0 ==> old(freelist) == [p] + freelist
    {
      if freelist == [] {
        KeptSelf(S());
        return 0;
      }
      TakeStep(S(), low, high);
      p := freelist[0];
      freelist := freelist[1..];
      owner := owner[p := Held];
    }

    /** Gives back a page that the kernel holds. */
    method Kfree(p: nat)
      requires Valid() && p in owner && owner[p] == Held
      modifies this`mem, this`freelist, this`owner
      ensures Valid() && Kept(old(S()), S(), {}, {p}) && owner == old(owner) - {p} && freelist == [p] + old(freelist)
    {
      FreeStep(S(), low, high, p);
      PutBack(p);
      owner := owner - {p};
    }

    /** kfree's stores: the page filled with junk, and first on the free list. */
    method PutBack(p: nat)
      requires p < |mem|
      modifies this`mem, this`freelist
      ensures mem == old(mem)[p := Junk()] && freelist == [p] + old(freelist)
    {
      mem := mem[p := Junk()];
      freelist := [p] + freelist;
    }

    /** memset or memmove into a page the kernel holds. */
    method Fill(p: nat, contents: Page)
      requires Valid() && p in owner && owner[p] == Held
      modifies this`mem
      ensures Valid() && Kept(old(S()), S(), {}, {p}) && p < |mem| && mem == old(mem)[p := contents]
    {
      WriteStep(S(), low, high, p, contents);
      mem := mem[p := contents];
    }

    /** walkpgdir: the table that has the entry for virtual page v, made if alloc says so; 0 if there
        is none. */
    method WalkPgdir(root: nat, v: nat, alloc: bool) returns (pgtab: nat)
      requires Valid() && Tree(S(), root) && v < VPAGES
      modifies this`mem, this`freelist, this`owner
      ensures Valid() && Tree(S(), root) && Kept(old(S()), S(), {}, {})
      ensures pgtab == 0 ==> S() == old(S()) && !Present(mem[root][v / ENTRIES]) && (alloc ==> freelist == [])
      ensures pgtab != 0 ==> Present(mem[root][v / ENTRIES]) && pgtab == Frame(mem[root][v / ENTRIES]) < |mem| && pgtab in owner
      ensures !alloc || old(Present(mem[root][v / ENTRIES])) ==> S() == old(S())
      ensures |mem| == old(|mem|) && (pgtab != 0 ==> Drew(old(S()), S(), root, {v / ENTRIES}, 0))
      ensures owner.Keys == old(owner.Keys) || (pgtab !in old(owner) && owner == old(owner)[pgtab := Table(root, v / ENTRIES)])
      ensures forall p :: p in old(owner) ==> p in owner && owner[p] == old(owner)[p]
    {
      KeptSelf(S());
      TableOwned(root, v / ENTRIES);
      var pde := mem[root][v / ENTRIES];
      if Present(pde) {
        DrewOld(S(), root, v / ENTRIES);
        return Frame(pde);
      }
      if !alloc {
        return 0;
      }
      pgtab := MakeTable(root, v / ENTRIES);
    }

    lemma TableOwned(root: nat, d: nat)
      requires Valid() && Tree(S(), root) && d < ENTRIES
      ensures Present(mem[root][d]) ==> low <= Frame(mem[root][d]) < |mem| && owner.Keys >= {Frame(mem[root][d])}
      ensures low > 0
    {
      assert DirOk(mem, owner, root, d);
    }

    /** walkpgdir when the table is missing. */
    method MakeTable(root: nat, d: nat) returns (pgtab: nat)
      requires Valid() && Tree(S(), root) && d < ENTRIES && !Present(mem[root][d])
      modifies this`mem, this`freelist, this`owner
      ensures Valid() && Tree(S(), root) && Kept(old(S()), S(), {}, {})
      ensures pgtab == 0 ==> S() == old(S()) && freelist == []
      ensures pgtab != 0 ==> Present(mem[root][d]) && pgtab == Frame(mem[root][d]) < |mem|
                             && pgtab !in old(owner) && owner == old(owner)[pgtab := Table(root, d)]
      ensures |mem| == old(|mem|) && (pgtab != 0 ==> Drew(old(S()), S(), root, {d}, 0))
    {
      hide Kept, Ok, Drew;
      ghost var s0 := S();
      pgtab := Kalloc();
      if pgtab != 0 {
        ghost var s1 := S();
        Fill(pgtab, Zeros());
        KeptFresh(s0, s1, S(), {}, pgtab);
        NewTable(root, d, pgtab, s0);
        DrewTable(s0, S(), root, d, mem[root][d]);
      }
    }

    /** The body of mappages's loop: one entry, in a table made if need be. A user page comes from the
        kernel's hands into the tree. */
    method MapPage(root: nat, v: nat, p: nat, perm: nat) returns (r: Outcome)
      requires Valid() && Tree(S(), root) && v < VPAGES && perm < PGSIZE
      requires v < USERPAGES ==> p in owner && owner[p] == Held
      modifies this`mem, this`freelist, this`owner
      ensures Valid() && Tree(S(), root) && |mem| == old(|mem|)
      ensures r == Panic <==> Present(old(Pte(mem, root, v)))
      ensures r == Panic ==> S() == old(S())
      ensures r == NoMemory ==> freelist == [] && Kept(old(S()), S(), {}, {}) && Grew(old(owner), owner, root, {})
      ensures r == Success ==> OneEntry(old(S()), S(), root, v, Entry(p, perm))
      ensures r == Success ==> Kept(old(S()), S(), {root}, Handed(v, p))
      ensures r == Success ==> Grew(old(owner), owner, root, Handed(v, p))
      ensures r == Success && v < USERPAGES ==> p in owner && owner[p] == User(root, v) && p < |mem| && mem[p] == old(mem)[p]
      ensures r == Success ==> Drew(old(S()), S(), root, {v / ENTRIES}, 0)
      ensures r == NoMemory ==> Short(old(S()), root, {v / ENTRIES}, 0)
    {
      hide Kept, Ok, Trees, VmOk, SameSpace, OneEntry, Drew, Short, Tables, Grew, Handed;
      ghost var s0 := S();
      GrewNot(owner, root);
      InRange(p);
      var pgtab := WalkPgdir(root, v, true);
      if pgtab == 0 {
        ShortTable(s0, root, v / ENTRIES);
        return NoMemory;
      }
      ghost var s1 := S();
      TreeStays(s0, s1, {}, {}, root);
      SameEntries(s0, s1, root, v);
      if Present(mem[pgtab][v % ENTRIES]) {
        return Panic;
      }
      if v < USERPAGES {
        HeldStays(s0, s1, {}, {}, p);
      }
      StoreEntry(root, v, p, perm, pgtab);
      EntryMade(s0, s1, S(), root, v, p, Entry(p, perm), pgtab);
      return Success;
    }

    /** An entry stored after the table for it was found or made. */
    lemma EntryMade(s0: Vm, s1: Vm, s2: Vm, root: nat, v: nat, p: nat, e: nat, pgtab: nat)
      requires root < |s0.mem| == |s1.mem| == |s2.mem| && v < VPAGES && Kept(s0, s1, {}, {}) && SameSpace(s0, s1, root)
      requires s1.owner.Keys == s0.owner.Keys || (pgtab !in s0.owner && s1.owner == s0.owner[pgtab := Table(root, v / ENTRIES)])
      requires forall q :: q in s0.owner ==> q in s1.owner && s1.owner[q] == s0.owner[q]
      requires v < USERPAGES ==> p in s0.owner
      requires OneEntry(s1, s2, root, v, e) && Kept(s1, s2, {root}, Handed(v, p)) && s2.mem[root] == s1.mem[root] && s2.free == s1.free
      requires s2.owner == if v < USERPAGES then s1.owner[p := User(root, v)] else s1.owner
      requires Drew(s0, s1, root, {v / ENTRIES}, 0)
      ensures OneEntry(s0, s2, root, v, e) && Kept(s0, s2, {root}, Handed(v, p)) && Drew(s0, s2, root, {v / ENTRIES}, 0)
      ensures Grew(s0.owner, s2.owner, root, Handed(v, p))
    {
      hide Kept, SameSpace, OneEntry, Drew, Short, Tables, Grew, Handed;
      EntryAfter(s0, s1, s2, root, v, e);
      DrewPages(s0, s1, s2, root, {v / ENTRIES}, 0, 0);
      KeptWider(s0, s1, {}, {}, {root}, Handed(v, p));
      KeptTwice(s0, s1, s2, {root}, Handed(v, p));
      GrewEntry(s0.owner, s1.owner, s2.owner, root, v, pgtab, p);
    }

    /** mappages's store of an entry. */
    method StoreEntry(root: nat, v: nat, p: nat, perm: nat, pgtab: nat)
      requires Valid() && Tree(S(), root) && v < VPAGES && perm < PGSIZE && !Present(Pte(mem, root, v))
      requires Present(mem[root][v / ENTRIES]) && pgtab == Frame(mem[root][v / ENTRIES])
      requires v < USERPAGES ==> p in owner && owner[p] == Held
      modifies this`mem, this`owner
      ensures Valid() && Tree(S(), root) && |mem| == old(|mem|) && mem[root] == old(mem)[root]
      ensures OneEntry(old(S()), S(), root, v, Entry(p, perm)) && Kept(old(S()), S(), {root}, Handed(v, p))
      ensures owner == if v < USERPAGES then old(owner)[p := User(root, v)] else old(owner)
      ensures v < USERPAGES ==> p < |mem| && mem[p] == old(mem)[p]
    {
      hide Kept, SameSpace, OneEntry;
      ghost var s1 := S();
      NotRoot(s1, low, high, root, v / ENTRIES);
      if v < USERPAGES {
        MapStep(s1, low, high, root, v, p, perm);
        mem := mem[pgtab := mem[pgtab][v % ENTRIES := Entry(p, perm)]];
        owner := owner[p := User(root, v)];
      } else {
        KernelMapStep(s1, low, high, root, v, Entry(p, perm));
        mem := mem[pgtab := mem[pgtab][v % ENTRIES := Entry(p, perm)]];
        KeptWider(s1, S(), {root}, {}, {root}, {});
      }
    }

    lemma InRange(p: nat)
      requires Valid()
      ensures p in owner ==> 0 < low <= p < high <= |mem|
    {}

    /** mappages: n entries from v on for consecutive pages from p on. It panics at an entry that is
        there already, and gives up when a table is needed and there is no page for it. */
    method MapPages(root: nat, v: nat, n: nat, p: nat, perm: nat) returns (r: Outcome)
      requires Valid() && Tree(S(), root) && 0 < n && v + n <= VPAGES && perm < PGSIZE
      requires v < USERPAGES ==> n == 1 && p in owner && owner[p] == Held
      modifies this`mem, this`freelist, this`owner
      ensures Valid() && Tree(S(), root) && |mem| == old(|mem|)
      ensures Kept(old(S()), S(), {root}, Handed(v, p))
      ensures Grew(old(owner), owner, root, Handed(v, p))
      ensures r == Success <==> Maps(old(S()), root, v, n)
      ensures r == NoMemory <==> Starves(old(S()), root, v, n)
      ensures r == Panic <==> Collides(old(S()), root, v, n)
      ensures r == Success ==> Mapped(old(S()), S(), root, v, n, p, perm)
      ensures r == Success ==> Drew(old(S()), S(), root, Span(v, v + n), 0)
      ensures r == Success && v < USERPAGES ==> p in owner && owner[p] == User(root, v) && p < |mem| && mem[p] == old(mem)[p]
      ensures r == NoMemory ==> freelist == [] && exists i: nat :: i < n && Starved(old(S()), root, v, i, 0) && Mapped(old(S()), S(), root, v, i, p, perm)
      ensures r == NoMemory ==> Short(old(S()), root, Span(v, v + n), 0)
      ensures r == NoMemory && v < USERPAGES ==> Kept(old(S()), S(), {}, {}) && Grew(old(owner), owner, root, {})
    {
      hide Kept, Ok, SameSpace, OneEntry, Drew, Short, Span, Grew, Mapped, Trees, Mapping, Vacant, Starved, Blocked;
      ghost var s0 := S();
      ghost var pages := Handed(v, p);
      OneWay(s0, root, v, n);
      MappingStart(s0, root, v, p, perm, pages);
      var i := 0;
      while i < n
        invariant 0 <= i <= n && Valid() && Tree(S(), root) && |mem| == |s0.mem|
        invariant Mapping(s0, S(), root, v, i, p, perm, pages)
        invariant v < USERPAGES ==> if i == 0 then S() == s0 else p in owner && owner[p] == User(root, v) && p < |mem| && mem[p] == s0.mem[p]
      {
        ghost var s1 := S();
        MappingAbove(s0, s1, root, v, i, p, perm, pages);
        r := MapPage(root, v + i, p + i, perm);
        if r == NoMemory {
          MappingFailed(s0, s1, S(), root, v, i, n, p, perm, pages);
          return;
        }
        if r == Panic {
          MappingBlocked(s0, s1, root, v, i, p, perm, pages);
          return;
        }
        MappingMore(s0, s1, S(), root, v, i, p, perm, pages);
        i := i + 1;
      }
      MappingDone(s0, S(), root, v, n, p, perm, pages);
      NotShort(s0, S(), root, Span(v, v + n), 0);
      return Success;
    }

    /** deallocuvm: exactly the user pages from newsz on and below oldsz are unmapped and freed, though
        the loop skips over tables that are missing. */
    method DeallocUvm(root: nat, oldsz: nat, newsz: nat) returns (size: nat)
      requires Valid() && Tree(S(), root) && oldsz <= KERNBASE
      modifies this`mem, this`freelist, this`owner
      ensures Valid() && Tree(S(), root) && |mem| == old(|mem|) && Kept(old(S()), S(), {root}, {})
      ensures size == if newsz >= oldsz then oldsz else newsz
      ensures Cleared(old(S()), S(), root, Up(newsz), Up(oldsz), Up(oldsz))
      ensures owner == Dropped(old(owner), root, Up(newsz), Up(oldsz))
      ensures forall v: nat :: (newsz + 4095) / 4096 <= v < (oldsz + 4095) / 4096 ==> Translate(mem, root, v) == NoAccess
    {
      hide Kept, Ok, Cleared, Dropped, Translate;
      ghost var s0, from, to := S(), Up(newsz), Up(oldsz);
      KeptSelf(s0);
      KeptWider(s0, s0, {}, {}, {root}, {});
      ClearedNone(s0, root, from, to);
      if newsz >= oldsz {
        ClearedEmpty(s0, root, from, to);
        UpRises(oldsz, newsz);
        return oldsz;
      }
      var a := Up(newsz);
      UpBound(oldsz, newsz);
      while a * PGSIZE < oldsz
        invariant from <= a <= USERPAGES && Valid() && Tree(S(), root) && |mem| == |s0.mem|
        invariant Cleared(s0, S(), root, from, a, to) && owner == Dropped(s0.owner, root, from, Min(a, to))
        invariant Kept(s0, S(), {root}, {})
        decreases USERPAGES - a
      {
        a := DeallocStep(root, a, s0, from, to);
      }
      ClearedDone(s0, S(), low, high, root, from, a, to);
      UpBound(KERNBASE, oldsz);
      ClearedSeen(s0, S(), low, high, root, from, to);
      return newsz;
    }

    /** deallocuvm's release of one mapped page. */
    method FreePage(root: nat, a: nat, pgtab: nat, pte: nat)
      requires Valid() && Tree(S(), root) && a < USERPAGES && Present(mem[root][a / ENTRIES]) && pgtab == Frame(mem[root][a / ENTRIES])
      requires pte == Pte(mem, root, a) && Present(pte)
      modifies this`mem, this`freelist, this`owner
      ensures Valid() && Tree(S(), root) && |mem| == old(|mem|) && Kept(old(S()), S(), {root}, {})
      ensures OneEntry(old(S()), S(), root, a, 0) && owner == old(owner) - {Frame(pte)}
    {
      hide Kept, Ok, Trees;
      ghost var s1 := S();
      UnmappedStep(s1, low, high, root, a);
      // panic("kfree") for physical page 0 is not reached
      PutBack(Frame(pte));
      mem := mem[pgtab := mem[pgtab][a % ENTRIES := 0]];
      owner := owner - {Frame(pte)};
      assert mem == Unmapped(s1, root, a).mem;
      assert S() == Unmapped(s1, root, a);
    }

    /** The body of deallocuvm's loop. */
    method DeallocStep(root: nat, a: nat, ghost s0: Vm, ghost from: nat, ghost to: nat) returns (next: nat)
      requires Valid() && Tree(S(), root) && from <= a < to <= USERPAGES && |mem| == |s0.mem| && root < |s0.mem|
      requires Cleared(s0, S(), root, from, a, to) && owner == Dropped(s0.owner, root, from, a) && Kept(s0, S(), {root}, {})
      modifies this`mem, this`freelist, this`owner
      ensures a < next <= USERPAGES && Valid() && Tree(S(), root) && |mem| == |s0.mem|
      ensures Cleared(s0, S(), root, from, next, to) && owner == Dropped(s0.owner, root, from, Min(next, to))
      ensures Kept(s0, S(), {root}, {})
    {
      hide Kept, Ok, Cleared, Dropped, Trees, OneEntry;
      var pgtab := WalkPgdir(root, a, false);
      ghost var s1 := S();
      if pgtab == 0 {
        next := (a / ENTRIES + 1) * ENTRIES;
        forall w: nat | a <= w < next ensures !Present(Pte(mem, root, w)) {
          MissingTable(s1, root, a, w);
        }
        ClearedSkip(s0, s1, low, high, root, from, a, next, to);
      } else {
        next := a + 1;
        var pte := mem[pgtab][a % ENTRIES];
        if Present(pte) {
          FreePage(root, a, pgtab, pte);
          ClearedOne(s0, s1, S(), low, high, root, from, a, to);
          KeptTwice(s0, s1, S(), {root}, {});
        } else {
          ClearedSkip(s0, s1, low, high, root, from, a, next, to);
        }
      }
    }

    /** allocuvm: zeroed user pages up to newsz, the new size; or 0, with the mappings as they were and
        every page but new tables back on the free list; or a panic at a page that is mapped already. */
    method AllocUvm(root: nat, oldsz: nat, newsz: nat) returns (ok: bool, size: nat)
      requires Valid() && Tree(S(), root) && oldsz <= KERNBASE && newsz < U32
      modifies this`mem, this`freelist, this`owner
      ensures Valid() && Tree(S(), root) && |mem| == old(|mem|) && Kept(old(S()), S(), {root}, {})
      ensures ok ==> size == if newsz >= KERNBASE then 0 else if newsz < oldsz then oldsz else if size == 0 then 0 else newsz
      ensures newsz >= KERNBASE || newsz < oldsz ==> ok && S() == old(S())
      ensures oldsz <= newsz < KERNBASE ==>
                && Up(oldsz) <= Up(newsz) <= VPAGES
                && (ok && size == newsz <==> Allocates(old(S()), root, Up(oldsz), Up(newsz)))
                && (ok && size != newsz <==> RunsOutBefore(old(S()), root, Up(oldsz), Up(newsz)))
                && (!ok <==> RemapsBefore(old(S()), root, Up(oldsz), Up(newsz)))
      ensures ok && oldsz <= newsz < KERNBASE && size == newsz ==>
                && ZeroFilled(old(S()), S(), root, Up(oldsz), Up(newsz)) && GrewRun(old(owner), owner, root, Up(oldsz), Up(newsz))
                && Drew(old(S()), S(), root, Span(Up(oldsz), Up(newsz)), Up(newsz) - Up(oldsz))
      ensures ok && oldsz <= newsz < KERNBASE && size != newsz && Vacant(old(S()), root, Up(oldsz), Up(newsz) - Up(oldsz)) ==>
                SameMappings(old(S()), S(), root) && Grew(old(owner), owner, root, {})
      ensures ok && oldsz <= newsz < KERNBASE && size != newsz ==>
                && GaveBack(old(S()), S(), root, Up(oldsz), Up(newsz)) && Short(old(S()), root, Span(Up(oldsz), Up(newsz)), Up(newsz) - Up(oldsz))
      ensures ok && oldsz <= newsz < KERNBASE && size == newsz ==>
                forall v: nat :: (oldsz + 4095) / 4096 <= v < (newsz + 4095) / 4096 ==> ZeroedForUser(mem, root, v)
    {
      hide ZeroedForUser, Kept, Ok, ZeroFilled, SameMappings, GrewRun, Grew, Drew, Short, Span, Vacant, OutOfPages, Remaps, GaveBack;
      ok := true;
      ghost var s0 := S();
      DrewNone(s0, root, Up(oldsz));
      KeptSelf(s0);
      KeptWider(s0, s0, {}, {}, {root}, {});
      NothingGrown(s0, root, Up(oldsz));
      if newsz >= KERNBASE {
        return true, 0;
      }
      if newsz < oldsz {
        return true, oldsz;
      }
      UpBound(KERNBASE, newsz);
      UpBound(newsz, oldsz);
      ghost var from, to := Up(oldsz), Up(newsz);
      VacantNone(s0, root, from);
      OneWayToAllocate(s0, root, from, to);
      var a := Up(oldsz);
      while a * PGSIZE < newsz
        invariant from <= a <= USERPAGES && (a <= to || a == from) && Valid() && Tree(S(), root) && |mem| == |s0.mem|
        invariant ZeroFilled(s0, S(), root, from, a) && GrewRun(s0.owner, owner, root, from, a)
        invariant Kept(s0, S(), {root}, {}) && Drew(s0, S(), root, Span(from, a), a - from) && Vacant(s0, root, from, a - from)
        decreases USERPAGES - a
      {
        var r := AllocStep(root, oldsz, newsz, a, s0);
        if r == Panic {
          return false, 0;
        }
        if r == NoMemory {
          AllocFailed(s0, S(), low, high, root, from, a, to);
          return true, 0;
        }
        a := a + 1;
      }
      assert a == to || (a == from && to < from);
      if newsz == 0 {
        assert a == from == 0;
        NothingFilled(s0, S(), root);
      }
      NotShort(s0, S(), root, Span(from, to), to - from);
      FilledSeen(s0, S(), low, high, root, from, to);
      return true, newsz;
    }

    /** The body of allocuvm's loop, its failures included. */
    method AllocStep(root: nat, oldsz: nat, newsz: nat, a: nat, ghost s0: Vm) returns (r: Outcome)
      requires Valid() && Tree(S(), root) && oldsz <= newsz < KERNBASE && Up(oldsz) <= a < Up(newsz) <= USERPAGES
      requires |mem| == |s0.mem| && root < |s0.mem| && Kept(s0, S(), {root}, {}) && Vacant(s0, root, Up(oldsz), a - Up(oldsz))
      requires ZeroFilled(s0, S(), root, Up(oldsz), a) && GrewRun(s0.owner, owner, root, Up(oldsz), a)
      requires Drew(s0, S(), root, Span(Up(oldsz), a), a - Up(oldsz))
      modifies this`mem, this`freelist, this`owner
      ensures Valid() && Tree(S(), root) && |mem| == |s0.mem| && Kept(s0, S(), {root}, {})
      ensures r == Success ==> ZeroFilled(s0, S(), root, Up(oldsz), a + 1) && GrewRun(s0.owner, owner, root, Up(oldsz), a + 1)
      ensures r == Success ==> Drew(s0, S(), root, Span(Up(oldsz), a + 1), a + 1 - Up(oldsz)) && Vacant(s0, root, Up(oldsz), a + 1 - Up(oldsz))
      ensures r == NoMemory ==> GaveBack(s0, S(), root, Up(oldsz), Up(newsz)) && OutOfPages(s0, root, Up(oldsz), a)
      ensures r == Panic ==> Remaps(s0, root, Up(oldsz), a)
    {
      hide Kept, Ok, ZeroFilled, GrewRun, Grew, Dropped, Cleared, InRun, Drew, Short, Span, Vacant;
      ghost var from, to, t := Up(oldsz), Up(newsz), S();
      var page := Kalloc();
      ghost var t1 := S();
      if page == 0 {
        NoneLeft(s0, t, root, from, a, a + 1);
        var size := DeallocUvm(root, newsz, oldsz);
        ZeroUndone(s0, t, S(), root, from, a, to);
        GrewDropped(s0.owner, t.owner, root, from, a, to);
        KeptTwice(s0, t, S(), {root}, {});
        return NoMemory;
      }
      FreshPage(s0.owner, t.owner, root, from, a, page);
      TreeStays(t, t1, {}, {}, root);
      Fill(page, Zeros());
      ghost var t2 := S();
      TreeStays(t1, t2, {}, {page}, root);
      SpaceTwice(t, t1, t2, root);
      ZeroStays(s0, t, t2, root, from, a);
      KeptPage(s0, t, t1, t2, root, page);
      DrewPages(s0, t, t2, root, Span(from, a), a - from, 1);
      r := MapFilled(root, oldsz, newsz, a, page, s0, t);
    }

    /** allocuvm's mappages, and what it does when that fails. */
    method MapFilled(root: nat, oldsz: nat, newsz: nat, a: nat, page: nat, ghost s0: Vm, ghost t: Vm) returns (r: Outcome)
      requires Valid() && Tree(S(), root) && oldsz <= newsz < KERNBASE && Up(oldsz) <= a < Up(newsz) <= USERPAGES
      requires |mem| == |s0.mem| && root < |s0.mem| && Kept(s0, S(), {root}, {}) && page !in s0.owner
      requires GrewRun(s0.owner, t.owner, root, Up(oldsz), a) && page !in t.owner && owner == t.owner[page := Held]
      requires page < |mem| && mem[page] == Zeros() && ZeroFilled(s0, S(), root, Up(oldsz), a)
      requires Drew(s0, S(), root, Span(Up(oldsz), a), a + 1 - Up(oldsz)) && Vacant(s0, root, Up(oldsz), a - Up(oldsz))
      modifies this`mem, this`freelist, this`owner
      ensures Valid() && Tree(S(), root) && |mem| == |s0.mem| && Kept(s0, S(), {root}, {})
      ensures r == Success ==> ZeroFilled(s0, S(), root, Up(oldsz), a + 1) && GrewRun(s0.owner, owner, root, Up(oldsz), a + 1)
      ensures r == Success ==> Drew(s0, S(), root, Span(Up(oldsz), a + 1), a + 1 - Up(oldsz)) && Vacant(s0, root, Up(oldsz), a + 1 - Up(oldsz))
      ensures r == NoMemory ==> GaveBack(s0, S(), root, Up(oldsz), Up(newsz)) && OutOfPages(s0, root, Up(oldsz), a)
      ensures r == Panic ==> Remaps(s0, root, Up(oldsz), a)
    {
      hide Kept, Ok, ZeroFilled, GrewRun, Grew, Dropped, Cleared, InRun, Mapped, SameSpace, Drew, Short, Span, Vacant, Starved, Blocked,
           GaveBack, OutOfPages, Remaps;
      ghost var from, t2 := Up(oldsz), S();
      NotYet(s0, t2, root, from, a);
      r := MapPages(root, a, 1, page, PTE_W + PTE_U);
      ghost var t3 := S();
      SpanMore(a, a, a + 1);
      match r {
        case Success =>
          OnlyEntry(t2, root, a);
          VacantMore(s0, root, from, a - from);
          SpanDrew(s0, t2, t3, root, from, a, a + 1 - from);
          ZeroMore(s0, t2, t3, root, from, a, page);
          GrewMore(s0.owner, t.owner, t2.owner, t3.owner, root, from, a, page);
          KeptFresh(s0, t2, t3, {root}, page);
        case NoMemory =>
          RunsOut(s0, t2, root, from, a);
          TreeStays(t2, t3, {}, {}, root);
          ZeroStays(s0, t2, t3, root, from, a);
          KeptWider(t2, t3, {}, {}, {root}, {});
          KeptTwice(s0, t2, t3, {root}, {});
          TakeBack(root, oldsz, newsz, a, page, s0, t, t3);
        case Panic =>
          OnlyBlocked(t2, root, a);
          RemapsAt(s0, t2, root, from, a);
          KeptPageLost(s0, t2, t3, root, page);
      }
    }

    /** allocuvm gives back what it has mapped and the page that it could not map. */
    method TakeBack(root: nat, oldsz: nat, newsz: nat, a: nat, page: nat, ghost s0: Vm, ghost t: Vm, ghost t3: Vm)
      requires Valid() && Tree(S(), root) && S() == t3 && oldsz <= newsz < KERNBASE && Up(oldsz) <= a < Up(newsz) <= USERPAGES
      requires |mem| == |s0.mem| && root < |s0.mem| && Kept(s0, S(), {root}, {}) && ZeroFilled(s0, S(), root, Up(oldsz), a)
      requires GrewRun(s0.owner, t.owner, root, Up(oldsz), a) && page !in t.owner && page !in s0.owner && Grew(t.owner[page := Held], owner, root, {})
      modifies this`mem, this`freelist, this`owner
      ensures Valid() && Tree(S(), root) && |mem| == |s0.mem| && Kept(s0, S(), {root}, {})
      ensures GaveBack(s0, S(), root, Up(oldsz), Up(newsz))
    {
      hide Kept, Ok, ZeroFilled, GrewRun, Grew, Dropped, Cleared, InRun, SameSpace;
      ghost var from, to := Up(oldsz), Up(newsz);
      var size := DeallocUvm(root, newsz, oldsz);
      ghost var t4 := S();
      ZeroUndone(s0, t3, t4, root, from, a, to);
      KeptTwice(s0, t3, t4, {root}, {});
      GrewFailed(s0.owner, t.owner, t3.owner, root, from, a, to, page);
      Kfree(page);
      TreeStays(t4, S(), {}, {page}, root);
      ClearedThen(s0, t4, S(), root, from, to);
      KeptWider(t4, S(), {}, {page}, {root}, {page});
      KeptFresh(s0, t4, S(), {root}, page);
    }

    /** freevm's release of one table of a tree that has no user pages left. */
    method FreeTable(root: nat, i: nat, ghost s0: Vm, ghost s1: Vm, ghost gone: set<nat>) returns (ghost gone': set<nat>)
      requires Valid() && |mem| == |s0.mem| == |s1.mem| && Tree(s1, root) && root < |mem| && mem[root] == s1.mem[root] && i < ENTRIES
      requires Falling(s1, S(), root, i, gone) && Kept(s0, S(), {root}, {}) && root in owner && owner[root] == Held
      requires Present(mem[root][i]) && s1.owner == Dropped(s0.owner, root, 0, USERPAGES) && Ok(s1, low, high)
      modifies this`mem, this`freelist, this`owner
      ensures Valid() && |mem| == |s0.mem| && mem[root] == s1.mem[root]
      ensures Falling(s1, S(), root, i + 1, gone') && Kept(s0, S(), {root}, {}) && root in owner && owner[root] == Held
    {
      hide Kept, Ok, Cleared, Dropped, Falling, Trees;
      ghost var s2 := S();
      FallTable(s1, s2, low, high, root, i, gone);
      var t := Frame(mem[root][i]);
      Dropped0(s0, s1, root, t);
      Kfree(t);
      KeptLoose(s0, s2, S(), root, t);
      HeldStays(s2, S(), {}, {t}, root);
      gone' := gone + {t};
      FallSame(s1, s2.(owner := s2.owner - {t}), S(), root, i + 1, gone');
    }

    /** freevm for the last user of a tree: its directory, tables and user pages go back to the free
        list, and no others. */
    method FreeVm(root: nat)
      requires Valid() && Tree(S(), root)
      modifies this`mem, this`freelist, this`owner
      ensures Valid() && |mem| == old(|mem|) && Kept(old(S()), S(), {root}, {})
      ensures owner == Felled(old(owner), root)
    {
      hide Kept, Ok, Cleared, Dropped, Felled, Loosened, Falling, Trees;
      ghost var s0 := S();
      var size := DeallocUvm(root, KERNBASE, 0);
      ghost var s1 := S();
      ClearedAll(s0, s1, root);
      LoosenStep(s1, low, high, root);
      FallStart(s1, low, high, root);
      owner := Loosened(owner, root);
      KeptTwice(s0, s1, S(), {root}, {});
      ghost var gone := {};
      var i := 0;
      while i < ENTRIES
        invariant 0 <= i <= ENTRIES && Valid() && |mem| == |s0.mem| && root < |mem| && mem[root] == s1.mem[root]
        invariant Falling(s1, S(), root, i, gone) && Kept(s0, S(), {root}, {})
        invariant root in owner && owner[root] == Held
      {
        if Present(mem[root][i]) {
          gone := FreeTable(root, i, s0, s1, gone);
        } else {
          FallSkip(s1, S(), low, high, root, i, gone);
        }
        i := i + 1;
      }
      Fallen(s0, s1, S(), low, high, root, gone);
      ghost var s3 := S();
      Kfree(root);
      KeptLoose(s0, s3, S(), root, root);
    }

    /** How setupkvm and copyuvm give up on a tree they have made since s0. */
    method GiveUp(root: nat, ghost s0: Vm)
      requires Valid() && Tree(S(), root) && root !in s0.owner && Ok(s0, low, high)
      requires Kept(s0, S(), {}, {}) && GrewTree(s0.owner, owner, root)
      modifies this`mem, this`freelist, this`owner
      ensures Valid() && |mem| == old(|mem|) && owner == s0.owner && Kept(s0, S(), {}, {})
    {
      hide Kept, Ok, GrewTree;
      NotInNew(s0, low, high, root);
      NewTreeFelled(S(), low, high, s0.owner, root);
      ghost var s1 := S();
      FreeVm(root);
      KeptFreshTree(s0, s1, S(), root);
    }

    /** setupkvm: a new tree with the kernel's mappings and no user pages, or 0 with nothing used up. */
    method SetupKvm() returns (pgdir: nat)
      requires Valid()
      modifies this`mem, this`freelist, this`owner
      ensures Valid() && |mem| == old(|mem|) && Kept(old(S()), S(), {}, {})
      ensures pgdir == 0 ==> owner == old(owner) && |old(freelist)| < KERNEL_TREE
      ensures pgdir != 0 ==> Fresh(old(S()), S(), pgdir, data) && |old(freelist)| == |freelist| + KERNEL_TREE
      ensures pgdir != 0 ==> Tables(S(), pgdir) == KernelTables()
      ensures pgdir != 0 ==> forall v: nat :: v < 0x10_0000 ==> Translate(mem, pgdir, v) == KernelAccess(data, v)
    {
      hide Kept, Ok, KernelBelow, GrewTree, Drew, Short, Span, KernelTables, SpanTo, RangeSpan, Tables, KernelMap, Translate, KernelAccess;
      ghost var s0 := S();
      pgdir := NewRoot();
      if pgdir == 0 {
        return;
      }
      var ranges := KernelMap(data);
      var k := 0;
      ghost var s1, got := S(), {};
      DrewNothing(s1, pgdir);
      SpanToNext(ranges, 0);
      while k < |ranges|
        invariant 0 <= k <= 4 && Valid() && |mem| == |s0.mem| && Tree(S(), pgdir) && pgdir !in s0.owner && pgdir != 0
        invariant Kept(s0, S(), {}, {}) && GrewTree(s0.owner, owner, pgdir) && KernelBelow(S(), pgdir, data, RangeEnd(data, k))
        invariant Drew(s1, S(), pgdir, got, 0) && got == SpanTo(ranges, k)
      {
        ghost var t := S();
        var ok := MapRange(pgdir, ranges[k], k, s0);
        if !ok {
          KernelShort(s1, t, pgdir, data, ranges, k);
          GiveUp(pgdir, s0);
          return 0;
        }
        DrewTwice(s1, t, S(), pgdir, got, 0, RangeSpan(ranges[k]), 0);
        SpanToNext(ranges, k);
        got := got + RangeSpan(ranges[k]);
        k := k + 1;
      }
      KernelDone(s1, S(), pgdir, data, ranges);
      KernelSeen(S(), low, high, pgdir, data);
    }

    /** setupkvm's first page: a zeroed directory. */
    method NewRoot() returns (pgdir: nat)
      requires Valid()
      modifies this`mem, this`freelist, this`owner
      ensures Valid() && |mem| == old(|mem|) && Kept(old(S()), S(), {}, {})
      ensures pgdir == 0 ==> owner == old(owner) && old(freelist) == []
      ensures pgdir != 0 ==> |old(freelist)| == |freelist| + 1 && pgdir < |mem| && Tables(S(), pgdir) == {}
      ensures pgdir != 0 ==> Tree(S(), pgdir) && pgdir !in old(owner) && GrewTree(old(owner), owner, pgdir)
                             && KernelBelow(S(), pgdir, data, USERPAGES)
    {
      hide Kept, Ok;
      ghost var s0 := S();
      pgdir := Kalloc();
      if pgdir != 0 {
        ghost var s1 := S();
        Fill(pgdir, Zeros());
        ghost var s2 := S();
        KeptFresh(s0, s1, s2, {}, pgdir);
        RootStep(s2, low, high, pgdir);
        assert Tables(s2, pgdir) == {};
        owner := owner[pgdir := Root];
        KeptFresh(s0, s2, S(), {}, pgdir);
      }
    }

    /** setupkvm's call of mappages for one range of the kernel map. */
    method MapRange(pgdir: nat, range: Range, ghost k: nat, ghost s0: Vm) returns (ok: bool)
      requires Valid() && |mem| == |s0.mem| && Tree(S(), pgdir) && pgdir !in s0.owner && k < 4 && range == KernelMap(data)[k]
      requires Kept(s0, S(), {}, {}) && GrewTree(s0.owner, owner, pgdir) && KernelBelow(S(), pgdir, data, RangeEnd(data, k))
      modifies this`mem, this`freelist, this`owner
      ensures Valid() && |mem| == |s0.mem| && Tree(S(), pgdir)
      ensures Kept(s0, S(), {}, {}) && GrewTree(s0.owner, owner, pgdir)
      ensures ok ==> KernelBelow(S(), pgdir, data, RangeEnd(data, k + 1))
      ensures if ok then Drew(old(S()), S(), pgdir, RangeSpan(range), 0) else Short(old(S()), pgdir, RangeSpan(range), 0)
    {
      hide Kept, Ok, Mapped, GrewTree, Grew, KernelPte, Drew, Short, Span, KernelMap, RangeEnd;
      ghost var s1 := S();
      RangeFacts(data, k);
      NoneMapped(s1, pgdir, data, RangeEnd(data, k), range.virt, range.count);
      var r := MapPages(pgdir, range.virt, range.count, range.phys, range.perm);
      ok := r == Success;
      if r == Panic {
        NotBlocked(s1, pgdir, range.virt, range.count);
      }
      TreeGrows(s0.owner, s1.owner, owner, pgdir);
      KeptFreshTree(s0, s1, S(), pgdir);
      if ok {
        KernelMore(s1, S(), pgdir, data, RangeEnd(data, k), range.virt, range.count, range.phys, range.perm);
      }
    }

    /** copyuvm: a new tree whose first sz bytes are copies, on other pages, of the old tree's, with the
        same flags, beside the kernel map; or 0, when pages run out, with nothing used up; or a panic at
        the first page that is not mapped, if there are pages enough to get to it. No tree that was there
        changes. */
    method CopyUvm(pgdir: nat, sz: nat) returns (ok: bool, d: nat)
      requires Valid() && Tree(S(), pgdir) && sz <= KERNBASE
      modifies this`mem, this`freelist, this`owner
      ensures Valid() && |mem| == old(|mem|) && Tree(S(), pgdir) && Kept(old(S()), S(), {}, {})
      ensures Up(sz) <= USERPAGES && var gap := FirstGap(old(S()), pgdir, 0, Up(sz));
              && (ok <==> gap == Up(sz) || |old(freelist)| < CopyNeeds(gap))
              && (ok ==> (d == 0 <==> |old(freelist)| < CopyNeeds(gap)))
      ensures ok && d == 0 ==> owner == old(owner)
      ensures ok && d != 0 ==> d !in old(owner) && Tree(S(), d) && GrewTree(old(owner), owner, d) && Copied(S(), pgdir, d, Up(sz))
      ensures ok && d != 0 ==> KernelIn(S(), d, data) && |old(freelist)| == |freelist| + CopyNeeds(Up(sz))
      ensures ok && d != 0 ==> forall v: nat :: v < (sz + 4095) / 4096 ==> CopyForUser(mem, pgdir, d, v)
      ensures ok && d != 0 ==> forall v: nat :: (sz + 4095) / 4096 <= v < 0x8_0000 ==> Translate(mem, d, v) == NoAccess
      ensures ok && d != 0 ==> forall v: nat :: 0x8_0000 <= v < 0x10_0000 ==> Translate(mem, d, v) == KernelAccess(data, v)
    {
      hide CopyForUser, Translate, KernelAccess, Kept, Ok, KernelBelow, GrewTree, Copied, SameSpace, Drew, Short, Span, KernelTables, Tables, KernelIn, CopyNeeds;
      ghost var s0 := S();
      UpBound(KERNBASE, sz);
      ghost var gap := FirstGap(s0, pgdir, 0, Up(sz));
      NeedsTree(gap);
      ok := true;
      d := SetupKvm();
      TreeStays(s0, S(), {}, {}, pgdir);
      if d == 0 {
        return;
      }
      CopyStart(S(), pgdir, d, data);
      var r := CopyPages(pgdir, sz, d, s0);
      TreeStays(s0, S(), {}, {}, pgdir);
      if r == Success {
        CopySeen(S(), low, high, pgdir, d, Up(sz));
        UpperSeen(S(), low, high, d, data);
      }
      return r != Panic, if r == Success then d else 0;
    }

    /** copyuvm's loop over the pages of the old tree. */
    method CopyPages(pgdir: nat, sz: nat, d: nat, ghost s0: Vm) returns (r: Outcome)
      requires Valid() && |mem| == |s0.mem| && Tree(S(), d) && d !in s0.owner && d != 0 && Tree(s0, pgdir) && Tree(S(), pgdir)
      requires sz <= KERNBASE && Up(sz) <= USERPAGES && Kept(s0, S(), {}, {}) && GrewTree(s0.owner, owner, d) && Ok(s0, low, high)
      requires Copied(S(), pgdir, d, 0) && KernelIn(S(), d, data) && Tables(S(), d) == KernelTables()
      modifies this`mem, this`freelist, this`owner
      ensures Valid() && |mem| == |s0.mem| && Kept(s0, S(), {}, {})
      ensures var gap := FirstGap(s0, pgdir, 0, Up(sz));
              && (r == Success <==> gap == Up(sz) && |old(freelist)| + KERNEL_TREE >= CopyNeeds(gap))
              && (r == NoMemory <==> |old(freelist)| + KERNEL_TREE < CopyNeeds(gap))
      ensures r == NoMemory ==> owner == s0.owner
      ensures r == Success ==> Tree(S(), d) && GrewTree(s0.owner, owner, d) && Copied(S(), pgdir, d, Up(sz)) && KernelIn(S(), d, data)
      ensures r == Success ==> |old(freelist)| + KERNEL_TREE == |freelist| + CopyNeeds(Up(sz))
    {
      hide Kept, Ok, KernelBelow, GrewTree, Copied, SameSpace, Drew, Short, Span, KernelTables, Tables, KernelIn, CopyNeeds;
      ghost var s1, gap := S(), FirstGap(s0, pgdir, 0, Up(sz));
      DrewNone(s1, d, 0);
      var i := 0;
      while i * PGSIZE < sz
        invariant 0 <= i <= Up(sz) && Valid() && |mem| == |s0.mem| && Tree(S(), d)
        invariant Kept(s0, S(), {}, {}) && GrewTree(s0.owner, owner, d) && Copied(S(), pgdir, d, i)
        invariant Drew(s1, S(), d, Span(0, i), i) && KernelIn(S(), d, data) && FirstGap(s0, pgdir, i, Up(sz)) == gap
      {
        ghost var t := S();
        TreeStays(s0, t, {}, {}, pgdir);
        r := CopyPage(pgdir, d, i, s0);
        if r == Panic {
          CopyTook(s1, t, d, i);
          return;
        }
        if r == NoMemory {
          CopyShort(s1, t, d, i, gap);
          GiveUp(d, s0);
          return;
        }
        DrewTwice(s1, t, S(), d, Span(0, i), i, {i / ENTRIES}, 1);
        SpanMore(0, i, i + 1);
        i := i + 1;
      }
      CopyTook(s1, S(), d, i);
      return Success;
    }

    /** The body of copyuvm's loop, with its two panics. */
    method CopyPage(pgdir: nat, d: nat, i: nat, ghost s0: Vm) returns (r: Outcome)
      requires Valid() && |mem| == |s0.mem| && Tree(S(), d) && d !in s0.owner && Tree(s0, pgdir) && i < USERPAGES
      requires Kept(s0, S(), {}, {}) && GrewTree(s0.owner, owner, d) && Copied(S(), pgdir, d, i) && KernelIn(S(), d, data)
      requires Tree(S(), pgdir) && SameSpace(s0, S(), pgdir) && Ok(s0, low, high)
      modifies this`mem, this`freelist, this`owner
      ensures Valid() && |mem| == |s0.mem| && Tree(S(), d)
      ensures Kept(s0, S(), {}, {}) && GrewTree(s0.owner, owner, d)
      ensures r == Panic <==> !Present(Pte(s0.mem, pgdir, i))
      ensures r == Success ==> Copied(S(), pgdir, d, i + 1) && KernelIn(S(), d, data)
      ensures r == Success ==> Drew(old(S()), S(), d, {i / ENTRIES}, 1)
      ensures r == NoMemory ==> Short(old(S()), d, {i / ENTRIES}, 1)
    {
      hide Kept, Ok, GrewTree, Copied, SameSpace, Trees, Drew, Short, KernelIn;
      ghost var t := S();
      SameEntries(s0, t, pgdir, i);
      var pgtab := WalkPgdir(pgdir, i, false);
      if pgtab == 0 {
        return Panic;
      }
      var pte := mem[pgtab][i % ENTRIES];
      if !Present(pte) {
        return Panic;
      }
      SourceAt(s0, t, low, high, pgdir, i);
      var ok := CopyFrame(pgdir, d, i, pte, s0);
      r := if ok then Success else NoMemory;
    }

    /** copyuvm's copy of one mapped page, to a new page in the new tree. */
    method CopyFrame(pgdir: nat, d: nat, i: nat, pte: nat, ghost s0: Vm) returns (ok: bool)
      requires Valid() && |mem| == |s0.mem| && Tree(S(), d) && d !in s0.owner && Tree(s0, pgdir) && Tree(S(), pgdir) && i < USERPAGES
      requires Kept(s0, S(), {}, {}) && GrewTree(s0.owner, owner, d) && Copied(S(), pgdir, d, i) && KernelIn(S(), d, data)
      requires Present(Pte(mem, pgdir, i)) && pte == Pte(mem, pgdir, i) && Frame(pte) < |mem|
      modifies this`mem, this`freelist, this`owner
      ensures Valid() && |mem| == |s0.mem| && Tree(S(), d)
      ensures Kept(s0, S(), {}, {}) && GrewTree(s0.owner, owner, d)
      ensures ok ==> Copied(S(), pgdir, d, i + 1) && KernelIn(S(), d, data)
      ensures if ok then Drew(old(S()), S(), d, {i / ENTRIES}, 1) else Short(old(S()), d, {i / ENTRIES}, 1)
    {
      hide Kept, Ok, GrewTree, Copied, SameSpace, Trees, Drew, Short, KernelIn;
      ghost var t := S();
      var page := Kalloc();
      if page == 0 {
        NoPage(t, d, {i / ENTRIES});
        return false;
      }
      ghost var t1 := S();
      TreeStays(t, t1, {}, {}, pgdir);
      TreeStays(t, t1, {}, {}, d);
      Fill(page, mem[Frame(pte)]);
      ghost var t2 := S();
      TreeStays(t1, t2, {}, {page}, pgdir);
      TreeStays(t1, t2, {}, {page}, d);
      SpaceTwice(t, t1, t2, pgdir);
      SpaceTwice(t, t1, t2, d);
      CopyStays(t, t2, pgdir, d, i);
      KernelStays(t, t2, d, data);
      SourceAt(t, t2, low, high, pgdir, i);
      KeptFresh(t, t1, t2, {}, page);
      KeptTwice(s0, t, t2, {}, {});
      NotBefore(s0.owner, t.owner, d, page);
      ok := CopyMap(pgdir, d, i, page, pte, s0, t);
      CopyDrew(t, t2, S(), d, {i / ENTRIES}, ok);
    }

    /** copyuvm's mappages, and what it does when that fails. */
    method CopyMap(pgdir: nat, d: nat, i: nat, page: nat, pte: nat, ghost s0: Vm, ghost t: Vm) returns (ok: bool)
      requires Valid() && |mem| == |s0.mem| && Tree(S(), d) && d !in s0.owner && Tree(s0, pgdir) && Tree(S(), pgdir) && i < USERPAGES
      requires Kept(s0, S(), {}, {}) && GrewTree(s0.owner, t.owner, d) && Copied(S(), pgdir, d, i) && KernelIn(S(), d, data)
      requires page !in t.owner && owner == t.owner[page := Held] && page < |mem| && page !in s0.owner
      requires Present(Pte(mem, pgdir, i)) && pte == Pte(mem, pgdir, i) && Frame(pte) < |mem| && mem[page] == mem[Frame(pte)]
      modifies this`mem, this`freelist, this`owner
      ensures Valid() && |mem| == |s0.mem| && Tree(S(), d)
      ensures Kept(s0, S(), {}, {}) && GrewTree(s0.owner, owner, d)
      ensures ok ==> Copied(S(), pgdir, d, i + 1) && KernelIn(S(), d, data)
      ensures if ok then Drew(old(S()), S(), d, {i / ENTRIES}, 0) else Short(old(S()), d, {i / ENTRIES}, 0)
    {
      hide Kept, Ok, GrewTree, Grew, SameSpace, Trees, Mapped, Drew, Short, Span, KernelIn;
      ghost var t2 := S();
      SpanMore(i, i, i + 1);
      assert CopyAt(t2, pgdir, d, i, i);
      var r := MapPages(d, i, 1, page, Flags(pte));
      ok := r == Success;
      if r == Panic {
        OnlyBlocked(t2, d, i);
      }
      ghost var t3 := S();
      if ok {
        TreeStays(t2, t3, {d}, {page}, pgdir);
        CopyMore(t2, t3, low, high, pgdir, d, i, page);
        KernelBeside(t2, t3, d, data, i, page, Flags(pte));
        UserGrows(s0.owner, t.owner, t2.owner, t3.owner, d, i, page);
        KeptNew(s0, t2, t3, d, page);
      } else {
        CopyFails(s0.owner, t.owner, t3.owner, d, page);
        KeptTwice(s0, t2, t3, {}, {});
        Kfree(page);
        KeptFresh(s0, t3, S(), {}, page);
        TreeStays(t3, S(), {}, {page}, d);
      }
    }

    /** walkpgdir's last store: the directory entry for the new table. */
    method NewTable(root: nat, d: nat, t: nat, ghost s0: Vm)
      requires Valid() && Tree(S(), root) && d < ENTRIES && !Present(mem[root][d])
      requires t in owner && owner[t] == Held && t < |mem| && mem[t] == Zeros() && t !in s0.owner && Kept(s0, S(), {}, {})
      modifies this`mem, this`owner
      ensures Valid() && Tree(S(), root) && Kept(s0, S(), {}, {}) && owner == old(owner)[t := Table(root, d)]
      ensures Present(mem[root][d]) && Frame(mem[root][d]) == t && mem[root] == old(mem)[root][d := mem[root][d]]
    {
      ghost var s1 := S();
      TableStep(S(), low, high, root, d, t);
      mem := mem[root := mem[root][d := Entry(t, PTE_W + PTE_U)]];
      owner := owner[t := Table(root, d)];
      KeptFresh(s0, s1, S(), {}, t);
    }
  }

  lemma SameEntries(s: Vm, s': Vm, r: nat, v: nat)
    requires r < |s.mem| && r < |s'.mem| && v < VPAGES && SameSpace(s, s', r)
    ensures Pte(s'.mem, r, v) == Pte(s.mem, r, v)
  {
    assert SamePage(s, s', r, v);
  }

  lemma RangeFacts(data: nat, k: nat)
    requires 0x100 < data < 0xE000 && k < 4
    ensures var range, v := KernelMap(data)[k], RangeEnd(data, k);
            && USERPAGES <= v <= range.virt && 0 < range.count && range.virt + range.count == RangeEnd(data, k + 1) <= VPAGES && range.perm < PGSIZE
            && (forall w: nat :: v <= w < range.virt ==> KernelPte(data, w) == 0)
            && (forall w: nat :: range.virt <= w < range.virt + range.count ==> KernelPte(data, w) == Entry(range.phys + (w - range.virt), range.perm))
  {}

  lemma {:induction false} SpanToMember(ranges: seq<Range>, n: nat, k: nat)
    requires k < n <= |ranges|
    ensures RangeSpan(ranges[k]) <= SpanTo(ranges, n) && SpanTo(ranges, k) <= SpanTo(ranges, n)
  {
    if k < n - 1 {
      SpanToMember(ranges, n - 1, k);
    }
  }

  lemma SpanToNext(ranges: seq<Range>, k: nat)
    requires k < |ranges|
    ensures SpanTo(ranges, 0) == {} && SpanTo(ranges, k + 1) == SpanTo(ranges, k) + RangeSpan(ranges[k])
  {}

  lemma {:induction false} SpanToWithin(ranges: seq<Range>, n: nat, tables: set<nat>)
    requires n <= |ranges| && forall k :: 0 <= k < |ranges| ==> RangeSpan(ranges[k]) <= tables
    ensures SpanTo(ranges, n) <= tables
  {
    if n > 0 {
      SpanToWithin(ranges, n - 1, tables);
    }
  }

  /** Which of the four ranges a table of the kernel map is in. */
  lemma RangeOfTable(data: nat, d: nat) returns (k: nat)
    requires 0x100 < data < 0xE000 && (512 <= d < 568 || 1016 <= d < 1024)
    ensures k < 4 && d in RangeSpan(KernelMap(data)[k])
  {
    k := if d == 512 then 0 else if d >= 1016 then 3 else if d * ENTRIES < USERPAGES + data then 1 else 2;
    var u, range := d * ENTRIES, KernelMap(data)[k];
    assert u / ENTRIES == d;
    assert range.virt <= u < range.virt + range.count;
    assert d in Span(range.virt, range.virt + range.count);
  }

  lemma TableOfRange(data: nat, k: nat)
    requires 0x100 < data < 0xE000 && k < 4
    ensures RangeSpan(KernelMap(data)[k]) <= KernelTables()
  {
    var range := KernelMap(data)[k];
    forall d | d in RangeSpan(range) ensures d in KernelTables() {
      var u :| range.virt <= u < range.virt + range.count && u / ENTRIES == d;
    }
  }

  /** The kernel map lies in exactly its tables. */
  lemma KernelMapTables(data: nat)
    requires 0x100 < data < 0xE000
    ensures SpanTo(KernelMap(data), 4) == KernelTables()
  {
    hide Span, RangeSpan, SpanTo, KernelMap;
    var m := KernelMap(data);
    forall k | 0 <= k < 4 ensures RangeSpan(m[k]) <= KernelTables() {
      TableOfRange(data, k);
    }
    SpanToWithin(m, 4, KernelTables());
    forall d | d in KernelTables() ensures d in SpanTo(m, 4) {
      var k := RangeOfTable(data, d);
      SpanToMember(m, 4, k);
    }
  }

  lemma KernelDone(s: Vm, t: Vm, r: nat, data: nat, ranges: seq<Range>)
    requires r < |s.mem| && r < |t.mem| && 0x100 < data < 0xE000 && ranges == KernelMap(data)
    requires Tables(s, r) == {} && Drew(s, t, r, SpanTo(ranges, 4), 0)
    ensures Tables(t, r) == KernelTables() && |s.free| + 1 == |t.free| + KERNEL_TREE && RangeEnd(data, 4) == VPAGES
  {
    hide Span, RangeSpan, SpanTo, KernelTables, Tables;
    KernelMapTables(data);
    KernelTablesCount();
    assert KernelTables() - {} == KernelTables();
    assert {} + KernelTables() == KernelTables();
  }

  lemma KernelShort(s: Vm, t: Vm, r: nat, data: nat, ranges: seq<Range>, k: nat)
    requires r < |s.mem| && r < |t.mem| && 0x100 < data < 0xE000 && ranges == KernelMap(data) && k < 4
    requires Tables(s, r) == {} && Drew(s, t, r, SpanTo(ranges, k), 0) && Short(t, r, RangeSpan(ranges[k]), 0)
    ensures |s.free| + 1 < KERNEL_TREE
  {
    hide Span, RangeSpan, SpanTo, KernelTables, Tables, Drew;
    DrewShort(s, t, r, SpanTo(ranges, k), 0, RangeSpan(ranges[k]), 0);
    KernelMapTables(data);
    SpanToMember(ranges, 4, k);
    ShortMore(s, r, SpanTo(ranges, k) + RangeSpan(ranges[k]), 0, KernelTables(), 0);
    KernelTablesCount();
    assert KernelTables() - {} == KernelTables();
  }

  /** The free pages that copyuvm needs for n user pages: the kernel's tree, tables, and the copies. */
  function CopyNeeds(n: nat): nat {
    KERNEL_TREE + (n + ENTRIES - 1) / ENTRIES + n
  }

  lemma NeedsTree(n: nat)
    ensures CopyNeeds(n) >= KERNEL_TREE
  {}

  lemma UserSpan(s: Vm, r: nat, n: nat)
    requires r < |s.mem| && Tables(s, r) == KernelTables() && n <= USERPAGES
    ensures |Span(0, n) - Tables(s, r)| == (n + ENTRIES - 1) / ENTRIES
  {
    SpanCount(n);
    forall d | d in Span(0, n) ensures d !in KernelTables() {
      var u :| 0 <= u < n && u / ENTRIES == d;
      assert u < USERPAGES;
    }
    assert Span(0, n) - KernelTables() == Span(0, n);
  }

  lemma CopyTook(s: Vm, t: Vm, r: nat, n: nat)
    requires r < |s.mem| && r < |t.mem| && Tables(s, r) == KernelTables() && n <= USERPAGES && Drew(s, t, r, Span(0, n), n)
    ensures |s.free| + KERNEL_TREE == |t.free| + CopyNeeds(n)
  {
    hide Span, KernelTables, Tables;
    UserSpan(s, r, n);
  }

  lemma CopyShort(s: Vm, t: Vm, r: nat, i: nat, n: nat)
    requires r < |s.mem| && r < |t.mem| && Tables(s, r) == KernelTables() && i < n <= USERPAGES
    requires Drew(s, t, r, Span(0, i), i) && Short(t, r, {i / ENTRIES}, 1)
    ensures |s.free| + KERNEL_TREE < CopyNeeds(n)
  {
    hide Span, KernelTables, Tables, Drew;
    DrewShort(s, t, r, Span(0, i), i, {i / ENTRIES}, 1);
    SpanMore(0, i, i + 1);
    SpanMore(0, i + 1, n);
    ShortMore(s, r, Span(0, i + 1), i + 1, Span(0, n), n);
    UserSpan(s, r, n);
  }

  lemma CopyDrew(t: Vm, t1: Vm, u: Vm, r: nat, tables: set<nat>, ok: bool)
    requires r < |t.mem| && r < |t1.mem| && r < |u.mem| && t1.mem[r] == t.mem[r] && |t.free| == |t1.free| + 1
    requires if ok then Drew(t1, u, r, tables, 0) else Short(t1, r, tables, 0)
    ensures if ok then Drew(t, u, r, tables, 1) else Short(t, r, tables, 1)
  {}

  lemma NoPage(s: Vm, r: nat, tables: set<nat>)
    requires r < |s.mem| && s.free == []
    ensures Short(s, r, tables, 1)
  {}

  lemma NoneLeft(s: Vm, t: Vm, r: nat, from: nat, a: nat, to: nat)
    requires r < |s.mem| && r < |t.mem| && from <= a < to && Drew(s, t, r, Span(from, a), a - from) && t.free == []
    ensures Short(s, r, Span(from, to), to - from)
  {
    SpanMore(from, a, to);
    ShortMore(s, r, Span(from, a), a + 1 - from, Span(from, to), to - from);
  }

  // ------------------------------------------------- allocuvm's three outcomes

  /** What is left when allocuvm gives up: the pages between the sizes are not mapped, all others are
      as they were, and only new tables stay in use. */
  ghost predicate GaveBack(s: Vm, u: Vm, r: nat, from: nat, to: nat)
    requires r < |s.mem| && r < |u.mem|
  {
    Cleared(s, u, r, from, to, to) && Grew(Dropped(s.owner, r, from, to), u.owner, r, {})
  }

  /** At page a, with those before it unmapped and now filled, there is no page for it or its table. */
  ghost predicate OutOfPages(s: Vm, r: nat, from: nat, a: nat)
    requires r < |s.mem|
  {
    from <= a < VPAGES && Vacant(s, r, from, a - from) && Short(s, r, Span(from, a + 1), a + 1 - from)
  }

  /** Page a is mapped already, those before it are not, and there are pages enough to get there. */
  ghost predicate Remaps(s: Vm, r: nat, from: nat, a: nat)
    requires r < |s.mem|
  {
    from <= a < VPAGES && Vacant(s, r, from, a - from) && Present(Pte(s.mem, r, a)) && !Short(s, r, Span(from, a), a + 1 - from)
  }

  /** allocuvm's three ways, from page from up to page to. */
  ghost predicate Allocates(s: Vm, r: nat, from: nat, to: nat)
    requires r < |s.mem| && from <= to <= VPAGES
  {
    Vacant(s, r, from, to - from) && !Short(s, r, Span(from, to), to - from)
  }

  ghost predicate RunsOutBefore(s: Vm, r: nat, from: nat, to: nat)
    requires r < |s.mem|
  {
    exists a: nat :: from <= a < to && OutOfPages(s, r, from, a)
  }

  ghost predicate RemapsBefore(s: Vm, r: nat, from: nat, to: nat)
    requires r < |s.mem|
  {
    exists a: nat :: from <= a < to && Remaps(s, r, from, a)
  }

  /** A table that is there already is not wanted again. */
  lemma TableThere(s: Vm, r: nat, from: nat, a: nat, m: nat)
    requires r < |s.mem| && from <= a < VPAGES && Present(Pte(s.mem, r, a)) && Short(s, r, Span(from, a + 1), m)
    ensures Short(s, r, Span(from, a), m)
  {
    SpanMore(from, a, a + 1);
    assert a / ENTRIES in Tables(s, r);
    assert Span(from, a + 1) - Tables(s, r) == Span(from, a) - Tables(s, r);
  }

  lemma ShortLater(s: Vm, r: nat, from: nat, a: nat, b: nat)
    requires r < |s.mem| && from <= a < b && Short(s, r, Span(from, a + 1), a + 1 - from)
    ensures Short(s, r, Span(from, b), b - from) && Short(s, r, Span(from, b), b + 1 - from)
  {
    hide Short, Span;
    SpanMore(from, a + 1, b);
    ShortMore(s, r, Span(from, a + 1), a + 1 - from, Span(from, b), b - from);
    ShortMore(s, r, Span(from, b), b - from, Span(from, b), b + 1 - from);
  }

  lemma OneWayToAllocate(s: Vm, r: nat, from: nat, to: nat)
    requires r < |s.mem| && from <= to <= VPAGES
    ensures !(Allocates(s, r, from, to) && RunsOutBefore(s, r, from, to)) && !(Allocates(s, r, from, to) && RemapsBefore(s, r, from, to))
    ensures !(RunsOutBefore(s, r, from, to) && RemapsBefore(s, r, from, to))
  {
    hide Short, Span;
    forall a: nat | from <= a < to && OutOfPages(s, r, from, a)
      ensures !Allocates(s, r, from, to) && forall b: nat :: from <= b < to ==> !Remaps(s, r, from, b)
    {
      ShortLater(s, r, from, a, to);
      forall b: nat | from <= b < to ensures !Remaps(s, r, from, b) {
        if a < b {
          ShortLater(s, r, from, a, b);
        } else if a == b && Present(Pte(s.mem, r, a)) {
          TableThere(s, r, from, a, a + 1 - from);
        }
      }
    }
  }

  lemma VacantNone(s: Vm, r: nat, v: nat)
    requires r < |s.mem| && v <= VPAGES
    ensures Vacant(s, r, v, 0)
  {}

  lemma OnlyEntry(s: Vm, r: nat, v: nat)
    requires r < |s.mem| && v < VPAGES && Vacant(s, r, v, 1)
    ensures !Present(Pte(s.mem, r, v))
  {}

  lemma OnlyBlocked(s: Vm, r: nat, v: nat)
    requires r < |s.mem| && exists i: nat :: i < 1 && Blocked(s, r, v, i) && !Short(s, r, Span(v, v + i), 0)
    ensures v < VPAGES && Present(Pte(s.mem, r, v))
  {}

  lemma NotBlocked(s: Vm, r: nat, v: nat, n: nat)
    requires r < |s.mem| && v + n <= VPAGES && Vacant(s, r, v, n)
    ensures !exists i: nat :: i < n && Blocked(s, r, v, i) && !Short(s, r, Span(v, v + i), 0)
  {}

  lemma NoneMapped(s: Vm, r: nat, data: nat, v0: nat, v: nat, n: nat)
    requires r < |s.mem| && KernelBelow(s, r, data, v0) && v0 <= v && v + n <= VPAGES
    ensures Vacant(s, r, v, n)
  {}

  lemma RunsOut(s: Vm, t: Vm, r: nat, from: nat, a: nat)
    requires r < |s.mem| && r < |t.mem| && from <= a < VPAGES && Vacant(s, r, from, a - from)
    requires Drew(s, t, r, Span(from, a), a + 1 - from) && Short(t, r, {a / ENTRIES}, 0)
    ensures OutOfPages(s, r, from, a)
  {
    hide Drew, Short, Span, Vacant;
    SpanShort(s, t, r, from, a, a + 1, a + 1 - from);
  }

  lemma RemapsAt(s: Vm, t: Vm, r: nat, from: nat, a: nat)
    requires r < |s.mem| && r < |t.mem| && from <= a < VPAGES && Vacant(s, r, from, a - from)
    requires Drew(s, t, r, Span(from, a), a + 1 - from) && Present(Pte(s.mem, r, a))
    ensures Remaps(s, r, from, a)
  {
    hide Drew, Short, Span, Vacant;
    NotShort(s, t, r, Span(from, a), a + 1 - from);
  }

  lemma AllocFailed(s: Vm, u: Vm, low: nat, high: nat, r: nat, from: nat, a: nat, to: nat)
    requires Ok(s, low, high) && r < |s.mem| == |u.mem| && from <= a < to <= VPAGES && OutOfPages(s, r, from, a) && GaveBack(s, u, r, from, to)
    ensures Short(s, r, Span(from, to), to - from)
    ensures Vacant(s, r, from, to - from) ==> SameMappings(s, u, r) && Grew(s.owner, u.owner, r, {})
  {
    hide Ok, Short, Span, Vacant, Cleared, Grew, Dropped, SameMappings;
    SpanMore(from, a + 1, to);
    ShortMore(s, r, Span(from, a + 1), a + 1 - from, Span(from, to), to - from);
    if Vacant(s, r, from, to - from) {
      NothingLost(s, u, low, high, r, from, to);
    }
  }

  lemma ClearedThen(s: Vm, t: Vm, u: Vm, r: nat, from: nat, to: nat)
    requires r < |s.mem| == |t.mem| == |u.mem| && Cleared(s, t, r, from, to, to) && SameSpace(t, u, r)
    ensures Cleared(s, u, r, from, to, to)
  {
    forall w: nat | w < VPAGES ensures if from <= w < to then !Present(Pte(u.mem, r, w)) else SamePage(s, u, r, w) {
      assert SamePage(t, u, r, w);
    }
  }

  /** A panic leaves the page in the kernel's hands. */
  lemma KeptPageLost(s: Vm, t: Vm, u: Vm, r: nat, p: nat)
    requires Kept(s, t, {r}, {}) && Kept(t, u, {r}, {p}) && p !in s.owner
    ensures Kept(s, u, {r}, {})
  {
    KeptFresh(s, t, u, {r}, p);
  }

  lemma UpRises(a: nat, b: nat)
    requires a <= b
    ensures Up(a) <= Up(b)
  {}

  lemma UpBound(oldsz: nat, newsz: nat)
    requires newsz <= oldsz <= KERNBASE
    ensures Up(newsz) <= Up(oldsz) <= USERPAGES
  {}

  lemma NothingFilled(s: Vm, t: Vm, r: nat)
    requires r < |s.mem| && r < |t.mem| && ZeroFilled(s, t, r, 0, 0) && GrewRun(s.owner, t.owner, r, 0, 0)
    ensures SameMappings(s, t, r) && Grew(s.owner, t.owner, r, {})
  {
    forall w: nat | w < VPAGES ensures SamePage(s, t, r, w) {
      assert FilledAt(s, t, r, 0, 0, w);
    }
  }

  lemma FreshPage(o: Owners, o1: Owners, r: nat, from: nat, a: nat, p: nat)
    requires GrewRun(o, o1, r, from, a) && p !in o1
    ensures p !in o
  {}

  lemma KeptPage(s0: Vm, t: Vm, t1: Vm, t2: Vm, r: nat, p: nat)
    requires Kept(s0, t, {r}, {}) && Kept(t, t1, {}, {}) && Kept(t1, t2, {}, {p}) && p !in s0.owner
    ensures Kept(s0, t2, {r}, {})
  {
    KeptWider(t, t1, {}, {}, {r}, {});
    KeptTwice(s0, t, t1, {r}, {});
    KeptWider(t1, t2, {}, {p}, {r}, {p});
    KeptFresh(s0, t1, t2, {r}, p);
  }

  lemma NotYet(s: Vm, t: Vm, r: nat, from: nat, a: nat)
    requires r < |s.mem| && r < |t.mem| && a < VPAGES && ZeroFilled(s, t, r, from, a)
    ensures Pte(t.mem, r, a) == Pte(s.mem, r, a)
  {
    assert FilledAt(s, t, r, from, a, a);
  }

  lemma Dropped0(s0: Vm, s1: Vm, r: nat, t: nat)
    requires s1.owner == Dropped(s0.owner, r, 0, USERPAGES) && t in s1.owner
    ensures t in s0.owner && s0.owner[t] == s1.owner[t]
  {}

  lemma FallSame(s1: Vm, s: Vm, s': Vm, r: nat, i: nat, gone: set<nat>)
    requires Falling(s1, s, r, i, gone) && s'.owner == s.owner
    ensures Falling(s1, s', r, i, gone)
  {}

  lemma KeptNew(s0: Vm, t: Vm, u: Vm, d: nat, p: nat)
    requires Kept(s0, t, {}, {}) && Kept(t, u, {d}, {p}) && d !in s0.owner && p !in s0.owner
    ensures Kept(s0, u, {}, {})
  {
    forall q: nat | Tree(s0, q) ensures Tree(u, q) && SameSpace(s0, u, q) {
      SpaceTwice(s0, t, u, q);
    }
  }

  lemma ClearedEmpty(s: Vm, r: nat, from: nat, to: nat)
    requires r < |s.mem| && to <= from
    ensures Cleared(s, s, r, from, to, to) && Dropped(s.owner, r, from, to) == s.owner
  {
    forall w: nat | w < VPAGES ensures SamePage(s, s, r, w) {}
  }

  /** Nothing past the last page was touched, even when the last skip went further. */
  lemma ClearedDone(s: Vm, t: Vm, low: nat, high: nat, r: nat, from: nat, a: nat, to: nat)
    requires r < |s.mem| && Ok(t, low, high) && Tree(t, r) && from <= to <= a <= USERPAGES
    requires Cleared(s, t, r, from, a, to) && t.owner == Dropped(s.owner, r, from, Min(a, to))
    ensures Cleared(s, t, r, from, to, to) && t.owner == Dropped(s.owner, r, from, to)
  {}
}
