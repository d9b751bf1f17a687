/** Page tables as the processor reads them: the two-level walk and the access rights of 32-bit paging,
    of which both entries on the way must allow an access. */
module Mmu {
  import opened PageTable
  import opened VmModel

  datatype Access = NoAccess | Access(frame: nat, write: bool, user: bool)

  /** What an access to linear page v meets when the directory is page root. */
  function Translate(mem: Pages, root: nat, v: nat): Access
    requires root < |mem| && v < 0x10_0000
  {
    var pde := mem[root][v / 1024];
    if pde % 2 == 0 || pde / 4096 >= |mem| then NoAccess
    else
      var pte := mem[pde / 4096][v % 1024];
      if pte % 2 == 0 then NoAccess
      else Access(pte / 4096, pde / 2 % 2 == 1 && pte / 2 % 2 == 1, pde / 4 % 2 == 1 && pte / 4 % 2 == 1)
  }

  /** What an entry allows under a directory that allows everything. */
  function Allowed(e: nat): Access {
    if e % 2 == 0 then NoAccess else Access(e / 4096, e / 2 % 2 == 1, e / 4 % 2 == 1)
  }

  /** The directories that walkpgdir fills restrict nothing, so a page's own entry decides. */
  lemma PteDecides(s: Vm, low: nat, high: nat, r: nat, v: nat)
    requires Ok(s, low, high) && Tree(s, r) && v < VPAGES
    ensures Translate(s.mem, r, v) == Allowed(Pte(s.mem, r, v))
  {
    hide Conserved;
    assert DirOk(s.mem, s.owner, r, v / ENTRIES);
    if Present(s.mem[r][v / ENTRIES]) {
      DirectoryBits(s.mem[r][v / ENTRIES]);
    }
  }

  lemma DirectoryBits(e: nat)
    requires Flags(e) == 7
    ensures e / 2 % 2 == 1 && e / 4 % 2 == 1
  {
    assert e == e / 4096 * 4096 + 7;
    EntryBits(e / 4096, 7);
  }

  lemma EntryAllows(p: nat, perm: nat)
    requires perm < 8 && perm % 2 == 0
    ensures Allowed(Entry(p, perm)) == Access(p, perm / 2 % 2 == 1, perm / 4 == 1)
  {
    assert Entry(p, perm) == p * 4096 + (perm + 1);
    EntryBits(p, perm + 1);
  }

  lemma EntryBits(p: nat, flags: nat)
    requires flags < 4096
    ensures (p * 4096 + flags) / 2 % 2 == flags / 2 % 2 && (p * 4096 + flags) / 4 % 2 == flags / 4 % 2
  {
    assert (p * 4096 + flags) / 2 == p * 2048 + flags / 2;
    assert (p * 4096 + flags) / 4 == p * 1024 + flags / 4;
  }

  /** What every process's upper half must be: from 0x80000000 on the physical memory below
      0xE000000, its part with the kernel's text read-only, and the devices from 0xFE000000 on at their
      own addresses, all of it for the kernel alone. */
  function KernelAccess(data: nat, v: nat): Access {
    if 0x8_0000 <= v < 0x8_E000 then Access(v - 0x8_0000, !(0x8_0100 <= v < 0x8_0000 + data), false)
    else if 0xF_E000 <= v then Access(v, true, false)
    else NoAccess
  }

  lemma KernelPteAllows(data: nat, v: nat)
    requires v < VPAGES && 0x100 < data < 0xE000
    ensures Allowed(KernelPte(data, v)) == KernelAccess(data, v)
  {
    hide Entry;
    if v >= USERPAGES {
      EntryAllows(v - USERPAGES, PTE_W);
      EntryAllows(v - USERPAGES, 0);
      EntryAllows(v, PTE_W);
    }
  }

  /** A tree with the kernel map and nothing else. */
  lemma KernelSeen(s: Vm, low: nat, high: nat, d: nat, data: nat)
    requires Ok(s, low, high) && Tree(s, d) && KernelBelow(s, d, data, VPAGES) && 0x100 < data < 0xE000
    ensures forall v: nat :: v < 0x10_0000 ==> Translate(s.mem, d, v) == Allowed(Pte(s.mem, d, v)) == KernelAccess(data, v)
  {
    hide Ok, Translate, Allowed, KernelPte, KernelAccess;
    forall v: nat | v < 0x10_0000 ensures Translate(s.mem, d, v) == Allowed(Pte(s.mem, d, v)) == KernelAccess(data, v) {
      PteDecides(s, low, high, d, v);
      KernelPteAllows(data, v);
    }
  }

  /** The upper half of a tree with the kernel map. */
  lemma UpperSeen(s: Vm, low: nat, high: nat, d: nat, data: nat)
    requires Ok(s, low, high) && Tree(s, d) && KernelIn(s, d, data) && 0x100 < data < 0xE000
    ensures forall v: nat :: 0x8_0000 <= v < 0x10_0000 ==> Translate(s.mem, d, v) == KernelAccess(data, v)
  {
    hide Ok, Translate, Allowed, KernelPte, KernelAccess;
    forall v: nat | 0x8_0000 <= v < 0x10_0000 ensures Translate(s.mem, d, v) == KernelAccess(data, v) {
      PteDecides(s, low, high, d, v);
      KernelPteAllows(data, v);
    }
  }

  /** User code may read and write page v, which is zeroed. */
  ghost predicate ZeroedForUser(mem: Pages, root: nat, v: nat)
    requires root < |mem| && v < 0x10_0000
  {
    var t := Translate(mem, root, v);
    t.Access? && t.write && t.user && t.frame < |mem| && mem[t.frame] == seq(1024, k => 0)
  }

  lemma FilledSeen(s: Vm, s': Vm, low: nat, high: nat, r: nat, from: nat, to: nat)
    requires r < |s.mem| && Ok(s', low, high) && Tree(s', r) && ZeroFilled(s, s', r, from, to) && to <= VPAGES
    ensures forall v: nat :: from <= v < to ==> ZeroedForUser(s'.mem, r, v)
  {
    hide Ok, Translate, Allowed;
    forall v: nat | from <= v < to ensures ZeroedForUser(s'.mem, r, v) {
      assert FilledAt(s, s', r, from, to, v);
      PteDecides(s', low, high, r, v);
      FlagsAllow(Pte(s'.mem, r, v));
    }
  }

  lemma FlagsAllow(e: nat)
    ensures Flags(e) == 7 ==> Allowed(e) == Access(Frame(e), true, true)
  {
    if Flags(e) == 7 {
      DirectoryBits(e);
    }
  }

  /** Page v of the child is a page of its own with the contents and the rights of the parent's. */
  ghost predicate CopyForUser(mem: Pages, parent: nat, child: nat, v: nat)
    requires parent < |mem| && child < |mem| && v < 0x10_0000
  {
    var t, u := Translate(mem, parent, v), Translate(mem, child, v);
    && t.Access? && u.Access? && u.write == t.write && u.user == t.user && u.frame != t.frame
    && t.frame < |mem| && u.frame < |mem| && mem[u.frame] == mem[t.frame]
  }

  lemma CopySeen(s: Vm, low: nat, high: nat, r: nat, d: nat, n: nat)
    requires Ok(s, low, high) && Tree(s, r) && Tree(s, d) && Copied(s, r, d, n) && n <= USERPAGES
    ensures forall v: nat :: v < n ==> CopyForUser(s.mem, r, d, v)
    ensures forall v: nat :: n <= v < 0x8_0000 ==> Translate(s.mem, d, v) == NoAccess
  {
    hide Ok, Translate, Allowed;
    forall v: nat | v < USERPAGES ensures if v < n then CopyForUser(s.mem, r, d, v) else Translate(s.mem, d, v) == NoAccess {
      assert CopyAt(s, r, d, n, v);
      PteDecides(s, low, high, r, v);
      PteDecides(s, low, high, d, v);
      SameRights(Pte(s.mem, r, v), Pte(s.mem, d, v));
    }
  }

  lemma SameRights(e: nat, f: nat)
    ensures Allowed(e).Access? <==> Present(e)
    ensures Allowed(f).Access? <==> Present(f)
    ensures Present(e) ==> Allowed(e).frame == Frame(e)
    ensures Present(f) ==> Allowed(f).frame == Frame(f)
    ensures Present(e) && Present(f) && Flags(e) == Flags(f) ==> Allowed(e).write == Allowed(f).write && Allowed(e).user == Allowed(f).user
  {
    assert e == e / 4096 * 4096 + e % 4096 && f == f / 4096 * 4096 + f % 4096;
    EntryBits(e / 4096, e % 4096);
    EntryBits(f / 4096, f % 4096);
  }

  lemma ClearedSeen(s: Vm, s': Vm, low: nat, high: nat, r: nat, from: nat, to: nat)
    requires r < |s.mem| && Ok(s', low, high) && Tree(s', r) && Cleared(s, s', r, from, to, to) && to <= VPAGES
    ensures forall v: nat :: from <= v < to ==> Translate(s'.mem, r, v) == NoAccess
  {
    hide Ok, Translate;
    forall v: nat | from <= v < to ensures Translate(s'.mem, r, v) == NoAccess {
      PteDecides(s', low, high, r, v);
    }
  }
}
