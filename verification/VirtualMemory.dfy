/**
 The page allocator (kernel/kalloc.c) and the page-table operations of kernel/vm.c, as methods on the
 physical memory of a machine.

 A page is used either as a table of entries or as bytes, and the machine keeps both views.  The
 ghost field role says what every managed frame is used for.
 */
module VirtualMemory {
  import opened Blocks
  import opened FrameCounts
  import opened MemoryChanges
  import opened PageTable
  import opened TreeTeardown
  import opened UserMemory

  datatype Outcome = Done | NoMemory | Panic

  class Machine {
    var free: seq<nat>                 // the free list; its head is the last element
    var pt: map<nat, seq<nat>>         // pages as tables of entries
    var data: map<nat, seq<Byte>>      // pages as bytes
    ghost var role: map<nat, Role>

    ghost function Mem(): Mem
      reads this
    {
      PageTable.Mem(pt, role)
    }

    ghost predicate Valid()
      reads this
    {
      Mem().Ok() && ListOk(free, role, data)
    }

    /** kalloc: the frame at the head of the free list, filled with junk, or 0. */
    method Kalloc() returns (f: nat)
      requires Valid()
      modifies this
      ensures Valid() && Kept(old(Mem()), Mem())
      ensures f == 0 <==> old(free) == []
      ensures f == 0 ==> Mem() == old(Mem()) && free == old(free) && data == old(data)
      ensures f != 0 ==> f == old(free)[|old(free)| - 1] && free == old(free)[..|old(free)| - 1]
      ensures f != 0 ==>
                && f in old(role) && old(role)[f].Free? && role == old(role)[f := Held]
                && data == old(data)[f := seq(PGSIZE, _ => 5)]
      ensures f != 0 ==> pt == old(pt)[f := seq(NPTE, _ => JUNK)]
    {
      hide PageTable.Mem.Ok, KeptBut, ListOk;
      ghost var m := Mem();
      if |free| == 0 {
        KeptSelf(m);
        return 0;
      }
      f := free[|free| - 1];
      ListPop(free, role, data, seq(PGSIZE, _ => 5));
      RetagOk(m, f, Held, seq(NPTE, _ => JUNK));
      RetagKept(m, f, Held, seq(NPTE, _ => JUNK));
      free := free[..|free| - 1];
      pt, data := pt[f := seq(NPTE, _ => JUNK)], data[f := seq(PGSIZE, _ => 5)];
      role := role[f := Held];
    }

    /** kfree: the frame, filled with junk, goes to the head of the free list. */
    method Kfree(f: nat)
      requires Valid() && f in role && role[f].Held?
      modifies this
      ensures Valid() && Kept(old(Mem()), Mem())
      ensures free == old(free) + [f] && role == old(role)[f := Free(|old(free)|)]
      ensures pt == old(pt)[f := seq(NPTE, _ => JUNK / 5)] && data == old(data)[f := seq(PGSIZE, _ => 1)]
    {
      hide PageTable.Mem.Ok, KeptBut, ListOk;
      ghost var m := Mem();
      ListPush(free, role, data, f, seq(PGSIZE, _ => 1));
      RetagOk(m, f, Free(|free|), seq(NPTE, _ => JUNK / 5));
      RetagKept(m, f, Free(|free|), seq(NPTE, _ => JUNK / 5));
      role := role[f := Free(|free|)];
      free := free + [f];
      pt, data := pt[f := seq(NPTE, _ => JUNK / 5)], data[f := seq(PGSIZE, _ => 1)];
    }

    /** A new table page below a missing entry of walk. */
    method AddTable(t: nat, i: nat, ghost root: nat, ghost level: nat, ghost vpn: nat) returns (g: nat)
      requires Valid() && Mem().IsTable(root, root, 2, 0) && level < 2 && vpn < SPAN
      requires 0 != t == Mem().TableAt(root, level + 1, vpn) && i == Index(level + 1, vpn)
               && !IsValid(Mem().Entry(t, i))
      modifies this
      ensures Valid() && Kept(old(Mem()), Mem()) && Settled(old(Mem()), Mem(), root, 0, 0, old(data), data)
      ensures g == 0 ==> old(free) == [] == free && Mem() == old(Mem())
      ensures g != 0 ==> g == Mem().TableAt(root, level, vpn) && |free| == |old(free)| - 1
      ensures g != 0 ==>
                && (forall l, v {:trigger HasTable(Mem(), root, l, v)} | 0 <= l < 2 && 0 <= v < SPAN ::
                      HasTable(Mem(), root, l, v)
                      <==> HasTable(old(Mem()), root, l, v) || (l == level && Prefix(l, v) == Prefix(l, vpn)))
                && Missing(old(Mem()), root, level + 1, vpn) == level + 1 && Missing(Mem(), root, level, vpn) == level
    {
      hide PageTable.Mem.Ok, KeptBut, Index, Prefix, FirstPage, MakePte, FrameOf, Settled, HasTable, Missing;
      ghost var m := Mem();
      g := Kalloc();
      if g == 0 {
        SettledNone(m, root, 0, 0, data);
      } else {
        ghost var m1 := Mem();
        KallocKeepsPath(m, m1, root, level, vpn, g);
        AddTableOk(m1, root, level, vpn, g);
        AddTableKept(m1, root, level, vpn, g);
        KeptTrans(m, m1, WithTable(m1, root, level, vpn, g));
        var entries: seq<nat> := pt[t][i := MakePte(g, PTE_V)];
        pt := pt[t := entries][g := seq(NPTE, _ => 0)];
        role := role[g := Table(root, level, Prefix(level, vpn))];
        assert Mem() == WithTable(m1, root, level, vpn, g);
        TableCounts(m, m1, root, level, vpn, g);
        AddSettled(m, Mem(), root, g, old(data), data);
        ListKept(free, m1.role, data, role, data);
      }
    }

    /** walk: the level-0 table on the way to page vpn, with missing tables added if alloc is set.
        No translation changes.  The result is 0 only if a table is missing and may not be added or
        there is no memory for it. */
    method Walk(root: nat, vpn: nat, alloc: bool) returns (t: nat)
      requires Valid() && Mem().IsTable(root, root, 2, 0) && vpn < MAXVPN
      modifies this
      ensures Valid() && Kept(old(Mem()), Mem()) && Settled(old(Mem()), Mem(), root, 0, 0, old(data), data)
      ensures Mem().IsTable(root, root, 2, 0) && t == Mem().TableAt(root, 0, vpn)
      ensures !alloc ==> Mem() == old(Mem()) && data == old(data) && free == old(free)
      ensures alloc && t == 0 ==> free == []
      ensures alloc ==> (t == 0 <==> |old(free)| < Missing(old(Mem()), root, 2, vpn))
      ensures alloc && t != 0 ==>
                |free| == |old(free)| - Missing(old(Mem()), root, 2, vpn) && Adds(old(Mem()), Mem(), root, 0, vpn)
    {
      hide PageTable.Mem.Ok, KeptBut, Index, Prefix, FirstPage, MakePte, FrameOf, Settled, Adds, Missing;
      AddsNone(Mem(), root, vpn);
      KeptSelf(Mem());
      SettledNone(Mem(), root, 0, 0, data);
      RootNonzero(Mem(), root);
      t := root;
      var level := 2;
      while level > 0
        invariant 0 <= level <= 2 && t != 0 && t == Mem().TableAt(root, level, vpn)
        invariant Valid() && Mem().IsTable(root, root, 2, 0)
        invariant Kept(old(Mem()), Mem()) && Settled(old(Mem()), Mem(), root, 0, 0, old(data), data)
        invariant !alloc ==> Mem() == old(Mem()) && data == old(data) && free == old(free)
        invariant |free| + Missing(old(Mem()), root, 2, vpn) == |old(free)| + Missing(Mem(), root, level, vpn)
        invariant Adds(old(Mem()), Mem(), root, level, vpn)
      {
        ghost var m := Mem();
        TableShape(m, root, level, vpn);
        var i := Index(level, vpn);
        var e := pt[t][i];
        if IsValid(e) {
          ChildTable(m, root, level, vpn);
          t := FrameOf(e);
          TableThere(m, root, level - 1, vpn);
          AddsLevel(old(Mem()), m, m, root, level - 1, vpn);
        } else {
          NoTableBelow(m, root, level, vpn);
          if !alloc {
            return 0;
          }
          ghost var data0 := data;
          t := AddTable(t, i, root, level - 1, vpn);
          KeptTrans(old(Mem()), m, Mem());
          SettledTrans(old(Mem()), m, Mem(), root, 0, 0, 0, 0, old(data), data0, data);
          if t == 0 {
            BelowMissing(m, root, level - 1, vpn);
            return;
          }
          AddsLevel(old(Mem()), m, Mem(), root, level - 1, vpn);
        }
        level := level - 1;
      }
      assert Missing(Mem(), root, 0, vpn) == 0 by { MissingNone(Mem(), root, vpn); }
    }

    /** One round of mappages: page vpn gets an entry for frame f with permissions perm.  If the mapping
        owns the frame, the frame passes from its holder to the page. */
    method MapPage(root: nat, vpn: nat, f: nat, perm: nat, ghost owned: bool) returns (o: Outcome)
      requires Valid() && Mem().IsTable(root, root, 2, 0) && vpn < MAXVPN && PermOk(perm)
      requires if owned then f in role && role[f].Held? else !IsUser(perm)
      modifies this
      ensures Valid() && Mem().IsTable(root, root, 2, 0) && KeptBut(old(Mem()), Mem(), root, vpn, vpn + 1)
      ensures o == Panic <==> IsValid(old(Mem()).Pte(root, vpn))
      ensures o == NoMemory ==> free == []
      ensures o == NoMemory <==> |old(free)| < Missing(old(Mem()), root, 2, vpn)
      ensures o == Done ==>
                |free| == |old(free)| - Missing(old(Mem()), root, 2, vpn) && Adds(old(Mem()), Mem(), root, 0, vpn)
      ensures o != Done ==> Kept(old(Mem()), Mem()) && Settled(old(Mem()), Mem(), root, 0, 0, old(data), data)
      ensures o == Done ==> Mem().Pte(root, vpn) == MakePte(f, Perm(perm))
      ensures o == Done ==> Settled(Owned(old(Mem()), f, Leaf(root, vpn), owned), Mem(), root, 0, 0, old(data), data)
    {
      hide PageTable.Mem.Ok, KeptBut, Index, Prefix, FirstPage, MakePte, FrameOf, Settled, IsLeaf, IsUser, Perm, Adds,
           Missing;
      ghost var m := Mem();
      var t := Walk(root, vpn, true);
      ghost var m1 := Mem();
      KeptRoot(m, m1, root, vpn);
      KeptNarrow(m, m1, root, vpn, vpn + 1);
      if t == 0 {
        return NoMemory;
      }
      TableShape(m1, root, 0, vpn);
      var i := Index(0, vpn);
      if IsValid(pt[t][i]) {
        return Panic;
      }
      var e := MakePte(f, Perm(perm));
      PermParts(f, perm);
      SettledHeld(m, m1, root, f, old(data), data, owned);
      MapOk(m1, root, vpn, e, owned);
      MapKept(m1, root, vpn, e, owned);
      MapAddsNone(m1, root, vpn, e, owned);
      AddsBeforeNone(m, m1, Mapped(m1, root, vpn, e, owned), root, 0, vpn, vpn);
      KeptButTrans(m, m1, Mapped(m1, root, vpn, e, owned), root, vpn, vpn + 1);
      MapSettled(m, m1, root, vpn, e, owned, old(data), data);
      var entries: seq<nat> := pt[t][i := e];
      pt := pt[t := entries];
      if owned {
        role := role[f := Leaf(root, vpn)];
      }
      assert Mem() == Mapped(m1, root, vpn, e, owned);
      ListKept(free, m1.role, data, role, data);
      return Done;
    }

    /** mappages: pages from va on get frames from pa on, until a table page cannot be allocated or a
        page turns out to be mapped already; k pages have been mapped then. */
    method Mappages(root: nat, va: nat, size: nat, pa: nat, perm: nat, ghost owned: bool)
      returns (o: Outcome, ghost k: nat)
      requires Valid() && Mem().IsTable(root, root, 2, 0) && size > 0 && va + size <= MAXVPN * PGSIZE && PermOk(perm)
      requires if owned then pa / PGSIZE in role && role[pa / PGSIZE].Held? && va / PGSIZE == (va + size - 1) / PGSIZE
               else !IsUser(perm)
      modifies this
      ensures Valid() && Mem().IsTable(root, root, 2, 0)
      ensures KeptBut(old(Mem()), Mem(), root, va / PGSIZE, va / PGSIZE + k)
      ensures MapsTo(Mem(), root, va / PGSIZE, k, pa / PGSIZE, Perm(perm))
      ensures k <= (va + size - 1) / PGSIZE - va / PGSIZE + 1
      ensures o == Done <==> k == (va + size - 1) / PGSIZE - va / PGSIZE + 1
      ensures o == NoMemory ==> free == []
      ensures o == Panic ==> IsValid(old(Mem()).Pte(root, va / PGSIZE + k))
      ensures o != Done ==>
                (o == NoMemory <==> |old(free)| < TablesNeeded(old(Mem()), root, va / PGSIZE, va / PGSIZE + k + 1))
      ensures o == Done ==>
                && |free| == |old(free)| - TablesNeeded(old(Mem()), root, va / PGSIZE, va / PGSIZE + k)
                && AddsRange(old(Mem()), Mem(), root, va / PGSIZE, va / PGSIZE + k)
      ensures Settled(Owned(old(Mem()), pa / PGSIZE, Leaf(root, va / PGSIZE), owned && o == Done), Mem(), root, 0, 0,
                      old(data), data)
    {
      hide PageTable.Mem.Ok, KeptBut, Settled, IsLeaf, IsUser, Perm, MakePte, PageTable.Mem.Pte, MapsTo, Adds,
           AddsRange,
           Missing, TablesNeeded, FramesNeeded;
      ghost var m, a0, f0 := Mem(), va / PGSIZE, pa / PGSIZE;
      var a, last, f := va / PGSIZE, (va + size - 1) / PGSIZE, pa / PGSIZE;
      k := 0;
      KeptSelf(m);
      KeptNarrow(m, m, root, a, a);
      SettledNone(m, root, 0, 0, data);
      MapsToNone(m, root, a, f, Perm(perm));
      AddsRangeNone(m, root, a);
      NeedsNone(m, root, a);
      while true
        invariant |free| + TablesNeeded(m, root, a0, a) == |old(free)| && AddsRange(m, Mem(), root, a0, a)
        invariant a == a0 + k <= last && f == f0 + k && (owned ==> k == 0 && Mem() == m && data == old(data))
        invariant Valid() && Mem().IsTable(root, root, 2, 0)
        invariant KeptBut(m, Mem(), root, a0, a) && MapsTo(Mem(), root, a0, k, f0, Perm(perm))
        invariant Settled(m, Mem(), root, 0, 0, old(data), data)
        decreases last - a
      {
        ghost var m1, data1 := Mem(), data;
        KeptAt(m, m1, root, a0, a, a);
        NeedsMore(m, m1, root, a0, a);
        o := MapPage(root, a, f, perm, owned);
        MapMore(m, m1, Mem(), root, a0, k, f0, Perm(perm), o == Done);
        if o != Done {
          SettledTrans(m, m1, Mem(), root, 0, 0, 0, 0, old(data), data1, data);
          return;
        }
        AddsRangeMore(m, m1, Mem(), root, a0, a);
        k := k + 1;
        if !owned {
          SettledTrans(m, m1, Mem(), root, 0, 0, 0, 0, old(data), data1, data);
        }
        if a == last {
          return;
        }
        a, f := a + 1, f + 1;
      }
    }

    /** One round of uvmalloc or uvmcopy: a new page of memory with the given contents at address va, or
        no change but for tables. */
    method AddPage(root: nat, va: nat, page: seq<Byte>, perm: nat) returns (ok: bool)
      requires Valid() && Mem().IsTable(root, root, 2, 0) && va % PGSIZE == 0 && va / PGSIZE < MAXVPN
      requires PermOk(perm) && |page| == PGSIZE && !IsValid(Mem().Pte(root, va / PGSIZE))
      modifies this
      ensures Valid() && Mem().IsTable(root, root, 2, 0)
              && KeptBut(old(Mem()), Mem(), root, va / PGSIZE, va / PGSIZE + 1)
      ensures ok ==> NewPage(old(Mem()), Mem(), data, root, va / PGSIZE, page, Perm(perm))
      ensures ok ==> Settled(old(Mem()), Mem(), root, va / PGSIZE, va / PGSIZE + 1, old(data), data)
      ensures !ok ==> Kept(old(Mem()), Mem()) && Settled(old(Mem()), Mem(), root, 0, 0, old(data), data)
      ensures ok <==> |old(free)| >= 1 + Missing(old(Mem()), root, 2, va / PGSIZE)
      ensures ok ==> |free| == |old(free)| - 1 - Missing(old(Mem()), root, 2, va / PGSIZE)
      ensures ok ==> Adds(old(Mem()), Mem(), root, 0, va / PGSIZE)
    {
      hide PageTable.Mem.Ok, KeptBut, Settled, IsLeaf, IsUser, Perm, MakePte, PageTable.Mem.Pte, NewPage, MapsTo,
           ListOk, Adds, AddsRange, Missing, TablesNeeded, FramesNeeded;
      ghost var m, vpn := Mem(), va / PGSIZE;
      ListKeys(free, role, data);
      var f := Kalloc();
      if f == 0 {
        KeptNarrow(m, Mem(), root, vpn, vpn + 1);
        SettledNone(m, root, 0, 0, data);
        return false;
      }
      ghost var m1 := Mem();
      KallocAddsNone(m, m1, f, root, vpn);
      KeptRoot(m, m1, root, vpn);
      ListData(free, role, data, f, page);
      data := data[f := page];
      ghost var data1 := data;
      FrameAddress(f);
      OnePage(va);
      var o, k := Mappages(root, va, PGSIZE, f * PGSIZE, perm, true);
      ghost var m2, data2 := Mem(), data;
      OnePageNeeds(m1, root, vpn);
      if o == Done {
        OnePageAdds(m, m1, m2, root, vpn);
        KeptNarrow(m, m1, root, vpn, vpn + 1);
        KeptButTrans(m, m1, m2, root, vpn, vpn + 1);
        AddPageSettled(m, m1, m2, root, vpn, f, old(data), data1, data2);
        MapsToAt(m2, root, vpn, k, f, Perm(perm), vpn);
        AddPageNew(m, m1, m2, root, vpn, f, page, perm, data1, data2);
        return true;
      }
      KeptEmpty(m1, m2, root, vpn);
      SettledHeld(m1, m2, root, f, data1, data, true);
      ListKeys(free, role, data);
      Kfree(f);
      KeptTrans(m, m1, m2);
      KeptTrans(m, m2, Mem());
      KeptNarrow(m, Mem(), root, vpn, vpn + 1);
      NoPageSettled(m, m1, m2, Mem(), root, f, old(data), data1, data2, data);
      return false;
    }

    /** The entry of page vpn, or 0 if there is no table for it. */
    method ReadPte(root: nat, vpn: nat) returns (t: nat, e: nat)
      requires Valid() && Mem().IsTable(root, root, 2, 0) && vpn < MAXVPN
      modifies this
      ensures Valid() && Mem() == old(Mem()) && data == old(data) && free == old(free)
      ensures e == Mem().Pte(root, vpn) && t == Mem().TableAt(root, 0, vpn)
      ensures IsValid(e) ==> t in pt && |pt[t]| == NPTE && Index(0, vpn) < NPTE && FlagsOf(e) != PTE_V
    {
      hide PageTable.Mem.Ok, KeptBut, Settled, FlagsOf, ListOk;
      t := Walk(root, vpn, false);
      TableShape(Mem(), root, 0, vpn);
      e := if t == 0 then 0 else pt[t][Index(0, vpn)];
      if IsValid(e) {
        PteIsLeaf(Mem(), root, vpn);
      }
    }

    /** The entry of page vpn becomes 0, and its frame, if the page owned it, is held by the caller. */
    method ClearPte(root: nat, vpn: nat, t: nat, e: nat, ghost owned: bool)
      requires Valid() && CanUnmap(Mem(), root, vpn, owned) && e == Mem().Pte(root, vpn)
               && t == Mem().TableAt(root, 0, vpn)
      requires t in pt && |pt[t]| == NPTE && Index(0, vpn) < NPTE
      modifies this`pt, this`role
      ensures Valid() && Mem() == Unmapped(old(Mem()), root, vpn, owned)
    {
      hide PageTable.Mem.Ok, Index, FrameOf, ListOk;
      UnmapOk(Mem(), root, vpn, owned);
      ListHeld(free, role, data, FrameOf(e), owned);
      var entries: seq<nat> := pt[t][Index(0, vpn) := 0];
      pt := pt[t := entries];
      role := if owned then role[FrameOf(e) := Held] else role;
    }

    /** One round of uvmunmap.  Only an owned frame may be freed. */
    method UnmapPage(root: nat, vpn: nat, doFree: bool) returns (ok: bool)
      requires Valid() && Mem().IsTable(root, root, 2, 0) && vpn < MAXVPN && MayUnmap(Mem(), root, vpn, doFree)
      modifies this
      ensures Valid() && Mem().IsTable(root, root, 2, 0) && KeptBut(old(Mem()), Mem(), root, vpn, vpn + 1)
      ensures ok == IsValid(old(Mem()).Pte(root, vpn))
      ensures ok ==> Mem().Pte(root, vpn) == 0 && Released(old(Mem()), Mem(), root, vpn, vpn + 1, old(data), data)
      ensures !ok ==> Mem() == old(Mem()) && data == old(data) && free == old(free)
    {
      hide PageTable.Mem.Ok, KeptBut, Index, FrameOf, FlagsOf, Released, ListOk, PageTable.Mem.Pte,
           PageTable.Mem.TableAt;
      ghost var m := Mem();
      KeptSelf(m);
      KeptNarrow(m, m, root, vpn, vpn + 1);
      ListKeys(free, role, data);
      var t, e := ReadPte(root, vpn);
      if !IsValid(e) {
        return false;
      }
      if FlagsOf(e) == PTE_V {
        assert false;  // panic("uvmunmap: not a leaf")
      }
      PteIsLeaf(m, root, vpn);
      UnmapKept(m, root, vpn, doFree);
      ClearPte(root, vpn, t, e, doFree);
      ghost var m1 := Mem();
      if doFree {
        Kfree(FrameOf(e));
        KeptRoot(m1, Mem(), root, vpn);
        KeptNarrow(m1, Mem(), root, vpn, vpn + 1);
        KeptButTrans(m, m1, Mem(), root, vpn, vpn + 1);
      }
      UnmapReleased(m, Mem(), root, vpn, FrameOf(e), doFree, old(data), data);
      return true;
    }

    /** uvmunmap: the pages lose their mapping and, if asked, their memory goes back to the allocator.
        It stops with a panic at the first of them that is not mapped. */
    method Uvmunmap(root: nat, va: nat, npages: nat, doFree: bool) returns (o: Outcome, ghost k: nat)
      requires Valid() && Mem().IsTable(root, root, 2, 0) && va / PGSIZE + npages <= MAXVPN
      requires MayUnmapAll(Mem(), root, va / PGSIZE, va / PGSIZE + npages, doFree)
      modifies this
      ensures Valid() && Mem().IsTable(root, root, 2, 0) && k <= npages
      ensures KeptBut(old(Mem()), Mem(), root, va / PGSIZE, va / PGSIZE + k)
      ensures AllMapped(old(Mem()), root, va / PGSIZE, va / PGSIZE + k)
              && NoneMapped(Mem(), root, va / PGSIZE, va / PGSIZE + k)
      ensures Released(old(Mem()), Mem(), root, va / PGSIZE, va / PGSIZE + k, old(data), data)
      ensures o == Done <==> va % PGSIZE == 0 && k == npages
      ensures o != Done ==> o == Panic && (va % PGSIZE != 0 || !IsValid(old(Mem()).Pte(root, va / PGSIZE + k)))
    {
      hide PageTable.Mem.Ok, KeptBut, Settled, Released, IsUser, ListOk, NoneMapped, AllMapped, PageTable.Mem.Pte,
           MayUnmapAll, MayUnmap;
      ghost var m, lo := Mem(), va / PGSIZE;
      k := 0;
      KeptSelf(m);
      KeptNarrow(m, m, root, lo, lo);
      ListKeys(free, role, data);
      ReleasedNone(m, root, lo, data);
      if va % PGSIZE != 0 {
        return Panic, 0;
      }
      var a, last := va / PGSIZE, va / PGSIZE + npages;
      while a < last
        invariant a == lo + k <= last
        invariant Valid() && Mem().IsTable(root, root, 2, 0) && KeptBut(m, Mem(), root, lo, a)
        invariant AllMapped(m, root, lo, a) && NoneMapped(Mem(), root, lo, a)
                  && Released(m, Mem(), root, lo, a, old(data), data)
      {
        ghost var m1, data1 := Mem(), data;
        KeptAt(m, m1, root, lo, a, a);
        MayUnmapNext(m, m1, root, lo, a, last, doFree, old(data), data1);
        var ok := UnmapPage(root, a, doFree);
        if !ok {
          return Panic, k;
        }
        UnmapMore(m, m1, Mem(), root, lo, a, old(data), data1, data);
        a, k := a + 1, k + 1;
      }
      return Done, k;
    }

    /** uvmdealloc: the pages above the new size go.  The old size may be larger than the process, but
        not by a page: there is a panic if a page in between is not mapped. */
    method Uvmdealloc(root: nat, oldsz: nat, newsz: nat) returns (o: Outcome, sz: nat)
      requires Valid() && Mem().IsTable(root, root, 2, 0) && oldsz <= MAXVPN * PGSIZE
      requires MayUnmapAll(Mem(), root, Pages(newsz), Pages(oldsz), true)
      modifies this
      ensures Valid() && Mem().IsTable(root, root, 2, 0) && sz == if newsz < oldsz then newsz else oldsz
      ensures o == if AllMapped(old(Mem()), root, Pages(newsz), Pages(oldsz)) then Done else Panic
      ensures o == Done ==> NoneMapped(Mem(), root, Pages(newsz), Pages(oldsz))
      ensures o == Done ==> KeptBut(old(Mem()), Mem(), root, Pages(newsz), Pages(oldsz))
      ensures o == Done ==> Released(old(Mem()), Mem(), root, Pages(newsz), Pages(oldsz), old(data), data)
    {
      hide PageTable.Mem.Ok, KeptBut, Settled, Released, ListOk, PageTable.Mem.Pte, MayUnmapAll, MayUnmap;
      PageCount(oldsz);
      PageCount(newsz);
      if newsz >= oldsz || Pages(newsz) >= Pages(oldsz) {
        KeptSelf(Mem());
        KeptNarrow(Mem(), Mem(), root, Pages(newsz), Pages(oldsz));
        ListKeys(free, role, data);
        ReleasedEmpty(Mem(), root, Pages(newsz), Pages(oldsz), data);
        return Done, if newsz < oldsz then newsz else oldsz;
      }
      ghost var k;
      o, k := Uvmunmap(root, Pages(newsz) * PGSIZE, Pages(oldsz) - Pages(newsz), true);
      return o, newsz;
    }

    /** uvmalloc: either the process has grown by zeroed pages that were free before, or no translation
        has changed, no frame is lost, and the only frames taken are tables of this tree.  A process that
        would grow beyond MAXVA makes walk panic, unless memory runs out before. */
    method Uvmalloc(root: nat, oldsz: nat, newsz: nat) returns (o: Outcome, sz: nat)
      requires Valid() && Mem().IsTable(root, root, 2, 0) && oldsz <= MAXVPN * PGSIZE
      requires NoneMapped(Mem(), root, Pages(oldsz), if newsz <= MAXVPN * PGSIZE then Pages(newsz) else MAXVPN)
      modifies this
      ensures Valid() && Mem().IsTable(root, root, 2, 0)
      ensures o == Done ==> newsz <= MAXVPN * PGSIZE && sz == if newsz < oldsz then oldsz else newsz
      ensures o == Done ==> Grown(old(Mem()), Mem(), root, Pages(oldsz), Pages(newsz), Zeros, old(data), data)
      ensures o == NoMemory ==>
                sz == 0 && Kept(old(Mem()), Mem()) && Settled(old(Mem()), Mem(), root, 0, 0, old(data), data)
      ensures newsz < oldsz ==> o == Done
      ensures oldsz <= newsz <= MAXVPN * PGSIZE ==>
                (o == NoMemory <==> |old(free)| < FramesNeeded(old(Mem()), root, Pages(oldsz), Pages(newsz)))
      ensures newsz > MAXVPN * PGSIZE ==>
                (o == NoMemory <==> |old(free)| <= FramesNeeded(old(Mem()), root, Pages(oldsz), MAXVPN))
      ensures o == Panic ==>
                && newsz > MAXVPN * PGSIZE && free != []
                && Grown(old(Mem()), Mem(), root, Pages(oldsz), MAXVPN, Zeros, old(data), data)
    {
      hide PageTable.Mem.Ok, KeptBut, Settled, Released, ListOk, PageTable.Mem.Pte, MayUnmapAll, NoneMapped, AllMapped,
           Grown, NewPage, IsLeaf, Adds, Tally, Missing, FramesNeeded;
      ghost var m, lo, hi := Mem(), Pages(oldsz), if newsz <= MAXVPN * PGSIZE then Pages(newsz) else MAXVPN;
      PageCount(oldsz);
      PageCount(newsz);
      ListKeys(free, role, data);
      GrownNone(m, root, lo, lo, Zeros, data);
      if newsz < oldsz {
        GrownNone(m, root, lo, hi, Zeros, data);
        return Done, oldsz;
      }
      var a := Pages(oldsz) * PGSIZE;
      TallyStart(m, root, lo, |free|);
      while a < newsz
        invariant Tally(m, Mem(), root, lo, a / PGSIZE, |old(free)|, |free|)
        invariant a % PGSIZE == 0 && lo <= a / PGSIZE <= hi
        invariant Valid() && Mem().IsTable(root, root, 2, 0)
                  && Grown(m, Mem(), root, lo, a / PGSIZE, Zeros, old(data), data)
      {
        ghost var m1, data1, p := Mem(), data, a / PGSIZE;
        PageCount(a);
        if a >= MAXVPN * PGSIZE {
          TallyEnds(m, m1, root, lo, p, |old(free)|, |free|);
          if free != [] {
            return Panic, 0;
          }
          GrownOwned(m, m1, root, lo, p, Zeros, old(data), data1);
          var o1, s := Uvmdealloc(root, a, Pages(oldsz) * PGSIZE);
          UndoPages(m, m1, Mem(), root, lo, p, hi, Zeros, old(data), data1, data);
          return NoMemory, 0;
        }
        GrownNext(m, m1, root, lo, p, hi, Zeros, old(data), data1);
        ghost var now := |free|;
        ZeroPerm();
        var done := AddPage(root, a, seq(PGSIZE, _ => 0), PTE_W + PTE_X + PTE_R + PTE_U);
        if !done {
          TallyFails(m, m1, root, lo, p, hi, |old(free)|, now);
          GrownSame(m, m1, Mem(), root, lo, p, Zeros, old(data), data1, data);
          ghost var m2, data2 := Mem(), data;
          GrownOwned(m, m2, root, lo, p, Zeros, old(data), data2);
          var o, s := Uvmdealloc(root, a, Pages(oldsz) * PGSIZE);
          UndoPages(m, m2, Mem(), root, lo, p, hi, Zeros, old(data), data2, data);
          return NoMemory, 0;
        }
        GrownMore(m, m1, Mem(), root, lo, p, Zeros, old(data), data1, data);
        TallyMore(m, m1, Mem(), root, lo, p, |old(free)|, now);
        a := a + PGSIZE;
      }
      TallyEnds(m, Mem(), root, lo, hi, |old(free)|, |free|);
      return Done, newsz;
    }

    /** uvmcopy: either the new tree has the pages of the old one, in frames that were free before, or no
        translation has changed and the only frames taken are tables of the new tree. */
    method Uvmcopy(source: nat, target: nat, sz: nat) returns (o: Outcome)
      requires Valid() && Mem().IsTable(source, source, 2, 0) && Mem().IsTable(target, target, 2, 0) && source != target
      requires sz <= MAXVPN * PGSIZE && MayUnmapAll(Mem(), source, 0, Pages(sz), true)
               && NoneMapped(Mem(), target, 0, Pages(sz))
      modifies this
      ensures Valid() && Mem().IsTable(target, target, 2, 0)
      ensures var n := MappedRun(old(Mem()), source, Pages(sz));
              && (o == NoMemory <==> |old(free)| < FramesNeeded(old(Mem()), target, 0, n))
              && (o == Panic <==> n < Pages(sz) && |old(free)| >= FramesNeeded(old(Mem()), target, 0, n))
      ensures o == Done ==> AllMapped(old(Mem()), source, 0, Pages(sz))
      ensures o == Done ==>
                Grown(old(Mem()), Mem(), target, 0, Pages(sz), PagesOf(old(Mem()), old(data), source), old(data), data)
      ensures o == NoMemory ==> Kept(old(Mem()), Mem()) && Settled(old(Mem()), Mem(), target, 0, 0, old(data), data)
    {
      hide PageTable.Mem.Ok, KeptBut, Settled, Released, ListOk, PageTable.Mem.Pte, MayUnmapAll, NoneMapped, Grown,
           NewPage, IsLeaf, PermOk, Perm, FlagsOf, FrameOf, Source.Page, Source.Flags, Adds, Tally, Missing,
           FramesNeeded, MappedRun;
      ghost var m, hi, src := Mem(), Pages(sz), PagesOf(Mem(), data, source);
      PageCount(sz);
      ListKeys(free, role, data);
      GrownNone(m, target, 0, 0, src, data);
      TallyStart(m, target, 0, |free|);
      var i := 0;
      while i < sz
        invariant i % PGSIZE == 0 && i / PGSIZE <= hi
        invariant Tally(m, Mem(), target, 0, i / PGSIZE, |old(free)|, |free|)
        invariant AllMapped(m, source, 0, i / PGSIZE)
        invariant Valid() && Mem().IsTable(source, source, 2, 0) && Mem().IsTable(target, target, 2, 0)
        invariant Grown(m, Mem(), target, 0, i / PGSIZE, src, old(data), data)
      {
        ghost var m1, data1, p := Mem(), data, i / PGSIZE;
        PageCount(i);
        GrownNext(m, m1, target, 0, p, hi, src, old(data), data1);
        GrownSource(m, m1, target, 0, p, src, old(data), data1, source, p);
        var t, e := ReadPte(source, i / PGSIZE);
        if !IsValid(e) {
          CopyEnds(m, m1, source, target, p, hi, |old(free)|, |free|);
          return Panic;
        }
        ghost var now := |free|;
        SourcePage(m, m1, free, target, source, p, hi, src, old(data), data1);
        var done := AddPage(target, i, data[FrameOf(e)], FlagsOf(e));
        GrownRoot(m1, Mem(), source, target, p, p + 1);
        if !done {
          CopyFails(m, m1, source, target, p, hi, |old(free)|, now);
          GrownSame(m, m1, Mem(), target, 0, p, src, old(data), data1, data);
          ghost var m2, data2 := Mem(), data;
          GrownOwned(m, m2, target, 0, p, src, old(data), data2);
          var o', k := Uvmunmap(target, 0, i / PGSIZE, true);
          UndoPages(m, m2, Mem(), target, 0, p, hi, src, old(data), data2, data);
          return NoMemory;
        }
        GrownMore(m, m1, Mem(), target, 0, p, src, old(data), data1, data);
        TallyMore(m, m1, Mem(), target, 0, p, |old(free)|, now);
        i := i + PGSIZE;
      }
      CopyEnds(m, Mem(), source, target, hi, hi, |old(free)|, |free|);
      return Done;
    }

    /** freewalk: every table page of the tree m0 at or below f goes back to the allocator, and nothing
        else changes.  The tables were given up by the tree before, so that their holder is this call. */
    method Freewalk(f: nat, ghost m0: Mem, ghost root: nat, ghost level: nat, ghost prefix: nat)
      requires Valid() && Bare(m0, root) && m0.IsTable(f, root, level, prefix)
               && Pending(m0, Mem(), root, level, prefix)
      modifies this
      ensures Valid() && Cleared(m0, old(Mem()), Mem(), root, level, prefix, old(data), data)
      decreases level
    {
      hide PageTable.Mem.Ok, KeptBut, ListOk, PageTable.Mem.Pte, PageTable.Mem.TableAt, NoneMapped, IsLeaf, FrameOf,
           FlagsOf, Under, UnderPart;
      ghost var m := Mem();
      ListKeys(free, role, data);
      PartStart(m0, m, root, level, prefix, f, data);
      for i := 0 to NPTE
        invariant Valid() && PartCleared(m0, m, Mem(), root, level, prefix, i, f, old(data), data)
      {
        ghost var m1, data1 := Mem(), data;
        PartEntry(m0, m, m1, root, level, prefix, i, f, old(data), data1);
        BareEntry(m0, root, level, prefix, f, i);
        var pte := pt[f][i];
        if IsValid(pte) && !IsLeaf(pte) {
          PendingChild(m0, m, m1, root, level, prefix, i, f, old(data), data1);
          Freewalk(FrameOf(pte), m0, root, level - 1, prefix * NPTE + i);
          ghost var m2 := Mem();
          PartChild(m0, m1, m2, root, level, prefix, i, f, data1, data);
          var entries: seq<nat> := pt[f][i := 0];
          RetagOk(m2, f, Held, entries);
          pt := pt[f := entries];
          assert Mem() == Retagged(m2, f, Held, entries);
          PartNext(m0, m, m1, m2, root, level, prefix, i, f, entries, old(data), data1, data);
        } else if IsValid(pte) {
          assert false;  // panic("freewalk: leaf")
        } else {
          PartSkip(m0, m, m1, root, level, prefix, i, f, old(data), data);
        }
      }
      ghost var m1, data1 := Mem(), data;
      PartHolder(m0, m, m1, root, level, prefix, NPTE, f, old(data), data1);
      Kfree(f);
      PartEnd(m0, m, m1, Mem(), root, level, prefix, f, old(data), data1, data);
    }

    /** uvmfree: every frame of the tree, memory and tables, is free again; no other frame and no other
        tree has changed. */
    method Uvmfree(root: nat, sz: nat) returns (o: Outcome)
      requires Valid() && Mem().IsTable(root, root, 2, 0) && sz <= MAXVPN * PGSIZE
      requires MayUnmapAll(Mem(), root, 0, Pages(sz), true) && NoneMapped(Mem(), root, Pages(sz), SPAN)
      modifies this
      ensures Valid() && (o == Done <==> AllMapped(old(Mem()), root, 0, Pages(sz)))
      ensures o == Done ==> TreeFreed(old(Mem()), Mem(), root, old(data), data) && OthersKept(old(Mem()), Mem(), root)
    {
      hide PageTable.Mem.Ok, KeptBut, ListOk, PageTable.Mem.Pte, PageTable.Mem.TableAt, NoneMapped, AllMapped,
           MayUnmapAll,
           Released, Pending, Cleared, TreeFreed, OthersKept;
      ghost var m := Mem();
      PageCount(sz);
      PageCount(0);
      ghost var k := 0;
      o := Done;
      KeptSelf(m);
      KeptNarrow(m, m, root, 0, 0);
      ListKeys(free, role, data);
      ReleasedNone(m, root, 0, data);
      if sz > 0 {
        o, k := Uvmunmap(root, 0, Pages(sz), true);
        if o != Done {
          NotAllMapped(m, root, k, Pages(sz));
          return;
        }
      }
      ghost var m1, data1 := Mem(), data;
      BareAfter(m, m1, root, Pages(sz));
      DetachOk(m1, root);
      DetachList(free, m1, data1, root);
      role := Detached(m1, root).role;
      ghost var m2 := Mem();
      DetachPending(m1, root);
      Freewalk(root, m1, root, 2, 0);
      FreedAll(m, m1, m2, Mem(), root, Pages(sz), old(data), data1, data);
    }

    /** uvmcreate: an empty tree, or 0. */
    method Uvmcreate() returns (root: nat)
      requires Valid()
      modifies this
      ensures Valid() && Kept(old(Mem()), Mem()) && (root == 0 <==> old(free) == [])
      ensures root == 0 ==> Mem() == old(Mem()) && free == old(free) && data == old(data)
      ensures root != 0 ==> Bare(Mem(), root) && root in old(role) && old(role)[root].Free?
      ensures root != 0 ==>
                forall f | f in old(role) && f != root ::
                  f in role && role[f] == old(role)[f] && data[f] == old(data)[f]
    {
      hide PageTable.Mem.Ok, KeptBut, ListOk, PageTable.Mem.Pte, NoneMapped;
      ghost var m := Mem();
      root := Kalloc();
      if root != 0 {
        ghost var m1, data1 := Mem(), data;
        NewTree(m1, root);
        KeptTrans(m, m1, WithTree(m1, root));
        ListTable(free, role, data, root, Table(root, 2, 0), seq(PGSIZE, _ => 0));
        pt, data := pt[root := seq(NPTE, _ => 0)], data[root := seq(PGSIZE, _ => 0)];
        role := role[root := Table(root, 2, 0)];
        assert Mem() == WithTree(m1, root);
      }
    }

    /** walkaddr: the frame behind a page that the user may use, or 0. */
    method Walkaddr(root: nat, va: nat) returns (f: nat)
      requires Valid() && Mem().IsTable(root, root, 2, 0)
      modifies this
      ensures Valid() && Mem() == old(Mem()) && data == old(data) && free == old(free)
      ensures f == UserFrame(Mem(), root, va / PGSIZE)
      ensures f != 0 <==> UserAt(Mem(), root, va)
      ensures f != 0 ==> f in role && role[f] == Leaf(root, va / PGSIZE) && f in data && |data[f]| == PGSIZE
    {
      hide PageTable.Mem.Ok, ListOk, PageTable.Mem.Pte, FrameOf, IsUser, FlagsOf;
      if va >= MAXVPN * PGSIZE {
        return 0;
      }
      UserPage(free, Mem(), data, root, va / PGSIZE);
      var t, e := ReadPte(root, va / PGSIZE);
      if !IsValid(e) || !IsUser(e) {
        return 0;
      }
      return FrameOf(e);
    }

    /** copyout: the bytes go to the user's memory from dstva on, up to the first page that the user may
        not use.  No other byte of any user changes. */
    method Copyout(root: nat, dstva: nat, src: seq<Byte>) returns (ok: bool, ghost k: nat)
      requires Valid() && Mem().IsTable(root, root, 2, 0)
      modifies this
      ensures Valid() && Mem() == old(Mem()) && free == old(free) && k <= |src| && ok == (k == |src|)
      ensures UserSpan(Mem(), root, dstva, k) && (!ok ==> !UserAt(Mem(), root, dstva + k))
      ensures Wrote(Mem(), old(data), data, root, dstva, src[..k])
    {
      hide PageTable.Mem.Ok, ListOk, UserFrame, UserAt, UserSpan, Wrote, UserByte;
      ghost var m := Mem();
      var va, i := dstva, 0;
      k := 0;
      WroteNone(m, data, root, dstva);
      while i < |src|
        invariant i == k <= |src| && (i < |src| ==> va == dstva + i) && Valid() && Mem() == m && free == old(free)
        invariant UserSpan(m, root, dstva, k) && Wrote(m, old(data), data, root, dstva, src[..i])
        decreases |src| - i
      {
        ghost var data0 := data;
        var va0 := va / PGSIZE * PGSIZE;
        SamePage(m, root, va0, va);
        var f := Walkaddr(root, va0);
        if f == 0 {
          return false, k;
        }
        var off := va - va0;
        var n := PGSIZE - off;
        if n > |src| - i {
          n := |src| - i;
        }
        var chunk := src[i..i + n];
        WroteChunk(m, data, root, va, f, chunk);
        SpanMore(m, root, dstva, k, n);
        ListData(free, role, data, f, Patch(data[f], off, chunk));
        data := data[f := Patch(data[f], off, chunk)];
        WroteMore(m, old(data), data0, data, root, dstva, src[..i], chunk);
        assert src[..i] + chunk == src[..i + n];
        i, k, va := i + n, k + n, va0 + PGSIZE;
      }
      assert src[..k] == src;
      return true, k;
    }

    /** copyin: the user's bytes from srcva on, if the user may use all their pages. */
    method Copyin(root: nat, srcva: nat, len: nat) returns (ok: bool, dst: seq<Byte>)
      requires Valid() && Mem().IsTable(root, root, 2, 0)
      modifies this
      ensures Valid() && Mem() == old(Mem()) && data == old(data) && free == old(free)
      ensures ok == UserSpan(Mem(), root, srcva, len)
      ensures ok ==> |dst| == len && Reads(Mem(), data, root, srcva, dst)
    {
      hide PageTable.Mem.Ok, ListOk, UserFrame, UserAt, UserSpan, Reads, UserByte;
      ghost var m := Mem();
      var va := srcva;
      dst := [];
      ReadsNone(m, data, root, srcva);
      while |dst| < len
        invariant |dst| <= len && (|dst| < len ==> va == srcva + |dst|) && Valid() && Mem() == m && data == old(data)
                  && free == old(free)
        invariant UserSpan(m, root, srcva, |dst|) && Reads(m, data, root, srcva, dst)
        decreases len - |dst|
      {
        var va0 := va / PGSIZE * PGSIZE;
        SamePage(m, root, va0, va);
        var f := Walkaddr(root, va0);
        if f == 0 {
          SpanStops(m, root, srcva, |dst|, len);
          return false, dst;
        }
        var off := va - va0;
        var n := PGSIZE - off;
        if n > len - |dst| {
          n := len - |dst|;
        }
        SpanMore(m, root, srcva, |dst|, n);
        ReadsMore(m, data, root, srcva, dst, f, n);
        dst := dst + data[f][off..off + n];
        va := va0 + PGSIZE;
      }
      return true, dst;
    }
  }
}
