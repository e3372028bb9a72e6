/**
 How many page frames the operations of kernel/vm.c need: one for every new page of memory, and one for
 every table page that is missing on the way to a page.
 */
module FrameCounts {
  import opened MemoryChanges
  import opened PageTable

  /** The tree at root has a table of level l on the way to page v. */
  predicate HasTable(m: Mem, root: nat, l: nat, v: nat)
    requires l <= 2
  {
    m.TableAt(root, l, v) != 0
  }

  /** The tables of levels below k that are missing on the way to page v. */
  function Missing(m: Mem, root: nat, k: nat, v: nat): (n: nat)
    requires k <= 2
    ensures n <= k
  {
    if k == 0 then 0 else Missing(m, root, k - 1, v) + if HasTable(m, root, k - 1, v) then 0 else 1
  }

  // ---------- Which tables an operation adds ----------

  /** The tables of level k and up on the way to vpn have been added, if they were missing, and no others. */
  ghost predicate Adds(m: Mem, m': Mem, root: nat, k: nat, vpn: nat) {
    forall l, v {:trigger AddsAt(m, m', root, k, vpn, l, v)} | 0 <= l < 2 && 0 <= v < SPAN ::
      AddsAt(m, m', root, k, vpn, l, v)
  }

  ghost predicate AddsAt(m: Mem, m': Mem, root: nat, k: nat, vpn: nat, l: nat, v: nat)
    requires l <= 2
  {
    HasTable(m', root, l, v) <==> HasTable(m, root, l, v) || (l >= k && Prefix(l, v) == Prefix(l, vpn))
  }

  lemma AddsNone(m: Mem, root: nat, vpn: nat)
    ensures Adds(m, m, root, 2, vpn)
  {
  }

  lemma AddsAfterNone(m: Mem, m1: Mem, m2: Mem, root: nat, k: nat, vpn: nat, v: nat)
    requires Adds(m, m1, root, 2, v) && Adds(m1, m2, root, k, vpn)
    ensures Adds(m, m2, root, k, vpn)
  {
    hide HasTable, Prefix;
    forall l, w | 0 <= l < 2 && 0 <= w < SPAN ensures AddsAt(m, m2, root, k, vpn, l, w) {
      assert AddsAt(m, m1, root, 2, v, l, w) && AddsAt(m1, m2, root, k, vpn, l, w);
    }
  }

  lemma AddsBeforeNone(m: Mem, m1: Mem, m2: Mem, root: nat, k: nat, vpn: nat, v: nat)
    requires Adds(m, m1, root, k, vpn) && Adds(m1, m2, root, 2, v)
    ensures Adds(m, m2, root, k, vpn)
  {
    hide HasTable, Prefix;
    forall l, w | 0 <= l < 2 && 0 <= w < SPAN ensures AddsAt(m, m2, root, k, vpn, l, w) {
      assert AddsAt(m, m1, root, k, vpn, l, w) && AddsAt(m1, m2, root, 2, v, l, w);
    }
  }

  /** A frame that changes hands outside the trees is no table. */
  lemma RetagAddsNone(m: Mem, f: nat, r: Role, words: seq<nat>, root: nat, vpn: nat)
    requires m.Ok() && f in m.role && Loose(m.role[f]) && Loose(r) && m.IsTable(root, root, 2, 0)
    ensures Adds(m, Retagged(m, f, r, words), root, 2, vpn)
  {
    hide Mem.Ok, Mem.TableAt, Mem.Pte, Retagged, Prefix;
    forall l, v | 0 <= l < 2 && 0 <= v < SPAN ensures AddsAt(m, Retagged(m, f, r, words), root, 2, vpn, l, v) {
      RetagPath(m, f, r, words, root, l, v);
    }
  }

  lemma MapAddsNone(m: Mem, root: nat, vpn: nat, e: nat, owned: bool)
    requires CanMap(m, root, vpn, e, owned)
    ensures Adds(m, Mapped(m, root, vpn, e, owned), root, 2, vpn)
  {
    hide Mem.Ok, Mem.TableAt, Mem.Pte, WithPte, Prefix, IsLeaf, IsUser;
    forall l, v | 0 <= l < 2 && 0 <= v < SPAN ensures AddsAt(m, Mapped(m, root, vpn, e, owned), root, 2, vpn, l, v) {
      WithPtePath(m, root, vpn, e, root, l, v);
      OwnedPath(WithPte(m, root, vpn, e), FrameOf(e), Leaf(root, vpn), owned, root, l, v);
    }
  }

  /** A new table page: the one table that was missing, and the tables below it still are. */
  lemma AddTableAdds(m: Mem, root: nat, level: nat, vpn: nat, g: nat)
    requires CanAddTable(m, root, level, vpn, g)
    ensures var m' := WithTable(m, root, level, vpn, g);
            && (forall l, v {:trigger HasTable(m', root, l, v)} | 0 <= l < 2 && 0 <= v < SPAN ::
                  HasTable(m', root, l, v)
                  <==> HasTable(m, root, l, v) || (l == level && Prefix(l, v) == Prefix(l, vpn)))
            && Missing(m, root, level + 1, vpn) == level + 1 && Missing(m', root, level, vpn) == level
  {
    var m' := WithTable(m, root, level, vpn, g);
    NoChildYet(m, root, level, vpn, g);
    hide Prefix, FirstPage, WithTable, Mem.Ok, CanAddTable;
    forall l, v | 0 <= l < 2 && 0 <= v < SPAN
      ensures HasTable(m', root, l, v) <==> HasTable(m, root, l, v) || (l == level && Prefix(l, v) == Prefix(l, vpn)) {
      AddTableAt(m, root, level, vpn, g, l, v);
    }
    BelowMissing(m, root, level, vpn);
    assert level == 1 ==> !HasTable(m', root, 0, vpn);
  }

  lemma AddTableAt(m: Mem, root: nat, level: nat, vpn: nat, g: nat, l: nat, v: nat)
    requires CanAddTable(m, root, level, vpn, g) && l < 2 && v < SPAN
    ensures HasTable(WithTable(m, root, level, vpn, g), root, l, v)
            <==> HasTable(m, root, l, v) || (l == level && Prefix(l, v) == Prefix(l, vpn))
  {
    hide Prefix, FirstPage, WithTable, Mem.Ok, Mem.TableAt;
    AddTablePath(m, root, level, vpn, g, root, l, v);
  }

  lemma BelowMissing(m: Mem, root: nat, level: nat, vpn: nat)
    requires level < 2 && !HasTable(m, root, level, vpn)
    ensures Missing(m, root, level + 1, vpn) == level + 1 && (level == 1 ==> !HasTable(m, root, 0, vpn))
  {
  }

  /** One level of walk: the table below was there, or has been added. */
  lemma AddsLevel(m0: Mem, m: Mem, m': Mem, root: nat, level: nat, vpn: nat)
    requires level < 2 && vpn < SPAN && Adds(m0, m, root, level + 1, vpn) && HasTable(m', root, level, vpn)
    requires forall l, v {:trigger HasTable(m', root, l, v)} | 0 <= l < 2 && 0 <= v < SPAN ::
               HasTable(m', root, l, v) <==> HasTable(m, root, l, v) || (l == level && Prefix(l, v) == Prefix(l, vpn))
    ensures Adds(m0, m', root, level, vpn)
  {
    hide HasTable, Prefix;
    forall l, v | 0 <= l < 2 && 0 <= v < SPAN ensures AddsAt(m0, m', root, level, vpn, l, v) {
      assert AddsAt(m0, m, root, level + 1, vpn, l, v);
      assert HasTable(m', root, l, v) <==> HasTable(m, root, l, v) || (l == level && Prefix(l, v) == Prefix(l, vpn));
    }
  }

  lemma TableThere(m: Mem, root: nat, level: nat, vpn: nat)
    requires level < 2 && vpn < SPAN && HasTable(m, root, level, vpn)
    ensures forall l, v {:trigger HasTable(m, root, l, v)} | 0 <= l < 2 && 0 <= v < SPAN ::
              HasTable(m, root, l, v) <==> HasTable(m, root, l, v) || (l == level && Prefix(l, v) == Prefix(l, vpn))
    ensures Missing(m, root, level + 1, vpn) == Missing(m, root, level, vpn)
  {
    forall v | 0 <= v < SPAN && Prefix(level, v) == Prefix(level, vpn) ensures HasTable(m, root, level, v) {
      SamePrefixSameTable(m, root, level, v, vpn);
    }
  }

  lemma MissingSame(m: Mem, m': Mem, root: nat, v: nat, vpn: nat)
    requires Adds(m, m', root, 2, v) && vpn < SPAN
    ensures Missing(m', root, 2, vpn) == Missing(m, root, 2, vpn)
  {
    hide HasTable, Prefix;
    assert AddsAt(m, m', root, 2, v, 0, vpn) && AddsAt(m, m', root, 2, v, 1, vpn);
  }

  // ---------- Ranges of pages ----------

  /** Page v has its table of level l in common with one of the pages from lo up to p. */
  predicate Shares(l: nat, lo: nat, p: nat, v: nat)
    requires l <= 2
  {
    lo < p && Prefix(l, lo) <= Prefix(l, v) <= Prefix(l, p - 1)
  }

  /** The tables on the way to the pages from lo up to p have been added, and no others. */
  ghost predicate AddsRange(m: Mem, m': Mem, root: nat, lo: nat, p: nat) {
    forall l, v {:trigger AddsRangeAt(m, m', root, lo, p, l, v)} | 0 <= l < 2 && 0 <= v < SPAN ::
      AddsRangeAt(m, m', root, lo, p, l, v)
  }

  ghost predicate AddsRangeAt(m: Mem, m': Mem, root: nat, lo: nat, p: nat, l: nat, v: nat)
    requires l <= 2
  {
    HasTable(m', root, l, v) <==> HasTable(m, root, l, v) || Shares(l, lo, p, v)
  }

  lemma AddsRangeNone(m: Mem, root: nat, lo: nat)
    ensures AddsRange(m, m, root, lo, lo)
  {
  }

  lemma AddsRangeMore(m: Mem, m1: Mem, m2: Mem, root: nat, lo: nat, p: nat)
    requires lo <= p < SPAN && AddsRange(m, m1, root, lo, p) && Adds(m1, m2, root, 0, p)
    ensures AddsRange(m, m2, root, lo, p + 1)
  {
    hide HasTable;
    var q := p + 1;
    forall l, v | 0 <= l < 2 && 0 <= v < SPAN ensures AddsRangeAt(m, m2, root, lo, q, l, v) {
      assert AddsRangeAt(m, m1, root, lo, p, l, v) && AddsAt(m1, m2, root, 0, p, l, v);
      SharesMore(l, lo, p, v);
    }
  }

  lemma SharesMore(l: nat, lo: nat, p: nat, v: nat)
    requires l < 2 && lo <= p
    ensures Shares(l, lo, p + 1, v) <==> Shares(l, lo, p, v) || Prefix(l, v) == Prefix(l, p)
  {
  }

  /** The tables that are missing on the way to the pages from lo up to p: each counts for the first page
      that needs it. */
  function TablesNeeded(m: Mem, root: nat, lo: nat, p: nat): nat
    decreases p
  {
    if p <= lo then 0
    else TablesNeeded(m, root, lo, p - 1) + FirstNeeds(m, root, lo, p - 1, 0) + FirstNeeds(m, root, lo, p - 1, 1)
  }

  function FirstNeeds(m: Mem, root: nat, lo: nat, v: nat, l: nat): nat
    requires l <= 2
  {
    if !HasTable(m, root, l, v) && (v <= lo || Prefix(l, v) != Prefix(l, v - 1)) then 1 else 0
  }

  /** One frame for every page, and one for every missing table. */
  function FramesNeeded(m: Mem, root: nat, lo: nat, p: nat): nat {
    if p <= lo then 0 else p - lo + TablesNeeded(m, root, lo, p)
  }

  /** What the next page needs in the memory that has been reached is what it adds to the count. */
  lemma NeedsMore(m: Mem, m1: Mem, root: nat, lo: nat, p: nat)
    requires lo <= p < SPAN && AddsRange(m, m1, root, lo, p)
    ensures TablesNeeded(m, root, lo, p + 1) == TablesNeeded(m, root, lo, p) + Missing(m1, root, 2, p)
    ensures FramesNeeded(m, root, lo, p + 1) == FramesNeeded(m, root, lo, p) + 1 + Missing(m1, root, 2, p)
  {
    hide HasTable;
    assert AddsRangeAt(m, m1, root, lo, p, 0, p) && AddsRangeAt(m, m1, root, lo, p, 1, p);
    NeedsFirst(m, m1, root, lo, p, 0);
    NeedsFirst(m, m1, root, lo, p, 1);
  }

  lemma NeedsFirst(m: Mem, m1: Mem, root: nat, lo: nat, p: nat, l: nat)
    requires lo <= p && l < 2 && AddsRangeAt(m, m1, root, lo, p, l, p)
    ensures FirstNeeds(m, root, lo, p, l) == if HasTable(m1, root, l, p) then 0 else 1
  {
    hide HasTable;
  }

  lemma {:induction false} NeededGrows(m: Mem, root: nat, lo: nat, p: nat, hi: nat)
    requires p <= hi
    ensures TablesNeeded(m, root, lo, p) <= TablesNeeded(m, root, lo, hi)
    ensures FramesNeeded(m, root, lo, p) <= FramesNeeded(m, root, lo, hi)
    decreases hi
  {
    hide FirstNeeds;
    if p < hi {
      NeededGrows(m, root, lo, p, hi - 1);
    }
  }

  /** No page needs more than three frames, and few need more than one. */
  lemma {:induction false} NeededBound(m: Mem, root: nat, lo: nat, p: nat)
    requires lo < p
    ensures TablesNeeded(m, root, lo, p) <= 2 + (Prefix(0, p - 1) - Prefix(0, lo)) + (Prefix(1, p - 1) - Prefix(1, lo))
    ensures FramesNeeded(m, root, lo, p) <= 3 * (p - lo)
    decreases p
  {
    hide HasTable;
    if p == lo + 1 {
      assert TablesNeeded(m, root, lo, lo) == 0;
    } else {
      NeededBound(m, root, lo, p - 1);
      PrefixStep(p - 1);
    }
  }

  lemma PrefixStep(v: nat)
    requires v > 0
    ensures forall l | 0 <= l < 2 :: Prefix(l, v - 1) <= Prefix(l, v) <= Prefix(l, v - 1) + 1
  {
  }

  // ---------- The pages that are there to copy ----------

  /** How many of the first hi pages are mapped before the first that is not. */
  function MappedRun(m: Mem, root: nat, hi: nat): (n: nat)
    ensures n <= hi
  {
    if hi == 0 then 0 else
    var n := MappedRun(m, root, hi - 1);
    if n == hi - 1 && IsValid(m.Pte(root, hi - 1)) then hi else n
  }

  lemma {:induction false} MappedRunIs(m: Mem, root: nat, hi: nat, p: nat)
    requires p <= hi && AllMapped(m, root, 0, p) && (p < hi ==> !IsValid(m.Pte(root, p)))
    ensures MappedRun(m, root, hi) == p
  {
    if hi > 0 {
      MappedRunIs(m, root, hi - 1, if p == hi then p - 1 else p);
    }
  }

  lemma {:induction false} MappedRunAtLeast(m: Mem, root: nat, hi: nat, p: nat)
    requires p <= hi && AllMapped(m, root, 0, p)
    ensures MappedRun(m, root, hi) >= p
  {
    if hi > 0 {
      MappedRunAtLeast(m, root, hi - 1, if p == hi then p - 1 else p);
    }
  }

  // ---------- Facts for the methods ----------

  lemma NeedsNone(m: Mem, root: nat, lo: nat)
    ensures TablesNeeded(m, root, lo, lo) == 0 && FramesNeeded(m, root, lo, lo) == 0
  {
  }

  lemma MissingNone(m: Mem, root: nat, vpn: nat)
    ensures Missing(m, root, 0, vpn) == 0
  {
  }

  lemma KallocAddsNone(m: Mem, m1: Mem, f: nat, root: nat, vpn: nat)
    requires m.Ok() && f in m.role && m.role[f].Free? && m.IsTable(root, root, 2, 0) && vpn < SPAN
    requires m1 == Retagged(m, f, Held, seq(NPTE, _ => JUNK))
    ensures Adds(m, m1, root, 2, vpn) && Missing(m1, root, 2, vpn) == Missing(m, root, 2, vpn)
  {
    hide Mem.Ok, Missing, Adds;
    RetagAddsNone(m, f, Held, seq(NPTE, _ => JUNK), root, vpn);
    MissingSame(m, m1, root, vpn, vpn);
  }

  /** After kalloc, the new table page. */
  lemma TableCounts(m: Mem, m1: Mem, root: nat, level: nat, vpn: nat, g: nat)
    requires m.Ok() && m.IsTable(root, root, 2, 0) && g in m.role && m.role[g].Free?
    requires m1 == Retagged(m, g, Held, seq(NPTE, _ => JUNK)) && CanAddTable(m1, root, level, vpn, g)
    ensures var m' := WithTable(m1, root, level, vpn, g);
            && (forall l, v {:trigger HasTable(m', root, l, v)} | 0 <= l < 2 && 0 <= v < SPAN ::
                  HasTable(m', root, l, v)
                  <==> HasTable(m, root, l, v) || (l == level && Prefix(l, v) == Prefix(l, vpn)))
            && Missing(m, root, level + 1, vpn) == level + 1 && Missing(m', root, level, vpn) == level
  {
    RetagAddsNone(m, g, Held, seq(NPTE, _ => JUNK), root, vpn);
    AddTableAdds(m1, root, level, vpn, g);
    hide Mem.Ok, HasTable, Prefix, WithTable;
    var m' := WithTable(m1, root, level, vpn, g);
    forall l, v | 0 <= l < 2 && 0 <= v < SPAN
      ensures HasTable(m', root, l, v) <==> HasTable(m, root, l, v) || (l == level && Prefix(l, v) == Prefix(l, vpn)) {
      assert AddsAt(m, m1, root, 2, vpn, l, v);
    }
    assert AddsAt(m, m1, root, 2, vpn, 0, vpn) && AddsAt(m, m1, root, 2, vpn, 1, vpn);
  }

  lemma OnePageNeeds(m: Mem, root: nat, vpn: nat)
    requires vpn < SPAN
    ensures TablesNeeded(m, root, vpn, vpn + 1) == Missing(m, root, 2, vpn)
  {
    hide HasTable, Missing;
    AddsRangeNone(m, root, vpn);
    NeedsMore(m, m, root, vpn, vpn);
    NeedsNone(m, root, vpn);
  }

  lemma OnePageAdds(m: Mem, m1: Mem, m2: Mem, root: nat, vpn: nat)
    requires Adds(m, m1, root, 2, vpn) && AddsRange(m1, m2, root, vpn, vpn + 1)
    ensures Adds(m, m2, root, 0, vpn)
  {
    hide HasTable, Prefix;
    var q := vpn + 1;
    forall l, v | 0 <= l < 2 && 0 <= v < SPAN ensures AddsAt(m, m2, root, 0, vpn, l, v) {
      assert AddsAt(m, m1, root, 2, vpn, l, v) && AddsRangeAt(m1, m2, root, vpn, q, l, v);
    }
  }

  // ---------- The tally of a loop that adds pages ----------

  /** Since m the pages from lo up to p have been added, which took the free frames from before to now. */
  ghost predicate Tally(m: Mem, m1: Mem, root: nat, lo: nat, p: nat, before: nat, now: nat) {
    AddsRange(m, m1, root, lo, p) && now + FramesNeeded(m, root, lo, p) == before
  }

  lemma TallyStart(m: Mem, root: nat, lo: nat, before: nat)
    ensures Tally(m, m, root, lo, lo, before, before)
  {
    AddsRangeNone(m, root, lo);
    NeedsNone(m, root, lo);
  }

  lemma TallyMore(m: Mem, m1: Mem, m2: Mem, root: nat, lo: nat, p: nat, before: nat, now: nat)
    requires lo <= p < SPAN && Tally(m, m1, root, lo, p, before, now)
    requires now >= 1 + Missing(m1, root, 2, p) && Adds(m1, m2, root, 0, p)
    ensures Tally(m, m2, root, lo, p + 1, before, now - 1 - Missing(m1, root, 2, p))
  {
    hide Adds, AddsRange, Missing, FramesNeeded;
    NeedsMore(m, m1, root, lo, p);
    AddsRangeMore(m, m1, m2, root, lo, p);
  }

  lemma TallyFails(m: Mem, m1: Mem, root: nat, lo: nat, p: nat, hi: nat, before: nat, now: nat)
    requires lo <= p < hi && p < SPAN && Tally(m, m1, root, lo, p, before, now) && now < 1 + Missing(m1, root, 2, p)
    ensures before < FramesNeeded(m, root, lo, hi)
  {
    hide Adds, AddsRange, Missing, FramesNeeded;
    NeedsMore(m, m1, root, lo, p);
    NeededGrows(m, root, lo, p + 1, hi);
  }

  lemma TallyEnds(m: Mem, m1: Mem, root: nat, lo: nat, p: nat, before: nat, now: nat)
    requires Tally(m, m1, root, lo, p, before, now)
    ensures before == FramesNeeded(m, root, lo, p) + now
  {
  }

  lemma CopyFails(m: Mem, m1: Mem, source: nat, target: nat, p: nat, hi: nat, before: nat, now: nat)
    requires p < hi && p < SPAN && Tally(m, m1, target, 0, p, before, now) && now < 1 + Missing(m1, target, 2, p)
    requires AllMapped(m, source, 0, p + 1)
    ensures before < FramesNeeded(m, target, 0, MappedRun(m, source, hi))
  {
    hide Tally, Missing, FramesNeeded;
    MappedRunAtLeast(m, source, hi, p + 1);
    TallyFails(m, m1, target, 0, p, MappedRun(m, source, hi), before, now);
  }

  lemma CopyEnds(m: Mem, m1: Mem, source: nat, target: nat, p: nat, hi: nat, before: nat, now: nat)
    requires Tally(m, m1, target, 0, p, before, now)
    requires p <= hi && AllMapped(m, source, 0, p) && (p < hi ==> !IsValid(m.Pte(source, p)))
    ensures MappedRun(m, source, hi) == p && before >= FramesNeeded(m, target, 0, p)
  {
    MappedRunIs(m, source, hi, p);
  }
}
