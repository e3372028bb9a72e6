/**
 How operations on page tables may change the memory: which translations and which frames they leave
 alone, and what becomes of the others.
 */
module MemoryChanges {
  import opened Blocks
  import opened PageTable

  // ---------- Translations ----------

  /** The translation of page v in the tree at root is the same in m' as in m. */
  ghost predicate PteKept(m: Mem, m': Mem, root: nat, v: nat) {
    m.IsTable(root, root, 2, 0) && v < SPAN ==> m'.IsTable(root, root, 2, 0) && m'.Pte(root, v) == m.Pte(root, v)
  }

  /** All translations are the same, except perhaps those of pages lo up to hi of the tree at root. */
  ghost predicate KeptBut(m: Mem, m': Mem, root: nat, lo: nat, hi: nat) {
    forall r, v {:trigger PteKept(m, m', r, v)} | 0 <= v < SPAN && !(r == root && lo <= v < hi) :: PteKept(m, m', r, v)
  }

  ghost predicate Kept(m: Mem, m': Mem) {
    KeptBut(m, m', 0, 0, 0)
  }

  lemma KeptSelf(m: Mem)
    ensures Kept(m, m)
  {
  }

  lemma KeptTrans(m: Mem, m1: Mem, m2: Mem)
    requires Kept(m, m1) && Kept(m1, m2)
    ensures Kept(m, m2)
  {
    hide PageTable.Mem.Pte;
    forall r: nat, v: nat | v < SPAN ensures PteKept(m, m2, r, v) {
      assert PteKept(m, m1, r, v) && PteKept(m1, m2, r, v);
    }
  }

  lemma KeptButTrans(m: Mem, m1: Mem, m2: Mem, root: nat, lo: nat, hi: nat)
    requires KeptBut(m, m1, root, lo, hi) && KeptBut(m1, m2, root, lo, hi)
    ensures KeptBut(m, m2, root, lo, hi)
  {
    hide PageTable.Mem.Pte;
    forall r: nat, v: nat | v < SPAN && !(r == root && lo <= v < hi) ensures PteKept(m, m2, r, v) {
      assert PteKept(m, m1, r, v) && PteKept(m1, m2, r, v);
    }
  }

  lemma KeptNarrow(m: Mem, m': Mem, root: nat, lo: nat, hi: nat)
    requires Kept(m, m')
    ensures KeptBut(m, m', root, lo, hi)
  {
    hide PageTable.Mem.Pte;
  }

  lemma KeptEmpty(m: Mem, m': Mem, root: nat, lo: nat)
    requires KeptBut(m, m', root, lo, lo)
    ensures Kept(m, m')
  {
    hide PageTable.Mem.Pte;
  }

  lemma KeptAt(m: Mem, m': Mem, root: nat, lo: nat, hi: nat, v: nat)
    requires KeptBut(m, m', root, lo, hi) && m.IsTable(root, root, 2, 0) && v < SPAN && !(lo <= v < hi)
    ensures m'.Pte(root, v) == m.Pte(root, v)
  {
    assert PteKept(m, m', root, v);
  }

  lemma KeptRoot(m: Mem, m': Mem, root: nat, v: nat)
    requires Kept(m, m') && m.IsTable(root, root, 2, 0) && v < SPAN
    ensures m'.IsTable(root, root, 2, 0) && m'.Pte(root, v) == m.Pte(root, v)
  {
    assert PteKept(m, m', root, v);
  }

  // ---------- Walks and entries ----------

  lemma RootNonzero(m: Mem, root: nat)
    requires m.Ok() && m.IsTable(root, root, 2, 0)
    ensures root != 0
  {
    assert m.FrameOk(root);
  }

  lemma TableShape(m: Mem, root: nat, level: nat, vpn: nat)
    requires m.Ok() && m.IsTable(root, root, 2, 0) && vpn < SPAN && level <= 2
    ensures Index(level, vpn) < NPTE
    ensures var t := m.TableAt(root, level, vpn); t != 0 ==> t in m.pt && |m.pt[t]| == NPTE
  {
    WalkMeets(m, root, level, vpn);
    IndexPrefix(vpn, level);
    assert m.FrameOk(m.TableAt(root, level, vpn));
  }

  lemma ChildTable(m: Mem, root: nat, level: nat, vpn: nat)
    requires m.Ok() && m.IsTable(root, root, 2, 0) && vpn < SPAN && 0 < level <= 2 && m.TableAt(root, level, vpn) != 0
    requires IsValid(m.Entry(m.TableAt(root, level, vpn), Index(level, vpn)))
    ensures m.TableAt(root, level - 1, vpn) == FrameOf(m.Entry(m.TableAt(root, level, vpn), Index(level, vpn))) != 0
  {
    var t, i := m.TableAt(root, level, vpn), Index(level, vpn);
    WalkMeets(m, root, level, vpn);
    IndexPrefix(vpn, level);
    assert m.EntryOk(t, i) && m.FrameOk(FrameOf(m.Entry(t, i)));
  }

  lemma NoTableBelow(m: Mem, root: nat, level: nat, vpn: nat)
    requires 0 < level <= 2 && !IsValid(m.Entry(m.TableAt(root, level, vpn), Index(level, vpn)))
    ensures m.TableAt(root, 0, vpn) == 0
  {
    assert m.TableAt(root, level - 1, vpn) == 0;
  }

  lemma LeafPte(m: Mem, root: nat, vpn: nat)
    requires m.Ok() && m.IsTable(root, root, 2, 0) && vpn < SPAN && IsValid(m.Pte(root, vpn))
    ensures IsLeaf(m.Pte(root, vpn)) && m.TableAt(root, 0, vpn) != 0
  {
    WalkMeets(m, root, 0, vpn);
    IndexPrefix(vpn, 0);
    assert m.EntryOk(m.TableAt(root, 0, vpn), Index(0, vpn));
  }

  lemma LeafFlags(e: nat)
    requires IsLeaf(e)
    ensures FlagsOf(e) != PTE_V
  {
  }

  lemma PteIsLeaf(m: Mem, root: nat, vpn: nat)
    requires m.Ok() && m.IsTable(root, root, 2, 0) && vpn < SPAN && IsValid(m.Pte(root, vpn))
    ensures FlagsOf(m.Pte(root, vpn)) != PTE_V && m.TableAt(root, 0, vpn) != 0
  {
    LeafPte(m, root, vpn);
    LeafFlags(m.Pte(root, vpn));
  }

  lemma FlagParts(e: nat)
    ensures FlagsOf(e) < 1024 && e == MakePte(FrameOf(e), FlagsOf(e))
    ensures IsValid(FlagsOf(e)) == IsValid(e) && IsLeaf(FlagsOf(e)) == IsLeaf(e) && IsUser(FlagsOf(e)) == IsUser(e)
  {
    PteParts(FrameOf(e), FlagsOf(e));
  }

  lemma PteParity(f: nat, flags: nat)
    ensures IsValid(MakePte(f, flags)) == IsValid(flags)
  {
    Mod2(512 * f, flags);
  }

  // ---------- The free list ----------

  /** The free list holds exactly the free frames, once each; every frame has a page of bytes. */
  ghost predicate ListOk(free: seq<nat>, role: map<nat, Role>, data: map<nat, seq<Byte>>) {
    && role.Keys <= data.Keys
    && (forall i | 0 <= i < |free| :: free[i] in role && role[free[i]] == Free(i))
    && (forall f | f in role ::
        f != 0 && |data[f]| == PGSIZE && (role[f].Free? ==> role[f].pos < |free| && free[role[f].pos] == f))
  }

  /** Frames off the list may change their use. */
  lemma ListKept(free: seq<nat>, role: map<nat, Role>, data: map<nat, seq<Byte>>, role': map<nat, Role>,
                 data': map<nat, seq<Byte>>)
    requires ListOk(free, role, data) && role'.Keys == role.Keys && role.Keys <= data'.Keys
    requires forall f | f in role :: (role'[f] == role[f] || !(role'[f].Free? || role[f].Free?)) && |data'[f]| == PGSIZE
    ensures ListOk(free, role', data')
  {
  }

  lemma ListPop(free: seq<nat>, role: map<nat, Role>, data: map<nat, seq<Byte>>, page: seq<Byte>)
    requires ListOk(free, role, data) && free != [] && |page| == PGSIZE
    ensures var f := free[|free| - 1];
            f in role && f != 0 && role[f].Free? && ListOk(free[..|free| - 1], role[f := Held], data[f := page])
  {
  }

  lemma ListPush(free: seq<nat>, role: map<nat, Role>, data: map<nat, seq<Byte>>, f: nat, page: seq<Byte>)
    requires ListOk(free, role, data) && f in role && role[f].Held? && |page| == PGSIZE
    ensures ListOk(free + [f], role[f := Free(|free|)], data[f := page])
  {
  }

  /** The contents of a frame do not matter to the list. */
  lemma ListData(free: seq<nat>, role: map<nat, Role>, data: map<nat, seq<Byte>>, f: nat, page: seq<Byte>)
    requires ListOk(free, role, data) && |page| == PGSIZE
    ensures ListOk(free, role, data[f := page])
  {
  }

  lemma ListKeys(free: seq<nat>, role: map<nat, Role>, data: map<nat, seq<Byte>>)
    requires ListOk(free, role, data)
    ensures role.Keys <= data.Keys
  {
  }

  lemma ListHeld(free: seq<nat>, role: map<nat, Role>, data: map<nat, seq<Byte>>, f: nat, owned: bool)
    requires ListOk(free, role, data) && (owned ==> f in role && role[f].Leaf?)
    ensures owned ==> ListOk(free, role[f := Held], data)
  {
  }

  lemma ListTable(free: seq<nat>, role: map<nat, Role>, data: map<nat, seq<Byte>>, f: nat, r: Role, page: seq<Byte>)
    requires ListOk(free, role, data) && f in role && role[f].Held? && r.Table? && |page| == PGSIZE
    ensures ListOk(free, role[f := r], data[f := page])
  {
    ListKept(free, role, data, role[f := r], data[f := page]);
  }

  lemma RetagKept(m: Mem, f: nat, r: Role, words: seq<nat>)
    requires m.Ok() && f in m.role && Loose(m.role[f]) && Loose(r)
    ensures Kept(m, Retagged(m, f, r, words))
  {
    var m' := Retagged(m, f, r, words);
    forall root: nat, v: nat | v < SPAN ensures PteKept(m, m', root, v) {
      if m.IsTable(root, root, 2, 0) {
        RetagPath(m, f, r, words, root, 0, v);
      }
    }
  }

  // ---------- Uses of frames ----------

  /** Uses of a frame that an operation on pages lo up to hi of the tree at root may change. */
  predicate InFlux(r: Role, root: nat, lo: nat, hi: nat) {
    r.Free? || (r.Table? && r.root == root) || (r.Leaf? && r.root == root && lo <= r.vpn < hi)
  }

  /** Such frames keep to such uses, and tables stay tables; all other frames keep use and contents. */
  ghost predicate Settled(m: Mem, m': Mem, root: nat, lo: nat, hi: nat, data: map<nat, seq<Byte>>,
                          data': map<nat, seq<Byte>>) {
    && m'.role.Keys == m.role.Keys && m.role.Keys <= data.Keys && m.role.Keys <= data'.Keys
    && forall f | f in m.role ::
         if InFlux(m.role[f], root, lo, hi) then
           && InFlux(m'.role[f], root, lo, hi)
           && (m.role[f].Table? ==> m'.role[f] == m.role[f])
         else m'.role[f] == m.role[f] && data'[f] == data[f]
  }

  lemma SettledNone(m: Mem, root: nat, lo: nat, hi: nat, data: map<nat, seq<Byte>>)
    requires m.role.Keys <= data.Keys
    ensures Settled(m, m, root, lo, hi, data, data)
  {
  }

  lemma SettledTrans(m: Mem, m1: Mem, m2: Mem, root: nat, lo: nat, hi: nat, lo': nat, hi': nat,
                     data: map<nat, seq<Byte>>, data1: map<nat, seq<Byte>>, data2: map<nat, seq<Byte>>)
    requires Settled(m, m1, root, lo, hi, data, data1) && Settled(m1, m2, root, lo', hi', data1, data2)
    requires lo' >= hi' || lo <= lo' <= hi' <= hi
    ensures Settled(m, m2, root, lo, hi, data, data2)
  {
  }

  /** A held frame is still held after tables have been added. */
  lemma SettledHeld(m: Mem, m1: Mem, root: nat, f: nat, data: map<nat, seq<Byte>>, data1: map<nat, seq<Byte>>,
                    owned: bool)
    requires Settled(m, m1, root, 0, 0, data, data1) && (owned ==> f in m.role && m.role[f].Held?)
    ensures owned ==> f in m1.role && m1.role[f].Held?
  {
  }

  // ---------- Adding tables ----------

  const JUNK := 0x0505_0505_0505_0505  // what kalloc leaves in every word

  lemma KallocKeepsPath(m: Mem, m1: Mem, root: nat, level: nat, vpn: nat, g: nat)
    requires m.Ok() && m.IsTable(root, root, 2, 0) && level < 2 && vpn < SPAN && m1.Ok()
    requires g != 0 && g in m.role && m.role[g].Free? && m1 == Retagged(m, g, Held, seq(NPTE, _ => JUNK))
    requires var t := m.TableAt(root, level + 1, vpn); t != 0 && !IsValid(m.Entry(t, Index(level + 1, vpn)))
    ensures CanAddTable(m1, root, level, vpn, g) && m1.TableAt(root, level + 1, vpn) == m.TableAt(root, level + 1, vpn)
    ensures var t := m.TableAt(root, level + 1, vpn); t in m1.pt && |m1.pt[t]| == NPTE && Index(level + 1, vpn) < NPTE
  {
    RetagPath(m, g, Held, seq(NPTE, _ => JUNK), root, level + 1, vpn);
    WalkMeets(m, root, level + 1, vpn);
    IndexPrefix(vpn, level);
    assert m.FrameOk(m.TableAt(root, level + 1, vpn));
  }

  lemma AddTableKept(m: Mem, root: nat, level: nat, vpn: nat, g: nat)
    requires CanAddTable(m, root, level, vpn, g)
    ensures Kept(m, WithTable(m, root, level, vpn, g))
  {
    var m' := WithTable(m, root, level, vpn, g);
    hide Index, Prefix, FirstPage, PageTable.Mem.Pte;
    forall r: nat, v: nat | v < SPAN ensures PteKept(m, m', r, v) {
      if m.IsTable(r, r, 2, 0) {
        AddTablePte(m, root, level, vpn, g, r, v);
      }
    }
  }

  lemma AddSettled(m: Mem, m': Mem, root: nat, g: nat, data: map<nat, seq<Byte>>, data': map<nat, seq<Byte>>)
    requires m.role.Keys <= data.Keys <= data'.Keys && g in m.role && m.role[g].Free?
    requires m'.role.Keys == m.role.Keys && m'.role[g].Table? && m'.role[g].root == root
    requires forall f | f in m.role && f != g :: m'.role[f] == m.role[f] && data'[f] == data[f]
    ensures Settled(m, m', root, 0, 0, data, data')
  {
  }

  // ---------- Mapping pages ----------

  /** Permissions of a leaf: some of R, W and X, perhaps more flags. */
  predicate PermOk(perm: nat) { perm < 1024 && IsLeaf(perm) }

  /** perm | PTE_V */
  function Perm(perm: nat): nat { if perm % 2 == 1 then perm else perm + 1 }

  lemma PermParts(f: nat, perm: nat)
    requires PermOk(perm)
    ensures var e := MakePte(f, Perm(perm)); IsValid(e) && IsLeaf(e) && FrameOf(e) == f && IsUser(e) == IsUser(perm)
  {
    PteParts(f, Perm(perm));
  }

  lemma MapKept(m: Mem, root: nat, vpn: nat, e: nat, owned: bool)
    requires CanMap(m, root, vpn, e, owned)
    ensures KeptBut(m, Mapped(m, root, vpn, e, owned), root, vpn, vpn + 1)
    ensures Mapped(m, root, vpn, e, owned).IsTable(root, root, 2, 0)
            && Mapped(m, root, vpn, e, owned).Pte(root, vpn) == e
  {
    var m1, m' := WithPte(m, root, vpn, e), Mapped(m, root, vpn, e, owned);
    hide PageTable.Mem.Pte, Index, Prefix, FirstPage;
    WithPtePte(m, root, vpn, e, root, vpn);
    OwnedPath(m1, FrameOf(e), Leaf(root, vpn), owned, root, 0, vpn);
    forall r: nat, v: nat | v < SPAN && !(r == root && vpn <= v < vpn + 1) ensures PteKept(m, m', r, v) {
      if m.IsTable(r, r, 2, 0) {
        WithPtePte(m, root, vpn, e, r, v);
        OwnedPath(m1, FrameOf(e), Leaf(root, vpn), owned, r, 0, v);
      }
    }
  }

  lemma MapSettled(m: Mem, m1: Mem, root: nat, vpn: nat, e: nat, owned: bool, data: map<nat, seq<Byte>>,
                   data1: map<nat, seq<Byte>>)
    requires Settled(m, m1, root, 0, 0, data, data1) && (owned ==> FrameOf(e) in m.role && m.role[FrameOf(e)].Held?)
    ensures Settled(Owned(m, FrameOf(e), Leaf(root, vpn), owned), Mapped(m1, root, vpn, e, owned), root, 0, 0, data,
                    data1)
  {
    hide PageTable.Mem.Pte, Index, FrameOf;
  }

  /** Pages v0 up to v0 + k are mapped to frames f0 up to f0 + k with the given flags. */
  ghost predicate MapsTo(m: Mem, root: nat, v0: nat, k: nat, f0: nat, flags: nat) {
    forall v {:trigger m.Pte(root, v)} | v0 <= v < v0 + k :: m.Pte(root, v) == MakePte(f0 + v - v0, flags)
  }

  lemma MapsToNone(m: Mem, root: nat, v0: nat, f0: nat, flags: nat)
    ensures MapsTo(m, root, v0, 0, f0, flags)
  {
  }

  lemma MapsToAt(m: Mem, root: nat, v0: nat, k: nat, f0: nat, flags: nat, v: nat)
    requires MapsTo(m, root, v0, k, f0, flags) && v0 <= v < v0 + k
    ensures m.Pte(root, v) == MakePte(f0 + v - v0, flags)
  {
  }

  lemma MapMore(m: Mem, m1: Mem, m2: Mem, root: nat, v0: nat, k: nat, f0: nat, flags: nat, done: bool)
    requires KeptBut(m, m1, root, v0, v0 + k) && MapsTo(m1, root, v0, k, f0, flags) && m1.IsTable(root, root, 2, 0)
    requires v0 + k < SPAN && KeptBut(m1, m2, root, v0 + k, v0 + k + 1) && (!done ==> Kept(m1, m2))
    requires done ==> m2.Pte(root, v0 + k) == MakePte(f0 + k, flags)
    ensures var n := if done then k + 1 else k; KeptBut(m, m2, root, v0, v0 + n) && MapsTo(m2, root, v0, n, f0, flags)
  {
    hide PageTable.Mem.Pte, MakePte;
    var n := if done then k + 1 else k;
    forall r: nat, v: nat | v < SPAN && !(r == root && v0 <= v < v0 + n) ensures PteKept(m, m2, r, v) {
      assert PteKept(m, m1, r, v) && PteKept(m1, m2, r, v);
    }
    forall v: nat | v0 <= v < v0 + n ensures m2.Pte(root, v) == MakePte(f0 + v - v0, flags) {
      if v < v0 + k {
        assert PteKept(m1, m2, root, v);
      }
    }
  }

  // ---------- Unmapping pages ----------

  /** The tree at root maps page v to memory of its own. */
  ghost predicate Owns(m: Mem, root: nat, v: nat) {
    var f := FrameOf(m.Pte(root, v));
    IsValid(m.Pte(root, v)) && f in m.role && m.role[f] == Leaf(root, v)
  }

  /** The frame of a mapped page is to be freed exactly if the page owns it. */
  ghost predicate MayUnmap(m: Mem, root: nat, v: nat, doFree: bool) {
    IsValid(m.Pte(root, v)) ==> doFree == Owns(m, root, v)
  }

  ghost predicate MayUnmapAll(m: Mem, root: nat, lo: nat, hi: nat, doFree: bool) {
    forall v {:trigger MayUnmap(m, root, v, doFree)} | lo <= v < hi :: MayUnmap(m, root, v, doFree)
  }

  ghost predicate AllMapped(m: Mem, root: nat, lo: nat, hi: nat) {
    forall v {:trigger m.Pte(root, v)} | lo <= v < hi :: IsValid(m.Pte(root, v))
  }

  ghost predicate NoneMapped(m: Mem, root: nat, lo: nat, hi: nat) {
    forall v {:trigger m.Pte(root, v)} | lo <= v < hi :: m.Pte(root, v) == 0
  }

  lemma NotAllMapped(m: Mem, root: nat, k: nat, n: nat)
    requires k < n && !IsValid(m.Pte(root, k))
    ensures !AllMapped(m, root, 0, n)
  {
  }

  /** The memory of pages lo up to hi of the tree at root is free again; nothing else has changed. */
  ghost predicate Released(m: Mem, m': Mem, root: nat, lo: nat, hi: nat, data: map<nat, seq<Byte>>,
                           data': map<nat, seq<Byte>>) {
    && m'.role.Keys == m.role.Keys && m.role.Keys <= data.Keys && m.role.Keys <= data'.Keys
    && forall f | f in m.role ::
         if m.role[f].Leaf? && m.role[f].root == root && lo <= m.role[f].vpn < hi then m'.role[f].Free?
         else m'.role[f] == m.role[f] && data'[f] == data[f]
  }

  lemma ReleasedNone(m: Mem, root: nat, lo: nat, data: map<nat, seq<Byte>>)
    requires m.role.Keys <= data.Keys
    ensures Released(m, m, root, lo, lo, data, data) && NoneMapped(m, root, lo, lo) && AllMapped(m, root, lo, lo)
  {
  }

  lemma ReleasedEmpty(m: Mem, root: nat, lo: nat, hi: nat, data: map<nat, seq<Byte>>)
    requires m.role.Keys <= data.Keys && lo >= hi
    ensures Released(m, m, root, lo, hi, data, data)
  {
  }

  lemma MayUnmapNext(m: Mem, m1: Mem, root: nat, lo: nat, v: nat, hi: nat, doFree: bool,
                     data: map<nat, seq<Byte>>, data1: map<nat, seq<Byte>>)
    requires MayUnmapAll(m, root, lo, hi, doFree) && lo <= v < hi && m1.Pte(root, v) == m.Pte(root, v)
    requires Released(m, m1, root, lo, v, data, data1)
    ensures MayUnmap(m1, root, v, doFree)
  {
    hide PageTable.Mem.Pte;
    assert MayUnmap(m, root, v, doFree);
  }

  lemma UnmapMore(m: Mem, m1: Mem, m2: Mem, root: nat, lo: nat, v: nat,
                  data: map<nat, seq<Byte>>, data1: map<nat, seq<Byte>>, data2: map<nat, seq<Byte>>)
    requires lo <= v < SPAN && m1.IsTable(root, root, 2, 0)
    requires KeptBut(m, m1, root, lo, v) && KeptBut(m1, m2, root, v, v + 1)
    requires NoneMapped(m1, root, lo, v) && m2.Pte(root, v) == 0
    requires AllMapped(m, root, lo, v) && IsValid(m.Pte(root, v))
    requires Released(m, m1, root, lo, v, data, data1) && Released(m1, m2, root, v, v + 1, data1, data2)
    ensures AllMapped(m, root, lo, v + 1) && NoneMapped(m2, root, lo, v + 1)
    ensures KeptBut(m, m2, root, lo, v + 1) && Released(m, m2, root, lo, v + 1, data, data2)
  {
    hide PageTable.Mem.Pte;
    forall r: nat, w: nat | w < SPAN && !(r == root && lo <= w < v + 1) ensures PteKept(m, m2, r, w) {
      assert PteKept(m, m1, r, w) && PteKept(m1, m2, r, w);
    }
    forall w: nat | lo <= w < v + 1 ensures m2.Pte(root, w) == 0 {
      assert w < v ==> PteKept(m1, m2, root, w);
    }
  }

  lemma UnmapKept(m: Mem, root: nat, vpn: nat, owned: bool)
    requires CanUnmap(m, root, vpn, owned)
    ensures KeptBut(m, Unmapped(m, root, vpn, owned), root, vpn, vpn + 1)
    ensures Unmapped(m, root, vpn, owned).IsTable(root, root, 2, 0) && Unmapped(m, root, vpn, owned).Pte(root, vpn) == 0
  {
    var f, m1, m' := FrameOf(m.Pte(root, vpn)), WithPte(m, root, vpn, 0), Unmapped(m, root, vpn, owned);
    hide PageTable.Mem.Pte, Index, Prefix, FirstPage;
    WithPtePte(m, root, vpn, 0, root, vpn);
    OwnedPath(m1, f, Held, owned, root, 0, vpn);
    forall r: nat, v: nat | v < SPAN && !(r == root && vpn <= v < vpn + 1) ensures PteKept(m, m', r, v) {
      if m.IsTable(r, r, 2, 0) {
        WithPtePte(m, root, vpn, 0, r, v);
        OwnedPath(m1, f, Held, owned, r, 0, v);
      }
    }
  }

  lemma UnmapReleased(m: Mem, m': Mem, root: nat, vpn: nat, f: nat, owned: bool, data: map<nat, seq<Byte>>,
                      data': map<nat, seq<Byte>>)
    requires m.Ok() && f == FrameOf(m.Pte(root, vpn)) && m.role.Keys <= data.Keys && m.role.Keys <= data'.Keys
    requires owned == (f in m.role && m.role[f] == Leaf(root, vpn))
    requires m'.role.Keys == m.role.Keys && (owned ==> m'.role[f].Free?)
    requires forall g | g in m.role && !(owned && g == f) :: m'.role[g] == m.role[g] && data'[g] == data[g]
    ensures Released(m, m', root, vpn, vpn + 1, data, data')
  {
    hide PageTable.Mem.Pte, FrameOf;
    forall g | g in m.role && m.role[g] == Leaf(root, vpn) ensures g == f {
      assert m.FrameOk(g);
    }
  }

  // ---------- New pages ----------

  /** PGROUNDUP(sz) / PGSIZE */
  function Pages(sz: nat): nat { (sz + PGSIZE - 1) / PGSIZE }

  lemma PageCount(sz: nat)
    ensures Pages(Pages(sz) * PGSIZE) == Pages(sz) && sz <= Pages(sz) * PGSIZE
            && Pages(sz) * PGSIZE / PGSIZE == Pages(sz)
    ensures sz <= MAXVPN * PGSIZE ==> Pages(sz) <= MAXVPN
    ensures sz % PGSIZE == 0 ==> Pages(sz) == sz / PGSIZE
  {
  }

  lemma FrameAddress(f: nat)
    ensures f * PGSIZE / PGSIZE == f
  {
  }

  lemma OnePage(va: nat)
    requires va % PGSIZE == 0
    ensures (va + PGSIZE - 1) / PGSIZE == va / PGSIZE
    ensures va / PGSIZE < MAXVPN ==> va + PGSIZE <= MAXVPN * PGSIZE
  {
  }

  /** Page v of the tree at root is backed by a frame that was free in m, with the given contents. */
  ghost predicate NewPage(m: Mem, m': Mem, data': map<nat, seq<Byte>>, root: nat, v: nat, page: seq<Byte>, flags: nat) {
    var f := FrameOf(m'.Pte(root, v));
    && m'.Pte(root, v) == MakePte(f, flags) && IsValid(flags)
    && f in m.role && m.role[f].Free? && f in m'.role && m'.role[f] == Leaf(root, v)
    && f in data' && data'[f] == page
  }

  lemma AddPageSettled(m: Mem, m1: Mem, m2: Mem, root: nat, vpn: nat, f: nat,
                       data: map<nat, seq<Byte>>, data1: map<nat, seq<Byte>>, data2: map<nat, seq<Byte>>)
    requires f in m.role && m.role[f].Free? && m1.role == m.role[f := Held] && m.role.Keys <= data.Keys
    requires forall g | g in m.role && g != f :: g in data1 && data1[g] == data[g]
    requires Settled(Owned(m1, f, Leaf(root, vpn), true), m2, root, 0, 0, data1, data2)
    ensures Settled(m, m2, root, vpn, vpn + 1, data, data2)
  {
    assert m1.role.Keys == m.role.Keys;
  }

  lemma AddPageNew(m: Mem, m1: Mem, m2: Mem, root: nat, vpn: nat, f: nat, page: seq<Byte>, perm: nat,
                   data1: map<nat, seq<Byte>>, data2: map<nat, seq<Byte>>)
    requires f in m.role && m.role[f].Free? && m1.role == m.role[f := Held] && f in data1 && data1[f] == page
    requires Settled(Owned(m1, f, Leaf(root, vpn), true), m2, root, 0, 0, data1, data2)
    requires PermOk(perm) && m2.Pte(root, vpn) == MakePte(f, Perm(perm))
    ensures NewPage(m, m2, data2, root, vpn, page, Perm(perm))
  {
    PermParts(f, perm);
    PteParts(f, Perm(perm));
  }

  lemma NoPageSettled(m: Mem, m1: Mem, m2: Mem, m3: Mem, root: nat, f: nat, data: map<nat, seq<Byte>>,
                      data1: map<nat, seq<Byte>>, data2: map<nat, seq<Byte>>, data3: map<nat, seq<Byte>>)
    requires f in m.role && m.role[f].Free? && m1.role == m.role[f := Held] && m.role.Keys <= data.Keys
    requires forall g | g in m.role && g != f :: g in data1 && data1[g] == data[g]
    requires Settled(m1, m2, root, 0, 0, data1, data2)
    requires f in m2.role && m3.role.Keys == m2.role.Keys && m3.role[f].Free? && m2.role.Keys <= data3.Keys
    requires forall g | g in m2.role && g != f :: m3.role[g] == m2.role[g] && data3[g] == data2[g]
    ensures Settled(m, m3, root, 0, 0, data, data3)
  {
    assert m1.role.Keys == m.role.Keys;
  }

  /** A new page stays as it is while other pages change. */
  lemma NewPageKept(m: Mem, m1: Mem, m2: Mem, root: nat, v: nat, lo: nat, hi: nat, page: seq<Byte>, flags: nat,
                    data1: map<nat, seq<Byte>>, data2: map<nat, seq<Byte>>)
    requires NewPage(m, m1, data1, root, v, page, flags) && m1.IsTable(root, root, 2, 0) && v < SPAN && !(lo <= v < hi)
    requires KeptBut(m1, m2, root, lo, hi) && Settled(m1, m2, root, lo, hi, data1, data2)
    ensures NewPage(m, m2, data2, root, v, page, flags)
  {
    hide PageTable.Mem.Pte, MakePte, FrameOf;
    assert PteKept(m1, m2, root, v);
  }

  /** A page that is new after a round was new from the start. */
  lemma NewPageSince(m: Mem, m1: Mem, m2: Mem, root: nat, v: nat, lo: nat, hi: nat, page: seq<Byte>, flags: nat,
                     data: map<nat, seq<Byte>>, data1: map<nat, seq<Byte>>, data2: map<nat, seq<Byte>>)
    requires NewPage(m1, m2, data2, root, v, page, flags) && Settled(m, m1, root, lo, hi, data, data1)
    requires m.Ok() && m.IsTable(root, root, 2, 0) && NoneMapped(m, root, lo, hi)
    ensures NewPage(m, m2, data2, root, v, page, flags)
  {
    hide PageTable.Mem.Pte, MakePte, FrameOf;
    assert m.FrameOk(FrameOf(m2.Pte(root, v)));
  }

  // ---------- Growing and copying ----------

  /** What new pages are filled with. */
  datatype Source =
    | Zeros                                                    // zeroed pages with all rights for the user
    | PagesOf(mem: Mem, data: map<nat, seq<Byte>>, root: nat)  // the pages of another tree
  {
    function Page(v: nat): seq<Byte> {
      if Zeros? then seq(PGSIZE, _ => 0)
      else if FrameOf(mem.Pte(root, v)) in data then data[FrameOf(mem.Pte(root, v))] else []
    }

    function Flags(v: nat): nat {
      if Zeros? then PTE_W + PTE_X + PTE_R + PTE_U + PTE_V else FlagsOf(mem.Pte(root, v))
    }
  }

  ghost predicate NewFrom(m: Mem, m': Mem, data': map<nat, seq<Byte>>, root: nat, v: nat, src: Source) {
    NewPage(m, m', data', root, v, src.Page(v), src.Flags(v))
  }

  ghost predicate NewPages(m: Mem, m': Mem, data': map<nat, seq<Byte>>, root: nat, lo: nat, hi: nat, src: Source) {
    forall v {:trigger NewFrom(m, m', data', root, v, src)} | lo <= v < hi :: NewFrom(m, m', data', root, v, src)
  }

  /** State of a loop that adds pages: pages lo up to p are there. */
  ghost predicate Grown(m: Mem, m': Mem, root: nat, lo: nat, p: nat, src: Source, data: map<nat, seq<Byte>>,
                        data': map<nat, seq<Byte>>) {
    && m'.IsTable(root, root, 2, 0) && KeptBut(m, m', root, lo, p)
    && NewPages(m, m', data', root, lo, p, src) && Settled(m, m', root, lo, p, data, data')
  }

  lemma GrownNone(m: Mem, root: nat, lo: nat, hi: nat, src: Source, data: map<nat, seq<Byte>>)
    requires m.IsTable(root, root, 2, 0) && m.role.Keys <= data.Keys && hi <= lo
    ensures Grown(m, m, root, lo, hi, src, data, data)
  {
    KeptSelf(m);
    KeptNarrow(m, m, root, lo, hi);
    SettledNone(m, root, lo, hi, data);
  }

  lemma GrownMore(m: Mem, m1: Mem, m2: Mem, root: nat, lo: nat, p: nat, src: Source,
                  data: map<nat, seq<Byte>>, data1: map<nat, seq<Byte>>, data2: map<nat, seq<Byte>>)
    requires m.Ok() && m.IsTable(root, root, 2, 0) && NoneMapped(m, root, lo, p) && lo <= p < SPAN
    requires Grown(m, m1, root, lo, p, src, data, data1)
    requires m2.IsTable(root, root, 2, 0) && KeptBut(m1, m2, root, p, p + 1)
             && Settled(m1, m2, root, p, p + 1, data1, data2)
    requires NewPage(m1, m2, data2, root, p, src.Page(p), src.Flags(p))
    ensures Grown(m, m2, root, lo, p + 1, src, data, data2)
  {
    hide NewPage, PageTable.Mem.Ok, PageTable.Mem.Pte, Source.Page, Source.Flags;
    forall r: nat, v: nat | v < SPAN && !(r == root && lo <= v < p + 1) ensures PteKept(m, m2, r, v) {
      assert PteKept(m, m1, r, v) && PteKept(m1, m2, r, v);
    }
    forall v: nat | lo <= v < p + 1 ensures NewFrom(m, m2, data2, root, v, src) {
      if v < p {
        assert NewFrom(m, m1, data1, root, v, src);
        NewPageKept(m, m1, m2, root, v, p, p + 1, src.Page(v), src.Flags(v), data1, data2);
      } else {
        NewPageSince(m, m1, m2, root, p, lo, p, src.Page(p), src.Flags(p), data, data1, data2);
      }
    }
  }

  /** A round that fails changes no page. */
  lemma GrownSame(m: Mem, m1: Mem, m2: Mem, root: nat, lo: nat, p: nat, src: Source,
                  data: map<nat, seq<Byte>>, data1: map<nat, seq<Byte>>, data2: map<nat, seq<Byte>>)
    requires Grown(m, m1, root, lo, p, src, data, data1) && p <= SPAN
    requires m2.IsTable(root, root, 2, 0) && Kept(m1, m2) && Settled(m1, m2, root, 0, 0, data1, data2)
    ensures Grown(m, m2, root, lo, p, src, data, data2)
  {
    hide NewPage, PageTable.Mem.Pte, Source.Page, Source.Flags;
    forall r: nat, v: nat | v < SPAN && !(r == root && lo <= v < p) ensures PteKept(m, m2, r, v) {
      assert PteKept(m, m1, r, v) && PteKept(m1, m2, r, v);
    }
    KeptNarrow(m1, m2, root, 0, 0);
    forall v: nat | lo <= v < p ensures NewFrom(m, m2, data2, root, v, src) {
      assert NewFrom(m, m1, data1, root, v, src);
      NewPageKept(m, m1, m2, root, v, 0, 0, src.Page(v), src.Flags(v), data1, data2);
    }
  }

  lemma GrownNext(m: Mem, m1: Mem, root: nat, lo: nat, p: nat, hi: nat, src: Source, data: map<nat, seq<Byte>>,
                  data1: map<nat, seq<Byte>>)
    requires Grown(m, m1, root, lo, p, src, data, data1) && m.IsTable(root, root, 2, 0)
    requires NoneMapped(m, root, lo, hi) && lo <= p < hi <= SPAN
    ensures m1.Pte(root, p) == 0 && NoneMapped(m, root, lo, p)
  {
    hide PageTable.Mem.Pte, Settled, NewPages;
    assert PteKept(m, m1, root, p);
  }

  /** The pages that have been added can be taken back. */
  lemma GrownOwned(m: Mem, m1: Mem, root: nat, lo: nat, p: nat, src: Source, data: map<nat, seq<Byte>>,
                   data1: map<nat, seq<Byte>>)
    requires Grown(m, m1, root, lo, p, src, data, data1)
    ensures MayUnmapAll(m1, root, lo, p, true) && AllMapped(m1, root, lo, p)
  {
    hide PageTable.Mem.Pte, Settled, KeptBut, Source.Page, Source.Flags, MakePte;
    forall v: nat | lo <= v < p ensures Owns(m1, root, v) {
      assert NewFrom(m, m1, data1, root, v, src);
      PteParity(FrameOf(m1.Pte(root, v)), src.Flags(v));
    }
    forall v: nat | lo <= v < p ensures MayUnmap(m1, root, v, true) {
      assert Owns(m1, root, v);
    }
    forall v: nat | lo <= v < p ensures IsValid(m1.Pte(root, v)) {
      assert Owns(m1, root, v);
    }
  }

  lemma GrownSource(m: Mem, m1: Mem, root: nat, lo: nat, p: nat, src: Source, data: map<nat, seq<Byte>>,
                    data1: map<nat, seq<Byte>>,
                    other: nat, v: nat)
    requires Grown(m, m1, root, lo, p, src, data, data1) && other != root && m.IsTable(other, other, 2, 0) && v < SPAN
    ensures m1.Pte(other, v) == m.Pte(other, v)
  {
    hide PageTable.Mem.Pte, Settled, NewPages;
    assert PteKept(m, m1, other, v);
  }

  lemma GrownRoot(m: Mem, m': Mem, other: nat, root: nat, lo: nat, hi: nat)
    requires KeptBut(m, m', root, lo, hi) && other != root && m.IsTable(other, other, 2, 0)
    ensures m'.IsTable(other, other, 2, 0)
  {
    hide PageTable.Mem.Pte;
    assert PteKept(m, m', other, 0);
  }

  /** A page to be copied has its contents and permissions still. */
  lemma SourcePage(m: Mem, m1: Mem, free: seq<nat>, root: nat, other: nat, v: nat, hi: nat, src: Source,
                   data: map<nat, seq<Byte>>, data1: map<nat, seq<Byte>>)
    requires m1.Ok() && m1.IsTable(other, other, 2, 0) && other != root && v < hi <= SPAN
             && ListOk(free, m1.role, data1)
    requires MayUnmapAll(m, other, 0, hi, true) && src == PagesOf(m, data, other)
    requires Grown(m, m1, root, 0, v, src, data, data1) && m1.Pte(other, v) == m.Pte(other, v)
             && IsValid(m.Pte(other, v))
    ensures var e := m.Pte(other, v);
            && PermOk(FlagsOf(e)) && Perm(FlagsOf(e)) == src.Flags(v)
            && FrameOf(e) in data1 && data1[FrameOf(e)] == src.Page(v) && |src.Page(v)| == PGSIZE
  {
    hide PageTable.Mem.Pte, PageTable.Mem.Ok, NewPages, KeptBut;
    assert MayUnmap(m, other, v, true);
    LeafPte(m1, other, v);
    FlagParts(m.Pte(other, v));
  }

  lemma ZeroPerm()
    ensures PermOk(PTE_W + PTE_X + PTE_R + PTE_U) && Perm(PTE_W + PTE_X + PTE_R + PTE_U) == Zeros.Flags(0)
  {
  }

  /** Taking them back leaves every translation as it was, and no frame is lost. */
  lemma UndoPages(m: Mem, m1: Mem, m2: Mem, root: nat, lo: nat, p: nat, hi: nat, src: Source,
                  data: map<nat, seq<Byte>>, data1: map<nat, seq<Byte>>, data2: map<nat, seq<Byte>>)
    requires m.Ok() && m.IsTable(root, root, 2, 0) && NoneMapped(m, root, lo, hi) && p <= hi <= SPAN
    requires Grown(m, m1, root, lo, p, src, data, data1) && m2.IsTable(root, root, 2, 0)
    requires NoneMapped(m2, root, lo, p) && KeptBut(m1, m2, root, lo, p) && Released(m1, m2, root, lo, p, data1, data2)
    ensures Kept(m, m2) && Settled(m, m2, root, 0, 0, data, data2)
  {
    UndoKept(m, m1, m2, root, lo, p);
    hide PageTable.Mem.Pte, KeptBut, NewPages;
    forall f | f in m.role ensures !(m.role[f].Leaf? && m.role[f].root == root && lo <= m.role[f].vpn < p) {
      assert m.FrameOk(f);
    }
  }

  lemma UndoKept(m: Mem, m1: Mem, m2: Mem, root: nat, lo: nat, p: nat)
    requires KeptBut(m, m1, root, lo, p) && KeptBut(m1, m2, root, lo, p) && m2.IsTable(root, root, 2, 0)
    requires NoneMapped(m, root, lo, p) && NoneMapped(m2, root, lo, p)
    ensures Kept(m, m2)
  {
    hide PageTable.Mem.Pte;
    forall r: nat, v: nat | v < SPAN ensures PteKept(m, m2, r, v) {
      if r == root && lo <= v < p {
        assert m.Pte(root, v) == 0 == m2.Pte(root, v);
      } else {
        assert PteKept(m, m1, r, v) && PteKept(m1, m2, r, v);
      }
    }
  }
}
