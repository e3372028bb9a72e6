/**
 Three-level Sv39 page tables (kernel/vm.c, kernel/riscv.h; section 4.4 of the RISC-V Privileged
 Architecture), and who owns which page frame.

 A frame is a physical page number.  A page-table entry is the number that the hardware reads: the
 frame number times 1024 plus ten flag bits.
 */
module PageTable {

  const PGSIZE := 4096
  const NPTE := 512
  const SPAN := 0x800_0000    // pages that three levels can translate
  const MAXVPN := 0x400_0000  // MAXVA / PGSIZE, where MAXVA is 1 << 38

  const PTE_V := 1
  const PTE_R := 2
  const PTE_W := 4
  const PTE_X := 8
  const PTE_U := 16

  predicate IsValid(e: nat) { e % 2 == 1 }
  predicate IsLeaf(e: nat) { e / 2 % 8 != 0 }   // pte & (PTE_R|PTE_W|PTE_X)
  predicate IsUser(e: nat) { e / 16 % 2 == 1 }
  function FrameOf(e: nat): nat { e / 1024 }    // PTE2PA(pte) / PGSIZE
  function FlagsOf(e: nat): nat { e % 1024 }
  function MakePte(f: nat, flags: nat): nat { f * 1024 + flags }

  lemma PteParts(f: nat, flags: nat)
    requires flags < 1024
    ensures FrameOf(MakePte(f, flags)) == f && FlagsOf(MakePte(f, flags)) == flags
    ensures IsValid(MakePte(f, flags)) == IsValid(flags) && IsLeaf(MakePte(f, flags)) == IsLeaf(flags)
    ensures IsUser(MakePte(f, flags)) == IsUser(flags)
  {
    var e := MakePte(f, flags);
    assert e / 2 == 8 * (64 * f) + flags / 2;
    Mod8(64 * f, flags / 2);
    assert e / 16 == 2 * (32 * f) + flags / 16;
    Mod2(32 * f, flags / 16);
    Mod2(512 * f, flags);
  }

  lemma Mod8(q: nat, x: nat)
    ensures (8 * q + x) % 8 == x % 8
  {
  }

  lemma Mod2(q: nat, x: nat)
    ensures (2 * q + x) % 2 == x % 2
  {
  }

  /** PX(level, va) for a virtual page number. */
  function Index(level: nat, vpn: nat): nat
    requires level <= 2
  {
    if level == 0 then vpn % NPTE else if level == 1 then vpn / NPTE % NPTE else vpn / (NPTE * NPTE) % NPTE
  }

  /** The part of a virtual page number above the given level. */
  function Prefix(level: nat, vpn: nat): nat
    requires level <= 2
  {
    if level == 0 then vpn / NPTE else if level == 1 then vpn / (NPTE * NPTE) else 0
  }

  /** The first page number under a table of the given level and prefix. */
  function FirstPage(level: nat, prefix: nat): nat {
    if level == 0 then prefix * NPTE else if level == 1 then prefix * NPTE * NPTE else prefix * NPTE * NPTE * NPTE
  }

  /** What a managed frame is used for. */
  datatype Role =
    | Free(pos: nat)                             // on the free list, at a position from the bottom
    | Table(root: nat, level: nat, prefix: nat)  // a table page of the tree at root
    | Leaf(root: nat, vpn: nat)                  // the memory behind a page of the tree at root
    | Held                                       // taken from the allocator by some holder

  datatype Mem = Mem(pt: map<nat, seq<nat>>, role: map<nat, Role>) {

    function Entry(f: nat, i: nat): nat {
      if f in pt && i < |pt[f]| then pt[f][i] else 0
    }

    /** The table below entry i of table f, or 0. */
    function Child(f: nat, i: nat): nat {
      if f != 0 && IsValid(Entry(f, i)) then FrameOf(Entry(f, i)) else 0
    }

    /** The table of the given level on the walk to vpn, or 0. */
    function TableAt(root: nat, level: nat, vpn: nat): nat
      requires level <= 2
      decreases 2 - level
    {
      if level == 2 then root else Child(TableAt(root, level + 1, vpn), Index(level + 1, vpn))
    }

    /** The entry that the hardware finds for vpn, or 0. */
    function Pte(root: nat, vpn: nat): nat {
      if TableAt(root, 0, vpn) == 0 then 0 else Entry(TableAt(root, 0, vpn), Index(0, vpn))
    }

    ghost predicate IsTable(f: nat, root: nat, level: nat, prefix: nat) {
      f in role && role[f] == Table(root, level, prefix)
    }

    /** Entries above level 0 point to tables of the level below; entries of level 0 are leaves, and
        user pages have their memory to themselves.  Entries that are not valid are zero. */
    ghost predicate EntryOk(f: nat, i: nat) {
      f in role && role[f].Table? && i < NPTE ==>
        var Table(root, level, prefix) := role[f];
        var e := Entry(f, i);
        if !IsValid(e) then e == 0
        else if level == 0 then
          IsLeaf(e) && (IsUser(e) ==> FrameOf(e) in role && role[FrameOf(e)] == Leaf(root, prefix * NPTE + i))
        else
          FlagsOf(e) == PTE_V && IsTable(FrameOf(e), root, level - 1, prefix * NPTE + i)
    }

    /** A table page is where a walk from its root looks for it, and memory is where its entry says. */
    ghost predicate FrameOk(f: nat) {
      f in role ==>
        match role[f]
        case Table(root, level, prefix) =>
          && f != 0 && f in pt && |pt[f]| == NPTE && level <= 2 && FirstPage(level, prefix) < SPAN
          && IsTable(root, root, 2, 0) && TableAt(root, level, FirstPage(level, prefix)) == f
        case Leaf(root, vpn) =>
          vpn < SPAN && IsTable(root, root, 2, 0) && IsValid(Pte(root, vpn)) && FrameOf(Pte(root, vpn)) == f
        case _ => true
    }

    ghost predicate Ok() {
      && (forall f {:trigger FrameOk(f)} :: FrameOk(f))
      && (forall f, i {:trigger EntryOk(f, i)} :: EntryOk(f, i))
    }
  }

  lemma IndexPrefix(vpn: nat, level: nat)
    requires vpn < SPAN && level <= 2
    ensures Index(level, vpn) < NPTE && (level < 2 ==> Index(level + 1, vpn) < NPTE)
    ensures level < 2 ==> Prefix(level, vpn) == Prefix(level + 1, vpn) * NPTE + Index(level + 1, vpn)
    ensures vpn == Prefix(0, vpn) * NPTE + Index(0, vpn)
  {
  }

  /** The three indices are the digits of the page number, the root's the highest. */
  lemma IndexDigits(vpn: nat)
    requires vpn < SPAN
    ensures vpn == (Index(2, vpn) * NPTE + Index(1, vpn)) * NPTE + Index(0, vpn)
    ensures Index(2, vpn) < NPTE && Index(1, vpn) < NPTE && Index(0, vpn) < NPTE
  {
    IndexPrefix(vpn, 0);
    IndexPrefix(vpn, 1);
  }

  /** A walk in a sound memory meets tables of the right level for the right addresses. */
  lemma {:induction false} WalkMeets(m: Mem, root: nat, level: nat, vpn: nat)
    requires m.Ok() && m.IsTable(root, root, 2, 0) && vpn < SPAN && level <= 2
    ensures var t := m.TableAt(root, level, vpn); t == 0 || m.IsTable(t, root, level, Prefix(level, vpn))
    decreases 2 - level
  {
    assert m.FrameOk(root);
    if level < 2 {
      WalkMeets(m, root, level + 1, vpn);
      IndexPrefix(vpn, level);
      assert m.EntryOk(m.TableAt(root, level + 1, vpn), Index(level + 1, vpn));
    }
  }

  // ---------- Frames that are not in a tree ----------

  /** Frame f gets another use outside the trees, and other contents. */
  function Retagged(m: Mem, f: nat, r: Role, words: seq<nat>): Mem {
    Mem(m.pt[f := words], m.role[f := r])
  }

  predicate Loose(r: Role) { r.Free? || r.Held? }

  lemma RetagPath(m: Mem, f: nat, r: Role, words: seq<nat>, root: nat, level: nat, vpn: nat)
    requires m.Ok() && f in m.role && Loose(m.role[f]) && Loose(r)
    requires m.IsTable(root, root, 2, 0) && vpn < SPAN && level <= 2
    ensures Retagged(m, f, r, words).TableAt(root, level, vpn) == m.TableAt(root, level, vpn)
    ensures Retagged(m, f, r, words).Pte(root, vpn) == m.Pte(root, vpn)
  {
    WalkMeets(m, root, 2, vpn);
    WalkMeets(m, root, 1, vpn);
    WalkMeets(m, root, 0, vpn);
  }

  lemma RetagOk(m: Mem, f: nat, r: Role, words: seq<nat>)
    requires m.Ok() && f in m.role && Loose(m.role[f]) && Loose(r)
    ensures Retagged(m, f, r, words).Ok()
  {
    var m' := Retagged(m, f, r, words);
    forall g: nat ensures m'.FrameOk(g) {
      assert m.FrameOk(g);
      if g in m.role && g != f {
        match m.role[g] {
          case Table(root, level, prefix) => RetagPath(m, f, r, words, root, level, FirstPage(level, prefix));
          case Leaf(root, vpn) => RetagPath(m, f, r, words, root, 0, vpn);
          case _ =>
        }
      }
    }
    forall g: nat, i: nat ensures m'.EntryOk(g, i) {
      assert m.EntryOk(g, i);
    }
  }

  // ---------- Adding a table page ----------

  /** Frame g becomes an empty table below entry Index(level + 1, vpn) of the table above it. */
  function WithTable(m: Mem, root: nat, level: nat, vpn: nat, g: nat): Mem
    requires level < 2
  {
    var t, i := m.TableAt(root, level + 1, vpn), Index(level + 1, vpn);
    var entries := if t in m.pt && i < |m.pt[t]| then m.pt[t][i := MakePte(g, PTE_V)] else [];
    Mem(m.pt[t := entries][g := seq(NPTE, _ => 0)], m.role[g := Table(root, level, Prefix(level, vpn))])
  }

  ghost predicate CanAddTable(m: Mem, root: nat, level: nat, vpn: nat, g: nat) {
    && m.Ok() && m.IsTable(root, root, 2, 0) && vpn < SPAN && level < 2
    && m.TableAt(root, level + 1, vpn) != 0 && !IsValid(m.Entry(m.TableAt(root, level + 1, vpn), Index(level + 1, vpn)))
    && g != 0 && g in m.role && m.role[g].Held?
  }

  lemma AddTableChild(m: Mem, root: nat, level: nat, vpn: nat, g: nat, f: nat, i: nat)
    requires CanAddTable(m, root, level, vpn, g) && i < NPTE && f != g
    ensures var t := m.TableAt(root, level + 1, vpn);
            WithTable(m, root, level, vpn, g).Child(f, i)
            == if f == t && i == Index(level + 1, vpn) then g else m.Child(f, i)
    ensures WithTable(m, root, level, vpn, g).Child(g, i) == 0
  {
    hide Index, Prefix, FirstPage, MakePte, FrameOf, Mem.TableAt;
    PteParts(g, PTE_V);
    WalkMeets(m, root, level + 1, vpn);
    IndexPrefix(vpn, level);
    assert m.FrameOk(m.TableAt(root, level + 1, vpn));
  }

  lemma {:induction false} AddTablePath(m: Mem, root: nat, level: nat, vpn: nat, g: nat, root': nat, l: nat, v: nat)
    requires CanAddTable(m, root, level, vpn, g)
    requires m.IsTable(root', root', 2, 0) && v < SPAN && l <= 2
    ensures WithTable(m, root, level, vpn, g).TableAt(root', l, v)
            == if root' == root && l == level && Prefix(l, v) == Prefix(l, vpn) then g else m.TableAt(root', l, v)
    decreases 2 - l
  {
    hide Index, Prefix, FirstPage, WithTable, Mem.Child, Mem.Ok;
    if l < 2 {
      var t, t' := m.TableAt(root, level + 1, vpn), m.TableAt(root', l + 1, v);
      AddTablePath(m, root, level, vpn, g, root', l + 1, v);
      WalkMeets(m, root, level + 1, vpn);
      WalkMeets(m, root', l + 1, v);
      IndexPrefix(vpn, level);
      IndexPrefix(v, l);
      AddTableChild(m, root, level, vpn, g, if t' == g then 0 else t', Index(l + 1, v));
      if root' == root && l + 1 == level && Prefix(l + 1, v) == Prefix(l + 1, vpn) {
        SamePrefixSameTable(m, root, level, vpn, v);
        assert m.TableAt(root, level, vpn) == 0 by { NoChildYet(m, root, level, vpn, g); }
        NoChild(m, Index(l + 1, v));
      }
      if root' == root && l == level && Prefix(l, v) == Prefix(l, vpn) {
        SamePrefixSameTable(m, root, l + 1, v, vpn);
      }
    }
  }

  lemma NoChildYet(m: Mem, root: nat, level: nat, vpn: nat, g: nat)
    requires CanAddTable(m, root, level, vpn, g)
    ensures m.TableAt(root, level, vpn) == 0
  {
  }

  lemma NoChild(m: Mem, i: nat)
    ensures m.Child(0, i) == 0
  {
  }

  /** Pages with the same prefix are reached through the same table. */
  lemma {:induction false} SamePrefixSameTable(m: Mem, root: nat, level: nat, v: nat, w: nat)
    requires v < SPAN && w < SPAN && level <= 2 && Prefix(level, v) == Prefix(level, w)
    ensures m.TableAt(root, level, v) == m.TableAt(root, level, w)
    decreases 2 - level
  {
    if level < 2 {
      IndexPrefix(v, level);
      IndexPrefix(w, level);
      SamePrefixSameTable(m, root, level + 1, v, w);
    }
  }

  /** An added table changes no translation anywhere. */
  lemma AddTablePte(m: Mem, root: nat, level: nat, vpn: nat, g: nat, root': nat, v: nat)
    requires CanAddTable(m, root, level, vpn, g) && m.IsTable(root', root', 2, 0) && v < SPAN
    ensures WithTable(m, root, level, vpn, g).Pte(root', v) == m.Pte(root', v)
  {
    AddTablePath(m, root, level, vpn, g, root', 0, v);
    WalkMeets(m, root, level + 1, vpn);
    WalkMeets(m, root', 0, v);
    if root' == root && level == 0 && Prefix(0, v) == Prefix(0, vpn) {
      SamePrefixSameTable(m, root, 0, v, vpn);
    }
  }

  lemma AddTableOk(m: Mem, root: nat, level: nat, vpn: nat, g: nat)
    requires CanAddTable(m, root, level, vpn, g)
    ensures WithTable(m, root, level, vpn, g).Ok()
    ensures WithTable(m, root, level, vpn, g).TableAt(root, level, vpn) == g
  {
    hide Index, Prefix, FirstPage;
    var m', t := WithTable(m, root, level, vpn, g), m.TableAt(root, level + 1, vpn);
    AddTablePath(m, root, level, vpn, g, root, level, vpn);
    WalkMeets(m, root, level + 1, vpn);
    IndexPrefix(vpn, level);
    assert m.FrameOk(t) && m.FrameOk(root);
    forall f: nat ensures m'.FrameOk(f) {
      AddTableFrame(m, root, level, vpn, g, f);
    }
    forall f: nat, i: nat ensures m'.EntryOk(f, i) {
      assert m.EntryOk(f, i);
    }
  }

  lemma AddTableFrame(m: Mem, root: nat, level: nat, vpn: nat, g: nat, f: nat)
    requires CanAddTable(m, root, level, vpn, g)
    ensures WithTable(m, root, level, vpn, g).FrameOk(f)
  {
    assert m.FrameOk(f) && m.FrameOk(root) && m.FrameOk(m.TableAt(root, level + 1, vpn));
    WalkMeets(m, root, level + 1, vpn);
    IndexPrefix(vpn, level);
    if f == g {
      AddTablePath(m, root, level, vpn, g, root, level, FirstPage(level, Prefix(level, vpn)));
      FirstPagePrefix(level, vpn);
    } else if f in m.role {
      match m.role[f] {
        case Table(root', l, prefix) =>
          AddTablePath(m, root, level, vpn, g, root', l, FirstPage(l, prefix));
          if root' == root && l == level && Prefix(l, FirstPage(l, prefix)) == Prefix(l, vpn) {
            SamePrefixSameTable(m, root, level, FirstPage(l, prefix), vpn);
          }
        case Leaf(root', v) => AddTablePte(m, root, level, vpn, g, root', v);
        case _ =>
      }
    }
  }

  lemma FirstPagePrefix(level: nat, vpn: nat)
    requires vpn < SPAN && level <= 2
    ensures FirstPage(level, Prefix(level, vpn)) < SPAN
    ensures Prefix(level, FirstPage(level, Prefix(level, vpn))) == Prefix(level, vpn)
  {
  }

  // ---------- Changing the entry of a page ----------

  /** The entry for vpn becomes e. */
  function WithPte(m: Mem, root: nat, vpn: nat, e: nat): Mem {
    var t, i := m.TableAt(root, 0, vpn), Index(0, vpn);
    var entries: seq<nat> := if t in m.pt && i < |m.pt[t]| then m.pt[t][i := e] else [];
    Mem(m.pt[t := entries], m.role)
  }

  ghost predicate HasSlot(m: Mem, root: nat, vpn: nat) {
    m.Ok() && m.IsTable(root, root, 2, 0) && vpn < SPAN && m.TableAt(root, 0, vpn) != 0
  }

  lemma {:induction false} WithPtePath(m: Mem, root: nat, vpn: nat, e: nat, root': nat, l: nat, v: nat)
    requires HasSlot(m, root, vpn) && m.IsTable(root', root', 2, 0) && v < SPAN && l <= 2
    ensures WithPte(m, root, vpn, e).TableAt(root', l, v) == m.TableAt(root', l, v)
    decreases 2 - l
  {
    hide Index, Prefix, FirstPage;
    WalkMeets(m, root, 0, vpn);
    if l < 2 {
      WithPtePath(m, root, vpn, e, root', l + 1, v);
      WalkMeets(m, root', l + 1, v);
    }
  }

  /** Changing the entry of one page changes the translation of that page and of no other. */
  lemma WithPtePte(m: Mem, root: nat, vpn: nat, e: nat, root': nat, v: nat)
    requires HasSlot(m, root, vpn) && m.IsTable(root', root', 2, 0) && v < SPAN
    ensures WithPte(m, root, vpn, e).Pte(root', v) == if root' == root && v == vpn then e else m.Pte(root', v)
  {
    hide Index, Prefix, FirstPage;
    WithPtePath(m, root, vpn, e, root', 0, v);
    WalkMeets(m, root, 0, vpn);
    WalkMeets(m, root', 0, v);
    IndexPrefix(vpn, 0);
    IndexPrefix(v, 0);
    assert m.FrameOk(m.TableAt(root, 0, vpn));
  }

  /** The role of a page's memory while it is mapped, and after. */
  function Owned(m: Mem, f: nat, r: Role, owned: bool): Mem {
    if owned then m.(role := m.role[f := r]) else m
  }

  ghost predicate CanMap(m: Mem, root: nat, vpn: nat, e: nat, owned: bool) {
    && HasSlot(m, root, vpn) && !IsValid(m.Pte(root, vpn)) && IsValid(e) && IsLeaf(e)
    && (if owned then FrameOf(e) in m.role && m.role[FrameOf(e)].Held? else !IsUser(e))
  }

  function Mapped(m: Mem, root: nat, vpn: nat, e: nat, owned: bool): Mem {
    Owned(WithPte(m, root, vpn, e), FrameOf(e), Leaf(root, vpn), owned)
  }

  ghost predicate CanUnmap(m: Mem, root: nat, vpn: nat, owned: bool) {
    && HasSlot(m, root, vpn) && IsValid(m.Pte(root, vpn))
    && owned == (FrameOf(m.Pte(root, vpn)) in m.role && m.role[FrameOf(m.Pte(root, vpn))] == Leaf(root, vpn))
  }

  function Unmapped(m: Mem, root: nat, vpn: nat, owned: bool): Mem {
    Owned(WithPte(m, root, vpn, 0), FrameOf(m.Pte(root, vpn)), Held, owned)
  }

  /** The roles of the other frames do not matter to paths. */
  lemma {:induction false} OwnedPath(m: Mem, f: nat, r: Role, owned: bool, root: nat, l: nat, v: nat)
    requires l <= 2
    ensures Owned(m, f, r, owned).TableAt(root, l, v) == m.TableAt(root, l, v)
    ensures Owned(m, f, r, owned).Pte(root, v) == m.Pte(root, v)
    decreases 2 - l
  {
    var m' := Owned(m, f, r, owned);
    assert m'.TableAt(root, 1, v) == m.TableAt(root, 1, v);
    assert m'.TableAt(root, 0, v) == m.TableAt(root, 0, v);
  }

  lemma MapOk(m: Mem, root: nat, vpn: nat, e: nat, owned: bool)
    requires CanMap(m, root, vpn, e, owned)
    ensures Mapped(m, root, vpn, e, owned).Ok()
  {
    hide Index, Prefix, FirstPage, FrameOf, IsLeaf, IsUser;
    var m', t := Mapped(m, root, vpn, e, owned), m.TableAt(root, 0, vpn);
    WalkMeets(m, root, 0, vpn);
    IndexPrefix(vpn, 0);
    assert m.FrameOk(t);
    forall f: nat ensures m'.FrameOk(f) {
      assert m.FrameOk(f);
      MapFrame(m, root, vpn, e, FrameOf(e), Leaf(root, vpn), owned, f);
    }
    forall f: nat, i: nat ensures m'.EntryOk(f, i) {
      assert m.EntryOk(f, i);
    }
  }

  lemma UnmapOk(m: Mem, root: nat, vpn: nat, owned: bool)
    requires CanUnmap(m, root, vpn, owned)
    ensures Unmapped(m, root, vpn, owned).Ok()
  {
    hide Index, Prefix, FirstPage, FrameOf, IsLeaf, IsUser;
    var m', t := Unmapped(m, root, vpn, owned), m.TableAt(root, 0, vpn);
    WalkMeets(m, root, 0, vpn);
    IndexPrefix(vpn, 0);
    assert m.FrameOk(t);
    forall f: nat ensures m'.FrameOk(f) {
      assert m.FrameOk(f);
      MapFrame(m, root, vpn, 0, FrameOf(m.Pte(root, vpn)), Held, owned, f);
    }
    forall f: nat, i: nat ensures m'.EntryOk(f, i) {
      assert m.EntryOk(f, i);
      UnmapEntry(m, root, vpn, owned, f, i);
    }
  }

  lemma UnmapEntry(m: Mem, root: nat, vpn: nat, owned: bool, f: nat, i: nat)
    requires CanUnmap(m, root, vpn, owned)
    ensures Unmapped(m, root, vpn, owned).EntryOk(f, i)
  {
    hide FirstPage, FrameOf, IsLeaf, IsUser;
    var t := m.TableAt(root, 0, vpn);
    WalkMeets(m, root, 0, vpn);
    IndexPrefix(vpn, 0);
    assert m.FrameOk(t) && m.EntryOk(f, i) && m.FrameOk(f);
    if f in m.role && m.role[f].Table? && m.role[f].level == 0 && i < NPTE {
      var Table(r, _, p) := m.role[f];
      if r == root && p * NPTE + i == vpn {
        assert p == Prefix(0, vpn) && i == Index(0, vpn);
        SamePrefixSameTable(m, root, 0, FirstPage(0, p), vpn) by { FirstPagePrefix(0, vpn); }
      }
    }
  }

  lemma MapFrame(m: Mem, root: nat, vpn: nat, e: nat, g: nat, r: Role, owned: bool, f: nat)
    requires HasSlot(m, root, vpn)
    requires owned ==>
               && g in m.role && !m.role[g].Table?
               && (r == Held || (r == Leaf(root, vpn) && IsValid(e) && FrameOf(e) == g))
    requires owned && m.role[g].Leaf? ==> m.role[g] == Leaf(root, vpn)
    requires f in m.role && m.role[f] == Leaf(root, vpn) ==> owned && f == g
    ensures Owned(WithPte(m, root, vpn, e), g, r, owned).FrameOk(f)
  {
    hide Index, Prefix;
    var m1 := WithPte(m, root, vpn, e);
    WalkMeets(m, root, 0, vpn);
    IndexPrefix(vpn, 0);
    assert m.FrameOk(f) && m.FrameOk(root) && m.FrameOk(m.TableAt(root, 0, vpn));
    if f in m.role {
      var r' := if owned && f == g then r else m.role[f];
      match r' {
        case Table(root', l, prefix) =>
          WithPtePath(m, root, vpn, e, root', l, FirstPage(l, prefix));
          OwnedPath(m1, g, r, owned, root', l, FirstPage(l, prefix));
        case Leaf(root', v) =>
          WithPtePte(m, root, vpn, e, root', v);
          OwnedPath(m1, g, r, owned, root', 0, v);
        case _ =>
      }
    }
  }
}
