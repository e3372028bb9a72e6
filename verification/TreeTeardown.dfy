/**
 The beginning and the end of a page-table tree (uvmcreate, freewalk and uvmfree in kernel/vm.c).
 */
module TreeTeardown {
  import opened Blocks
  import opened PageTable
  import opened MemoryChanges

  // ---------- A new tree ----------

  /** A sound memory in which the tree at root maps nothing. */
  ghost predicate Bare(m: Mem, root: nat) {
    m.Ok() && m.IsTable(root, root, 2, 0) && NoneMapped(m, root, 0, SPAN)
  }

  function WithTree(m: Mem, root: nat): Mem {
    Mem(m.pt[root := seq(NPTE, _ => 0)], m.role[root := Table(root, 2, 0)])
  }

  lemma NewTree(m: Mem, root: nat)
    requires m.Ok() && root != 0 && root in m.role && m.role[root].Held?
    ensures Bare(WithTree(m, root), root) && Kept(m, WithTree(m, root))
  {
    hide FirstPage, Index, Prefix, FrameOf;
    var m' := WithTree(m, root);
    forall r: nat, v: nat | m.IsTable(r, r, 2, 0) && v < SPAN
      ensures m'.TableAt(r, 1, v) == m.TableAt(r, 1, v) && m'.TableAt(r, 0, v) == m.TableAt(r, 0, v)
              && m'.Pte(r, v) == m.Pte(r, v)
    {
      NewTreePath(m, root, r, v);
    }
    forall r: nat, v: nat | v < SPAN ensures PteKept(m, m', r, v) {
    }
    forall v: nat | v < SPAN ensures m'.Pte(root, v) == 0 {
      IndexPrefix(v, 1);
      assert m'.TableAt(root, 1, v) == 0;
    }
    forall f: nat ensures m'.FrameOk(f) {
      assert m.FrameOk(f);
      if f == root {
        RootFirst();
      } else if f in m.role && m.role[f].Table? {
        NewTreePath(m, root, m.role[f].root, FirstPage(m.role[f].level, m.role[f].prefix));
      }
    }
    forall f: nat, i: nat ensures m'.EntryOk(f, i) {
      assert m.EntryOk(f, i);
    }
  }

  lemma RootFirst()
    ensures FirstPage(2, 0) == 0
  {
  }

  lemma NewTreePath(m: Mem, root: nat, r: nat, v: nat)
    requires m.Ok() && root in m.role && m.role[root].Held? && m.IsTable(r, r, 2, 0) && v < SPAN
    ensures WithTree(m, root).TableAt(r, 1, v) == m.TableAt(r, 1, v)
            && WithTree(m, root).TableAt(r, 0, v) == m.TableAt(r, 0, v)
    ensures WithTree(m, root).Pte(r, v) == m.Pte(r, v)
  {
    hide FirstPage, Index, FrameOf;
    WalkMeets(m, r, 1, v);
    WalkMeets(m, r, 0, v);
    assert WithTree(m, root).TableAt(r, 1, v) == m.TableAt(r, 1, v);
  }

  // ---------- Tables below a table ----------

  /** The prefix of the ancestor, at the given level, of a table. */
  function Ancestor(l: nat, prefix: nat, level: nat): nat {
    if level <= l then prefix else Ancestor(l, prefix, level - 1) / NPTE
  }

  /** Tables of the tree at root that are at or below the table with this level and prefix. */
  predicate Under(r: Role, root: nat, level: nat, prefix: nat) {
    r.Table? && r.root == root && r.level <= level && Ancestor(r.level, r.prefix, level) == prefix
  }

  /** Those below one of its first n entries. */
  predicate UnderPart(r: Role, root: nat, level: nat, prefix: nat, n: nat) {
    && r.Table? && r.root == root && r.level < level && Ancestor(r.level, r.prefix, level) == prefix
    && Ancestor(r.level, r.prefix, level - 1) % NPTE < n
  }

  /** The prefix of a table's ancestor is the prefix of its first page. */
  lemma AncestorPrefix(l: nat, prefix: nat, level: nat)
    requires l <= level <= 2 && FirstPage(l, prefix) < SPAN
    ensures Ancestor(l, prefix, level) == Prefix(level, FirstPage(l, prefix))
    ensures l < level ==> Ancestor(l, prefix, level - 1) % NPTE == Index(level, FirstPage(l, prefix))
  {
  }

  lemma PartStep(r: Role, root: nat, level: nat, prefix: nat, i: nat)
    requires 0 < level && i < NPTE
    ensures UnderPart(r, root, level, prefix, i + 1) <==>
              UnderPart(r, root, level, prefix, i) || Under(r, root, level - 1, prefix * NPTE + i)
    ensures !(UnderPart(r, root, level, prefix, i) && Under(r, root, level - 1, prefix * NPTE + i))
    ensures Under(r, root, level - 1, prefix * NPTE + i) ==> Under(r, root, level, prefix)
  {
    if r.Table? && r.level < level {
      var a := Ancestor(r.level, r.prefix, level - 1);
      assert Ancestor(r.level, r.prefix, level) == a / NPTE;
      assert a == a / NPTE * NPTE + a % NPTE;
    }
  }

  lemma PartWhole(r: Role, root: nat, level: nat, prefix: nat)
    ensures Under(r, root, level, prefix) <==>
              r == Table(root, level, prefix) || UnderPart(r, root, level, prefix, NPTE)
  {
  }

  lemma NotUnderChild(root: nat, level: nat, prefix: nat, i: nat)
    requires 0 < level
    ensures !Under(Table(root, level, prefix), root, level - 1, prefix * NPTE + i)
  {
  }

  lemma NoPart(r: Role, root: nat, prefix: nat, n: nat)
    ensures !UnderPart(r, root, 0, prefix, n)
  {
  }

  lemma TableFlags(e: nat)
    requires FlagsOf(e) == PTE_V
    ensures !IsLeaf(e)
  {
    var q := e / 1024;
    assert e / 2 == 8 * (64 * q) + 0;
    Mod8(64 * q, 0);
  }

  /** In a tree that maps nothing, valid entries point to tables. */
  lemma BareEntry(m0: Mem, root: nat, level: nat, prefix: nat, f: nat, i: nat)
    requires Bare(m0, root) && m0.IsTable(f, root, level, prefix) && i < NPTE
    ensures var e := m0.Entry(f, i);
            IsValid(e) ==> 0 < level && !IsLeaf(e) && m0.IsTable(FrameOf(e), root, level - 1, prefix * NPTE + i)
  {
    var e := m0.Entry(f, i);
    assert m0.FrameOk(f) && m0.EntryOk(f, i);
    if level == 0 {
      var v := prefix * NPTE + i;
      SamePrefixSameTable(m0, root, 0, FirstPage(0, prefix), v);
      assert m0.Pte(root, v) == e;
    } else if IsValid(e) {
      TableFlags(e);
    }
  }

  /** The walk to a table goes through tables. */
  lemma {:induction false} TablesAbove(m: Mem, root: nat, l: nat, level: nat, v: nat)
    requires l <= level <= 2 && m.TableAt(root, l, v) != 0
    ensures m.TableAt(root, level, v) != 0
    decreases level
  {
    if l < level {
      TablesAbove(m, root, l, level - 1, v);
    }
  }

  lemma ChildIndex(l: nat, p: nat, level: nat, prefix: nat, i: nat)
    requires l < level <= 2 && FirstPage(l, p) < SPAN && Ancestor(l, p, level - 1) == prefix * NPTE + i && i < NPTE
    ensures Index(level, FirstPage(l, p)) == i
  {
    AncestorPrefix(l, p, level);
  }

  /** There are no tables below an entry that is not valid. */
  lemma NothingBelow(m0: Mem, root: nat, level: nat, prefix: nat, i: nat, f: nat, g: nat)
    requires m0.Ok() && m0.IsTable(f, root, level, prefix) && i < NPTE && 0 < level && !IsValid(m0.Entry(f, i))
             && g in m0.role
    ensures !Under(m0.role[g], root, level - 1, prefix * NPTE + i)
  {
    assert m0.FrameOk(f) && m0.FrameOk(g);
    if Under(m0.role[g], root, level - 1, prefix * NPTE + i) {
      var Table(_, l, p) := m0.role[g];
      var v := FirstPage(l, p);
      PartStep(m0.role[g], root, level, prefix, i);
      AncestorPrefix(l, p, level);
      AncestorPrefix(level, prefix, level);
      SamePrefixSameTable(m0, root, level, v, FirstPage(level, prefix));
      TablesAbove(m0, root, l, level - 1, v);
      assert m0.TableAt(root, level - 1, v) == m0.Child(f, Index(level, v));
      ChildIndex(l, p, level, prefix, i);
    }
  }

  // ---------- The progress of freewalk ----------

  ghost predicate PendingAt(m0: Mem, m: Mem, root: nat, level: nat, prefix: nat, g: nat) {
    g in m0.role && Under(m0.role[g], root, level, prefix) ==>
      g in m.role && m.role[g].Held? && g in m0.pt && g in m.pt && m.pt[g] == m0.pt[g]
  }

  /** The tables below are untouched and held. */
  ghost predicate Pending(m0: Mem, m: Mem, root: nat, level: nat, prefix: nat) {
    && m.role.Keys == m0.role.Keys
    && forall g {:trigger PendingAt(m0, m, root, level, prefix, g)} :: PendingAt(m0, m, root, level, prefix, g)
  }

  ghost predicate Same(m: Mem, m': Mem, g: nat, data: map<nat, seq<Byte>>, data': map<nat, seq<Byte>>) {
    && g in m.role && g in m'.role && m'.role[g] == m.role[g]
    && (g in m.pt ==> g in m'.pt && m'.pt[g] == m.pt[g]) && g in data && g in data' && data'[g] == data[g]
  }

  ghost predicate ClearedAt(m0: Mem, m: Mem, m': Mem, root: nat, level: nat, prefix: nat, g: nat,
                            data: map<nat, seq<Byte>>, data': map<nat, seq<Byte>>) {
    g in m.role ==>
      if g in m0.role && Under(m0.role[g], root, level, prefix) then g in m'.role && m'.role[g].Free?
      else Same(m, m', g, data, data')
  }

  /** They are free now, and no other frame has changed. */
  ghost predicate Cleared(m0: Mem, m: Mem, m': Mem, root: nat, level: nat, prefix: nat, data: map<nat, seq<Byte>>,
                          data': map<nat, seq<Byte>>) {
    && m'.role.Keys == m.role.Keys && m'.role.Keys <= data'.Keys
    && forall g {:trigger ClearedAt(m0, m, m', root, level, prefix, g, data, data')} ::
         ClearedAt(m0, m, m', root, level, prefix, g, data, data')
  }

  ghost predicate PartAt(m0: Mem, m: Mem, m': Mem, root: nat, level: nat, prefix: nat, n: nat, f: nat, g: nat,
                         data: map<nat, seq<Byte>>, data': map<nat, seq<Byte>>) {
    g in m.role && g != f ==>
      if g in m0.role && UnderPart(m0.role[g], root, level, prefix, n) then g in m'.role && m'.role[g].Free?
      else Same(m, m', g, data, data')
  }

  /** The state of freewalk at table f after n entries. */
  ghost predicate PartCleared(m0: Mem, m: Mem, m': Mem, root: nat, level: nat, prefix: nat, n: nat, f: nat,
                              data: map<nat, seq<Byte>>, data': map<nat, seq<Byte>>) {
    && m'.role.Keys == m.role.Keys == m0.role.Keys && m'.role.Keys <= data'.Keys
    && f in m'.role && m'.role[f].Held? && f in m'.pt && f in m0.pt && |m'.pt[f]| == |m0.pt[f]| == NPTE
    && n <= NPTE && m'.pt[f][n..] == m0.pt[f][n..]
    && forall g {:trigger PartAt(m0, m, m', root, level, prefix, n, f, g, data, data')} ::
         PartAt(m0, m, m', root, level, prefix, n, f, g, data, data')
  }

  lemma PartStart(m0: Mem, m: Mem, root: nat, level: nat, prefix: nat, f: nat, data: map<nat, seq<Byte>>)
    requires m0.Ok() && m0.IsTable(f, root, level, prefix) && Pending(m0, m, root, level, prefix)
             && m.role.Keys <= data.Keys
    ensures PartCleared(m0, m, m, root, level, prefix, 0, f, data, data)
  {
    assert m0.FrameOk(f) && PendingAt(m0, m, root, level, prefix, f);
    forall g: nat ensures PartAt(m0, m, m, root, level, prefix, 0, f, g, data, data) {
    }
  }

  lemma PartEntry(m0: Mem, m: Mem, m1: Mem, root: nat, level: nat, prefix: nat, i: nat, f: nat,
                  data: map<nat, seq<Byte>>, data1: map<nat, seq<Byte>>)
    requires PartCleared(m0, m, m1, root, level, prefix, i, f, data, data1) && i < NPTE
    ensures f in m1.pt && |m1.pt[f]| == NPTE && m1.pt[f][i] == m0.Entry(f, i)
  {
    assert m1.pt[f][i] == m1.pt[f][i..][0] && m0.pt[f][i] == m0.pt[f][i..][0];
  }

  lemma PartHolder(m0: Mem, m: Mem, m1: Mem, root: nat, level: nat, prefix: nat, i: nat, f: nat,
                   data: map<nat, seq<Byte>>, data1: map<nat, seq<Byte>>)
    requires PartCleared(m0, m, m1, root, level, prefix, i, f, data, data1)
    ensures f in m1.role && m1.role[f].Held?
  {
  }

  lemma PendingChild(m0: Mem, m: Mem, m1: Mem, root: nat, level: nat, prefix: nat, i: nat, f: nat,
                     data: map<nat, seq<Byte>>, data1: map<nat, seq<Byte>>)
    requires m0.IsTable(f, root, level, prefix) && Pending(m0, m, root, level, prefix) && 0 < level && i < NPTE
    requires PartCleared(m0, m, m1, root, level, prefix, i, f, data, data1)
    ensures Pending(m0, m1, root, level - 1, prefix * NPTE + i)
  {
    hide Under, UnderPart;
    var l, p := level - 1, prefix * NPTE + i;
    forall g: nat ensures PendingAt(m0, m1, root, l, p, g) {
      if g in m0.role {
        PartStep(m0.role[g], root, level, prefix, i);
        NotUnderChild(root, level, prefix, i);
        assert PendingAt(m0, m, root, level, prefix, g) && PartAt(m0, m, m1, root, level, prefix, i, f, g, data, data1);
      }
    }
  }

  lemma PartChild(m0: Mem, m1: Mem, m2: Mem, root: nat, level: nat, prefix: nat, i: nat, f: nat,
                  data1: map<nat, seq<Byte>>, data2: map<nat, seq<Byte>>)
    requires m0.IsTable(f, root, level, prefix) && 0 < level && f in m1.role && m1.role[f].Held? && f in m1.pt
    requires Cleared(m0, m1, m2, root, level - 1, prefix * NPTE + i, data1, data2)
    ensures f in m2.role && m2.role[f].Held? && f in m2.pt && m2.pt[f] == m1.pt[f]
  {
    assert ClearedAt(m0, m1, m2, root, level - 1, prefix * NPTE + i, f, data1, data2);
  }

  lemma PartNext(m0: Mem, m: Mem, m1: Mem, m2: Mem, root: nat, level: nat, prefix: nat, i: nat, f: nat,
                 entries: seq<nat>,
                 data: map<nat, seq<Byte>>, data1: map<nat, seq<Byte>>, data2: map<nat, seq<Byte>>)
    requires m0.IsTable(f, root, level, prefix) && 0 < level && i < NPTE
    requires PartCleared(m0, m, m1, root, level, prefix, i, f, data, data1)
    requires Cleared(m0, m1, m2, root, level - 1, prefix * NPTE + i, data1, data2)
    requires f in m2.pt && m2.pt[f] == m1.pt[f] && entries == m2.pt[f][i := 0] && f in m2.role && m2.role[f].Held?
    ensures PartCleared(m0, m, Retagged(m2, f, Held, entries), root, level, prefix, i + 1, f, data, data2)
  {
    hide Under, UnderPart;
    var m3 := Retagged(m2, f, Held, entries);
    assert entries[i + 1..] == m1.pt[f][i..][1..] == m0.pt[f][i..][1..] == m0.pt[f][i + 1..];
    var n := i + 1;
    forall g: nat ensures PartAt(m0, m, m3, root, level, prefix, n, f, g, data, data2) {
      if g in m.role && g != f {
        PartStep(m0.role[g], root, level, prefix, i);
        assert PartAt(m0, m, m1, root, level, prefix, i, f, g, data, data1);
        assert ClearedAt(m0, m1, m2, root, level - 1, prefix * NPTE + i, g, data1, data2);
      }
    }
  }

  lemma PartSkip(m0: Mem, m: Mem, m1: Mem, root: nat, level: nat, prefix: nat, i: nat, f: nat,
                 data: map<nat, seq<Byte>>, data1: map<nat, seq<Byte>>)
    requires m0.Ok() && m0.IsTable(f, root, level, prefix) && i < NPTE && !IsValid(m0.Entry(f, i))
    requires PartCleared(m0, m, m1, root, level, prefix, i, f, data, data1)
    ensures PartCleared(m0, m, m1, root, level, prefix, i + 1, f, data, data1)
  {
    hide Under, UnderPart, PageTable.Mem.Ok;
    assert m1.pt[f][i + 1..] == m1.pt[f][i..][1..] == m0.pt[f][i..][1..] == m0.pt[f][i + 1..];
    var n := i + 1;
    forall g: nat ensures PartAt(m0, m, m1, root, level, prefix, n, f, g, data, data1) {
      assert PartAt(m0, m, m1, root, level, prefix, i, f, g, data, data1);
      if g in m.role {
        if level > 0 {
          PartStep(m0.role[g], root, level, prefix, i);
          NothingBelow(m0, root, level, prefix, i, f, g);
        } else {
          NoPart(m0.role[g], root, prefix, i + 1);
          NoPart(m0.role[g], root, prefix, i);
        }
      }
    }
  }

  lemma PartEnd(m0: Mem, m: Mem, m1: Mem, m2: Mem, root: nat, level: nat, prefix: nat, f: nat,
                data: map<nat, seq<Byte>>, data1: map<nat, seq<Byte>>, data2: map<nat, seq<Byte>>)
    requires m0.Ok() && m0.IsTable(f, root, level, prefix)
    requires PartCleared(m0, m, m1, root, level, prefix, NPTE, f, data, data1)
    requires m2.role.Keys == m1.role.Keys && m2.role[f].Free? && m1.role.Keys <= data2.Keys
    requires forall g | g in m1.role && g != f :: Same(m1, m2, g, data1, data2)
    ensures Cleared(m0, m, m2, root, level, prefix, data, data2)
  {
    hide Under, UnderPart;
    assert m0.FrameOk(f);
    forall g: nat ensures ClearedAt(m0, m, m2, root, level, prefix, g, data, data2) {
      if g in m.role {
        PartWhole(m0.role[g], root, level, prefix);
        assert m0.FrameOk(g);
        assert PartAt(m0, m, m1, root, level, prefix, NPTE, f, g, data, data1);
      }
    }
  }

  // ---------- Giving up a tree ----------

  /** The frames of the tree are free; all others have their use and contents. */
  ghost predicate TreeFreed(m: Mem, m': Mem, root: nat, data: map<nat, seq<Byte>>, data': map<nat, seq<Byte>>) {
    && m'.role.Keys == m.role.Keys && m.role.Keys <= data.Keys && m.role.Keys <= data'.Keys
    && forall f | f in m.role ::
         if (m.role[f].Table? || m.role[f].Leaf?) && m.role[f].root == root then m'.role[f].Free?
         else m'.role[f] == m.role[f] && data'[f] == data[f]
  }

  ghost predicate OthersKept(m: Mem, m': Mem, root: nat) {
    forall r, v {:trigger PteKept(m, m', r, v)} | r != root && 0 <= v < SPAN :: PteKept(m, m', r, v)
  }

  /** The table pages of the tree at root are given up to a holder. */
  ghost function Detached(m: Mem, root: nat): Mem {
    m.(role := map f | f in m.role :: if m.role[f].Table? && m.role[f].root == root then Held else m.role[f])
  }

  lemma SamePath(m: Mem, m': Mem, root: nat, v: nat)
    requires m'.pt == m.pt
    ensures m'.TableAt(root, 0, v) == m.TableAt(root, 0, v) && m'.TableAt(root, 1, v) == m.TableAt(root, 1, v)
    ensures m'.Pte(root, v) == m.Pte(root, v)
  {
    assert m'.TableAt(root, 2, v) == m.TableAt(root, 2, v);
    assert m'.TableAt(root, 1, v) == m.TableAt(root, 1, v);
  }

  lemma RootPath(m: Mem, m': Mem, root: nat, v: nat)
    ensures m'.TableAt(root, 2, v) == m.TableAt(root, 2, v)
  {
  }

  lemma DetachOk(m: Mem, root: nat)
    requires Bare(m, root)
    ensures Detached(m, root).Ok()
  {
    hide PageTable.Mem.Pte, PageTable.Mem.TableAt, FirstPage;
    var m' := Detached(m, root);
    forall f: nat ensures m'.FrameOk(f) {
      assert m.FrameOk(f);
      if f in m.role {
        match m.role[f] {
          case Table(r, l, p) => SamePath(m, m', r, FirstPage(l, p)); RootPath(m, m', r, FirstPage(l, p));
          case Leaf(r, v) => SamePath(m, m', r, v);
          case _ =>
        }
      }
    }
    forall f: nat, i: nat ensures m'.EntryOk(f, i) {
      assert m.EntryOk(f, i);
    }
  }

  lemma DetachList(free: seq<nat>, m: Mem, data: map<nat, seq<Byte>>, root: nat)
    requires ListOk(free, m.role, data)
    ensures ListOk(free, Detached(m, root).role, data)
  {
    ListKept(free, m.role, data, Detached(m, root).role, data);
  }

  lemma DetachPending(m: Mem, root: nat)
    requires m.Ok()
    ensures Pending(m, Detached(m, root), root, 2, 0)
  {
    var m' := Detached(m, root);
    forall g: nat ensures PendingAt(m, m', root, 2, 0, g) {
      assert m.FrameOk(g);
    }
  }

  lemma BareAfter(m: Mem, m1: Mem, root: nat, n: nat)
    requires m1.Ok() && m.IsTable(root, root, 2, 0) && m1.IsTable(root, root, 2, 0)
    requires KeptBut(m, m1, root, 0, n) && NoneMapped(m1, root, 0, n) && NoneMapped(m, root, n, SPAN)
    ensures Bare(m1, root)
  {
    hide PageTable.Mem.Pte;
    forall v: nat | v < SPAN ensures m1.Pte(root, v) == 0 {
      assert PteKept(m, m1, root, v) || v < n;
    }
  }

  lemma FreedAll(m: Mem, m1: Mem, m2: Mem, m3: Mem, root: nat, n: nat,
                 data: map<nat, seq<Byte>>, data1: map<nat, seq<Byte>>, data3: map<nat, seq<Byte>>)
    requires m.Ok() && Bare(m1, root) && m2 == Detached(m1, root) && NoneMapped(m, root, n, SPAN)
    requires Released(m, m1, root, 0, n, data, data1) && KeptBut(m, m1, root, 0, n)
    requires Cleared(m1, m2, m3, root, 2, 0, data1, data3)
    ensures TreeFreed(m, m3, root, data, data3) && OthersKept(m, m3, root)
  {
    hide PageTable.Mem.Pte, PageTable.Mem.TableAt, KeptBut, Under, PageTable.Mem.Ok;
    forall f | f in m.role
      ensures if (m.role[f].Table? || m.role[f].Leaf?) && m.role[f].root == root then m3.role[f].Free?
              else m3.role[f] == m.role[f] && data3[f] == data[f]
    {
      assert ClearedAt(m1, m2, m3, root, 2, 0, f, data1, data3);
      UnderRoot(m1, root, f);
      LeafBelow(m, root, n, f);
    }
    OtherTrees(m, m1, m2, m3, root, n, data1, data3);
  }

  lemma LeafBelow(m: Mem, root: nat, n: nat, f: nat)
    requires m.Ok() && NoneMapped(m, root, n, SPAN) && f in m.role
    ensures m.role[f].Leaf? && m.role[f].root == root ==> m.role[f].vpn < n
  {
    assert m.FrameOk(f);
  }

  lemma UnderRoot(m: Mem, root: nat, f: nat)
    requires m.Ok() && f in m.role
    ensures Under(m.role[f], root, 2, 0) <==> m.role[f].Table? && m.role[f].root == root
  {
    assert m.FrameOk(f);
    if m.role[f].Table? {
      AncestorPrefix(m.role[f].level, m.role[f].prefix, 2);
    }
  }

  lemma OtherTrees(m: Mem, m1: Mem, m2: Mem, m3: Mem, root: nat, n: nat, data1: map<nat, seq<Byte>>,
                   data3: map<nat, seq<Byte>>)
    requires m1.Ok() && KeptBut(m, m1, root, 0, n) && m2 == Detached(m1, root)
    requires Cleared(m1, m2, m3, root, 2, 0, data1, data3)
    ensures OthersKept(m, m3, root)
  {
    hide PageTable.Mem.Pte, PageTable.Mem.TableAt, Under, PageTable.Mem.Ok, Cleared;
    forall r: nat, v: nat | r != root && v < SPAN ensures PteKept(m, m3, r, v) {
      assert PteKept(m, m1, r, v);
      if m1.IsTable(r, r, 2, 0) {
        OtherWalk(m1, m3, root, r, v, data1, data3);
      }
    }
  }

  lemma OtherWalk(m1: Mem, m3: Mem, root: nat, r: nat, v: nat, data1: map<nat, seq<Byte>>, data3: map<nat, seq<Byte>>)
    requires m1.Ok() && Cleared(m1, Detached(m1, root), m3, root, 2, 0, data1, data3)
    requires r != root && m1.IsTable(r, r, 2, 0) && v < SPAN
    ensures m3.IsTable(r, r, 2, 0) && m3.Pte(r, v) == m1.Pte(r, v)
  {
    OtherTable(m1, m3, root, r, r, 2, 0, data1, data3);
    WalkMeets(m1, r, 1, v);
    WalkMeets(m1, r, 0, v);
    var t1, t0 := m1.TableAt(r, 1, v), m1.TableAt(r, 0, v);
    hide Index, Prefix, FrameOf, Under, Cleared, PageTable.Mem.Ok;
    if t1 != 0 {
      OtherTable(m1, m3, root, t1, r, 1, Prefix(1, v), data1, data3);
    }
    if t0 != 0 {
      OtherTable(m1, m3, root, t0, r, 0, Prefix(0, v), data1, data3);
    }
    assert m3.TableAt(r, 1, v) == t1;
  }

  lemma OtherTable(m1: Mem, m3: Mem, root: nat, t: nat, r: nat, level: nat, prefix: nat, data1: map<nat, seq<Byte>>,
                   data3: map<nat, seq<Byte>>)
    requires m1.Ok() && Cleared(m1, Detached(m1, root), m3, root, 2, 0, data1, data3)
    requires r != root && m1.IsTable(t, r, level, prefix)
    ensures m3.IsTable(t, r, level, prefix) && t in m1.pt && t in m3.pt && m3.pt[t] == m1.pt[t]
  {
    assert m1.FrameOk(t) && ClearedAt(m1, Detached(m1, root), m3, root, 2, 0, t, data1, data3);
  }
}
