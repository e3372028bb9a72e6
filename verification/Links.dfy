/**
 Directory entries and link counts (kernel/sysfile.c, kernel/fs.c).

 A method is what a system call does while it holds the locks of the inodes it changes.  System calls
 that let go of their locks halfway, sys_link and sys_unlink, are two or three methods, and others may
 run in between.  The bag pending holds an inode for every link that its count includes and no entry
 shows: a link announced by sys_link, or one already erased by sys_unlink.
 */
module Links {

  const T_DIR := 1
  const T_FILE := 2
  const T_DEVICE := 3
  const ROOT := 1

  datatype Dirent = Dirent(inum: nat, name: string)

  datatype Node = Node(kind: nat, nlink: int, ents: seq<Dirent>) {
    predicate IsDir() { kind == T_DIR }
  }

  type Tree = map<nat, Node>

  predicate IsDot(name: string) { name == "." || name == ".." }

  /** An entry that counts as a link. */
  predicate IsLink(de: Dirent) { de.inum != 0 && !IsDot(de.name) }

  /** Entry k of directory d is a link to inode i. */
  predicate Names(fs: Tree, d: nat, k: nat, i: nat) {
    d in fs && fs[d].IsDir() && k < |fs[d].ents| && IsLink(fs[d].ents[k]) && fs[d].ents[k].inum == i
  }

  /** The places of all links to i. */
  ghost function Places(fs: Tree, i: nat): set<(nat, nat)> {
    set d, k | d in fs && 0 <= k < |fs[d].ents| && Names(fs, d, k, i) :: (d, k)
  }

  /** Entry k of directory d is a link to a directory. */
  predicate Holds(fs: Tree, d: nat, k: nat) {
    && d in fs && fs[d].IsDir() && k < |fs[d].ents| && IsLink(fs[d].ents[k])
    && fs[d].ents[k].inum in fs && fs[fs[d].ents[k].inum].IsDir()
  }

  ghost function Subdirs(fs: Tree, d: nat): set<nat>
    requires d in fs
  {
    set k | 0 <= k < |fs[d].ents| && Holds(fs, d, k)
  }

  /** The link count is the number of links to the inode, plus the number of subdirectories it holds, plus
      one for the root, plus the links that are on their way. */
  ghost predicate CountOk(fs: Tree, pending: multiset<nat>, dying: set<nat>, i: nat) {
    i in fs ==>
      fs[i].nlink == |Places(fs, i)| + |Subdirs(fs, i)| + (if i == ROOT then 1 else 0) + pending[i]
                     + (if i in dying then 1 else 0)
  }

  /** Its first two entries are the dots.  "." is the directory itself, and so is ".." of the root. */
  ghost predicate Dotted(fs: Tree, d: nat)
    requires d in fs
  {
    && |fs[d].ents| >= 2 && fs[d].ents[0] == Dirent(d, ".")
    && fs[d].ents[1].name == ".." && fs[d].ents[1].inum != 0 && (d == ROOT ==> fs[d].ents[1].inum == ROOT)
  }

  /** A directory starts with its dots, names allocated inodes other than itself, and is empty once it has
      no links or is about to lose them. */
  ghost predicate DirOk(fs: Tree, dying: set<nat>, d: nat) {
    d in fs && fs[d].IsDir() ==>
      && Dotted(fs, d)
      && (forall k {:trigger EntOk(fs, d, k)} | 2 <= k < |fs[d].ents| :: EntOk(fs, d, k))
      && (fs[d].nlink == 0 || d in dying ==> Empty(fs[d]))
  }

  /** An entry behind the dots is a link; and ".." of a directory that it names leads back. */
  ghost predicate EntOk(fs: Tree, d: nat, k: nat)
    requires d in fs && k < |fs[d].ents|
  {
    var de := fs[d].ents[k];
    de.inum != 0 ==> !IsDot(de.name) && de.inum in fs && de.inum != d && LeadsBack(fs, de.inum, d)
  }

  ghost predicate LeadsBack(fs: Tree, i: nat, d: nat)
    requires i in fs
  {
    fs[i].IsDir() ==> |fs[i].ents| >= 2 && fs[i].ents[1].inum == d
  }

  ghost predicate Empty(n: Node) {
    forall k | 2 <= k < |n.ents| :: n.ents[k].inum == 0
  }

  /** A directory has one link, or none once it is removed; the root has none. */
  ghost predicate OneLink(fs: Tree, pending: multiset<nat>, dying: set<nat>, i: nat) {
    i in fs && fs[i].IsDir() ==>
      && pending[i] == 0
      && |Places(fs, i)| == (if i == ROOT || i in dying || fs[i].nlink == 0 then 0 else 1)
  }

  ghost predicate Inv(fs: Tree, pending: multiset<nat>, dying: set<nat>) {
    && 0 !in fs && ROOT in fs && fs[ROOT].IsDir()
    && (forall i {:trigger CountOk(fs, pending, dying, i)} :: CountOk(fs, pending, dying, i))
    && (forall d {:trigger DirOk(fs, dying, d)} :: DirOk(fs, dying, d))
    && (forall i {:trigger OneLink(fs, pending, dying, i)} :: OneLink(fs, pending, dying, i))
    && (forall i | i in dying :: i in fs) && (forall i | i in pending :: i in fs)
  }

  // ---------- Changing one entry ----------

  function WithEnt(fs: Tree, d: nat, k: nat, de: Dirent): Tree
    requires d in fs && k <= |fs[d].ents|
  {
    fs[d := fs[d].(ents := if k < |fs[d].ents| then fs[d].ents[k := de] else fs[d].ents + [de])]
  }

  /** Only slot k of directory d changes its meaning, and only for the inodes that it named or names. */
  lemma WithEntPlaces(fs: Tree, d: nat, k: nat, de: Dirent, i: nat)
    requires d in fs && fs[d].IsDir() && k <= |fs[d].ents|
    ensures Places(WithEnt(fs, d, k, de), i) ==
            if IsLink(de) && de.inum == i then Places(fs, i) + {(d, k)} else Places(fs, i) - {(d, k)}
  {
    var fs' := WithEnt(fs, d, k, de);
    forall e: nat, j: nat ensures Names(fs', e, j, i) <==>
      if (e, j) == (d, k) then IsLink(de) && de.inum == i else Names(fs, e, j, i) {
    }
  }

  lemma WithEntSubdirs(fs: Tree, d: nat, k: nat, de: Dirent, e: nat)
    requires d in fs && fs[d].IsDir() && k <= |fs[d].ents| && e in fs
    ensures Subdirs(WithEnt(fs, d, k, de), e) ==
            if e != d then Subdirs(fs, e)
            else if IsLink(de) && de.inum in fs && fs[de.inum].IsDir() then Subdirs(fs, e) + {k}
            else Subdirs(fs, e) - {k}
  {
    var fs' := WithEnt(fs, d, k, de);
    forall j: nat ensures Holds(fs', e, j) <==>
      if (e, j) == (d, k) then IsLink(de) && de.inum in fs && fs[de.inum].IsDir() else Holds(fs, e, j) {
    }
  }

  /** The link count of i changes by n. */
  function Counted(fs: Tree, i: nat, n: int): Tree
    requires i in fs
  {
    fs[i := fs[i].(nlink := fs[i].nlink + n)]
  }

  lemma CountedSame(fs: Tree, i: nat, n: int, j: nat)
    requires i in fs
    ensures Places(Counted(fs, i, n), j) == Places(fs, j)
    ensures j in fs ==> Subdirs(Counted(fs, i, n), j) == Subdirs(fs, j)
  {
    var fs' := Counted(fs, i, n);
    forall e: nat, k: nat ensures Names(fs', e, k, j) == Names(fs, e, k, j) && Holds(fs', e, k) == Holds(fs, e, k) {
    }
  }

  /** A count and what is pending change together. */
  lemma CountBoth(fs: Tree, pending: multiset<nat>, dying: set<nat>, i: nat, n: int, pending': multiset<nat>, j: nat)
    requires CountOk(fs, pending, dying, j) && i in fs && (forall x | x != i :: pending'[x] == pending[x])
             && pending'[i] == pending[i] + n
    ensures CountOk(Counted(fs, i, n), pending', dying, j)
  {
    CountedSame(fs, i, n, j);
  }

  lemma CountedDir(fs: Tree, dying: set<nat>, i: nat, n: int, d: nat)
    requires DirOk(fs, dying, d) && i in fs && (i == d && fs[i].IsDir() && fs[i].nlink + n == 0 ==> Empty(fs[i]))
    ensures DirOk(Counted(fs, i, n), dying, d)
  {
    var fs' := Counted(fs, i, n);
    if d in fs && fs[d].IsDir() {
      forall k | 2 <= k < |fs'[d].ents| ensures EntOk(fs', d, k) {
        assert EntOk(fs, d, k);
      }
    }
  }

  // ---------- sys_link ----------

  lemma LinkCountOk(fs: Tree, pending: multiset<nat>, dying: set<nat>, i: nat, n: int, pending': multiset<nat>)
    requires Inv(fs, pending, dying) && i in fs && !fs[i].IsDir() && (forall x | x != i :: pending'[x] == pending[x])
             && pending'[i] == pending[i] + n
    ensures Inv(Counted(fs, i, n), pending', dying)
  {
    var fs' := Counted(fs, i, n);
    forall j: nat ensures CountOk(fs', pending', dying, j) {
      assert CountOk(fs, pending, dying, j);
      CountBoth(fs, pending, dying, i, n, pending', j);
    }
    forall d: nat ensures DirOk(fs', dying, d) {
      assert DirOk(fs, dying, d);
      CountedDir(fs, dying, i, n, d);
    }
    forall j: nat ensures OneLink(fs', pending', dying, j) {
      assert OneLink(fs, pending, dying, j);
      CountedSame(fs, i, n, j);
    }
  }

  /** Slot k of directory d is free for a new entry. */
  ghost predicate FreeSlot(fs: Tree, d: nat, k: nat) {
    d in fs && fs[d].IsDir() && 2 <= k <= |fs[d].ents| && (k < |fs[d].ents| ==> fs[d].ents[k].inum == 0)
  }

  /** dirlink takes the first free slot. */
  ghost predicate FirstFree(fs: Tree, d: nat, k: nat) {
    FreeSlot(fs, d, k) && forall j | 0 <= j < k :: fs[d].ents[j].inum != 0
  }

  lemma FreeSlotUnused(fs: Tree, d: nat, k: nat, i: nat)
    requires FreeSlot(fs, d, k)
    ensures (d, k) !in Places(fs, i) && k !in Subdirs(fs, d)
  {
  }

  /** A new link: one place more for its inode, and one subdirectory more if it is one. */
  lemma AddEntCounts(fs: Tree, d: nat, k: nat, de: Dirent, j: nat)
    requires FreeSlot(fs, d, k) && IsLink(de) && de.inum in fs
    ensures var fs' := WithEnt(fs, d, k, de);
            && |Places(fs', j)| == |Places(fs, j)| + (if j == de.inum then 1 else 0)
            && (j in fs ==> |Subdirs(fs', j)| == |Subdirs(fs, j)| + (if j == d && fs[de.inum].IsDir() then 1 else 0))
  {
    WithEntPlaces(fs, d, k, de, j);
    FreeSlotUnused(fs, d, k, j);
    if j in fs {
      WithEntSubdirs(fs, d, k, de, j);
    }
  }

  lemma LinkEntryOk(fs: Tree, pending: multiset<nat>, dying: set<nat>, d: nat, k: nat, name: string, i: nat)
    requires Inv(fs, pending, dying) && FreeSlot(fs, d, k) && fs[d].nlink != 0 && d !in dying
    requires !IsDot(name) && i in fs && !fs[i].IsDir() && i in pending
    ensures Inv(WithEnt(fs, d, k, Dirent(i, name)), pending - multiset{i}, dying)
  {
    hide Places, Subdirs, EntOk;
    var fs', pending' := WithEnt(fs, d, k, Dirent(i, name)), pending - multiset{i};
    forall j: nat ensures CountOk(fs', pending', dying, j) && OneLink(fs', pending', dying, j) {
      assert CountOk(fs, pending, dying, j) && OneLink(fs, pending, dying, j);
      AddEntCounts(fs, d, k, Dirent(i, name), j);
    }
    forall e: nat ensures DirOk(fs', dying, e) {
      assert DirOk(fs, dying, e);
      WithEntDir(fs, dying, d, k, Dirent(i, name), e);
    }
  }

  lemma WithEntDir(fs: Tree, dying: set<nat>, d: nat, k: nat, de: Dirent, e: nat)
    requires DirOk(fs, dying, e) && d in fs && fs[d].IsDir() && 2 <= k <= |fs[d].ents|
    requires de.inum != 0 ==> !IsDot(de.name) && de.inum in fs && de.inum != d && fs[d].nlink != 0 && d !in dying
    requires de.inum != 0 ==> LeadsBack(fs, de.inum, d)
    ensures k < |fs[d].ents| || de.inum != 0 ==> DirOk(WithEnt(fs, d, k, de), dying, e)
  {
    var fs' := WithEnt(fs, d, k, de);
    if e in fs && fs[e].IsDir() {
      forall j | 2 <= j < |fs'[e].ents| ensures EntOk(fs', e, j) {
        assert j < |fs[e].ents| ==> EntOk(fs, e, j);
      }
    }
  }

  // ---------- sys_unlink ----------

  /** The entry is erased, and its directory has a subdirectory less if it was one. */
  function Erased(fs: Tree, d: nat, k: nat): Tree
    requires d in fs && k < |fs[d].ents|
  {
    var i := fs[d].ents[k].inum;
    var fs1 := WithEnt(fs, d, k, Dirent(0, ""));
    if i in fs && fs[i].IsDir() then Counted(fs1, d, -1) else fs1
  }

  /** Entry k of d is a link to i that sys_unlink may erase. */
  ghost predicate CanErase(fs: Tree, dying: set<nat>, d: nat, k: nat, i: nat) {
    && Names(fs, d, k, i) && 2 <= k && d !in dying && i in fs && i !in dying && (fs[i].IsDir() ==> Empty(fs[i]))
  }

  lemma EraseOk(fs: Tree, pending: multiset<nat>, dying: set<nat>, d: nat, k: nat, i: nat)
    requires Inv(fs, pending, dying) && CanErase(fs, dying, d, k, i)
    ensures i != d && Inv(Erased(fs, d, k), pending, dying + {i})
  {
    assert DirOk(fs, dying, d) && EntOk(fs, d, k) && CountOk(fs, pending, dying, d) && OneLink(fs, pending, dying, d);
    var fs', dying' := Erased(fs, d, k), dying + {i};
    EraseCounts(fs, d, k, i, d);
    hide Places, Subdirs, EntOk, Erased, CountOk, OneLink, DirOk;
    forall j: nat ensures CountOk(fs', pending, dying', j) && OneLink(fs', pending, dying', j) {
      EraseOne(fs, pending, dying, d, k, i, j);
    }
    forall e: nat ensures DirOk(fs', dying', e) {
      assert DirOk(fs, dying, e);
      EraseDir(fs, dying, d, k, i, e);
    }
  }

  lemma EraseOne(fs: Tree, pending: multiset<nat>, dying: set<nat>, d: nat, k: nat, i: nat, j: nat)
    requires Inv(fs, pending, dying) && CanErase(fs, dying, d, k, i) && i != d
    ensures CountOk(Erased(fs, d, k), pending, dying + {i}, j) && OneLink(Erased(fs, d, k), pending, dying + {i}, j)
  {
    assert CountOk(fs, pending, dying, j) && OneLink(fs, pending, dying, j) && CountOk(fs, pending, dying, i)
           && OneLink(fs, pending, dying, i);
    assert CountOk(fs, pending, dying, d) && OneLink(fs, pending, dying, d);
    hide Inv, Places, Subdirs, Erased;
    EraseCounts(fs, d, k, i, d);
    EraseCounts(fs, d, k, i, i);
    EraseCounts(fs, d, k, i, j);
  }

  /** Erasing takes one place from the inode and, if that is a directory, one subdirectory and one link from
      the directory of the entry. */
  lemma EraseCounts(fs: Tree, d: nat, k: nat, i: nat, j: nat)
    requires Names(fs, d, k, i) && i in fs && i != d
    ensures var fs' := Erased(fs, d, k);
            && fs'.Keys == fs.Keys && |Places(fs', j)| == |Places(fs, j)| - (if j == i then 1 else 0)
            && (j in fs ==>
                && fs'[j].kind == fs[j].kind
                && |Subdirs(fs', j)| == |Subdirs(fs, j)| - (if j == d && fs[i].IsDir() then 1 else 0))
            && (j in fs ==> fs'[j].nlink == fs[j].nlink - (if j == d && fs[i].IsDir() then 1 else 0))
    ensures |Places(fs, i)| >= 1 && (fs[i].IsDir() ==> |Subdirs(fs, d)| >= 1)
  {
    var fs1 := WithEnt(fs, d, k, Dirent(0, ""));
    CountedSame(fs1, d, -1, j);
    RemoveEnt(fs, d, k, i, j);
    RemoveEnt(fs, d, k, i, i);
    RemoveEnt(fs, d, k, i, d);
    hide Places, Subdirs;
  }

  lemma RemoveEnt(fs: Tree, d: nat, k: nat, i: nat, j: nat)
    requires Names(fs, d, k, i) && i in fs && i != d
    ensures var fs1 := WithEnt(fs, d, k, Dirent(0, ""));
            && |Places(fs1, j)| == |Places(fs, j)| - (if j == i then 1 else 0)
            && (j in fs ==> |Subdirs(fs1, j)| == |Subdirs(fs, j)| - (if j == d && fs[i].IsDir() then 1 else 0))
  {
    var gone := Dirent(0, "");
    WithEntPlaces(fs, d, k, gone, j);
    assert (d, k) in Places(fs, j) <==> j == i;
    if j in fs {
      WithEntSubdirs(fs, d, k, gone, j);
      assert k in Subdirs(fs, d) <==> fs[i].IsDir();
    }
  }

  lemma EraseDir(fs: Tree, dying: set<nat>, d: nat, k: nat, i: nat, e: nat)
    requires DirOk(fs, dying, e) && CanErase(fs, dying, d, k, i) && i != d
    requires fs[i].IsDir() ==> fs[d].nlink != 1
    ensures DirOk(Erased(fs, d, k), dying + {i}, e)
  {
    var fs1, fs' := WithEnt(fs, d, k, Dirent(0, "")), Erased(fs, d, k);
    WithEntDir(fs, dying, d, k, Dirent(0, ""), e);
    if fs[i].IsDir() {
      CountedDir(fs1, dying, d, -1, e);
    }
    assert i in fs' && fs'[i] == fs[i];
  }

  /** The end of sys_unlink: the count of the inode follows. */
  lemma EraseEndOk(fs: Tree, pending: multiset<nat>, dying: set<nat>, i: nat)
    requires Inv(fs, pending, dying) && i in dying
    ensures i in fs && Inv(Counted(fs, i, -1), pending, dying - {i})
  {
    var fs', dying' := Counted(fs, i, -1), dying - {i};
    assert CountOk(fs, pending, dying, i) && OneLink(fs, pending, dying, i) && DirOk(fs, dying, i);
    if fs[i].IsDir() {
      EmptyNoSubdirs(fs, i);
    }
    hide Places, Subdirs, EntOk;
    forall j: nat ensures CountOk(fs', pending, dying', j) && OneLink(fs', pending, dying', j) {
      assert CountOk(fs, pending, dying, j) && OneLink(fs, pending, dying, j);
      CountedSame(fs, i, -1, j);
    }
    forall d: nat ensures DirOk(fs', dying', d) {
      assert DirOk(fs, dying, d);
      CountedDir(fs, dying, i, -1, d);
    }
  }

  lemma EmptyNoSubdirs(fs: Tree, d: nat)
    requires d in fs && fs[d].IsDir() && Empty(fs[d]) && Dotted(fs, d)
    ensures Subdirs(fs, d) == {}
  {
  }

  // ---------- create ----------

  function NewNode(kind: nat, i: nat, d: nat): Node {
    Node(kind, 1, if kind == T_DIR then [Dirent(i, "."), Dirent(d, "..")] else [])
  }

  /** A new inode with one link, entered in directory d, which has a subdirectory more if it is one. */
  function Created(fs: Tree, d: nat, k: nat, name: string, i: nat, kind: nat): Tree
    requires d in fs && i !in fs && k <= |fs[d].ents|
  {
    var fs1 := fs[i := NewNode(kind, i, d)];
    WithEnt(if kind == T_DIR then Counted(fs1, d, 1) else fs1, d, k, Dirent(i, name))
  }

  /** Nobody names an inode that is not allocated. */
  lemma Unnamed(fs: Tree, pending: multiset<nat>, dying: set<nat>, d: nat, k: nat, i: nat)
    requires Inv(fs, pending, dying) && i !in fs
    ensures !Names(fs, d, k, i)
  {
    assert DirOk(fs, dying, d);
    assert d in fs && fs[d].IsDir() && 2 <= k < |fs[d].ents| ==> EntOk(fs, d, k);
  }

  lemma AddNode(fs: Tree, pending: multiset<nat>, dying: set<nat>, i: nat, kind: nat, d: nat, j: nat)
    requires Inv(fs, pending, dying) && i !in fs
    ensures var fs1 := fs[i := NewNode(kind, i, d)];
            && Places(fs1, j) == Places(fs, j) && Places(fs, i) == {} && Subdirs(fs1, i) == {}
            && (j in fs ==> Subdirs(fs1, j) == Subdirs(fs, j))
  {
    var fs1 := fs[i := NewNode(kind, i, d)];
    forall e: nat, k: nat
      ensures Names(fs1, e, k, j) == Names(fs, e, k, j) && !Names(fs, e, k, i) && Holds(fs1, e, k) == Holds(fs, e, k) {
      Unnamed(fs, pending, dying, e, k, i);
    }
  }

  lemma CreateOk(fs: Tree, pending: multiset<nat>, dying: set<nat>, d: nat, k: nat, name: string, i: nat, kind: nat)
    requires Inv(fs, pending, dying) && FreeSlot(fs, d, k) && fs[d].nlink != 0 && d !in dying
    requires !IsDot(name) && i != 0 && i !in fs
    ensures Inv(Created(fs, d, k, name, i, kind), pending, dying)
  {
    var fs', fs1 := Created(fs, d, k, name, i, kind), fs[i := NewNode(kind, i, d)];
    var fs2 := if kind == T_DIR then Counted(fs1, d, 1) else fs1;
    var de := Dirent(i, name);
    CreateRoomLeft(fs, pending, dying, d);
    hide Places, Subdirs, EntOk;
    forall j: nat ensures CountOk(fs', pending, dying, j) && OneLink(fs', pending, dying, j) {
      assert CountOk(fs, pending, dying, j) && OneLink(fs, pending, dying, j);
      AddNode(fs, pending, dying, i, kind, d, j);
      CountedSame(fs1, d, 1, j);
      AddEntCounts(fs2, d, k, de, j);
    }
    forall e: nat ensures DirOk(fs', dying, e) {
      assert DirOk(fs, dying, e);
      CreateDir(fs, dying, d, k, name, i, kind, e);
    }
  }

  /** A directory with links does not lose its last one by a subdirectory more. */
  lemma CreateRoomLeft(fs: Tree, pending: multiset<nat>, dying: set<nat>, d: nat)
    requires Inv(fs, pending, dying) && d in fs
    ensures fs[d].nlink >= 0
  {
    assert CountOk(fs, pending, dying, d);
  }

  lemma CreateDir(fs: Tree, dying: set<nat>, d: nat, k: nat, name: string, i: nat, kind: nat, e: nat)
    requires DirOk(fs, dying, e) && FreeSlot(fs, d, k) && fs[d].nlink > 0 && d !in dying
    requires !IsDot(name) && i != 0 && i != ROOT && i !in fs
    requires i !in dying && d != 0
    ensures DirOk(Created(fs, d, k, name, i, kind), dying, e)
  {
    var fs1 := fs[i := NewNode(kind, i, d)];
    var fs2 := if kind == T_DIR then Counted(fs1, d, 1) else fs1;
    if e != i && e in fs && fs[e].IsDir() {
      forall j | 2 <= j < |fs1[e].ents| ensures EntOk(fs1, e, j) {
        assert EntOk(fs, e, j);
      }
    }
    if kind == T_DIR {
      CountedDir(fs1, dying, d, 1, e);
    }
    WithEntDir(fs2, dying, d, k, Dirent(i, name), e);
  }

  /** create does not look at the link count of the directory, and it keeps the invariant exactly if that is
      not zero. */
  lemma CreateOkIff(fs: Tree, pending: multiset<nat>, dying: set<nat>, d: nat, k: nat, name: string, i: nat, kind: nat)
    requires Inv(fs, pending, dying) && FreeSlot(fs, d, k) && d !in dying && !IsDot(name) && i != 0 && i !in fs
    ensures Inv(Created(fs, d, k, name, i, kind), pending, dying) <==> fs[d].nlink != 0
  {
    if fs[d].nlink != 0 {
      CreateOk(fs, pending, dying, d, k, name, i, kind);
    } else {
      var fs', fs1 := Created(fs, d, k, name, i, kind), fs[i := NewNode(kind, i, d)];
      assert CountOk(fs, pending, dying, d) && OneLink(fs, pending, dying, d);
      if kind == T_DIR {
        AddNode(fs, pending, dying, i, kind, d, d);
        CountedSame(fs1, d, 1, d);
        AddEntCounts(Counted(fs1, d, 1), d, k, Dirent(i, name), d);
        hide Places, Subdirs;
        assert !OneLink(fs', pending, dying, d);
      } else {
        assert fs'[d].ents[k].inum == i;
        assert !DirOk(fs', dying, d);
      }
    }
  }

  /** The same for the second part of sys_link. */
  lemma LinkEntryOkIff(fs: Tree, pending: multiset<nat>, dying: set<nat>, d: nat, k: nat, name: string, i: nat)
    requires Inv(fs, pending, dying) && FreeSlot(fs, d, k) && d !in dying
    requires !IsDot(name) && i in fs && !fs[i].IsDir() && i in pending
    ensures Inv(WithEnt(fs, d, k, Dirent(i, name)), pending - multiset{i}, dying) <==> fs[d].nlink != 0
  {
    if fs[d].nlink != 0 {
      LinkEntryOk(fs, pending, dying, d, k, name, i);
    } else {
      var fs' := WithEnt(fs, d, k, Dirent(i, name));
      assert fs'[d].ents[k].inum == i;
      assert !DirOk(fs', dying, d);
    }
  }

  // ---------- iput of an inode without links ----------

  /** An inode without links can go: nobody names it, and it names nobody. */
  lemma FreeOk(fs: Tree, pending: multiset<nat>, dying: set<nat>, i: nat)
    requires Inv(fs, pending, dying) && i in fs && fs[i].nlink == 0
    ensures Inv(fs - {i}, pending, dying)
    ensures forall d: nat, k: nat :: !Names(fs, d, k, i)
  {
    var fs' := fs - {i};
    assert CountOk(fs, pending, dying, i) && DirOk(fs, dying, i) && OneLink(fs, pending, dying, i);
    forall d: nat, k: nat ensures !Names(fs, d, k, i) {
      assert Places(fs, i) == {};
      assert Names(fs, d, k, i) ==> (d, k) in Places(fs, i);
    }
    forall j: nat, d: nat, k: nat | j != i ensures Names(fs', d, k, j) == Names(fs, d, k, j) {
    }
    forall d: nat, k: nat | d != i ensures Holds(fs', d, k) == Holds(fs, d, k) {
      assert !Names(fs, d, k, i);
    }
    forall j: nat ensures CountOk(fs', pending, dying, j) && OneLink(fs', pending, dying, j) {
      assert CountOk(fs, pending, dying, j) && OneLink(fs, pending, dying, j);
      if j in fs' {
        assert Places(fs', j) == Places(fs, j) && Subdirs(fs', j) == Subdirs(fs, j);
      }
    }
    forall e: nat ensures DirOk(fs', dying, e) {
      assert DirOk(fs, dying, e);
      if e in fs' && fs'[e].IsDir() {
        forall k | 2 <= k < |fs'[e].ents| ensures EntOk(fs', e, k) {
          assert EntOk(fs, e, k) && !Names(fs, e, k, i);
        }
      }
    }
  }

  /** A file that was created in a removed directory has a link count and no name once the directory goes. */
  lemma RemovedDirectoryLosesLink(fs: Tree, pending: multiset<nat>, dying: set<nat>, d: nat, k: nat, name: string,
                                  i: nat, kind: nat)
    requires Inv(fs, pending, dying) && FreeSlot(fs, d, k) && fs[d].nlink == 0 && i !in fs && kind != T_DIR
    ensures var fs' := Created(fs, d, k, name, i, kind) - {d};
            && i in fs' && fs'[i].nlink == 1 && (forall e: nat, j: nat :: !Names(fs', e, j, i))
            && !CountOk(fs', pending, dying, i)
  {
    var fs' := Created(fs, d, k, name, i, kind) - {d};
    forall e: nat, j: nat ensures !Names(fs', e, j, i) {
      Unnamed(fs, pending, dying, e, j, i);
    }
    assert Places(fs', i) == {} && Subdirs(fs', i) == {};
  }

  /** Entry k is the first of directory d with the name. */
  predicate Found(fs: Tree, d: nat, name: string, k: nat) {
    && d in fs && k < |fs[d].ents| && fs[d].ents[k].inum != 0 && fs[d].ents[k].name == name
    && forall j | 0 <= j < k :: fs[d].ents[j].inum == 0 || fs[d].ents[j].name != name
  }

  /** No directory, or an empty one. */
  ghost predicate Removable(fs: Tree, i: nat) {
    i in fs && (fs[i].IsDir() ==> Empty(fs[i]))
  }

  class FileTree {
    var fs: Tree
    ghost var pending: multiset<nat>
    ghost var dying: set<nat>

    ghost predicate Valid()
      reads this
    {
      Inv(fs, pending, dying)
    }

    /** The file system that mkfs makes: a root directory with its dots. */
    constructor ()
      ensures Valid() && pending == multiset{} && dying == {}
      ensures fs == map[ROOT := Node(T_DIR, 1, [Dirent(ROOT, "."), Dirent(ROOT, "..")])]
    {
      fs := map[ROOT := Node(T_DIR, 1, [Dirent(ROOT, "."), Dirent(ROOT, "..")])];
      pending, dying := multiset{}, {};
      new;
      RootOk(fs);
    }

    /** dirlookup: the first entry with the name, or the number of entries. */
    method Dirlookup(d: nat, name: string) returns (k: nat)
      requires d in fs
      ensures k <= |fs[d].ents|
      ensures k < |fs[d].ents| ==> fs[d].ents[k].inum != 0 && fs[d].ents[k].name == name
      ensures forall j | 0 <= j < k :: fs[d].ents[j].inum == 0 || fs[d].ents[j].name != name
    {
      k := 0;
      while k < |fs[d].ents|
        invariant 0 <= k <= |fs[d].ents|
                  && forall j | 0 <= j < k :: fs[d].ents[j].inum == 0 || fs[d].ents[j].name != name
      {
        if fs[d].ents[k].inum != 0 && fs[d].ents[k].name == name {
          return;
        }
        k := k + 1;
      }
    }

    /** The second loop of dirlink: the first free slot, or the end. */
    method FindSlot(d: nat) returns (k: nat)
      requires d in fs
      ensures k <= |fs[d].ents| && (k < |fs[d].ents| ==> fs[d].ents[k].inum == 0)
              && forall j | 0 <= j < k :: fs[d].ents[j].inum != 0
    {
      k := 0;
      while k < |fs[d].ents| && fs[d].ents[k].inum != 0
        invariant 0 <= k <= |fs[d].ents| && forall j | 0 <= j < k :: fs[d].ents[j].inum != 0
      {
        k := k + 1;
      }
    }

    /** isdirempty: no entry behind the dots. */
    method IsDirEmpty(d: nat) returns (empty: bool)
      requires d in fs
      ensures empty == Empty(fs[d])
    {
      var k := 2;
      while k < |fs[d].ents|
        invariant 2 <= k && forall j | 2 <= j < k && j < |fs[d].ents| :: fs[d].ents[j].inum == 0
      {
        if fs[d].ents[k].inum != 0 {
          return false;
        }
        k := k + 1;
      }
      return true;
    }

    /** create, with inode number inum from ialloc: a new inode with one link; or, if the name is taken, the
        inode that has it, provided it is to be a file and is one or a device.  The invariant breaks exactly
        if something is created in a directory that has been removed. */
    method Create(d: nat, name: string, kind: nat, inum: nat) returns (made: bool, i: nat, ghost k: nat)
      requires Valid() && d in fs && fs[d].IsDir() && d !in dying && inum != 0 && inum !in fs
      modifies this`fs
      ensures made == forall j: nat :: !Found(old(fs), d, name, j)
      ensures !made ==> Found(fs, d, name, k) && fs == old(fs)
      ensures !made ==> i == var e := fs[d].ents[k].inum;
                             if kind == T_FILE && e in fs && (fs[e].kind == T_FILE || fs[e].kind == T_DEVICE) then e
                             else 0
      ensures made ==> i == inum && FirstFree(old(fs), d, k) && fs == Created(old(fs), d, k, name, inum, kind)
      ensures Valid() <==> !made || old(fs)[d].nlink != 0
    {
      DirFacts(fs, pending, dying, d);
      var slot := Dirlookup(d, name);
      k := slot;
      if slot < |fs[d].ents| {
        i := fs[d].ents[slot].inum;
        assert Found(fs, d, name, k);
        if !(kind == T_FILE && i in fs && (fs[i].kind == T_FILE || fs[i].kind == T_DEVICE)) {
          i := 0;
        }
        return false, i, k;
      }
      slot := FindSlot(d);
      CreateOkIff(fs, pending, dying, d, slot, name, inum, kind);
      fs := fs[inum := NewNode(kind, inum, d)];
      if kind == T_DIR {
        fs := Counted(fs, d, 1);
      }
      fs := WithEnt(fs, d, slot, Dirent(inum, name));
      return true, inum, slot;
    }

    /** sys_link, first part: the link is counted before it is made.  Directories are refused. */
    method LinkStart(i: nat) returns (ok: bool)
      requires Valid() && i in fs && i !in dying
      modifies this`fs, this`pending
      ensures Valid() && ok == !old(fs)[i].IsDir() && fs == (if ok then Counted(old(fs), i, 1) else old(fs))
      ensures pending == old(pending) + (if ok then multiset{i} else multiset{})
    {
      ok := !fs[i].IsDir();
      if ok {
        LinkCountOk(fs, pending, dying, i, 1, pending + multiset{i});
        fs := Counted(fs, i, 1);
        pending := pending + multiset{i};
      }
    }

    /** sys_link, second part: dirlink, which fails if the name is taken.  The invariant breaks exactly if the
        link is made in a directory that has been removed. */
    method LinkEnter(d: nat, name: string, i: nat) returns (ok: bool, ghost k: nat)
      requires Valid() && d in fs && fs[d].IsDir() && d !in dying && i in fs && !fs[i].IsDir() && i in pending
      modifies this`fs, this`pending
      ensures ok == forall j: nat :: !Found(old(fs), d, name, j)
      ensures !ok ==> fs == old(fs) && pending == old(pending)
      ensures ok ==>
                && FirstFree(old(fs), d, k) && fs == WithEnt(old(fs), d, k, Dirent(i, name))
                && pending == old(pending) - multiset{i}
      ensures Valid() <==> !ok || old(fs)[d].nlink != 0
    {
      DirFacts(fs, pending, dying, d);
      var slot := Dirlookup(d, name);
      ok, k := slot == |fs[d].ents|, slot;
      if ok {
        slot := FindSlot(d);
        LinkEntryOkIff(fs, pending, dying, d, slot, name, i);
        fs := WithEnt(fs, d, slot, Dirent(i, name));
        pending := pending - multiset{i};
        k := slot;
      } else {
        assert Found(fs, d, name, slot);
      }
    }

    /** sys_link, the way out: the link is not counted after all. */
    method LinkUndo(i: nat)
      requires Valid() && i in fs && !fs[i].IsDir() && i in pending && i !in dying
      modifies this`fs, this`pending
      ensures Valid() && fs == Counted(old(fs), i, -1) && pending == old(pending) - multiset{i}
    {
      LinkCountOk(fs, pending, dying, i, -1, pending - multiset{i});
      fs := Counted(fs, i, -1);
      pending := pending - multiset{i};
    }

    /** sys_unlink up to the release of the directory: the entry is erased, and the inode stays locked. */
    method UnlinkEntry(d: nat, name: string) returns (ok: bool, i: nat, ghost k: nat)
      requires Valid() && d in fs && fs[d].IsDir() && d !in dying
      requires forall k | 0 <= k < |fs[d].ents| && fs[d].ents[k].name == name :: fs[d].ents[k].inum !in dying
      modifies this`fs, this`dying
      ensures Valid() && (!ok ==> fs == old(fs) && dying == old(dying))
      ensures ok ==> !IsDot(name) && i in fs && i != d && dying == old(dying) + {i} && (fs[i].IsDir() ==> Empty(fs[i]))
      ensures ok ==> Found(old(fs), d, name, k) && old(fs)[d].ents[k].inum == i && fs == Erased(old(fs), d, k)
      ensures ok <==>
                !IsDot(name)
                && exists j: nat :: Found(old(fs), d, name, j) && Removable(old(fs), old(fs)[d].ents[j].inum)
    {
      DirFacts(fs, pending, dying, d);
      if IsDot(name) {
        return false, 0, 0;
      }
      var slot := Dirlookup(d, name);
      if slot == |fs[d].ents| {
        return false, 0, 0;
      }
      i, k := fs[d].ents[slot].inum, slot;
      assert Found(fs, d, name, k);
      LinkFacts(fs, pending, dying, d, k);
      if fs[i].nlink < 1 {
        assert false;  // panic("unlink: nlink < 1")
      }
      if fs[i].IsDir() {
        var empty := IsDirEmpty(i);
        if !empty {
          return false, 0, 0;
        }
      }
      EraseOk(fs, pending, dying, d, k, i);
      ghost var fs0 := fs;
      fs := WithEnt(fs, d, slot, Dirent(0, ""));
      if fs[i].IsDir() {
        fs := Counted(fs, d, -1);
      }
      assert Names(fs0, d, k, i) && fs == Erased(fs0, d, k);
      dying := dying + {i};
      return true, i, k;
    }

    /** The end of sys_unlink. */
    method UnlinkEnd(i: nat)
      requires Valid() && i in dying
      modifies this`fs, this`dying
      ensures Valid() && dying == old(dying) - {i} && i in old(fs) && fs == Counted(old(fs), i, -1)
    {
      EraseEndOk(fs, pending, dying, i);
      fs := Counted(fs, i, -1);
      dying := dying - {i};
    }

    /** iput of the last reference to an inode without links. */
    method Free(i: nat)
      requires i in fs && fs[i].nlink == 0
      modifies this`fs
      ensures fs == old(fs) - {i}
      ensures old(Valid()) ==> Valid() && forall d: nat, k: nat :: !Names(old(fs), d, k, i)
    {
      if Valid() {
        FreeOk(fs, pending, dying, i);
      }
      fs := fs - {i};
    }
  }

  lemma RootOk(fs: Tree)
    requires fs == map[ROOT := Node(T_DIR, 1, [Dirent(ROOT, "."), Dirent(ROOT, "..")])]
    ensures Inv(fs, multiset{}, {})
  {
    forall i: nat ensures Places(fs, i) == {} && (i in fs ==> Subdirs(fs, i) == {}) {
    }
    forall i: nat ensures CountOk(fs, multiset{}, {}, i) && OneLink(fs, multiset{}, {}, i) {
    }
  }

  lemma DirFacts(fs: Tree, pending: multiset<nat>, dying: set<nat>, d: nat)
    requires Inv(fs, pending, dying) && d in fs && fs[d].IsDir()
    ensures Dotted(fs, d) && d != 0
  {
    assert DirOk(fs, dying, d);
  }

  /** An entry with a proper name is a link to an allocated inode that counts it. */
  lemma LinkFacts(fs: Tree, pending: multiset<nat>, dying: set<nat>, d: nat, k: nat)
    requires Inv(fs, pending, dying) && d in fs && fs[d].IsDir() && k < |fs[d].ents| && IsLink(fs[d].ents[k])
    ensures 2 <= k && fs[d].ents[k].inum in fs && fs[fs[d].ents[k].inum].nlink >= 1
  {
    var i := fs[d].ents[k].inum;
    assert DirOk(fs, dying, d) && EntOk(fs, d, k) && CountOk(fs, pending, dying, i);
    assert (d, k) in Places(fs, i);
  }

  /** A directory that is in use is held by one directory, to which its ".." leads; the root is its own. */
  lemma DotDotIsParent(fs: Tree, pending: multiset<nat>, dying: set<nat>, i: nat)
    requires Inv(fs, pending, dying) && i in fs && fs[i].IsDir() && fs[i].nlink != 0 && i !in dying
    ensures |fs[i].ents| >= 2 && fs[i].ents[1].name == ".."
    ensures i == ROOT ==> fs[i].ents[1].inum == ROOT
    ensures i != ROOT ==> var d := fs[i].ents[1].inum;
                          && d in fs && fs[d].IsDir() && (exists k: nat :: Names(fs, d, k, i))
                          && forall e: nat, k: nat | Names(fs, e, k, i) :: e == d
  {
    assert OneLink(fs, pending, dying, i) && DirOk(fs, dying, i);
    forall e: nat, k: nat | Names(fs, e, k, i) ensures e == fs[i].ents[1].inum {
      assert DirOk(fs, dying, e) && EntOk(fs, e, k);
    }
    if i != ROOT {
      var p :| p in Places(fs, i);
      assert Names(fs, p.0, p.1, i);
    }
  }

  /** rmdir of an empty directory. */
  method Remove(t: FileTree, d: nat, name: string, ghost k: nat)
    requires t.Valid() && t.dying == {} && d in t.fs && t.fs[d].IsDir() && !IsDot(name) && Found(t.fs, d, name, k)
    requires Removable(t.fs, t.fs[d].ents[k].inum)
    modifies t
    ensures t.Valid() && t.dying == {} && t.pending == old(t.pending)
    ensures var i := old(t.fs)[d].ents[k].inum;
            i in old(t.fs) && i != d && t.fs == Counted(Erased(old(t.fs), d, k), i, -1)
  {
    ghost var fs := t.fs;
    var ok, i, j := t.UnlinkEntry(d, name);
    assert j == k by { FoundOnce(fs, d, name, j, k); }
    t.UnlinkEnd(i);
  }

  lemma FoundOnce(fs: Tree, d: nat, name: string, j: nat, k: nat)
    requires Found(fs, d, name, j) && Found(fs, d, name, k)
    ensures j == k
  {
  }

  /** The first entry of a directory that has its dots and nothing else. */
  method CreateFirst(t: FileTree, d: nat, name: string, kind: nat, inum: nat)
    requires t.Valid() && d in t.fs && t.fs[d].IsDir() && |t.fs[d].ents| == 2 && d !in t.dying && !IsDot(name)
    requires inum != 0 && inum !in t.fs
    modifies t`fs
    ensures t.fs == Created(old(t.fs), d, 2, name, inum, kind) && Found(t.fs, d, name, 2)
    ensures t.Valid() <==> old(t.fs)[d].nlink != 0
  {
    DirFacts(t.fs, t.pending, t.dying, d);
    var made, i, k := t.Create(d, name, kind, inum);
  }

  /** A directory that has been removed but is still open, as the current directory of a process is, may have
      a ".." that is no inode any more. */
  method RemovedParent() returns (t: FileTree)
    ensures fresh(t) && t.Valid() && 3 in t.fs && t.fs[3].IsDir() && t.fs[3].nlink == 0
    ensures |t.fs[3].ents| >= 2 && t.fs[3].ents[1] == Dirent(2, "..") && 2 !in t.fs
  {
    t := new FileTree();
    CreateFirst(t, ROOT, "a", T_DIR, 2);
    CreateFirst(t, 2, "b", T_DIR, 3);
    Remove(t, 2, "b", 2);
    Remove(t, ROOT, "a", 2);
    t.Free(2);
  }

  /** A file is created in a directory that has been removed and is still open.  When the directory goes, the
      file has a link count of one and no name. */
  method LostName() returns (t: FileTree)
    ensures fresh(t) && 3 in t.fs && t.fs[3].nlink == 1 && t.pending == multiset{} && t.dying == {}
    ensures (forall d: nat, k: nat :: !Names(t.fs, d, k, 3)) && !CountOk(t.fs, t.pending, t.dying, 3)
  {
    t := new FileTree();
    CreateFirst(t, ROOT, "d", T_DIR, 2);
    Remove(t, ROOT, "d", 2);
    RemovedDirectoryLosesLink(t.fs, t.pending, t.dying, 2, 2, "f", 3, T_FILE);
    CreateFirst(t, 2, "f", T_FILE, 3);
    t.Free(2);
  }

  /** With no system call in progress, every link count is the number of links to the inode, plus the number
      of subdirectories it holds, plus one for the root. */
  lemma QuietCounts(fs: Tree, i: nat)
    requires Inv(fs, multiset{}, {}) && i in fs
    ensures fs[i].nlink == |Places(fs, i)| + |Subdirs(fs, i)| + (if i == ROOT then 1 else 0)
  {
    assert CountOk(fs, multiset{}, {}, i);
  }
}
