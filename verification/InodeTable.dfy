/**
 The table of in-memory inodes (kernel/fs.c): references, locks, and copies of disk inodes.

 A method is what a process does to the table without another process in between: a section under
 itable.lock, a section under a buffer's lock, or a change to an inode that the process has locked.
 Calls may come in any order that their preconditions allow, so that other processes can run between
 the parts of ialloc, ilock and iput.

 A reference is a pointer to a table entry that its holder has not given up yet.  References have
 numbers; an inode is locked through a reference.
 */
module InodeTable {

  const NINODE := 50
  const UNLOCKED := -1

  datatype Dinode = Dinode(kind: nat, major: nat, minor: nat, nlink: nat, size: nat, addrs: seq<nat>)

  datatype Entry = Entry(ref: nat, inum: nat, valid: bool, holder: int, copy: Dinode)

  /** What the holder of a reference is doing: using it, or giving it up in iput. */
  datatype Use = InUse | Freeing | Freed | Leaving

  datatype Ref = Ref(entry: nat, use: Use)

  /** The table and the disk inodes, the references, and for each entry the references to it. */
  datatype Table = Table(inode: seq<Entry>, disk: seq<Dinode>, refs: map<nat, Ref>, users: seq<set<nat>>) {

    ghost predicate Shaped() { |inode| == |users| == NINODE }

    /** The count is right, only a reference holder has the lock, and an unlocked valid copy is the disk
        inode. */
    ghost predicate EntryOk(e: nat)
      requires Shaped()
    {
      e < NINODE ==>
        var ip := inode[e];
        && ip.ref == |users[e]| && (ip.ref > 0 ==> ip.inum < |disk|)
        && (ip.holder != UNLOCKED ==> ip.holder in users[e])
        && (ip.ref > 0 && ip.valid ==> CopyOk(ip))
    }

    ghost predicate CopyOk(ip: Entry)
      requires ip.inum < |disk|
    {
      if ip.holder == UNLOCKED then ip.copy == disk[ip.inum] && ip.copy.kind != 0
      else
        && ip.holder in refs
        && (refs[ip.holder].use.InUse? || refs[ip.holder].use.Freeing? ==> ip.copy.kind != 0 && disk[ip.inum].kind != 0)
    }

    ghost predicate RefOk(r: nat)
      requires Shaped()
    {
      r in refs ==>
        var e := refs[r].entry;
        && e < NINODE && r in users[e]
        && (refs[r].use.Freeing? || refs[r].use.Freed? ==> inode[e].holder == r && inode[e].valid)
        && (refs[r].use.Leaving? ==> inode[e].holder != r)
    }

    ghost predicate UserOk(e: nat, r: nat)
      requires Shaped()
    {
      e < NINODE && r in users[e] ==> r in refs && refs[r].entry == e
    }

    /** An inode has at most one entry with references. */
    ghost predicate Single(e: nat, f: nat)
      requires Shaped()
    {
      e < NINODE && f < NINODE && e != f && inode[e].ref > 0 && inode[f].ref > 0 ==> inode[e].inum != inode[f].inum
    }

    ghost predicate Ok() {
      && Shaped()
      && (forall e {:trigger EntryOk(e)} :: EntryOk(e))
      && (forall r {:trigger RefOk(r)} :: RefOk(r))
      && (forall e, r {:trigger UserOk(e, r)} :: UserOk(e, r))
      && (forall e, f {:trigger Single(e, f)} :: Single(e, f))
    }
  }

  /** Entry e and reference r become as given; the users of the entry are those with a reference to it. */
  ghost function Put(t: Table, e: nat, ip: Entry, r: nat, ref: Ref): Table
    requires t.Shaped() && e < NINODE
  {
    t.(inode := t.inode[e := ip], refs := t.refs[r := ref], users := t.users[e := t.users[e] + {r}])
  }

  /** A change to an entry and to the use of one reference to it, which others cannot notice. */
  lemma PutOk(t: Table, e: nat, ip: Entry, r: nat, ref: Ref)
    requires t.Ok() && e < NINODE && ref.entry == e && (r in t.refs ==> t.refs[r].entry == e)
    requires ip.ref == t.inode[e].ref + (if r in t.refs then 0 else 1) && ip.inum < |t.disk|
    requires if t.inode[e].ref > 0 then ip.inum == t.inode[e].inum
             else forall f | 0 <= f < NINODE && t.inode[f].ref > 0 :: t.inode[f].inum != ip.inum
    requires ip.holder == t.inode[e].holder || (t.inode[e].holder == UNLOCKED && ip.holder == r)
             || (t.inode[e].holder == r && ip.holder == UNLOCKED)
    requires t.inode[e].holder != UNLOCKED && t.inode[e].holder != r ==>
               ip.valid == t.inode[e].valid && ip.copy == t.inode[e].copy
    requires ref.use.Freeing? || ref.use.Freed? ==> ip.holder == r && ip.valid
    requires ref.use.Leaving? ==> ip.holder != r
    requires ip.valid && (ip.holder == UNLOCKED || ip.holder == r) ==>
               if ip.holder == UNLOCKED then ip.copy == t.disk[ip.inum] && ip.copy.kind != 0
               else ref.use.InUse? || ref.use.Freeing? ==> ip.copy.kind != 0 && t.disk[ip.inum].kind != 0
    ensures Put(t, e, ip, r, ref).Ok()
  {
    var t' := Put(t, e, ip, r, ref);
    assert t.EntryOk(e) && t.RefOk(r);
    assert r !in t.refs ==> r !in t.users[e] by { assert t.UserOk(e, r); }
    forall f: nat ensures t'.EntryOk(f) {
      assert t.EntryOk(f);
      if f < NINODE && t.inode[f].holder != UNLOCKED {
        assert t.UserOk(f, t.inode[f].holder);
      }
    }
    forall q: nat ensures t'.RefOk(q) { assert t.RefOk(q); }
    forall f: nat, q: nat ensures t'.UserOk(f, q) { assert t.UserOk(f, q); }
    forall f: nat, g: nat ensures t'.Single(f, g) { assert t.Single(f, g); }
  }

  /** Reference r is gone. */
  ghost function Dropped(t: Table, e: nat, r: nat): Table
    requires t.Shaped() && e < NINODE && t.inode[e].ref > 0
  {
    t.(inode := t.inode[e := t.inode[e].(ref := t.inode[e].ref - 1)], refs := t.refs - {r},
       users := t.users[e := t.users[e] - {r}])
  }

  lemma DropOk(t: Table, e: nat, r: nat)
    requires t.Ok() && r in t.refs && t.refs[r].entry == e && e < NINODE && t.inode[e].holder != r
    requires t.refs[r].use.InUse? || t.refs[r].use.Leaving?
    ensures t.inode[e].ref > 0 && Dropped(t, e, r).Ok()
  {
    assert t.EntryOk(e) && t.RefOk(r);
    assert r in t.users[e];
    var t' := Dropped(t, e, r);
    forall f: nat ensures t'.EntryOk(f) { assert t.EntryOk(f) && t.UserOk(f, r); }
    forall q: nat ensures t'.RefOk(q) { assert t.RefOk(q); }
    forall f: nat, q: nat ensures t'.UserOk(f, q) { assert t.UserOk(f, q) && t.UserOk(f, r); }
    forall f: nat, g: nat ensures t'.Single(f, g) { assert t.Single(f, g); }
  }

  /** iupdate by the holder of the lock: the copy, perhaps changed just before, goes to disk. */
  ghost function Stored(t: Table, e: nat, r: nat, copy: Dinode, use: Use): Table
    requires t.Shaped() && e < NINODE && t.inode[e].inum < |t.disk|
  {
    t.(inode := t.inode[e := t.inode[e].(copy := copy)], disk := t.disk[t.inode[e].inum := copy],
       refs := t.refs[r := Ref(e, use)])
  }

  lemma StoreOk(t: Table, e: nat, r: nat, copy: Dinode, use: Use)
    requires t.Ok() && r in t.refs && t.refs[r].entry == e && e < NINODE && t.inode[e].holder == r && t.inode[e].valid
    requires use.Freed? || (use == t.refs[r].use && !use.Leaving? && copy.kind != 0)
    ensures t.inode[e].inum < |t.disk| && Stored(t, e, r, copy, use).Ok()
  {
    assert t.EntryOk(e) && t.RefOk(r);
    var t' := Stored(t, e, r, copy, use);
    forall f: nat ensures t'.EntryOk(f) { assert t.EntryOk(f) && t.Single(e, f) && t.UserOk(f, r); }
    forall q: nat ensures t'.RefOk(q) { assert t.RefOk(q); }
    forall f: nat, q: nat ensures t'.UserOk(f, q) { assert t.UserOk(f, q); }
    forall f: nat, g: nat ensures t'.Single(f, g) { assert t.Single(f, g); }
  }

  /** A free disk inode becomes an allocated one: no entry with a claim to the old one is in the way, even
      if a process is still in iput. */
  lemma AllocOk(t: Table, inum: nat, d: Dinode)
    requires t.Ok() && inum < |t.disk| && t.disk[inum].kind == 0
    ensures t.(disk := t.disk[inum := d]).Ok()
  {
    var t' := t.(disk := t.disk[inum := d]);
    forall f: nat ensures t'.EntryOk(f) { assert t.EntryOk(f); }
    forall q: nat ensures t'.RefOk(q) { assert t.RefOk(q); }
    forall f: nat, q: nat ensures t'.UserOk(f, q) { assert t.UserOk(f, q); }
    forall f: nat, g: nat ensures t'.Single(f, g) { assert t.Single(f, g); }
  }

  /** iput's lock: the only reference is its own, so nobody can have the inode locked. */
  lemma LastReferenceUnlocked(t: Table, e: nat, r: nat)
    requires t.Ok() && r in t.refs && t.refs[r].entry == e < NINODE && t.inode[e].ref == 1 && t.inode[e].holder != r
    ensures t.inode[e].holder == UNLOCKED
  {
    assert t.RefOk(r) && t.EntryOk(e);
    OnlyOne(t.users[e], r);
  }

  lemma OnlyOne(s: set<nat>, r: nat)
    requires |s| == 1 && r in s
    ensures s == {r}
  {
    assert |s - {r}| == 0;
  }

  class Itable {
    const inode: array<Entry>
    const disk: array<Dinode>
    ghost var refs: map<nat, Ref>
    ghost var users: seq<set<nat>>
    var nextRef: nat

    ghost function Snap(): Table
      reads this, inode, disk
    {
      Table(inode[..], disk[..], refs, users)
    }

    ghost predicate Valid()
      reads this, inode, disk
    {
      Snap().Ok() && forall r | r in refs :: r < nextRef
    }

    /** iinit. */
    constructor (disk: array<Dinode>)
      ensures Valid() && this.disk == disk && fresh(inode) && refs == map[]
    {
      this.disk := disk;
      inode := new Entry[NINODE](_ => Entry(0, 0, false, UNLOCKED, Dinode(0, 0, 0, 0, 0, [])));
      refs, users, nextRef := map[], seq(NINODE, _ => {}), 0;
      new;
      forall e: nat ensures Snap().EntryOk(e) { }
    }

    /** The entry that a reference in use points to. */
    ghost predicate Points(r: nat, e: nat)
      reads this
    {
      r in refs && refs[r] == Ref(e, InUse) && e < NINODE
    }

    /** iget: the entry of the inode, or one without references, or NINODE if there is none (a panic). */
    method Iget(inum: nat) returns (e: nat, r: nat)
      requires Valid() && inum < disk.Length
      modifies this, inode
      ensures Valid() && e <= NINODE && disk[..] == old(disk[..])
      ensures e == NINODE ==>
                Snap() == old(Snap()) && forall f | 0 <= f < NINODE :: inode[f].ref > 0 && inode[f].inum != inum
      ensures e < NINODE ==>
                r !in old(refs) && Points(r, e) && inode[e].inum == inum && inode[e].ref == old(inode[e].ref) + 1
      ensures e < NINODE && old(inode[e].ref) == 0 ==>
                !inode[e].valid && forall f | 0 <= f < NINODE && old(inode[f].ref) > 0 :: old(inode[f].inum) != inum
      ensures e < NINODE ==> forall f | 0 <= f < NINODE && f != e :: inode[f] == old(inode[f])
    {
      hide Table.Ok;
      TableShape(Snap());
      e := NINODE;
      var ip := 0;
      while ip < NINODE
        invariant 0 <= ip <= NINODE && e <= NINODE && Valid() && Snap() == old(Snap()) && nextRef == old(nextRef)
        invariant forall f | 0 <= f < ip && inode[f].ref > 0 :: inode[f].inum != inum
        invariant e < NINODE ==> e < ip && inode[e].ref == 0
        invariant e == NINODE ==> forall f | 0 <= f < ip :: inode[f].ref > 0
      {
        if inode[ip].ref > 0 && inode[ip].inum == inum {
          r := Refer(ip, inode[ip].(ref := inode[ip].ref + 1));
          return ip, r;
        }
        if e == NINODE && inode[ip].ref == 0 {
          e := ip;
        }
        ip := ip + 1;
      }
      if e == NINODE {
        return NINODE, 0;
      }
      NoRefsUnlocked(Snap(), e);
      r := Refer(e, inode[e].(inum := inum, ref := 1, valid := false));
    }

    /** A new reference to entry e. */
    method Refer(e: nat, ip: Entry) returns (r: nat)
      requires Valid() && e < NINODE && ip.ref == inode[e].ref + 1 && ip.inum < disk.Length
               && ip.holder == inode[e].holder
      requires if inode[e].ref > 0 then ip == inode[e].(ref := ip.ref)
               else !ip.valid && forall f | 0 <= f < NINODE && inode[f].ref > 0 :: inode[f].inum != ip.inum
      requires inode[e].ref == 0 ==> inode[e].holder == UNLOCKED
      modifies this, inode
      ensures Valid() && r !in old(refs) && Points(r, e) && inode[..] == old(inode[..])[e := ip]
    {
      hide Table.Ok;
      TableShape(Snap());
      r := nextRef;
      CopyFacts(Snap(), e);
      PutOk(Snap(), e, ip, r, Ref(e, InUse));
      inode[e] := ip;
      refs, users, nextRef := refs[r := Ref(e, InUse)], users[e := users[e] + {r}], nextRef + 1;
    }

    /** idup. */
    method Idup(e: nat, r: nat) returns (r': nat)
      requires Valid() && Points(r, e)
      modifies this, inode
      ensures Valid() && r' !in old(refs) && Points(r', e)
              && inode[..] == old(inode[..])[e := old(inode[e]).(ref := old(inode[e].ref) + 1)]
    {
      hide Table.Ok;
      HasRefs(Snap(), r);
      CopyFacts(Snap(), e);
      r' := Refer(e, inode[e].(ref := inode[e].ref + 1));
    }

    /** ilock, once the sleep lock is free.  A copy that is not valid is read from disk; a free disk inode is
        a panic. */
    method Ilock(e: nat, r: nat) returns (ok: bool)
      requires Valid() && Points(r, e) && inode[e].holder == UNLOCKED
      modifies inode
      ensures inode[e].inum < disk.Length && ok == (old(inode[e].valid) || disk[inode[e].inum].kind != 0)
      ensures ok ==> Valid() && inode[e] == old(inode[e]).(holder := r, valid := true, copy := disk[inode[e].inum])
      ensures forall f | 0 <= f < NINODE && f != e :: inode[f] == old(inode[f])
    {
      hide Table.Ok;
      HasRefs(Snap(), r);
      CopyFacts(Snap(), e);
      ghost var t := Snap();
      var ip := inode[e].(holder := UNLOCKED);
      if !inode[e].valid {
        ip := ip.(copy := disk[ip.inum], valid := true);
        if ip.copy.kind == 0 {
          return false;
        }
      }
      LockOk(t, e, r, ip.(holder := r));
      inode[e] := ip.(holder := r);
      return true;
    }

    /** The holder of the lock changes its copy; the type stays. */
    method Modify(e: nat, r: nat, copy: Dinode)
      requires Valid() && Points(r, e) && inode[e].holder == r && inode[e].valid && copy.kind == inode[e].copy.kind
      modifies inode
      ensures Valid() && inode[..] == old(inode[..])[e := old(inode[e]).(copy := copy)]
    {
      hide Table.Ok;
      HasRefs(Snap(), r);
      HeldFacts(Snap(), e, r);
      ModifyOk(Snap(), e, r, copy);
      inode[e] := inode[e].(copy := copy);
    }

    /** iupdate. */
    method Iupdate(e: nat, r: nat)
      requires Valid() && Points(r, e) && inode[e].holder == r && inode[e].valid
      modifies this`refs, disk
      ensures Valid() && refs == old(refs) && inode[e].inum < disk.Length
              && disk[..] == old(disk[..])[inode[e].inum := inode[e].copy]
    {
      hide Table.Ok;
      HasRefs(Snap(), r);
      HeldFacts(Snap(), e, r);
      StoreOk(Snap(), e, r, inode[e].copy, InUse);
      ghost var t := Snap();
      assert inode[e] == inode[e].(copy := inode[e].copy);
      disk[inode[e].inum] := inode[e].copy;
      assert Snap() == Stored(t, e, r, inode[e].copy, InUse);
    }

    /** iunlock, after an iupdate for the last change. */
    method Iunlock(e: nat, r: nat)
      requires Valid() && Points(r, e) && inode[e].holder == r && inode[e].valid
      requires inode[e].inum < disk.Length && inode[e].copy == disk[inode[e].inum]
      modifies inode
      ensures Valid() && inode[..] == old(inode[..])[e := old(inode[e]).(holder := UNLOCKED)]
    {
      hide Table.Ok;
      HasRefs(Snap(), r);
      HeldFacts(Snap(), e, r);
      UnlockOk(Snap(), e, r);
      inode[e] := inode[e].(holder := UNLOCKED);
    }

    /** ialloc up to its call of iget: a free disk inode, the first, is marked as allocated. */
    method MarkAllocated(kind: nat) returns (inum: nat)
      requires Valid() && kind != 0
      modifies disk
      ensures Valid() && inum <= disk.Length && inode[..] == old(inode[..])
      ensures inum == disk.Length ==> disk[..] == old(disk[..]) && forall i | 1 <= i < disk.Length :: disk[i].kind != 0
      ensures inum < disk.Length ==>
                1 <= inum && old(disk[inum].kind) == 0 && forall i | 1 <= i < inum :: old(disk[i].kind) != 0
      ensures inum < disk.Length ==> disk[..] == old(disk[..])[inum := Dinode(kind, 0, 0, 0, 0, [])]
    {
      hide Table.Ok;
      inum := 1;
      while inum < disk.Length
        invariant 1 <= inum && Valid() && disk[..] == old(disk[..]) && inode[..] == old(inode[..])
        invariant forall i | 1 <= i < inum && i < disk.Length :: disk[i].kind != 0
      {
        if disk[inum].kind == 0 {
          AllocOk(Snap(), inum, Dinode(kind, 0, 0, 0, 0, []));
          ghost var t := Snap();
          disk[inum] := Dinode(kind, 0, 0, 0, 0, []);
          assert Snap() == t.(disk := t.disk[inum := Dinode(kind, 0, 0, 0, 0, [])]);
          return;
        }
        inum := inum + 1;
      }
      return disk.Length;
    }

    /** iput up to the release of itable.lock: the reference is gone, or, if it is the last one and the inode
        has no links, the inode is locked to be freed.  The lock is free then: iput does not wait. */
    method IputStart(e: nat, r: nat) returns (freeing: bool)
      requires Valid() && Points(r, e) && inode[e].holder != r
      modifies this`refs, this`users, inode
      ensures Valid() && freeing == (old(inode[e].ref) == 1 && old(inode[e].valid) && old(inode[e].copy.nlink) == 0)
      ensures freeing ==>
                && old(inode[e].holder) == UNLOCKED && inode[e] == old(inode[e]).(holder := r)
                && refs == old(refs)[r := Ref(e, Freeing)]
      ensures !freeing ==>
                && refs == old(refs) - {r} && old(inode[e].ref) == inode[e].ref + 1
                && inode[e] == old(inode[e]).(ref := inode[e].ref)
      ensures forall f | 0 <= f < NINODE && f != e :: inode[f] == old(inode[f])
    {
      hide Table.Ok;
      HasRefs(Snap(), r);
      freeing := inode[e].ref == 1 && inode[e].valid && inode[e].copy.nlink == 0;
      if freeing {
        LastReferenceUnlocked(Snap(), e, r);
        FreeingOk(Snap(), e, r);
        inode[e] := inode[e].(holder := r);
        refs := refs[r := Ref(e, Freeing)];
      } else {
        DropOk(Snap(), e, r);
        inode[e] := inode[e].(ref := inode[e].ref - 1);
        refs, users := refs - {r}, users[e := users[e] - {r}];
      }
    }

    /** The end of itrunc: the emptied inode goes to disk. */
    method IputTruncate(e: nat, r: nat)
      requires Valid() && r in refs && refs[r] == Ref(e, Freeing) && e < NINODE
      modifies this`refs, inode, disk
      ensures Valid() && refs == old(refs) && inode[e].inum < disk.Length
      ensures disk[..] == old(disk[..])[inode[e].inum := inode[e].copy]
              && inode[e] == old(inode[e]).(copy := old(inode[e].copy).(size := 0, addrs := []))
    {
      hide Table.Ok;
      HasRefs(Snap(), r);
      FreeingFacts(Snap(), e, r);
      ghost var t, copy := Snap(), inode[e].copy.(size := 0, addrs := []);
      StoreOk(t, e, r, copy, Freeing);
      inode[e] := inode[e].(copy := inode[e].copy.(size := 0, addrs := []));
      disk[inode[e].inum] := inode[e].copy;
      assert Snap() == Stored(t, e, r, copy, Freeing);
    }

    /** The disk inode is free from here on, and another process may allocate it. */
    method IputFree(e: nat, r: nat)
      requires Valid() && r in refs && refs[r] == Ref(e, Freeing) && e < NINODE
      modifies this`refs, inode, disk
      ensures Valid() && refs == old(refs)[r := Ref(e, Freed)] && inode[e].inum < disk.Length
      ensures disk[..] == old(disk[..])[inode[e].inum := inode[e].copy]
              && inode[e] == old(inode[e]).(copy := old(inode[e].copy).(kind := 0))
    {
      hide Table.Ok;
      HasRefs(Snap(), r);
      FreeingFacts(Snap(), e, r);
      ghost var t, copy := Snap(), inode[e].copy.(kind := 0);
      StoreOk(t, e, r, copy, Freed);
      inode[e] := inode[e].(copy := inode[e].copy.(kind := 0));
      disk[inode[e].inum] := inode[e].copy;
      refs := refs[r := Ref(e, Freed)];
      assert Snap() == Stored(t, e, r, copy, Freed);
    }

    /** The copy is no longer valid, and the lock is released. */
    method IputUnlock(e: nat, r: nat)
      requires Valid() && r in refs && refs[r] == Ref(e, Freed) && e < NINODE
      modifies this`refs, inode
      ensures Valid() && refs == old(refs)[r := Ref(e, Leaving)]
              && inode[..] == old(inode[..])[e := old(inode[e]).(valid := false, holder := UNLOCKED)]
    {
      hide Table.Ok;
      HasRefs(Snap(), r);
      LeavingOk(Snap(), e, r);
      inode[e] := inode[e].(valid := false, holder := UNLOCKED);
      refs := refs[r := Ref(e, Leaving)];
    }

    /** The end of iput: only now is the reference gone.  Others may have referred to the entry meanwhile. */
    method IputEnd(e: nat, r: nat)
      requires Valid() && r in refs && refs[r] == Ref(e, Leaving) && e < NINODE
      modifies this`refs, this`users, inode
      ensures Valid() && refs == old(refs) - {r} && old(inode[e].ref) == inode[e].ref + 1
      ensures inode[..] == old(inode[..])[e := old(inode[e]).(ref := inode[e].ref)]
    {
      hide Table.Ok;
      HasRefs(Snap(), r);
      LeavingFacts(Snap(), e, r);
      DropOk(Snap(), e, r);
      inode[e] := inode[e].(ref := inode[e].ref - 1);
      refs, users := refs - {r}, users[e := users[e] - {r}];
    }
  }

  lemma ModifyOk(t: Table, e: nat, r: nat, copy: Dinode)
    requires t.Ok() && r in t.refs && t.refs[r] == Ref(e, InUse) && e < NINODE && t.inode[e].holder == r
             && t.inode[e].valid
    requires copy.kind == t.inode[e].copy.kind
    ensures t.(inode := t.inode[e := t.inode[e].(copy := copy)]).Ok()
  {
    assert t.RefOk(r) && t.EntryOk(e);
    assert t.users[e] != {};
    UpdateEntryOk(t, e, t.inode[e].(copy := copy), r, InUse);
    assert t.refs[r := Ref(e, InUse)] == t.refs;
  }

  /** A change to an entry by the holder of one of its references. */
  lemma UpdateEntryOk(t: Table, e: nat, ip: Entry, r: nat, use: Use)
    requires t.Ok() && r in t.refs && t.refs[r].entry == e && e < NINODE
    requires ip.ref == t.inode[e].ref && ip.inum == t.inode[e].inum
    requires (t.inode[e].holder == r && (ip.holder == r || ip.holder == UNLOCKED))
             || (t.inode[e].holder == UNLOCKED && ip.holder == r)
    requires use.Freeing? || use.Freed? ==> ip.holder == r && ip.valid
    requires use.Leaving? ==> ip.holder != r
    requires ip.inum < |t.disk| ==> ip.valid ==>
               if ip.holder == UNLOCKED then ip.copy == t.disk[ip.inum] && ip.copy.kind != 0
               else use.InUse? || use.Freeing? ==> ip.copy.kind != 0 && t.disk[ip.inum].kind != 0
    ensures t.(inode := t.inode[e := ip], refs := t.refs[r := Ref(e, use)]).Ok()
  {
    assert t.RefOk(r) && t.EntryOk(e);
    assert t.users[e] != {};
    PutOk(t, e, ip, r, Ref(e, use));
    assert t.users[e] + {r} == t.users[e];
    assert t.users[e := t.users[e] + {r}] == t.users;
    assert Put(t, e, ip, r, Ref(e, use)) == t.(inode := t.inode[e := ip], refs := t.refs[r := Ref(e, use)]);
  }

  lemma UnlockOk(t: Table, e: nat, r: nat)
    requires t.Ok() && r in t.refs && t.refs[r] == Ref(e, InUse) && e < NINODE && t.inode[e].holder == r
             && t.inode[e].valid
    requires t.inode[e].inum < |t.disk| && t.inode[e].copy == t.disk[t.inode[e].inum]
    ensures t.(inode := t.inode[e := t.inode[e].(holder := UNLOCKED)]).Ok()
  {
    assert t.RefOk(r) && t.EntryOk(e);
    assert t.users[e] != {};
    UpdateEntryOk(t, e, t.inode[e].(holder := UNLOCKED), r, InUse);
    assert t.refs[r := Ref(e, InUse)] == t.refs;
  }

  lemma FreeingOk(t: Table, e: nat, r: nat)
    requires t.Ok() && r in t.refs && t.refs[r] == Ref(e, InUse) && e < NINODE && t.inode[e].holder == UNLOCKED
             && t.inode[e].valid
    ensures t.(inode := t.inode[e := t.inode[e].(holder := r)], refs := t.refs[r := Ref(e, Freeing)]).Ok()
  {
    assert t.RefOk(r) && t.EntryOk(e);
    assert t.users[e] != {};
    UpdateEntryOk(t, e, t.inode[e].(holder := r), r, Freeing);
  }

  lemma LeavingOk(t: Table, e: nat, r: nat)
    requires t.Ok() && r in t.refs && t.refs[r] == Ref(e, Freed) && e < NINODE
    ensures t.(inode := t.inode[e := t.inode[e].(valid := false, holder := UNLOCKED)],
               refs := t.refs[r := Ref(e, Leaving)]).Ok()
  {
    assert t.RefOk(r);
    UpdateEntryOk(t, e, t.inode[e].(valid := false, holder := UNLOCKED), r, Leaving);
  }

  lemma FreeingFacts(t: Table, e: nat, r: nat)
    requires t.Ok() && r in t.refs && t.refs[r] == Ref(e, Freeing) && e < NINODE
    ensures t.inode[e].holder == r && t.inode[e].valid && t.inode[e].copy.kind != 0
  {
    assert t.RefOk(r) && t.EntryOk(e);
    assert t.users[e] != {};
  }

  lemma LeavingFacts(t: Table, e: nat, r: nat)
    requires t.Ok() && r in t.refs && t.refs[r] == Ref(e, Leaving) && e < NINODE
    ensures t.inode[e].holder != r
  {
    assert t.RefOk(r);
  }

  lemma HeldFacts(t: Table, e: nat, r: nat)
    requires t.Ok() && r in t.refs && t.refs[r] == Ref(e, InUse) && e < NINODE && t.inode[e].holder == r
             && t.inode[e].valid
    ensures t.inode[e].copy.kind != 0
  {
    assert t.RefOk(r) && t.EntryOk(e);
    assert t.users[e] != {};
  }

  lemma LockOk(t: Table, e: nat, r: nat, ip: Entry)
    requires t.Ok() && r in t.refs && t.refs[r] == Ref(e, InUse) && e < NINODE && t.inode[e].holder == UNLOCKED
    requires t.inode[e].inum < |t.disk|
             && ip == t.inode[e].(holder := r, valid := true, copy := t.disk[t.inode[e].inum]) && ip.copy.kind != 0
    ensures t.(inode := t.inode[e := ip]).Ok()
  {
    assert t.RefOk(r) && t.EntryOk(e);
    assert t.users[e] + {r} == t.users[e];
    PutOk(t, e, ip, r, Ref(e, InUse));
    assert Put(t, e, ip, r, Ref(e, InUse)) == t.(inode := t.inode[e := ip]);
  }

  lemma TableShape(t: Table)
    requires t.Ok()
    ensures t.Shaped()
  {
  }

  lemma NoRefsUnlocked(t: Table, e: nat)
    requires t.Ok() && e < NINODE && t.inode[e].ref == 0
    ensures t.inode[e].holder == UNLOCKED
  {
    assert t.EntryOk(e);
  }

  lemma HasRefs(t: Table, r: nat)
    requires t.Ok() && r in t.refs
    ensures t.Shaped() && t.refs[r].entry < NINODE && t.inode[t.refs[r].entry].ref > 0
            && t.inode[t.refs[r].entry].inum < |t.disk|
  {
    assert t.RefOk(r) && t.EntryOk(t.refs[r].entry);
    assert t.users[t.refs[r].entry] != {};
  }

  lemma CopyFacts(t: Table, e: nat)
    requires t.Ok() && e < NINODE
    ensures t.inode[e].holder == UNLOCKED || t.inode[e].holder in t.refs
    ensures var ip := t.inode[e];
            ip.ref > 0 ==>
              && ip.inum < |t.disk|
              && (ip.valid && ip.holder == UNLOCKED ==> ip.copy == t.disk[ip.inum] && ip.copy.kind != 0)
  {
    assert t.EntryOk(e);
    if t.inode[e].holder != UNLOCKED {
      assert t.UserOk(e, t.inode[e].holder);
    }
  }

  // ---------- What the table guarantees ----------

  /** At all times: the counts are right, an inode has one referenced entry, and an unlocked valid copy is
      the disk inode. */
  lemma TableGuarantees(t: Table, e: nat, f: nat)
    requires t.Ok() && e < NINODE && f < NINODE
    ensures t.inode[e].ref == |set r | r in t.refs && t.refs[r].entry == e|
    ensures e != f && t.inode[e].ref > 0 && t.inode[f].ref > 0 ==> t.inode[e].inum != t.inode[f].inum
    ensures t.inode[e].ref > 0 && t.inode[e].valid && t.inode[e].holder == UNLOCKED ==>
              t.inode[e].inum < |t.disk| && t.inode[e].copy == t.disk[t.inode[e].inum]
  {
    var here := set r | r in t.refs && t.refs[r].entry == e;
    assert t.EntryOk(e) && t.Single(e, f);
    forall r: nat ensures r in here <==> r in t.users[e] {
      assert t.RefOk(r) && t.UserOk(e, r);
    }
    assert here == t.users[e];
  }
}
