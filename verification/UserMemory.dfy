/**
 The memory of a user as the kernel sees it when it copies to and from it (kernel/vm.c).
 */
module UserMemory {
  import opened Blocks
  import opened PageTable
  import opened MemoryChanges

  /** The frame that the user of the tree at root may use as page v, or 0. */
  function UserFrame(m: Mem, root: nat, v: nat): nat {
    if v < MAXVPN && IsValid(m.Pte(root, v)) && IsUser(m.Pte(root, v)) then FrameOf(m.Pte(root, v)) else 0
  }

  predicate UserAt(m: Mem, root: nat, a: nat) { UserFrame(m, root, a / PGSIZE) != 0 }

  ghost predicate UserSpan(m: Mem, root: nat, va: nat, n: nat) {
    forall a {:trigger UserAt(m, root, a)} | va <= a < va + n :: UserAt(m, root, a)
  }

  /** The byte that the user finds at address a. */
  function UserByte(m: Mem, data: map<nat, seq<Byte>>, root: nat, a: nat): Byte {
    var f := UserFrame(m, root, a / PGSIZE);
    if f in data && |data[f]| == PGSIZE then data[f][a % PGSIZE] else 0
  }

  ghost predicate WroteAt(m: Mem, data: map<nat, seq<Byte>>, data': map<nat, seq<Byte>>, root: nat, va: nat,
                          bytes: seq<Byte>, r: nat, a: nat) {
    m.IsTable(r, r, 2, 0) && UserAt(m, r, a) ==>
      UserByte(m, data', r, a) == if r == root && va <= a < va + |bytes| then bytes[a - va] else UserByte(m, data, r, a)
  }

  /** The bytes are in the user's memory from va on, and no other byte of any user has changed, nor any
      frame that is not memory of this tree. */
  ghost predicate Wrote(m: Mem, data: map<nat, seq<Byte>>, data': map<nat, seq<Byte>>, root: nat, va: nat,
                        bytes: seq<Byte>) {
    && (forall r, a {:trigger WroteAt(m, data, data', root, va, bytes, r, a)} ::
        WroteAt(m, data, data', root, va, bytes, r, a))
    && data'.Keys == data.Keys
    && (forall f | f in data && !(f in m.role && m.role[f].Leaf? && m.role[f].root == root) :: data'[f] == data[f])
  }

  /** These are the user's bytes from va on. */
  ghost predicate Reads(m: Mem, data: map<nat, seq<Byte>>, root: nat, va: nat, bytes: seq<Byte>) {
    forall i {:trigger bytes[i]} | 0 <= i < |bytes| :: bytes[i] == UserByte(m, data, root, va + i)
  }

  /** What has been copied out is what is copied in. */
  lemma CopyRoundTrip(m: Mem, data: map<nat, seq<Byte>>, data': map<nat, seq<Byte>>, root: nat, va: nat, src: seq<Byte>,
                      dst: seq<Byte>)
    requires m.IsTable(root, root, 2, 0) && UserSpan(m, root, va, |src|)
    requires Wrote(m, data, data', root, va, src) && Reads(m, data', root, va, dst) && |dst| == |src|
    ensures dst == src
  {
    hide UserAt, UserByte, UserFrame;
    forall i | 0 <= i < |src| ensures dst[i] == src[i] {
      assert WroteAt(m, data, data', root, va, src, root, va + i) && UserAt(m, root, va + i);
    }
  }

  /** A new page has the flags and the contents that it was to have. */
  lemma NewPageEntry(m: Mem, m': Mem, data': map<nat, seq<Byte>>, root: nat, v: nat, src: Source)
    requires NewFrom(m, m', data', root, v, src) && 0 !in m.role && src.Flags(v) < 1024
    ensures var e, flags := m'.Pte(root, v), src.Flags(v);
            && FlagsOf(e) == flags && IsValid(e) && IsUser(e) == IsUser(flags)
            && FrameOf(e) != 0 && FrameOf(e) in data' && data'[FrameOf(e)] == src.Page(v)
  {
    hide Mem.Pte, MakePte, Source.Flags, Source.Page;
    PteParts(FrameOf(m'.Pte(root, v)), src.Flags(v));
  }

  /** What uvmalloc has added is memory that the user may read, write and execute, and it is zero. */
  lemma GrownIsZero(m: Mem, m': Mem, root: nat, lo: nat, hi: nat, data: map<nat, seq<Byte>>,
                    data': map<nat, seq<Byte>>, a: nat)
    requires Grown(m, m', root, lo, hi, Zeros, data, data') && 0 !in m.role
    requires lo * PGSIZE <= a < hi * PGSIZE && hi <= MAXVPN
    ensures UserAt(m', root, a) && UserByte(m', data', root, a) == 0
    ensures var flags := FlagsOf(m'.Pte(root, a / PGSIZE));
            flags / PTE_R % 2 == 1 && flags / PTE_W % 2 == 1 && flags / PTE_X % 2 == 1
  {
    var v := a / PGSIZE;
    hide Settled, KeptBut, Mem.Pte, NewFrom, FrameOf, FlagsOf;
    assert NewFrom(m, m', data', root, v, Zeros);
    NewPageEntry(m, m', data', root, v, Zeros);
  }

  /** What uvmcopy has made looks to its user like the original. */
  lemma CopyLooksSame(m: Mem, m': Mem, source: nat, target: nat, hi: nat, data: map<nat, seq<Byte>>,
                      data': map<nat, seq<Byte>>, a: nat)
    requires Grown(m, m', target, 0, hi, PagesOf(m, data, source), data, data') && 0 !in m.role
    requires a < hi * PGSIZE && hi <= MAXVPN && AllMapped(m, source, 0, hi)
    requires m.Ok() && m.IsTable(source, source, 2, 0) && m.role.Keys <= data.Keys
    ensures UserAt(m', target, a) == UserAt(m, source, a)
    ensures UserAt(m, source, a) ==> UserByte(m', data', target, a) == UserByte(m, data, source, a)
    ensures FlagsOf(m'.Pte(target, a / PGSIZE)) == FlagsOf(m.Pte(source, a / PGSIZE))
  {
    var v, src := a / PGSIZE, PagesOf(m, data, source);
    CopiedPage(m, m', source, target, hi, data, data', v);
    hide Grown, AllMapped, Mem.Pte, Mem.Ok, NewFrom, IsValid, IsUser, FrameOf, FlagsOf;
  }

  lemma CopiedPage(m: Mem, m': Mem, source: nat, target: nat, hi: nat, data: map<nat, seq<Byte>>,
                   data': map<nat, seq<Byte>>, v: nat)
    requires Grown(m, m', target, 0, hi, PagesOf(m, data, source), data, data') && 0 !in m.role
    requires v < hi <= MAXVPN && AllMapped(m, source, 0, hi)
    requires m.Ok() && m.IsTable(source, source, 2, 0) && m.role.Keys <= data.Keys
    ensures var e, e' := m.Pte(source, v), m'.Pte(target, v);
            && FlagsOf(e') == FlagsOf(e) && IsValid(e) && IsValid(e') && IsUser(e') == IsUser(e) && FrameOf(e') != 0
            && FrameOf(e') in data'
            && (IsUser(e) ==> FrameOf(e) != 0 && FrameOf(e) in data && data'[FrameOf(e')] == data[FrameOf(e)])
  {
    var e, src := m.Pte(source, v), PagesOf(m, data, source);
    assert IsValid(e) && NewFrom(m, m', data', target, v, src);
    assert IsUser(e) ==> FrameOf(e) in m.role by {
      if IsUser(e) {
        UserEntry(m, source, v);
      }
    }
    assert src.Flags(v) == FlagsOf(e) && (FrameOf(e) in data ==> src.Page(v) == data[FrameOf(e)]);
    FlagsKeep(e);
    hide Grown, AllMapped, Mem.Pte, Mem.Ok, NewFrom, IsValid, IsUser, FrameOf, FlagsOf, Source.Flags, Source.Page;
    NewPageEntry(m, m', data', target, v, src);
  }

  lemma FlagsKeep(e: nat)
    ensures FlagsOf(e) < 1024 && IsUser(FlagsOf(e)) == IsUser(e)
  {
    PteParts(FrameOf(e), FlagsOf(e));
    assert MakePte(FrameOf(e), FlagsOf(e)) == e;
  }

  lemma UserEntry(m: Mem, root: nat, v: nat)
    requires m.Ok() && m.IsTable(root, root, 2, 0) && v < SPAN && IsValid(m.Pte(root, v)) && IsUser(m.Pte(root, v))
    ensures FrameOf(m.Pte(root, v)) in m.role
  {
    WalkMeets(m, root, 0, v);
    IndexPrefix(v, 0);
    assert m.EntryOk(m.TableAt(root, 0, v), Index(0, v));
  }

  function Patch(page: seq<Byte>, off: nat, bytes: seq<Byte>): (r: seq<Byte>)
    requires off + |bytes| <= |page|
    ensures |r| == |page|
    ensures forall i | 0 <= i < |page| :: r[i] == if off <= i < off + |bytes| then bytes[i - off] else page[i]
  {
    page[..off] + bytes + page[off + |bytes|..]
  }

  lemma SamePage(m: Mem, root: nat, a: nat, b: nat)
    requires a == b / PGSIZE * PGSIZE
    ensures a / PGSIZE == b / PGSIZE && b - a == b % PGSIZE && (UserAt(m, root, a) <==> UserAt(m, root, b))
  {
  }

  lemma WithinPage(va: nat, n: nat, a: nat)
    requires va % PGSIZE + n <= PGSIZE
    ensures va <= a < va + n <==> a / PGSIZE == va / PGSIZE && va % PGSIZE <= a % PGSIZE < va % PGSIZE + n
    ensures a / PGSIZE == va / PGSIZE ==> a - va == a % PGSIZE - va % PGSIZE
  {
  }

  /** A user page has a frame of its own. */
  lemma UserPage(free: seq<nat>, m: Mem, data: map<nat, seq<Byte>>, root: nat, v: nat)
    requires m.Ok() && m.IsTable(root, root, 2, 0) && ListOk(free, m.role, data)
    ensures v < MAXVPN && IsValid(m.Pte(root, v)) && IsUser(m.Pte(root, v)) ==>
              var f := FrameOf(m.Pte(root, v));
              f != 0 && f in m.role && m.role[f] == Leaf(root, v) && f in data && |data[f]| == PGSIZE
  {
    if v < MAXVPN && IsValid(m.Pte(root, v)) && IsUser(m.Pte(root, v)) {
      WalkMeets(m, root, 0, v);
      IndexPrefix(v, 0);
      assert m.EntryOk(m.TableAt(root, 0, v), Index(0, v));
    }
  }

  lemma UserOwns(m: Mem, root: nat, v: nat)
    requires m.Ok() && m.IsTable(root, root, 2, 0) && UserFrame(m, root, v) != 0
    ensures UserFrame(m, root, v) in m.role && m.role[UserFrame(m, root, v)] == Leaf(root, v)
  {
    WalkMeets(m, root, 0, v);
    IndexPrefix(v, 0);
    assert m.EntryOk(m.TableAt(root, 0, v), Index(0, v));
  }

  lemma WroteNone(m: Mem, data: map<nat, seq<Byte>>, root: nat, va: nat)
    ensures Wrote(m, data, data, root, va, []) && UserSpan(m, root, va, 0)
  {
  }

  lemma WroteChunk(m: Mem, data: map<nat, seq<Byte>>, root: nat, va: nat, f: nat, bytes: seq<Byte>)
    requires m.Ok() && m.IsTable(root, root, 2, 0) && 0 != f == UserFrame(m, root, va / PGSIZE)
    requires f in data && |data[f]| == PGSIZE && va % PGSIZE + |bytes| <= PGSIZE
    ensures Wrote(m, data, data[f := Patch(data[f], va % PGSIZE, bytes)], root, va, bytes)
  {
    var data' := data[f := Patch(data[f], va % PGSIZE, bytes)];
    UserOwns(m, root, va / PGSIZE);
    hide UserFrame, PageTable.Mem.Ok;
    forall r: nat, a: nat ensures WroteAt(m, data, data', root, va, bytes, r, a) {
      if m.IsTable(r, r, 2, 0) && UserAt(m, r, a) {
        UserOwns(m, r, a / PGSIZE);
        WithinPage(va, |bytes|, a);
      }
    }
  }

  lemma WroteMore(m: Mem, data: map<nat, seq<Byte>>, data1: map<nat, seq<Byte>>, data2: map<nat, seq<Byte>>, root: nat,
                  va: nat,
                  b1: seq<Byte>, b2: seq<Byte>)
    requires Wrote(m, data, data1, root, va, b1) && Wrote(m, data1, data2, root, va + |b1|, b2)
    ensures Wrote(m, data, data2, root, va, b1 + b2)
  {
    hide UserByte, UserAt;
    var b := b1 + b2;
    forall r: nat, a: nat ensures WroteAt(m, data, data2, root, va, b, r, a) {
      assert WroteAt(m, data, data1, root, va, b1, r, a) && WroteAt(m, data1, data2, root, va + |b1|, b2, r, a);
    }
  }

  /** The rest of a user's page is the user's. */
  lemma SpanMore(m: Mem, root: nat, va: nat, k: nat, n: nat)
    requires UserSpan(m, root, va, k) && UserAt(m, root, va + k) && (va + k) % PGSIZE + n <= PGSIZE
    ensures UserSpan(m, root, va, k + n)
  {
    hide UserFrame;
    forall a: nat | va <= a < va + k + n ensures UserAt(m, root, a) {
      if a >= va + k {
        WithinPage(va + k, n, a);
      }
    }
  }

  lemma SpanStops(m: Mem, root: nat, va: nat, k: nat, n: nat)
    requires !UserAt(m, root, va + k) && k < n
    ensures !UserSpan(m, root, va, n)
  {
  }

  lemma ReadsNone(m: Mem, data: map<nat, seq<Byte>>, root: nat, va: nat)
    ensures Reads(m, data, root, va, []) && UserSpan(m, root, va, 0)
  {
  }

  lemma ReadsMore(m: Mem, data: map<nat, seq<Byte>>, root: nat, va: nat, dst: seq<Byte>, f: nat, n: nat)
    requires Reads(m, data, root, va, dst) && f in data && |data[f]| == PGSIZE
    requires f == UserFrame(m, root, (va + |dst|) / PGSIZE) && (va + |dst|) % PGSIZE + n <= PGSIZE
    ensures var off := (va + |dst|) % PGSIZE; Reads(m, data, root, va, dst + data[f][off..off + n])
  {
    hide UserFrame;
    var off := (va + |dst|) % PGSIZE;
    var all := dst + data[f][off..off + n];
    forall i: nat | i < |all| ensures all[i] == UserByte(m, data, root, va + i) {
      if i >= |dst| {
        WithinPage(va + |dst|, n, va + i);
      }
    }
  }
}
