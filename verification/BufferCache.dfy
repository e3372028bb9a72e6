/**
 The buffer cache (kernel/bio.c): a fixed table of buffers threaded on a circular doubly linked list
 in order of recent use, in front of the disk.

 A pointer to a buffer is its index in the table; index NBUF is the list head.  Every method is one
 call of the C routine of the same name; the panics are results.
 */
module BufferCache {
  import opened Blocks

  const NBUF := 30
  const ROOTDEV := 1

  datatype Buf = Buf(valid: bool, dev: nat, blockno: nat, refcnt: nat, locked: bool,
                     prev: nat, next: nat, data: Block)

  /** The records in a are linked both ways in the order of the cycle c. */
  ghost predicate Linked(a: seq<Buf>, c: seq<nat>) {
    && c != [] && (forall i | 0 <= i < |c| :: c[i] < |a|)
    && (forall i, j | 0 <= i < j < |c| :: c[i] != c[j])
    && (forall i {:trigger LinkAt(a, c, i)} | 0 <= i < |c| :: LinkAt(a, c, i))
  }

  /** The i-th record of the cycle and the one after it point at each other. */
  ghost predicate LinkAt(a: seq<Buf>, c: seq<nat>, i: nat)
    requires i < |c| && forall i | 0 <= i < |c| :: c[i] < |a|
  {
    var j := Succ(i, |c|);
    a[c[i]].next == c[j] && a[c[j]].prev == c[i]
  }

  function Succ(i: nat, n: nat): nat {
    if i + 1 < n then i + 1 else 0
  }

  /** The cycle with the element at p moved next to the head. */
  function ToFront(c: seq<nat>, p: nat): seq<nat>
    requires 0 < p < |c|
  {
    [c[0], c[p]] + c[1..p] + c[p + 1..]
  }

  ghost predicate InTable(a: seq<Buf>) {
    forall i | 0 <= i < |a| :: a[i].next < |a| && a[i].prev < |a|
  }

  ghost predicate SameButLinks(a: seq<Buf>, a': seq<Buf>) {
    |a'| == |a| && forall i | 0 <= i < |a| :: a'[i] == a[i].(next := a'[i].next, prev := a'[i].prev)
  }

  function SetNext(a: seq<Buf>, i: nat, v: nat): (a': seq<Buf>)
    requires i < |a| && v < |a| && InTable(a)
    ensures SameButLinks(a, a') && InTable(a')
  {
    a[i := a[i].(next := v)]
  }

  function SetPrev(a: seq<Buf>, i: nat, v: nat): (a': seq<Buf>)
    requires i < |a| && v < |a| && InTable(a)
    ensures SameButLinks(a, a') && InTable(a')
  {
    a[i := a[i].(prev := v)]
  }

  /** Linking a record in behind the head. */
  function Inserted(a: seq<Buf>, head: nat, b: nat): (a': seq<Buf>)
    requires head < |a| && b < |a| && InTable(a)
    ensures SameButLinks(a, a') && InTable(a')
  {
    var a1 := SetPrev(SetNext(a, b, a[head].next), b, head);
    SetNext(SetPrev(a1, a1[head].next, b), head, b)
  }

  /** Unlinking a record and linking it in again behind the head. */
  function Relinked(a: seq<Buf>, head: nat, b: nat): (a': seq<Buf>)
    requires head < |a| && b < |a| && InTable(a)
    ensures SameButLinks(a, a') && InTable(a')
  {
    var a1 := SetPrev(a, a[b].next, a[b].prev);
    var a2 := SetNext(a1, a1[b].prev, a1[b].next);
    Inserted(a2, head, b)
  }

  lemma RelinkedAt(a: seq<Buf>, c: seq<nat>, p: nat, i: nat)
    requires Linked(a, c) && InTable(a) && 1 < p < |c| && i < |a|
    ensures var (a', h, x, f, l, r) := (Relinked(a, c[0], c[p]), c[0], c[p], c[1], c[p - 1], c[Succ(p, |c|)]);
            && a'[i].next == (if i == x then f else if i == l then r else if i == h then x else a[i].next)
            && a'[i].prev == (if i == r then l else if i == x then h else if i == f then x else a[i].prev)
  {
    var h, x, f, l, r := c[0], c[p], c[1], c[p - 1], c[Succ(p, |c|)];
    assert LinkAt(a, c, p) && LinkAt(a, c, p - 1) && LinkAt(a, c, 0);
    assert h != l && h != x && x != r && f != r && x != l && x != f;
  }

  lemma RelinkedFirst(a: seq<Buf>, c: seq<nat>, i: nat)
    requires Linked(a, c) && InTable(a) && 1 < |c| && i < |a|
    ensures var a' := Relinked(a, c[0], c[1]); a'[i].next == a[i].next && a'[i].prev == a[i].prev
  {
    var h, x, r := c[0], c[1], c[Succ(1, |c|)];
    assert LinkAt(a, c, 0) && LinkAt(a, c, 1);
    assert x != h && x != r;
  }

  function ToFrontIndex(p: nat, i: nat): nat {
    if i == 0 || i > p then i else if i == 1 then p else i - 1
  }

  lemma ToFrontAt(c: seq<nat>, p: nat)
    requires 0 < p < |c|
    ensures |ToFront(c, p)| == |c|
    ensures forall i | 0 <= i < |c| :: ToFront(c, p)[i] == c[ToFrontIndex(p, i)]
  {
  }

  lemma ToFrontLinkAt(a: seq<Buf>, c: seq<nat>, p: nat, i: nat)
    requires Linked(a, c) && InTable(a) && 0 < p < |c| && i < |c|
    ensures |ToFront(c, p)| == |c| && (forall k | 0 <= k < |c| :: ToFront(c, p)[k] < |a|)
    ensures LinkAt(Relinked(a, c[0], c[p]), ToFront(c, p), i)
  {
    hide Relinked, ToFront, SameButLinks, InTable;
    ToFrontAt(c, p);
    var j, d := Succ(i, |c|), ToFront(c, p);
    if p == 1 {
      RelinkedFirst(a, c, d[i]);
      RelinkedFirst(a, c, d[j]);
    } else {
      RelinkedAt(a, c, p, d[i]);
      RelinkedAt(a, c, p, d[j]);
    }
    assert LinkAt(a, c, ToFrontIndex(p, i));
  }

  /** The pointer updates of brelse move a buffer to the front of the list and keep the others in order. */
  lemma ToFrontLinks(a: seq<Buf>, c: seq<nat>, p: nat)
    requires Linked(a, c) && InTable(a) && 0 < p < |c|
    ensures Linked(Relinked(a, c[0], c[p]), ToFront(c, p))
  {
    hide Relinked, ToFront, InTable;
    ToFrontAt(c, p);
    var a', d := Relinked(a, c[0], c[p]), ToFront(c, p);
    forall i | 0 <= i < |d| ensures LinkAt(a', d, i) {
      ToFrontLinkAt(a, c, p, i);
    }
  }

  lemma InsertedAt(a: seq<Buf>, c: seq<nat>, b: nat, i: nat)
    requires Linked(a, c) && InTable(a) && b < |a| && b !in c && i < |a|
    ensures var (a', h, f) := (Inserted(a, c[0], b), c[0], c[Succ(0, |c|)]);
            && a'[i].next == (if i == b then f else if i == h then b else a[i].next)
            && a'[i].prev == (if i == b then h else if i == f then b else a[i].prev)
  {
    assert LinkAt(a, c, 0);
  }

  /** The pointer assignments of binit link a new record in behind the head. */
  lemma InsertLinks(a: seq<Buf>, c: seq<nat>, b: nat)
    requires Linked(a, c) && InTable(a) && b < |a| && b !in c
    ensures Linked(Inserted(a, c[0], b), [c[0], b] + c[1..])
  {
    hide Inserted;
    var a', d := Inserted(a, c[0], b), [c[0], b] + c[1..];
    forall i | 0 <= i < |d| ensures LinkAt(a', d, i) {
      InsertedAt(a, c, b, d[i]);
      InsertedAt(a, c, b, d[Succ(i, |d|)]);
      assert i > 0 ==> LinkAt(a, c, i - 1);
    }
  }

  // ---------- What the cache means ----------

  /** The table a, the disk d and, for every cached block, the buffer that holds it. */
  datatype Cache = Cache(a: seq<Buf>, d: seq<Block>, where: map<nat, nat>) {

    /** At most one buffer per block of the device, and a buffer that nobody refers to is clean. */
    ghost predicate Ok() {
      && |a| == NBUF + 1
      && (forall b | b in where :: b < |d| && where[b] < NBUF && a[where[b]].dev == ROOTDEV && a[where[b]].blockno == b)
      && (forall j | 0 <= j < NBUF :: BufOk(j))
    }

    ghost predicate BufOk(j: nat)
      requires |a| == NBUF + 1 && j < NBUF
    {
      && (a[j].dev == ROOTDEV || (a[j].dev == 0 && !a[j].valid && a[j].refcnt == 0))
      && (a[j].dev == ROOTDEV ==> a[j].blockno < |d| && a[j].blockno in where && where[a[j].blockno] == j)
      && (a[j].locked ==> a[j].refcnt > 0)
      && (a[j].valid && a[j].refcnt == 0 ==> a[j].data == d[a[j].blockno])
    }

    /** What a reader of block b is to see. */
    ghost function View(b: nat): Block
      requires Ok() && b < |d|
    {
      if b in where && a[where[b]].valid then a[where[b]].data else d[b]
    }

    ghost function Refs(b: nat): nat
      requires Ok()
    {
      if b in where then a[where[b]].refcnt else 0
    }

    ghost predicate Locked(b: nat)
      requires Ok()
    {
      b in where && a[where[b]].locked
    }

    /** Buffer i holds block b, is filled, and is locked by a process. */
    ghost predicate HeldAt(i: nat, b: nat) {
      Ok() && b < |d| && b in where && where[b] == i && a[i].valid && a[i].locked
    }

    ghost predicate Unreferenced(j: nat)
      requires |a| == NBUF + 1
    {
      j < NBUF && a[j].refcnt == 0
    }

    ghost predicate Spare()
      requires |a| == NBUF + 1
    {
      exists j :: Unreferenced(j)
    }

    /** A call of bget for block b finds a buffer. */
    ghost predicate HasRoom(b: nat)
      requires Ok()
    {
      b in where || Spare()
    }

    /** The blocks that processes refer to, or that are pinned. */
    ghost function Busy(): set<nat>
      requires Ok()
    {
      set b | b in where && a[where[b]].refcnt > 0
    }
  }

  /** The cache c' differs from c at most in block b, whose counts and contents are as given. */
  ghost predicate DiffersAt(c: Cache, c': Cache, b: nat, refs: int, locked: bool, v: Block) {
    && c.Ok() && c'.Ok() && |c'.d| == |c.d| && b < |c.d|
    && c'.Refs(b) == refs && c'.Locked(b) == locked && c'.View(b) == v
    && (forall x | 0 <= x < |c.d| && x != b :: c'.View(x) == c.View(x))
    && (forall x | x != b :: c'.Refs(x) == c.Refs(x) && c'.Locked(x) == c.Locked(x))
  }

  /** Moreover, the buffers in use keep their blocks. */
  ghost predicate Differs(c: Cache, c': Cache, b: nat, refs: int, locked: bool, v: Block) {
    DiffersAt(c, c', b, refs, locked, v) && forall x | x in c.where && c.Refs(x) > 0 :: Stays(c, c', x)
  }

  /** The buffer of a block in use keeps holding it, and stays valid if it was. */
  ghost predicate Stays(c: Cache, c': Cache, x: nat)
    requires c.Ok() && c'.Ok() && x in c.where
  {
    var j := c.where[x];
    x in c'.where && c'.where[x] == j && (c.a[j].valid ==> c'.a[j].valid)
  }

  /** A buffer found by bget: one more reference, and the lock. */
  lemma HitOk(c: Cache, b: nat)
    requires c.Ok() && b in c.where && !c.Locked(b)
    ensures var j := c.where[b];
            Differs(c, c.(a := c.a[j := c.a[j].(refcnt := c.a[j].refcnt + 1, locked := true)]),
                    b, c.Refs(b) + 1, true, c.View(b))
  {
    var j := c.where[b];
    UpdateOk(c, j, c.a[j].(refcnt := c.a[j].refcnt + 1, locked := true));
  }

  function Recycled(c: Cache, j: nat, b: nat): Cache
    requires |c.a| == NBUF + 1 && j < NBUF
  {
    var where := if c.a[j].dev == ROOTDEV then c.where - {c.a[j].blockno} else c.where;
    Cache(c.a[j := c.a[j].(dev := ROOTDEV, blockno := b, valid := false, refcnt := 1, locked := true)],
          c.d, where[b := j])
  }

  /** Recycling a buffer that nobody refers to loses no data, whatever block it held. */
  lemma RecycleOk(c: Cache, j: nat, b: nat)
    requires c.Ok() && c.Unreferenced(j) && b !in c.where && b < |c.d|
    ensures Differs(c, Recycled(c, j, b), b, c.Refs(b) + 1, true, c.View(b))
  {
    assert c.BufOk(j);
    var c' := Recycled(c, j, b);
    forall k | 0 <= k < NBUF ensures c'.BufOk(k) {
      assert c.BufOk(k);
    }
  }

  /** Replacing the record of a block in use by another one for the same block. */
  lemma UpdateOk(c: Cache, j: nat, r: Buf)
    requires c.Ok() && j < NBUF && c.a[j].dev == ROOTDEV
    requires r.dev == ROOTDEV && r.blockno == c.a[j].blockno < |c.d| && (r.locked ==> r.refcnt > 0)
    requires r.valid && r.refcnt == 0 ==> r.data == c.d[r.blockno]
    requires c.a[j].valid ==> r.valid
    ensures var b := r.blockno;
            b < |c.d| && Differs(c, c.(a := c.a[j := r]), b, r.refcnt, r.locked, if r.valid then r.data else c.d[b])
  {
    var c' := c.(a := c.a[j := r]);
    assert c.BufOk(j);
    forall k | 0 <= k < NBUF ensures c'.BufOk(k) {
      assert c.BufOk(k);
    }
  }

  /** bwrite: the block goes to disk, and what readers see stays the same. */
  lemma WriteOk(c: Cache, j: nat)
    requires c.Ok() && j < NBUF && c.a[j].dev == ROOTDEV && c.a[j].valid && c.a[j].blockno < |c.d|
    ensures var b := c.a[j].blockno;
            b < |c.d| && Differs(c, c.(d := c.d[b := c.a[j].data]), b, c.Refs(b), c.Locked(b), c.View(b))
  {
    var c' := c.(d := c.d[c.a[j].blockno := c.a[j].data]);
    assert c.BufOk(j);
    forall k | 0 <= k < NBUF ensures c'.BufOk(k) {
      assert c.BufOk(k);
    }
  }

  /** The links say nothing about the contents of the cache. */
  lemma LinksIrrelevant(c: Cache, a': seq<Buf>)
    requires c.Ok() && SameButLinks(c.a, a')
    ensures c.(a := a').Ok()
    ensures forall b | 0 <= b < |c.d| :: c.(a := a').View(b) == c.View(b)
    ensures forall b :: c.(a := a').Refs(b) == c.Refs(b) && c.(a := a').Locked(b) == c.Locked(b)
  {
    var c' := c.(a := a');
    forall k | 0 <= k < NBUF ensures c'.BufOk(k) {
      assert c.BufOk(k);
    }
  }

  /** The list with the buffer at position p moved to its front. */
  function Used(order: seq<nat>, p: nat): (order': seq<nat>)
    requires p < |order|
    ensures |order'| == |order| && forall j :: j in order' <==> j in order
  {
    assert order == order[..p] + [order[p]] + order[p + 1..];
    [order[p]] + order[..p] + order[p + 1..]
  }

  lemma UsedIsToFront(order: seq<nat>, p: nat, head: nat)
    requires p < |order|
    ensures [head] + Used(order, p) == ToFront([head] + order, p + 1)
    ensures forall k | 0 <= k < |order| :: Used(order, p)[k] in order
  {
    var c := [head] + order;
    assert c[1..p + 1] == order[..p] && c[p + 2..] == order[p + 1..];
  }

  lemma FrontLinks(a: seq<Buf>, order: seq<nat>, i: nat) returns (p: nat)
    requires |a| == NBUF + 1 && Linked(a, [NBUF] + order) && InTable(a) && i in order && i < NBUF && |order| == NBUF
    requires (forall j | 0 <= j < NBUF :: j in order) && (forall k | 0 <= k < NBUF :: order[k] < NBUF)
    ensures p < |order| && order[p] == i && Linked(Relinked(a, NBUF, i), [NBUF] + Used(order, p))
    ensures forall j | 0 <= j < NBUF :: j in Used(order, p)
    ensures forall k | 0 <= k < NBUF :: Used(order, p)[k] < NBUF
  {
    hide Used, Linked, ToFront, Relinked, InTable, SameButLinks;
    p :| 0 <= p < |order| && order[p] == i;
    ToFrontLinks(a, [NBUF] + order, p + 1);
    UsedIsToFront(order, p, NBUF);
    assert forall k | 0 <= k < NBUF :: Used(order, p)[k] in order;
  }

  predicate Blank(r: Buf) {
    r.dev == 0 && !r.valid && r.refcnt == 0 && !r.locked
  }

  /** The list that binit has made of the first n buffers. */
  function Down(n: nat): seq<nat> {
    if n == 0 then [] else [n - 1] + Down(n - 1)
  }

  lemma {:induction false} DownBelow(n: nat)
    ensures |Down(n)| == n && forall i | 0 <= i < n :: Down(n)[i] < n
  {
    if n > 0 {
      DownBelow(n - 1);
    }
  }

  lemma {:induction false} DownHas(n: nat)
    ensures forall j | 0 <= j < n :: j in Down(n)
  {
    if n > 0 {
      DownHas(n - 1);
    }
  }

  lemma InsertDown(a: seq<Buf>, b: nat)
    requires |a| == NBUF + 1 && b < NBUF && Linked(a, [NBUF] + Down(b)) && InTable(a)
    ensures Linked(Inserted(a, NBUF, b), [NBUF] + Down(b + 1)) && SameButLinks(a, Inserted(a, NBUF, b))
  {
    hide Linked, Inserted, InTable, SameButLinks, Down;
    var d := Down(b);
    DownStep(b);
    InsertLinks(a, [NBUF] + d, b);
    assert [NBUF, b] + ([NBUF] + d)[1..] == [NBUF] + ([b] + d);
  }

  lemma DownStep(b: nat)
    ensures Down(b + 1) == [b] + Down(b) && b !in Down(b)
  {
    DownBelow(b);
  }

  // ---------- Least recently used ----------

  /** When x was last used, counted from 1, or 0 if it never was. */
  function LastUse(uses: seq<nat>, x: nat): (n: nat)
    ensures n <= |uses|
  {
    if uses == [] then 0 else if uses[|uses| - 1] == x then |uses| else LastUse(uses[..|uses| - 1], x)
  }

  /** The list has the buffers in the order of their last use, the latest first. */
  ghost predicate Recent(order: seq<nat>, uses: seq<nat>) {
    forall p, q | 0 <= p < q < |order| :: LastUse(uses, order[p]) >= LastUse(uses, order[q])
  }

  lemma LastUseMore(uses: seq<nat>, i: nat, x: nat)
    ensures LastUse(uses + [i], x) == if x == i then |uses| + 1 else LastUse(uses, x)
  {
    assert (uses + [i])[..|uses|] == uses;
  }

  lemma UsedRecent(order: seq<nat>, uses: seq<nat>, p: nat)
    requires Recent(order, uses) && p < |order| && forall i, j | 0 <= i < j < |order| :: order[i] != order[j]
    ensures Recent(Used(order, p), uses + [order[p]])
  {
    var order', uses' := Used(order, p), uses + [order[p]];
    assert forall i | 0 <= i < |order| :: order'[i] == order[if i == 0 then p else if i <= p then i - 1 else i];
    forall i, j | 0 <= i < j < |order'| ensures LastUse(uses', order'[i]) >= LastUse(uses', order'[j]) {
      LastUseMore(uses, order[p], order'[i]);
      LastUseMore(uses, order[p], order'[j]);
    }
  }

  lemma ListDistinct(a: seq<Buf>, order: seq<nat>)
    requires Linked(a, [NBUF] + order)
    ensures forall i, j | 0 <= i < j < |order| :: order[i] != order[j]
  {
    var c := [NBUF] + order;
    assert forall i | 0 <= i < |order| :: order[i] == c[i + 1];
  }

  class Bcache {
    const buf: array<Buf>
    const disk: array<Block>
    ghost var order: seq<nat>           // the list
    ghost var uses: seq<nat>            // the buffers whose last reference went, in the order of time
    ghost var where: map<nat, nat>
    ghost var history: seq<seq<Block>>  // the disk after every write

    /** binit: no block is cached. */
    constructor (disk: array<Block>)
      ensures Valid() && this.disk == disk && fresh(buf) && where == map[] && history == [] && uses == []
      ensures forall j | 0 <= j < NBUF :: Snap().Unreferenced(j)
    {
      this.disk := disk;
      var zero: Block := seq(BSIZE, _ => 0);
      buf := new Buf[NBUF + 1](_ => Buf(false, 0, 0, 0, false, 0, 0, zero));
      order, uses, where, history := [], [], map[], [];
      new;
      buf[NBUF] := buf[NBUF].(prev := NBUF, next := NBUF);
      assert Linked(buf[..], [NBUF] + order) by { assert LinkAt(buf[..], [NBUF], 0); }
      hide Linked, Inserted;
      var b := 0;
      while b < NBUF
        invariant 0 <= b <= NBUF && order == Down(b) && where == map[] && history == [] && uses == []
        invariant buf.Length == NBUF + 1 && fresh(buf)
        invariant Linked(buf[..], [NBUF] + order) && InTable(buf[..])
        invariant forall j | 0 <= j <= NBUF :: Blank(buf[j])
      {
        InsertDown(buf[..], b);
        Insert(b);
        order := [b] + order;
        b := b + 1;
      }
      DownBelow(NBUF);
      DownHas(NBUF);
    }

    ghost function Snap(): Cache
      reads this, buf, disk
    {
      Cache(buf[..], disk[..], where)
    }

    ghost predicate ListOk()
      reads this, buf
    {
      && |order| == NBUF && buf.Length == NBUF + 1
      && (forall j | 0 <= j < NBUF :: j in order) && (forall i | 0 <= i < NBUF :: order[i] < NBUF)
      && Linked(buf[..], [NBUF] + order) && InTable(buf[..]) && Recent(order, uses)
    }

    ghost predicate Valid()
      reads this, buf, disk
    {
      buf.Length == NBUF + 1 && ListOk() && Snap().Ok()
    }

    /** Put record r in slot i, leaving the links alone. */
    method Put(i: nat, r: Buf)
      requires ListOk() && i < NBUF && r.next == buf[i].next && r.prev == buf[i].prev
      modifies buf
      ensures ListOk() && buf[..] == old(buf[..])[i := r]
    {
      buf[i] := r;
      LinksKept(old(buf[..]), buf[..], [NBUF] + order);
    }

    /** The forward scan of bget: a buffer that holds the block, or NBUF. */
    method Scan(dev: nat, blockno: nat) returns (b: nat)
      requires ListOk()
      ensures b <= NBUF
      ensures b < NBUF ==> buf[b].dev == dev && buf[b].blockno == blockno
      ensures b == NBUF ==> forall j | 0 <= j < NBUF :: !(buf[j].dev == dev && buf[j].blockno == blockno)
    {
      ghost var c := [NBUF] + order;
      ghost var i := 1;
      assert LinkAt(buf[..], c, 0);
      b := buf[NBUF].next;
      while b != NBUF
        invariant 1 <= i <= NBUF + 1 && b == if i <= NBUF then order[i - 1] else NBUF
        invariant forall k | 0 <= k < i - 1 :: !(buf[order[k]].dev == dev && buf[order[k]].blockno == blockno)
        decreases NBUF + 1 - i
      {
        assert b == c[i];
        if buf[b].dev == dev && buf[b].blockno == blockno {
          return;
        }
        assert LinkAt(buf[..], c, i);
        b := buf[b].next;
        i := i + 1;
      }
      forall j | 0 <= j < NBUF ensures !(buf[j].dev == dev && buf[j].blockno == blockno) {
        assert j in order;
        var k :| 0 <= k < |order| && order[k] == j;
      }
    }

    /** The backward scan of bget: the least recently used buffer without references, or NBUF. */
    method Oldest() returns (b: nat, ghost p: int)
      requires ListOk()
      ensures b <= NBUF
      ensures b < NBUF ==> 0 <= p < NBUF && order[p] == b && buf[b].refcnt == 0
      ensures b < NBUF ==> forall q | p < q < NBUF :: buf[order[q]].refcnt > 0
      ensures b < NBUF ==> forall j | 0 <= j < NBUF && buf[j].refcnt == 0 :: LastUse(uses, b) <= LastUse(uses, j)
      ensures b == NBUF ==> forall j | 0 <= j < NBUF :: buf[j].refcnt > 0
    {
      ghost var c := [NBUF] + order;
      p := NBUF - 1;
      assert LinkAt(buf[..], c, NBUF);
      b := buf[NBUF].prev;
      while b != NBUF
        invariant -1 <= p < NBUF && b == if p >= 0 then order[p] else NBUF
        invariant forall q | p < q < NBUF :: buf[order[q]].refcnt > 0
        decreases p + 1
      {
        assert b == c[p + 1];
        if buf[b].refcnt == 0 {
          forall j | 0 <= j < NBUF && buf[j].refcnt == 0 ensures LastUse(uses, b) <= LastUse(uses, j) {
            assert j in order;
            var k :| 0 <= k < |order| && order[k] == j;
          }
          return;
        }
        assert LinkAt(buf[..], c, p);
        b := buf[b].prev;
        p := p - 1;
      }
      forall j | 0 <= j < NBUF ensures buf[j].refcnt > 0 {
        assert j in order;
        var k :| 0 <= k < |order| && order[k] == j;
      }
    }

    /** A call that would wait for another process's lock is a call made once the lock is free. */
    method Bget(dev: nat, blockno: nat) returns (r: nat)
      requires Valid() && dev == ROOTDEV && blockno < disk.Length && !Snap().Locked(blockno)
      modifies this`where, buf
      ensures Valid() && r <= NBUF
      ensures r == NBUF <==> !old(Snap().HasRoom(blockno))
      ensures r == NBUF ==> Snap() == old(Snap())
      ensures r < NBUF ==> blockno in where && where[blockno] == r
      ensures r < NBUF ==>
                Differs(old(Snap()), Snap(), blockno, old(Snap().Refs(blockno)) + 1, true, old(Snap().View(blockno)))
      ensures r < NBUF && blockno !in old(where) ==>
                && old(buf[r].refcnt) == 0
                && forall j | 0 <= j < NBUF && old(buf[j].refcnt) == 0 :: LastUse(uses, r) <= LastUse(uses, j)
    {
      hide Linked, InTable;
      ghost var c := Snap();
      r := Scan(dev, blockno);
      if r < NBUF {
        assert c.BufOk(r);
        HitOk(c, blockno);
        Put(r, buf[r].(refcnt := buf[r].refcnt + 1, locked := true));
        return;
      }
      ghost var p;
      r, p := Oldest();
      if r < NBUF {
        assert c.Unreferenced(r);
        RecycleOk(c, r, blockno);
        where := Recycled(c, r, blockno).where;
        Put(r, buf[r].(dev := dev, blockno := blockno, valid := false, refcnt := 1, locked := true));
        assert Snap() == Recycled(c, r, blockno);
      }
    }

    method Bread(dev: nat, blockno: nat) returns (r: nat)
      requires Valid() && dev == ROOTDEV && blockno < disk.Length && !Snap().Locked(blockno)
      modifies this`where, buf
      ensures Valid() && r <= NBUF
      ensures r == NBUF <==> !old(Snap().HasRoom(blockno))
      ensures r == NBUF ==> Snap() == old(Snap())
      ensures r < NBUF ==> Snap().HeldAt(r, blockno) && buf[r].data == old(Snap().View(blockno))
      ensures r < NBUF ==>
                Differs(old(Snap()), Snap(), blockno, old(Snap().Refs(blockno)) + 1, true, old(Snap().View(blockno)))
    {
      hide Linked, InTable;
      r := Bget(dev, blockno);
      if r < NBUF {
        ghost var c := Snap();
        assert c.BufOk(r);
        if !buf[r].valid {
          UpdateOk(c, r, buf[r].(valid := true, data := disk[blockno]));
          Put(r, buf[r].(valid := true, data := disk[blockno]));
        }
      }
    }

    /** The holder of block b changes its data (memmove, memset or a store through a pointer). */
    method Change(i: nat, ghost b: nat, data: Block)
      requires Valid() && Snap().HeldAt(i, b)
      modifies buf
      ensures Valid() && Snap().HeldAt(i, b)
      ensures Differs(old(Snap()), Snap(), b, old(Snap().Refs(b)), true, data)
    {
      assert Snap().BufOk(i);
      UpdateOk(Snap(), i, buf[i].(data := data));
      Put(i, buf[i].(data := data));
    }

    method Bwrite(i: nat, ghost b: nat)
      requires Valid() && Snap().HeldAt(i, b)
      modifies this`history, disk
      ensures Valid() && Snap().HeldAt(i, b)
      ensures Differs(old(Snap()), Snap(), b, old(Snap().Refs(b)), true, old(Snap().View(b)))
      ensures Snap().d == old(Snap().d)[b := old(Snap().View(b))]
      ensures history == old(history) + [disk[..]]
    {
      assert Snap().BufOk(i);
      WriteOk(Snap(), i);
      disk[buf[i].blockno] := buf[i].data;
      history := history + [disk[..]];
    }

    /** A holder that gives up the last reference leaves a clean buffer: logged blocks are pinned. */
    method Brelse(i: nat, ghost b: nat)
      requires Valid() && Snap().HeldAt(i, b)
      requires Snap().Refs(b) == 1 ==> Snap().View(b) == Snap().d[b]
      modifies this`order, this`uses, buf
      ensures Valid()
      ensures Differs(old(Snap()), Snap(), b, old(Snap().Refs(b)) - 1, false, old(Snap().View(b)))
      ensures uses == old(uses) + if old(Snap().Refs(b)) == 1 then [i] else []
      ensures old(Snap().Refs(b)) > 1 ==> order == old(order)
      ensures old(Snap().Refs(b)) == 1 ==>
                exists p | 0 <= p < NBUF :: old(order)[p] == i && order == Used(old(order), p)
    {
      ghost var c := Snap();
      assert c.BufOk(i);
      UpdateOk(c, i, buf[i].(locked := false, refcnt := buf[i].refcnt - 1));
      Put(i, buf[i].(locked := false, refcnt := buf[i].refcnt - 1));
      if buf[i].refcnt == 0 {
        ghost var c1 := Snap();
        MoveToFront(i);
        LinksIrrelevant(c1, buf[..]);
      }
    }

    /** Link buffer i in behind the list head. */
    method Insert(i: nat)
      requires buf.Length == NBUF + 1 && InTable(buf[..]) && i < NBUF
      modifies buf
      ensures buf[..] == Inserted(old(buf[..]), NBUF, i)
    {
      ghost var a := buf[..];
      buf[i] := buf[i].(next := buf[NBUF].next);
      ghost var a1 := SetNext(a, i, a[NBUF].next);
      assert buf[..] == a1;
      buf[i] := buf[i].(prev := NBUF);
      ghost var a2 := SetPrev(a1, i, NBUF);
      assert buf[..] == a2;
      buf[buf[NBUF].next] := buf[buf[NBUF].next].(prev := i);
      assert buf[..] == SetPrev(a2, a2[NBUF].next, i);
      buf[NBUF] := buf[NBUF].(next := i);
    }

    /** The pointer assignments of brelse: unlink buffer i and link it in at the front. */
    method Relink(i: nat)
      requires buf.Length == NBUF + 1 && InTable(buf[..]) && i < NBUF
      modifies buf
      ensures buf[..] == Relinked(old(buf[..]), NBUF, i)
    {
      ghost var a := buf[..];
      buf[buf[i].next] := buf[buf[i].next].(prev := buf[i].prev);
      ghost var a1 := SetPrev(a, a[i].next, a[i].prev);
      assert buf[..] == a1;
      buf[buf[i].prev] := buf[buf[i].prev].(next := buf[i].next);
      ghost var a2 := SetNext(a1, a1[i].prev, a1[i].next);
      assert buf[..] == a2;
      Insert(i);
    }

    method MoveToFront(i: nat)
      requires ListOk() && i < NBUF
      modifies this`order, this`uses, buf
      ensures ListOk() && SameButLinks(old(buf[..]), buf[..])
      ensures exists p | 0 <= p < NBUF :: old(order)[p] == i && order == Used(old(order), p)
      ensures uses == old(uses) + [i]
    {
      hide Used, Linked, Relinked, InTable, SameButLinks, Recent;
      ghost var p := FrontLinks(buf[..], order, i);
      ListDistinct(buf[..], order);
      UsedRecent(order, uses, p);
      Relink(i);
      order, uses := Used(order, p), uses + [i];
    }

    method Bpin(i: nat, ghost b: nat)
      requires Valid() && Snap().HeldAt(i, b)
      modifies buf
      ensures Valid() && Snap().HeldAt(i, b)
      ensures Differs(old(Snap()), Snap(), b, old(Snap().Refs(b)) + 1, true, old(Snap().View(b)))
    {
      assert Snap().BufOk(i);
      UpdateOk(Snap(), i, buf[i].(refcnt := buf[i].refcnt + 1));
      Put(i, buf[i].(refcnt := buf[i].refcnt + 1));
    }

    /** install_trans unpins a block that it holds itself, so a reference is left. */
    method Bunpin(i: nat, ghost b: nat)
      requires Valid() && Snap().HeldAt(i, b) && Snap().Refs(b) > 1
      modifies buf
      ensures Valid() && Snap().HeldAt(i, b)
      ensures Differs(old(Snap()), Snap(), b, old(Snap().Refs(b)) - 1, true, old(Snap().View(b)))
    {
      assert Snap().BufOk(i);
      UpdateOk(Snap(), i, buf[i].(refcnt := buf[i].refcnt - 1));
      Put(i, buf[i].(refcnt := buf[i].refcnt - 1));
    }
  }

  lemma {:induction false} BusyBuffers(c: Cache, k: nat) returns (blocks: set<nat>)
    requires c.Ok() && k <= NBUF && forall j | 0 <= j < k :: c.a[j].refcnt > 0
    ensures |blocks| == k && blocks <= c.Busy()
    ensures forall b | b in blocks :: b in c.where && c.where[b] < k
  {
    if k == 0 {
      blocks := {};
    } else {
      blocks := BusyBuffers(c, k - 1);
      assert c.BufOk(k - 1);
      blocks := blocks + {c.a[k - 1].blockno};
    }
  }

  ghost function BusyBelow(c: Cache, k: nat): set<nat>
    requires c.Ok()
  {
    set b | b in c.where && c.a[c.where[b]].refcnt > 0 && c.where[b] < k
  }

  lemma {:induction false} BusyOnly(c: Cache, k: nat)
    requires c.Ok() && k <= NBUF
    ensures |BusyBelow(c, k)| <= k
    ensures (exists j | 0 <= j < k :: c.a[j].refcnt == 0) ==> |BusyBelow(c, k)| < k
  {
    if k == 0 {
      assert BusyBelow(c, 0) == {};
    } else {
      BusyOnly(c, k - 1);
      assert c.BufOk(k - 1);
      if c.a[k - 1].refcnt > 0 {
        assert BusyBelow(c, k) == BusyBelow(c, k - 1) + {c.a[k - 1].blockno};
      } else {
        assert BusyBelow(c, k) == BusyBelow(c, k - 1);
      }
    }
  }

  /** Caches with the same references have a spare buffer together. */
  lemma SpareKept(c: Cache, c': Cache)
    requires c.Ok() && c'.Ok() && c.Spare()
    requires forall b | b in c'.Busy() :: b in c.Busy()
    ensures c'.Spare()
  {
    BusyOnly(c, NBUF);
    assert c.Busy() == BusyBelow(c, NBUF);
    var j :| c.Unreferenced(j);
    if !c'.Spare() {
      forall j | 0 <= j < NBUF ensures c'.a[j].refcnt > 0 {
        assert !c'.Unreferenced(j);
      }
      var blocks := BusyBuffers(c', NBUF);
      SubsetSize(blocks, c.Busy());
      assert false;
    }
  }

  lemma ReferencedHasRoom(c: Cache, b: nat)
    requires c.Ok() && c.Refs(b) > 0
    ensures c.HasRoom(b)
  {
  }

  /** A held buffer stays held while other blocks change. */
  lemma StaysHeld(c: Cache, c': Cache, i: nat, b: nat, x: nat, refs: int, locked: bool, v: Block)
    requires c.HeldAt(i, b) && Differs(c, c', x, refs, locked, v) && x != b
    ensures c'.HeldAt(i, b)
  {
    assert c.BufOk(i);
    assert Stays(c, c', b);
    assert c'.Locked(b);
  }

  lemma LinksKept(a: seq<Buf>, a': seq<Buf>, c: seq<nat>)
    requires Linked(a, c) && InTable(a) && |a'| == |a|
    requires forall i | 0 <= i < |a| :: a'[i].next == a[i].next && a'[i].prev == a[i].prev
    ensures Linked(a', c) && InTable(a')
  {
    forall i | 0 <= i < |c| ensures LinkAt(a', c, i) {
      assert LinkAt(a, c, i);
    }
  }
}
