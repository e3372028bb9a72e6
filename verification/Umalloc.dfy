/**
 The user-level memory allocator (user/umalloc.c).

 Addresses count headers, which are 16 bytes each.  A block is named by the address of its header and
 its size includes the header.  The static header base lies below the heap.
 */
module Umalloc {

  const BASE := 1
  const MIN_UNITS := 4096
  const HEADER := 16

  /** The headers in memory, and what they mean: the free list in address order, the blocks that the
      program holds, and the block that every unit got from sbrk belongs to. */
  datatype Heap = Heap(ptr: map<nat, nat>, size: map<nat, nat>, freep: nat,
                       list: seq<nat>, held: map<nat, nat>, owner: map<nat, nat>)
  {
    function Size(a: nat): nat { if a in size then size[a] else 0 }
    function Ptr(a: nat): nat { if a in ptr then ptr[a] else 0 }

    /** The first unit behind block a. */
    function End(a: nat): nat { a + Size(a) }

    function Next(i: nat): nat
      requires list != []
    {
      if i + 1 < |list| then list[i + 1] else list[0]
    }

    /** Later blocks start behind earlier ones, with a gap: adjacent blocks have been merged. */
    ghost predicate Before(i: nat, j: nat) {
      i < j < |list| ==> End(list[i]) < list[j]
    }

    ghost predicate LinkOk(i: nat) {
      i < |list| ==> list[i] in ptr && list[i] in size && Ptr(list[i]) == Next(i) && (i > 0 ==> Size(list[i]) > 0)
    }

    /** Block a has all its units. */
    ghost predicate Whole(a: nat) {
      forall u {:trigger owner[u]} {:trigger u in owner} | a <= u < End(a) :: u in owner && owner[u] == a
    }

    ghost predicate FreeOk(i: nat) {
      0 < i < |list| ==> Whole(list[i]) && list[i] !in held
    }

    ghost predicate HeldOk(a: nat) {
      a in held ==> a > BASE && a in size && Size(a) == held[a] > 0 && Whole(a)
    }

    /** Every unit is in exactly one block, which is free or held. */
    ghost predicate UnitOk(u: nat) {
      u in owner ==> BASE < owner[u] <= u < End(owner[u]) && (owner[u] in held || owner[u] in list)
    }

    ghost predicate Ok() {
      && list != [] && list[0] == BASE && Size(BASE) == 0 && freep in list
      && (forall i {:trigger LinkOk(i)} :: LinkOk(i))
      && (forall i, j {:trigger Before(i, j)} :: Before(i, j))
      && (forall i {:trigger FreeOk(i)} :: FreeOk(i))
      && (forall a {:trigger HeldOk(a)} :: HeldOk(a))
      && (forall u {:trigger UnitOk(u)} :: UnitOk(u))
    }
  }

  /** A held block lies between two neighbours of the free list. */
  lemma HeldBetween(h: Heap, b: nat, i: nat)
    requires h.Ok() && b in h.held && i < |h.list|
    ensures h.list[i] != b
    ensures h.list[i] < b ==> h.End(h.list[i]) <= b
    ensures b < h.list[i] ==> h.End(b) <= h.list[i]
  {
    assert h.HeldOk(b) && h.LinkOk(i) && h.FreeOk(i);
    if i > 0 {
      assert h.list[i] in h.owner && b in h.owner;
    }
  }

  // ---------- free ----------

  /** Where block b belongs: between list element j and the one after it. */
  ghost predicate Place(h: Heap, b: nat, j: nat) {
    h.Ok() && b in h.held && j < |h.list| && h.list[j] < b && (j + 1 < |h.list| ==> b < h.list[j + 1])
  }

  predicate JoinsLeft(h: Heap, b: nat, j: nat)
    requires j < |h.list|
  {
    h.End(h.list[j]) == b
  }

  predicate JoinsRight(h: Heap, b: nat, j: nat) {
    j + 1 < |h.list| && h.End(b) == h.list[j + 1]
  }

  /** The block that b ends up in. */
  function Start(h: Heap, b: nat, j: nat): nat
    requires j < |h.list|
  {
    if JoinsLeft(h, b, j) then h.list[j] else b
  }

  function Finish(h: Heap, b: nat, j: nat): nat {
    if JoinsRight(h, b, j) then h.End(h.list[j + 1]) else h.End(b)
  }

  /** The assignments of free after its search, and what they mean. */
  ghost function Freed(h: Heap, b: nat, j: nat): Heap
    requires j < |h.list|
  {
    var p, next := h.list[j], h.Next(j);
    var right, left := JoinsRight(h, b, j), JoinsLeft(h, b, j);
    var size1 := if right then h.size[b := h.Size(b) + h.Size(next)] else h.size;
    var ptr1 := h.ptr[b := if right then h.Ptr(next) else next];
    var size2 := if left then size1[p := h.Size(p) + (if b in size1 then size1[b] else 0)] else size1;
    var ptr2 := ptr1[p := if left then ptr1[b] else b];
    var start, end := Start(h, b, j), Finish(h, b, j);
    Heap(ptr2, size2, p,
         h.list[..if left then j else j + 1] + [start] + h.list[if right then j + 2 else j + 1..],
         h.held - {b}, map u | u in h.owner :: if start <= u < end then start else h.owner[u])
  }

  /** Positions in the new list that come before, at, and after the joined block. */
  function OldIndex(h: Heap, b: nat, j: nat, i: nat): int
    requires j < |h.list|
  {
    var lo, hi := if JoinsLeft(h, b, j) then j else j + 1, if JoinsRight(h, b, j) then j + 2 else j + 1;
    if i < lo then i else if i == lo then -1 else i - lo - 1 + hi
  }

  lemma FreedList(h: Heap, b: nat, j: nat, i: nat)
    requires Place(h, b, j) && i < |Freed(h, b, j).list|
    ensures var k := OldIndex(h, b, j, i);
            Freed(h, b, j).list[i] == if k < 0 then Start(h, b, j) else if k < |h.list| then h.list[k] else 0
    ensures OldIndex(h, b, j, i) < |h.list|
  {
  }

  lemma FreedShape(h: Heap, b: nat, j: nat)
    requires Place(h, b, j)
    ensures (JoinsLeft(h, b, j) ==> j > 0)
    ensures var h' := Freed(h, b, j);
            && h'.list != [] && h'.list[0] == BASE && h'.Size(BASE) == 0 && h'.freep in h'.list
            && h'.Size(Start(h, b, j)) == Finish(h, b, j) - Start(h, b, j) > 0
            && BASE < Start(h, b, j) <= b < Finish(h, b, j)
  {
    HeldBetween(h, b, j);
    assert h.HeldOk(b) && h.LinkOk(j) && h.Before(0, j);
    if j + 1 < |h.list| {
      HeldBetween(h, b, j + 1);
      assert h.LinkOk(j + 1) && h.Before(j, j + 1);
    }
    var h' := Freed(h, b, j);
    if JoinsLeft(h, b, j) {
      assert h'.list[j] == h.list[j];
    } else {
      assert h'.list[j] == h.list[j];
    }
  }

  /** Blocks that are not joined keep their size. */
  lemma FreedSize(h: Heap, b: nat, j: nat, a: nat)
    requires Place(h, b, j) && a != b && a != Start(h, b, j)
    ensures Freed(h, b, j).Size(a) == h.Size(a) && (a in h.size ==> a in Freed(h, b, j).size)
  {
  }

  lemma FreedPtr(h: Heap, b: nat, j: nat, a: nat)
    requires Place(h, b, j)
    ensures var h' := Freed(h, b, j);
            && Start(h, b, j) in h'.ptr && Start(h, b, j) in h'.size
            && h'.Ptr(Start(h, b, j)) == (if JoinsRight(h, b, j) then h.Next(j + 1) else h.Next(j))
            && (!JoinsLeft(h, b, j) ==> h.list[j] in h'.ptr && h'.Ptr(h.list[j]) == b)
            && (a != b && a != h.list[j] && a in h.ptr ==> a in h'.ptr && h'.Ptr(a) == h.Ptr(a))
  {
    assert h.HeldOk(b) && h.LinkOk(j) && h.LinkOk(j + 1);
  }

  lemma FreedLink(h: Heap, b: nat, j: nat, i: nat)
    requires Place(h, b, j)
    ensures Freed(h, b, j).LinkOk(i)
  {
    assert j < |h.list|;
    hide Heap.Ok, Freed, Place, JoinsLeft, JoinsRight;
    FreedShape(h, b, j);
    FreedSpan(h, b, j);
    if i < |Freed(h, b, j).list| {
      FreedNext(h, b, j, i);
      FreedList(h, b, j, i);
      var k := OldIndex(h, b, j, i);
      FreedPtr(h, b, j, if k >= 0 then h.list[k] else 0);
      if k >= 0 {
        OldLink(h, b, j, k);
        if h.list[k] != Start(h, b, j) {
          FreedSize(h, b, j, h.list[k]);
        }
      }
    }
  }

  /** What follows in the new list: the joined block, or what followed before. */
  lemma FreedNext(h: Heap, b: nat, j: nat, i: nat)
    requires Place(h, b, j) && i < |Freed(h, b, j).list|
    ensures Freed(h, b, j).list != []
    ensures var (k, next, right) := (OldIndex(h, b, j, i), Freed(h, b, j).Next(i), JoinsRight(h, b, j));
            && (k < 0 ==> next == if right then h.Next(j + 1) else h.Next(j))
            && (k == j ==> next == b && !JoinsLeft(h, b, j))
            && (k >= 0 && k != j ==> next == h.Next(k))
  {
    hide Heap.Ok, Heap.End;
    FreedSpan(h, b, j);
    FreedList(h, b, j, i);
    FreedList(h, b, j, 0);
    if i + 1 < |Freed(h, b, j).list| {
      FreedList(h, b, j, i + 1);
    }
  }

  lemma FreedSpan(h: Heap, b: nat, j: nat)
    requires Place(h, b, j)
    ensures |Freed(h, b, j).list|
            == |h.list| + 1 - (if JoinsLeft(h, b, j) then 1 else 0) - (if JoinsRight(h, b, j) then 1 else 0)
    ensures h.list[0] == BASE && (JoinsLeft(h, b, j) ==> j > 0)
  {
    FreedShape(h, b, j);
  }

  lemma OldLink(h: Heap, b: nat, j: nat, k: nat)
    requires Place(h, b, j) && k < |h.list|
    ensures h.LinkOk(k) && h.list[k] != b && (k != j ==> h.list[k] != h.list[j])
    ensures j + 1 < |h.list| && k != j + 1 ==> h.list[k] != h.list[j + 1]
  {
    assert h.LinkOk(k) && h.Before(k, j) && h.Before(j, k) && h.Before(k, j + 1) && h.Before(j + 1, k);
    HeldBetween(h, b, k);
  }

  lemma FreedBefore(h: Heap, b: nat, j: nat, i: nat, k: nat)
    requires Place(h, b, j)
    ensures Freed(h, b, j).Before(i, k)
  {
    var h' := Freed(h, b, j);
    if i < k < |h'.list| {
      FreedShape(h, b, j);
      FreedList(h, b, j, i);
      FreedList(h, b, j, k);
      var i0, k0 := OldIndex(h, b, j, i), OldIndex(h, b, j, k);
      if i0 >= 0 && k0 >= 0 {
        assert h.Before(i0, k0);
        OldLink(h, b, j, i0);
        FreedSize(h, b, j, h.list[i0]);
      } else if i0 >= 0 {
        assert h.Before(i0, j);
        OldLink(h, b, j, i0);
        HeldBetween(h, b, i0);
        FreedSize(h, b, j, h.list[i0]);
      } else {
        assert h.Before(j, k0) && h.Before(j + 1, k0) && h.LinkOk(j + 1);
        HeldBetween(h, b, j + 1);
      }
    }
  }

  /** The joined block takes over the units of its parts, and no others. */
  lemma FreedUnits(h: Heap, b: nat, j: nat, u: nat)
    requires Place(h, b, j) && Start(h, b, j) <= u < Finish(h, b, j)
    ensures u in h.owner
    ensures h.owner[u] == b || h.owner[u] == h.list[j] == Start(h, b, j)
            || (JoinsRight(h, b, j) && h.owner[u] == h.list[j + 1])
  {
    FreedShape(h, b, j);
    assert h.HeldOk(b) && h.FreeOk(j) && h.FreeOk(j + 1);
  }

  lemma FreedFree(h: Heap, b: nat, j: nat, i: nat)
    requires Place(h, b, j)
    ensures Freed(h, b, j).FreeOk(i)
  {
    var h', start, end := Freed(h, b, j), Start(h, b, j), Finish(h, b, j);
    if 0 < i < |h'.list| {
      FreedShape(h, b, j);
      FreedList(h, b, j, i);
      var k := OldIndex(h, b, j, i);
      if k < 0 {
        assert h.FreeOk(j);
        forall u | start <= u < end ensures u in h'.owner && h'.owner[u] == start {
          FreedUnits(h, b, j, u);
        }
      } else {
        assert h.FreeOk(k);
        OldLink(h, b, j, k);
        FreedSize(h, b, j, h.list[k]);
        forall u | h.list[k] <= u < h.End(h.list[k]) ensures u in h'.owner && h'.owner[u] == h.list[k] {
          assert u in h.owner;
          if start <= u < end {
            FreedUnits(h, b, j, u);
          }
        }
      }
    }
  }

  lemma FreedHeld(h: Heap, b: nat, j: nat, a: nat)
    requires Place(h, b, j)
    ensures Freed(h, b, j).HeldOk(a)
  {
    var h', start, end := Freed(h, b, j), Start(h, b, j), Finish(h, b, j);
    if a in h'.held {
      assert h.HeldOk(a) && h.FreeOk(j) && h.FreeOk(j + 1);
      HeldBetween(h, a, j);
      FreedSize(h, b, j, a);
      forall u | a <= u < h.End(a) ensures u in h'.owner && h'.owner[u] == a {
        assert u in h.owner;
        if start <= u < end {
          FreedUnits(h, b, j, u);
        }
      }
    }
  }

  lemma FreedUnit(h: Heap, b: nat, j: nat, u: nat)
    requires Place(h, b, j)
    ensures Freed(h, b, j).UnitOk(u)
  {
    var h', start, end := Freed(h, b, j), Start(h, b, j), Finish(h, b, j);
    if u in h.owner {
      assert h.UnitOk(u) && h.HeldOk(b);
      FreedShape(h, b, j);
      var a := h.owner[u];
      if start <= u < end {
        StartListed(h, b, j);
      } else {
        Unjoined(h, b, j, a, u);
        FreedSize(h, b, j, a);
      }
    }
  }

  lemma StartListed(h: Heap, b: nat, j: nat)
    requires Place(h, b, j)
    ensures Start(h, b, j) in Freed(h, b, j).list
  {
    var lo := if JoinsLeft(h, b, j) then j else j + 1;
    assert Freed(h, b, j).list[lo] == Start(h, b, j);
  }

  /** The block of a unit outside the joined one is not part of it. */
  lemma Unjoined(h: Heap, b: nat, j: nat, a: nat, u: nat)
    requires Place(h, b, j) && u in h.owner && h.owner[u] == a && !(Start(h, b, j) <= u < Finish(h, b, j))
    ensures a != b && a != Start(h, b, j) && (a in h.list ==> a in Freed(h, b, j).list)
  {
    assert h.UnitOk(u) && h.HeldOk(b);
    FreedShape(h, b, j);
    if j + 1 < |h.list| {
      HeldBetween(h, b, j + 1);
      assert h.Before(j, j + 1) && h.LinkOk(j + 1);
    }
    if a in h.list {
      var k :| 0 <= k < |h.list| && h.list[k] == a;
      OldLink(h, b, j, k);
      var left, right := JoinsLeft(h, b, j), JoinsRight(h, b, j);
      if k < (if left then j else j + 1) {
        assert Freed(h, b, j).list[k] == a;
      } else {
        assert !(right && k == j + 1);
        var lo, hi := if left then j else j + 1, if right then j + 2 else j + 1;
        assert left ==> k != j;
        assert Freed(h, b, j).list[k - hi + lo + 1] == a;
      }
    }
  }

  /** free keeps the heap sound: the list stays in address order with no two blocks adjacent, and every
      unit stays in exactly one block. */
  lemma FreedOk(h: Heap, b: nat, j: nat)
    requires Place(h, b, j)
    ensures Freed(h, b, j).Ok() && Freed(h, b, j).owner.Keys == h.owner.Keys
  {
    var h' := Freed(h, b, j);
    FreedShape(h, b, j);
    hide Freed, Place;
    forall i: nat ensures h'.LinkOk(i) { FreedLink(h, b, j, i); }
    forall i: nat, k: nat ensures h'.Before(i, k) { FreedBefore(h, b, j, i, k); }
    forall i: nat ensures h'.FreeOk(i) { FreedFree(h, b, j, i); }
    forall a: nat ensures h'.HeldOk(a) { FreedHeld(h, b, j, a); }
    forall u: nat ensures h'.UnitOk(u) { FreedUnit(h, b, j, u); }
    FreedKeys(h, b, j);
  }

  lemma FreedKeys(h: Heap, b: nat, j: nat)
    requires j < |h.list|
    ensures Freed(h, b, j).owner.Keys == h.owner.Keys
  {
  }

  // ---------- malloc ----------

  /** A block of n units is cut off the end of list element i, or takes all of it. */
  ghost function Cut(h: Heap, i: nat, n: nat): Heap
    requires 0 < i < |h.list|
  {
    var p, prev := h.list[i], h.list[i - 1];
    if h.Size(p) == n then
      h.(ptr := h.ptr[prev := h.Ptr(p)], freep := prev, list := h.list[..i] + h.list[i + 1..], held := h.held[p := n])
    else
      var rest := h.Size(p) - n;
      var a: nat := if rest >= 0 then p + rest else p;
      h.(size := h.size[p := if rest >= 0 then rest else 0][a := n], freep := prev, held := h.held[a := n],
         owner := map u | u in h.owner :: if a <= u < a + n then a else h.owner[u])
  }

  ghost predicate CanCut(h: Heap, i: nat, n: nat) {
    h.Ok() && 0 < i < |h.list| && 0 < n <= h.Size(h.list[i])
  }

  /** The address of the block. */
  function CutAt(h: Heap, i: nat, n: nat): int
    requires i < |h.list|
  {
    h.End(h.list[i]) - n
  }

  /** Position k of the list without element i is position Skip(i, k) of the list. */
  function Skip(i: nat, k: nat): nat { if k < i then k else k + 1 }

  lemma CutWholeLink(h: Heap, i: nat, n: nat, k: nat)
    requires CanCut(h, i, n) && h.Size(h.list[i]) == n
    ensures Cut(h, i, n).LinkOk(k)
  {
    var h' := Cut(h, i, n);
    if k < |h'.list| {
      assert h.LinkOk(Skip(i, k)) && h.LinkOk(i - 1) && h.LinkOk(i) && h.Before(Skip(i, k), i - 1)
             && h.Before(i - 1, Skip(i, k));
      hide Heap.Ok;
      assert h'.list[k] == h.list[Skip(i, k)];
      assert k + 1 < |h'.list| ==> h'.list[k + 1] == h.list[Skip(i, k + 1)];
    }
  }

  lemma CutWholeFree(h: Heap, i: nat, n: nat, k: nat, l: nat)
    requires CanCut(h, i, n) && h.Size(h.list[i]) == n
    ensures Cut(h, i, n).Before(k, l) && Cut(h, i, n).FreeOk(k)
  {
    assert h.Before(Skip(i, k), Skip(i, l)) && h.FreeOk(Skip(i, k)) && h.Before(Skip(i, k), i)
           && h.Before(i, Skip(i, k));
    hide Heap.Ok;
  }

  lemma CutWholeUnit(h: Heap, i: nat, n: nat, u: nat)
    requires CanCut(h, i, n) && h.Size(h.list[i]) == n
    ensures Cut(h, i, n).UnitOk(u)
  {
    assert h.UnitOk(u);
    hide Heap.Ok;
    var h' := Cut(h, i, n);
    if u in h.owner && h.owner[u] in h.list && h.owner[u] != h.list[i] {
      var k :| 0 <= k < |h.list| && h.list[k] == h.owner[u];
      assert h'.list[if k < i then k else k - 1] == h.owner[u];
    }
  }

  lemma CutWholeOk(h: Heap, i: nat, n: nat)
    requires CanCut(h, i, n) && h.Size(h.list[i]) == n
    ensures Cut(h, i, n).Ok()
  {
    var h' := Cut(h, i, n);
    assert h.LinkOk(i) && h.FreeOk(i) && h.Before(0, i);
    assert h'.list[i - 1] == h.list[i - 1];
    forall k: nat ensures h'.LinkOk(k) { CutWholeLink(h, i, n, k); }
    forall k: nat, l: nat ensures h'.Before(k, l) { CutWholeFree(h, i, n, k, l); }
    forall k: nat ensures h'.FreeOk(k) { CutWholeFree(h, i, n, k, k); }
    forall a: nat ensures h'.HeldOk(a) { assert h.HeldOk(a); }
    forall u: nat ensures h'.UnitOk(u) { CutWholeUnit(h, i, n, u); }
  }

  lemma CutTailOk(h: Heap, i: nat, n: nat)
    requires CanCut(h, i, n) && h.Size(h.list[i]) > n
    ensures Cut(h, i, n).Ok()
  {
    var h', p, a := Cut(h, i, n), h.list[i], CutAt(h, i, n);
    assert h.LinkOk(i) && h.LinkOk(i - 1) && h.FreeOk(i) && h.Before(0, i);
    assert a in h.owner && h.owner[a] == p && h.HeldOk(a);
    forall k: nat | k < |h.list| ensures h.list[k] != a && (k != i ==> h.list[k] != p) {
      assert h.FreeOk(k) && h.Before(k, i) && h.Before(i, k) && h.LinkOk(k);
      assert k > 0 ==> h.list[k] in h.owner;
    }
    forall k: nat ensures h'.LinkOk(k) {
      assert h.LinkOk(k);
    }
    forall k: nat, l: nat ensures h'.Before(k, l) {
      assert h.Before(k, l);
    }
    forall k: nat ensures h'.FreeOk(k) {
      assert h.FreeOk(k);
    }
    forall b: nat ensures h'.HeldOk(b) {
      assert h.HeldOk(b);
      if b in h.held {
        assert b in h.owner;
      }
    }
    forall u: nat ensures h'.UnitOk(u) {
      assert h.UnitOk(u);
    }
  }

  /** malloc keeps the heap sound, and hands out a block that was free. */
  lemma CutOk(h: Heap, i: nat, n: nat)
    requires CanCut(h, i, n)
    ensures Cut(h, i, n).Ok() && Cut(h, i, n).owner.Keys == h.owner.Keys
    ensures var a := CutAt(h, i, n); a > BASE && a !in h.held && Cut(h, i, n).held == h.held[a := n]
  {
    assert h.LinkOk(i) && h.FreeOk(i) && h.Before(0, i);
    var a := CutAt(h, i, n);
    assert a in h.owner && h.owner[a] == h.list[i];
    assert h.HeldOk(a);
    if h.Size(h.list[i]) == n {
      CutWholeOk(h, i, n);
    } else {
      CutTailOk(h, i, n);
    }
  }

  /** Memory from sbrk, as a block that the program holds. */
  ghost function Granted(h: Heap, a: nat, n: nat): Heap {
    h.(size := h.size[a := n], held := h.held[a := n], owner := WithUnits(h.owner, a, n))
  }

  /** The owners with the n units from a on given to block a. */
  ghost function WithUnits(owner: map<nat, nat>, a: nat, n: nat): map<nat, nat> {
    if n == 0 then owner else WithUnits(owner, a, n - 1)[a + n - 1 := a]
  }

  lemma {:induction false} WithUnitsAt(owner: map<nat, nat>, a: nat, n: nat)
    ensures forall u: nat :: u in WithUnits(owner, a, n) <==> u in owner || a <= u < a + n
    ensures forall u | u in WithUnits(owner, a, n) ::
              WithUnits(owner, a, n)[u] == if a <= u < a + n then a else owner[u]
  {
    if n > 0 {
      WithUnitsAt(owner, a, n - 1);
    }
  }

  /** The memory is above base and has not been granted before. */
  ghost predicate Fresh(h: Heap, a: nat, n: nat) {
    a > BASE && n > 0 && forall u | a <= u < a + n :: u !in h.owner
  }

  lemma GrantOk(h: Heap, a: nat, n: nat)
    requires h.Ok() && Fresh(h, a, n)
    ensures Granted(h, a, n).Ok()
  {
    WithUnitsAt(h.owner, a, n);
    hide WithUnits;
    var h' := Granted(h, a, n);
    assert a !in h.owner && h.HeldOk(a);
    forall k: nat | k < |h.list| ensures h.list[k] != a {
      assert h.FreeOk(k) && h.LinkOk(k);
      assert k > 0 ==> h.list[k] in h.owner;
    }
    forall k: nat ensures h'.LinkOk(k) {
      assert h.LinkOk(k);
    }
    forall k: nat, l: nat ensures h'.Before(k, l) {
      assert h.Before(k, l);
    }
    forall k: nat ensures h'.FreeOk(k) {
      assert h.FreeOk(k);
      if 0 < k < |h.list| {
        GrantWhole(h, a, n, h.list[k]);
      }
    }
    forall b: nat ensures h'.HeldOk(b) {
      assert h.HeldOk(b);
      assert b in h.held ==> b in h.owner;
    }
    forall u: nat ensures h'.UnitOk(u) {
      assert h.UnitOk(u);
    }
  }

  /** A block that was there has its units as before. */
  lemma GrantWhole(h: Heap, a: nat, n: nat, b: nat)
    requires h.Whole(b) && b != a && Fresh(h, a, n)
    ensures Granted(h, a, n).Whole(b)
  {
    WithUnitsAt(h.owner, a, n);
    hide WithUnits;
    var h' := Granted(h, a, n);
    assert h'.End(b) == h.End(b);
  }

  // ---------- Sizes ----------

  function Units(nbytes: nat): nat { (nbytes + HEADER - 1) / HEADER + 1 }

  /** Behind its header a block has room for what was asked for, and not a whole unit more. */
  lemma UnitsHold(nbytes: nat)
    ensures HEADER * (Units(nbytes) - 1) >= nbytes > HEADER * (Units(nbytes) - 2)
            || (nbytes == 0 && Units(nbytes) == 1)
  {
  }

  function Request(nunits: nat): nat { if nunits < MIN_UNITS then MIN_UNITS else nunits }

  /** What sbrk makes of its argument, an int. */
  function ToInt(x: nat): int {
    var y := x % 0x1_0000_0000;
    if y < 0x8000_0000 then y else y - 0x1_0000_0000
  }

  const MAX_BYTES := 0x7fff_ffe0

  /** sbrk is asked for the memory that morecore is going to use. */
  predicate Fits(nunits: nat) {
    ToInt(Request(nunits) * HEADER) == Request(nunits) * HEADER
  }

  /** morecore asks sbrk for the memory it is going to use exactly if the request fits an int. */
  lemma SbrkArgument(nbytes: nat)
    requires nbytes < 0x1_0000_0000
    ensures Fits(Units(nbytes)) <==> nbytes <= MAX_BYTES
  {
  }

  /** For a little more than that, sbrk is asked to give memory back. */
  lemma SbrkShrinks()
    ensures ToInt(Request(Units(MAX_BYTES + 1)) * HEADER) == -0x8000_0000
  {
  }

  // ---------- The search loops ----------

  /** Steps along the circle of n from i to t. */
  function Dist(i: nat, t: nat, n: nat): nat {
    if i <= t then t - i else if t + n >= i then t + n - i else 0
  }

  function Succ(i: nat, n: nat): nat { if i + 1 < n then i + 1 else 0 }

  lemma DistStep(i: nat, t: nat, n: nat)
    requires i < n && t < n && i != t
    ensures Dist(Succ(i, n), t, n) == Dist(i, t, n) - 1
  {
  }

  lemma {:induction false} FindPlace(h: Heap, b: nat, k: nat) returns (j: nat)
    requires h.Ok() && b in h.held && k < |h.list| && h.list[k] < b
    ensures Place(h, b, j)
    decreases |h.list| - k
  {
    if k + 1 < |h.list| && h.list[k + 1] < b {
      j := FindPlace(h, b, k + 1);
    } else {
      j := k;
      if k + 1 < |h.list| {
        HeldBetween(h, b, k + 1);
      }
    }
  }

  /** The loop of free stops at that place and nowhere else. */
  lemma SearchStops(h: Heap, b: nat, j: nat, i: nat)
    requires Place(h, b, j) && i < |h.list|
    ensures var p, next := h.list[i], h.Next(i); (p < b < next || (p >= next && (b > p || b < next))) <==> i == j
  {
    assert h.Before(i, j) && h.Before(j, i) && h.Before(i, i + 1) && h.Before(j, j + 1) && h.Before(i + 1, j)
           && h.Before(j + 1, i)
           && h.Before(0, i) && h.HeldOk(b);
  }

  class Allocator {
    var ptr: map<nat, nat>
    var size: map<nat, nat>
    var freep: nat            // 0 before the first call
    ghost var list: seq<nat>
    ghost var held: map<nat, nat>
    ghost var owner: map<nat, nat>

    ghost function Snap(): Heap
      reads this
    {
      Heap(ptr, size, freep, list, held, owner)
    }

    ghost predicate Valid()
      reads this
    {
      if freep == 0 then list == [] && held == map[] && owner == map[] else Snap().Ok()
    }

    /** free: the block goes back to the list and is merged with its neighbours. */
    method Free(ap: nat) returns (ghost j: nat)
      requires Valid() && ap > 0 && ap - 1 in held
      modifies this
      ensures Valid() && freep != 0 && held == old(held) - {ap - 1} && owner.Keys == old(owner).Keys
      ensures Place(old(Snap()), ap - 1, j) && j < |old(list)| && Snap() == Freed(old(Snap()), ap - 1, j)
    {
      hide Heap.Ok, Place, Freed;
      var bp := ap - 1;
      ghost var h := Snap();
      BaseBelow(h, bp);
      j := FindPlace(h, bp, 0);
      var p := freep;
      ghost var i: nat := FreepIndex(h);
      PlaceIndex(h, bp, j);
      while true
        invariant Snap() == h && i < |list| && p == list[i]
        decreases Dist(i, j, |list|)
      {
        Linked(h, i);
        SearchStops(h, bp, j, i);
        if bp > p && bp < ptr[p] {
          break;
        }
        if p >= ptr[p] && (bp > p || bp < ptr[p]) {
          break;
        }
        DistStep(i, j, |list|);
        p := ptr[p];
        i := Succ(i, |list|);
      }
      Insert(bp, p, j);
    }

    /** The assignments at the end of free. */
    method Insert(bp: nat, p: nat, ghost j: nat)
      requires Place(Snap(), bp, j) && p == list[j]
      modifies this
      ensures Snap() == Freed(old(Snap()), bp, j) && Valid() && freep != 0
      ensures held == old(held) - {bp} && owner.Keys == old(owner).Keys
    {
      ghost var h := Snap();
      PlaceIndex(h, bp, j);
      hide Heap.Ok, Place, Freed;
      FreedOk(h, bp, j);
      InsertFacts(h, bp, j);
      ghost var h' := Freed(h, bp, j);
      var next := ptr[p];
      if bp + size[bp] == next {
        size := size[bp := size[bp] + size[next]];
        ptr := ptr[bp := ptr[next]];
      } else {
        ptr := ptr[bp := next];
      }
      if p + size[p] == bp {
        size := size[p := size[p] + size[bp]];
        ptr := ptr[p := ptr[bp]];
      } else {
        ptr := ptr[p := bp];
      }
      assert size == h'.size && ptr == h'.ptr;
      freep := p;
      list, held, owner := h'.list, h'.held, h'.owner;
    }

    /** morecore: memory from sbrk, if it grants any, joins the free list. */
    method Morecore(nunits: nat, grant: int) returns (p: nat)
      requires Valid() && freep != 0 && (grant != -1 ==> grant >= 0 && Fresh(Snap(), grant, Request(nunits)))
      modifies this
      ensures Valid() && p == (if grant == -1 then 0 else freep) && freep != 0 && held == old(held)
      ensures grant == -1 ==> Snap() == old(Snap())
      ensures grant != -1 ==>
                HasBlock(Snap(), nunits) && owner.Keys == WithUnits(old(owner), grant, Request(nunits)).Keys
    {
      hide Heap.Ok, Place, Freed;
      var nu := Request(nunits);
      if grant == -1 {
        return 0;
      }
      ghost var h := Snap();
      GrantOk(h, grant, nu);
      GrantNew(h, grant, nu);
      size := size[grant := nu];
      held, owner := held[grant := nu], WithUnits(owner, grant, nu);
      ghost var h1 := Snap();
      ghost var j := Free(grant + 1);
      JoinedBlock(h1, grant, j, nunits);
      assert held == h.held;
      return freep;
    }

    /** Thread the block at list element i off the list, or cut its end off. */
    method Take(p: nat, prevp: nat, nunits: nat, ghost i: nat) returns (a: nat)
      requires CanCut(Snap(), i, nunits) && p == list[i] && prevp == list[i - 1]
      modifies this
      ensures Snap() == Cut(old(Snap()), i, nunits) && Valid() && freep != 0
      ensures a == CutAt(old(Snap()), i, nunits) && a !in old(held) && held == old(held)[a := nunits]
              && owner.Keys == old(owner).Keys
    {
      ghost var h := Snap();
      CutOk(h, i, nunits);
      CutFacts(h, i, nunits);
      hide Heap.Ok, CanCut;
      if size[p] == nunits {
        ptr := ptr[prevp := ptr[p]];
        a := p;
      } else {
        size := size[p := size[p] - nunits];
        a := p + size[p];
        size := size[a := nunits];
      }
      freep := prevp;
      list, held, owner := Cut(h, i, nunits).list, Cut(h, i, nunits).held, Cut(h, i, nunits).owner;
    }

    /** malloc: a block for nbytes, from the free list or from sbrk, that no other holder has; or 0, if no
        free block is large enough and sbrk grants nothing.  It is astray if it takes memory for granted that
        sbrk was not asked for, which happens exactly if that memory is needed for more than MAX_BYTES. */
    method Malloc(nbytes: nat, grant: int) returns (r: nat, astray: bool)
      requires Valid() && nbytes < 0x1_0000_0000
      requires grant != -1 && nbytes <= MAX_BYTES ==> grant >= 0 && Fresh(Snap(), grant, Request(Units(nbytes)))
      modifies this
      ensures Valid() && freep != 0
      ensures astray <==> nbytes > MAX_BYTES && grant != -1 && !HasBlock(old(Snap()), Units(nbytes))
      ensures astray ==> r == 0
      ensures r == 0 ==>
                held == old(held) && owner == old(owner) && (grant == -1 || astray) && !HasBlock(Snap(), Units(nbytes))
      ensures r != 0 ==> r - 1 !in old(held) && held == old(held)[r - 1 := Units(nbytes)]
      ensures r != 0 ==> HEADER * (held[r - 1] - 1) >= nbytes
      ensures r != 0 ==> owner.Keys == old(owner).Keys || Gained(owner, old(owner), grant, Units(nbytes))
    {
      hide Heap.Ok, WithUnits, Fresh, HasBlock, Request, Fits;
      if freep == 0 {
        ptr, size := ptr[BASE := BASE], size[BASE := 0];
        freep := BASE;
        list := [BASE];
        FirstOk(Snap());
        if nbytes <= MAX_BYTES {
          FreshFirst(old(Snap()), Snap(), grant, Request(Units(nbytes)));
        }
      }
      NoBlockFirst(old(Snap()), Snap(), Units(nbytes));
      SbrkArgument(nbytes);
      UnitsHold(nbytes);
      r, astray := Search(Units(nbytes), grant);
    }

    /** The loop of malloc.  It goes around the list at most twice: after morecore there is a block that is
        large enough. */
    method Search(nunits: nat, grant: int) returns (r: nat, astray: bool)
      requires Valid() && freep != 0 && nunits > 0
      requires grant != -1 && Fits(nunits) ==> grant >= 0 && Fresh(Snap(), grant, Request(nunits))
      modifies this
      ensures Valid() && freep != 0
      ensures astray <==> !Fits(nunits) && grant != -1 && !HasBlock(old(Snap()), nunits)
      ensures astray ==> r == 0
      ensures r == 0 ==> Snap() == old(Snap()) && (grant == -1 || astray) && !HasBlock(Snap(), nunits)
      ensures r != 0 ==> r - 1 !in old(held) && held == old(held)[r - 1 := nunits]
      ensures r != 0 ==> owner.Keys == old(owner).Keys || Gained(owner, old(owner), grant, nunits)
    {
      hide Heap.Ok, CanCut, Cut, WithUnits, Fresh, HasBlock, Request, SmallSo, Fits;
      ghost var h0 := Snap();
      ghost var f: nat := FreepIndex(h0);
      var prevp := freep;
      Linked(h0, f);
      var p := ptr[prevp];
      ghost var i: nat := Succ(f, |list|);
      ghost var grown := false;
      SmallStart(h0, f, nunits);
      while true
        invariant Valid() && freep != 0 && held == h0.held
        invariant grown ==> (Fits(nunits) || grant == -1)
        invariant if grown then HasBlock(Snap(), nunits) && Gained(owner, h0.owner, grant, nunits) else Snap() == h0
        invariant f < |list| && list[f] == freep && i < |list| && p == list[i] && prevp == list[Pred(i, |list|)]
        invariant SmallSo(Snap(), f, i, nunits)
        decreases if grown then 0 else 1, Dist(i, f, |list|)
      {
        Linked(Snap(), i);
        if size[p] >= nunits {
          NotBase(Snap(), i, nunits);
          var a := Take(p, prevp, nunits, i);
          return a + 1, false;
        }
        SmallToo(Snap(), f, i, nunits);
        if p == freep {
          SameIndex(Snap(), f, i);
          if grant != -1 && !Fits(nunits) {
            return 0, true;
          }
          p := Morecore(nunits, grant);
          if p == 0 {
            return 0, false;
          }
          grown := true;
          f := FreepIndex(Snap());
          i := f;
          Linked(Snap(), i);
          SmallStart(Snap(), f, nunits);
        } else {
          DistStep(i, f, |list|);
        }
        prevp, p := p, ptr[p];
        i := Succ(i, |list|);
      }
    }
  }

  /** The heap has grown by what sbrk granted. */
  ghost predicate Gained(owner: map<nat, nat>, owner0: map<nat, nat>, grant: int, nunits: nat) {
    grant >= 0 && owner.Keys == WithUnits(owner0, grant, Request(nunits)).Keys
  }

  /** There is no free block before the first call of malloc, nor does the base become one. */
  lemma NoBlockFirst(h: Heap, h': Heap, n: nat)
    requires h' == h || (h'.list == [BASE] && |h.list| == 0)
    ensures HasBlock(h', n) <==> HasBlock(h, n)
  {
    assert forall k: nat :: |h'.list| <= 1 ==> !BlockAt(h', k, n);
  }

  /** Some free block has n units. */
  ghost predicate HasBlock(h: Heap, n: nat) {
    exists k :: BlockAt(h, k, n)
  }

  ghost predicate BlockAt(h: Heap, k: nat, n: nat) {
    0 < k < |h.list| && h.Size(h.list[k]) >= n
  }

  function Pred(i: nat, n: nat): int { if i == 0 then n - 1 else i - 1 }

  /** All blocks that the search has passed on its way to f are too small. */
  ghost predicate SmallSo(h: Heap, f: nat, i: nat, n: nat) {
    forall k {:trigger h.list[k]} | 0 <= k < |h.list| && Dist(k, f, |h.list|) > Dist(i, f, |h.list|) ::
      h.Size(h.list[k]) < n
  }

  lemma GrantNew(h: Heap, a: nat, n: nat)
    requires h.Ok() && Fresh(h, a, n)
    ensures a !in h.held
  {
    assert h.HeldOk(a) && a !in h.owner;
  }

  lemma JoinedBlock(h: Heap, b: nat, j: nat, n: nat)
    requires Place(h, b, j) && h.held[b] >= n
    ensures HasBlock(Freed(h, b, j), n)
  {
    FreedShape(h, b, j);
    assert h.HeldOk(b);
    var lo := if JoinsLeft(h, b, j) then j else j + 1;
    var h' := Freed(h, b, j);
    assert h'.list[lo] == Start(h, b, j);
    assert BlockAt(h', lo, n);
  }

  lemma CutFacts(h: Heap, i: nat, n: nat)
    requires CanCut(h, i, n)
    ensures var p := h.list[i]; p in h.ptr && p in h.size && h.size[p] >= n && h.list[i - 1] >= BASE
  {
    assert h.LinkOk(i) && h.Before(0, i - 1) && h.LinkOk(i - 1);
  }

  lemma FirstOk(h: Heap)
    requires h.list == [BASE] && h.freep == BASE && h.held == map[] && h.owner == map[]
    requires BASE in h.ptr && h.ptr[BASE] == BASE && BASE in h.size && h.size[BASE] == 0
    ensures h.Ok()
  {
    forall k: nat ensures h.LinkOk(k) { }
  }

  lemma FreshFirst(h: Heap, h': Heap, grant: int, n: nat)
    requires (grant != -1 ==> grant >= 0 && Fresh(h, grant, n)) && h'.owner == h.owner
    ensures grant != -1 ==> Fresh(h', grant, n)
  {
  }

  lemma NotBase(h: Heap, i: nat, n: nat)
    requires h.Ok() && i < |h.list| && h.Size(h.list[i]) >= n > 0
    ensures CanCut(h, i, n) && HasBlock(h, n)
  {
    assert BlockAt(h, i, n);
  }

  lemma SmallToo(h: Heap, f: nat, i: nat, n: nat)
    requires h.Ok() && f < |h.list| && i < |h.list| && SmallSo(h, f, i, n) && h.Size(h.list[i]) < n
    ensures i != f ==> SmallSo(h, f, Succ(i, |h.list|), n)
    ensures i == f ==> !HasBlock(h, n)
  {
    hide Heap.Ok;
    var m := |h.list|;
    if i != f {
      DistStep(i, f, m);
      forall k | 0 <= k < m && Dist(k, f, m) > Dist(Succ(i, m), f, m) ensures h.Size(h.list[k]) < n {
        DistInjective(k, i, f, m);
      }
    } else {
      forall k | 0 <= k < m ensures h.Size(h.list[k]) < n {
        DistInjective(k, i, f, m);
      }
    }
  }

  lemma DistInjective(i: nat, k: nat, f: nat, n: nat)
    requires i < n && k < n && f < n
    ensures Dist(i, f, n) == Dist(k, f, n) <==> i == k
    ensures Dist(f, f, n) == 0
  {
  }

  lemma SameIndex(h: Heap, i: nat, k: nat)
    requires h.Ok() && i < |h.list| && k < |h.list| && h.list[i] == h.list[k]
    ensures i == k
  {
    assert h.Before(i, k) && h.Before(k, i) && h.LinkOk(i) && h.LinkOk(k);
  }

  lemma SmallStart(h: Heap, f: nat, n: nat)
    requires f < |h.list|
    ensures SmallSo(h, f, Succ(f, |h.list|), n)
  {
  }

  lemma BaseBelow(h: Heap, b: nat)
    requires h.Ok() && b in h.held
    ensures h.list != [] && h.list[0] < b
  {
    assert h.HeldOk(b);
  }

  lemma FreepIndex(h: Heap) returns (i: nat)
    requires h.Ok()
    ensures i < |h.list| && h.list[i] == h.freep
  {
    i :| 0 <= i < |h.list| && h.list[i] == h.freep;
  }

  lemma PlaceIndex(h: Heap, b: nat, j: nat)
    requires Place(h, b, j)
    ensures j < |h.list| && h.list[j] < b && h.Ok()
  {
  }

  lemma Linked(h: Heap, i: nat)
    requires h.Ok() && i < |h.list|
    ensures h.list != [] && h.list[i] in h.ptr && h.list[i] in h.size
            && h.ptr[h.list[i]] == h.Next(i) == h.list[Succ(i, |h.list|)]
  {
    assert h.LinkOk(i);
  }

  /** The headers that free reads, and what becomes of them. */
  lemma InsertFacts(h: Heap, b: nat, j: nat)
    requires Place(h, b, j)
    ensures var p, next, h' := h.list[j], h.Next(j), Freed(h, b, j);
            && p in h.ptr && p in h.size && h.ptr[p] == next && b in h.size && next in h.size && next in h.ptr && p != b
            && p >= BASE
            && var size1 := if b + h.size[b] == next then h.size[b := h.size[b] + h.size[next]] else h.size;
               var ptr1 := h.ptr[b := if b + h.size[b] == next then h.ptr[next] else next];
               && h'.size == (if p + h.size[p] == b then size1[p := h.size[p] + size1[b]] else size1)
               && h'.ptr == ptr1[p := if p + h.size[p] == b then ptr1[b] else b]
               && h'.freep == p && h'.held == h.held - {b}
  {
    assert h.LinkOk(j) && h.LinkOk(j + 1) && h.LinkOk(0) && h.HeldOk(b) && h.Before(0, j);
  }

  // ---------- What it all means ----------

  /** No two blocks that the program holds share a unit, and none has a unit that is free. */
  lemma HeldDisjoint(h: Heap, a: nat, b: nat, u: nat)
    requires h.Ok() && a in h.held && a <= u < a + h.held[a]
    ensures b in h.held && b <= u < b + h.held[b] ==> a == b
    ensures forall i | 0 <= i < |h.list| :: !(h.list[i] <= u < h.End(h.list[i]))
  {
    assert h.HeldOk(a) && h.HeldOk(b) && u in h.owner;
    forall i | 0 <= i < |h.list| ensures !(h.list[i] <= u < h.End(h.list[i])) {
      assert h.FreeOk(i) && h.LinkOk(i);
    }
  }

  /** Nothing leaks: every unit that sbrk granted is in a free block or in a held one. */
  lemma NoLeak(h: Heap, u: nat)
    requires h.Ok() && u in h.owner
    ensures (exists i :: 0 <= i < |h.list| && h.list[i] <= u < h.End(h.list[i]))
            || (exists a :: a in h.held && a <= u < a + h.held[a])
  {
    assert h.UnitOk(u);
    var a := h.owner[u];
    if a in h.held {
      assert h.HeldOk(a);
    } else {
      var i :| 0 <= i < |h.list| && h.list[i] == a;
      assert 0 <= i < |h.list| && h.list[i] <= u < h.End(h.list[i]);
    }
  }

  /** Following the links from any free block visits the whole list in address order. */
  lemma {:induction false} ListIsCircular(h: Heap, i: nat, k: nat)
    requires h.Ok() && i + k < |h.list|
    ensures Follow(h, h.list[i], k) == h.list[i + k]
    ensures Follow(h, h.list[|h.list| - 1], 1) == h.list[0] == BASE
    ensures k > 0 ==> h.End(h.list[i]) < h.list[i + k]
  {
    assert h.LinkOk(|h.list| - 1) && h.Before(i, i + k);
    if k > 0 {
      ListIsCircular(h, i, k - 1);
      assert h.LinkOk(i + k - 1);
    }
  }

  ghost function Follow(h: Heap, a: nat, k: nat): nat {
    if k == 0 then a else h.Ptr(Follow(h, a, k - 1))
  }
}
