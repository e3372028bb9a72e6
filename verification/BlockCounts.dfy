/**
 How many disk blocks a write needs (kernel/fs.c): one for every block of the file that it touches and that
 is not mapped yet, and one for the indirect block if that is missing.
 */
module BlockCounts {
  import opened Blocks
  import opened FsLayout

  /** The blocks that the bitmap says are free. */
  function FreeBlocks(bits: seq<bool>): nat {
    if bits == [] then 0 else (if bits[0] then 0 else 1) + FreeBlocks(bits[1..])
  }

  lemma {:induction false} FreeBlocksSet(bits: seq<bool>, b: nat)
    requires b < |bits| && !bits[b]
    ensures FreeBlocks(bits[b := true]) == FreeBlocks(bits) - 1
  {
    if b == 0 {
      assert bits[b := true][1..] == bits[1..];
    } else {
      FreeBlocksSet(bits[1..], b - 1);
      assert bits[b := true][1..] == bits[1..][b - 1 := true];
    }
  }

  lemma {:induction false} NoFreeBlocks(bits: seq<bool>)
    ensures FreeBlocks(bits) == 0 <==> forall b | 0 <= b < |bits| :: bits[b]
  {
    if bits != [] {
      NoFreeBlocks(bits[1..]);
      assert forall b | 0 < b < |bits| :: bits[b] == bits[1..][b - 1];
      assert forall b | 0 <= b < |bits| - 1 :: bits[1..][b] == bits[b + 1];
    }
  }

  /** Slot s of inode i has no block. */
  predicate Lacks(d: Disk, i: nat, s: nat) {
    i < |d.inodes| && |d.inodes[i].addrs| == NDIRECT + 1 && s < NSLOTS && d.Slot(i, s) == 0
  }

  function Lack(d: Disk, i: nat, s: nat): nat { if Lacks(d, i, s) then 1 else 0 }

  /** Slot s is on the way to one of c blocks of a file from bn0 on. */
  predicate Reaches(s: nat, bn0: nat, c: nat) {
    && c > 0
    && if s < NDIRECT then bn0 <= s < bn0 + c else if s == NDIRECT then bn0 + c > NDIRECT else bn0 <= s - 1 < bn0 + c
  }

  // ---------- One slot ----------

  /** Slot s of inode i has a block now, from the free ones if it had none, and no other slot has changed. */
  ghost predicate SlotFilled(d: Disk, d': Disk, i: nat, s: nat) {
    && FreeBlocks(d'.bits) + Lack(d, i, s) == FreeBlocks(d.bits)
    && forall j, t {:trigger Lacks(d', j, t)} :: Lacks(d', j, t) <==> Lacks(d, j, t) && !(j == i && t == s)
  }

  lemma SlotFilledAlready(d: Disk, i: nat, s: nat)
    requires !Lacks(d, i, s)
    ensures SlotFilled(d, d, i, s)
  {
  }

  lemma FilledElsewhere(d: Disk, d': Disk, i: nat, s: nat, t: nat)
    requires SlotFilled(d, d', i, s)
    ensures FreeBlocks(d'.bits) + Lack(d, i, s) == FreeBlocks(d.bits) && (t != s ==> Lack(d', i, t) == Lack(d, i, t))
  {
  }

  lemma AttachFills(sb: Super, d: Disk, owner: Owner, i: nat, s: nat, b: nat)
    requires CanAttach(sb, d, owner, i, s, b)
    ensures SlotFilled(d, Attached(d, i, s, b), i, s)
  {
    var d' := Attached(d, i, s, b);
    AttachedSlot(sb, d, owner, i, s, b, i, s);
    FreeBlocksSet(d.bits, b);
    assert d'.bits == d.bits[b := true];
    forall j: nat, t: nat ensures Lacks(d', j, t) <==> Lacks(d, j, t) && !(j == i && t == s) {
      if j < sb.ninodes && t < NSLOTS {
        AttachedSlot(sb, d, owner, i, s, b, j, t);
        hide Inv, Attached, Disk.Slot;
      }
    }
  }

  // ---------- A run of blocks ----------

  /** All slots on the way to c blocks of file i from bn0 on are filled, and no others. */
  ghost predicate Fills(d: Disk, d': Disk, i: nat, bn0: nat, c: nat) {
    forall j, t {:trigger Lacks(d', j, t)} :: Lacks(d', j, t) <==> Lacks(d, j, t) && !(j == i && Reaches(t, bn0, c))
  }

  /** The blocks that c blocks of file i from bn0 on need; the indirect block counts for the first that needs it. */
  function Needs(d: Disk, i: nat, bn0: nat, c: nat): nat
    decreases c
  {
    if c == 0 then 0 else Needs(d, i, bn0, c - 1) + NeedsNext(d, i, bn0, c - 1)
  }

  function NeedsNext(d: Disk, i: nat, bn0: nat, k: nat): nat {
    Lack(d, i, SlotOf(bn0 + k))
    + if bn0 + k >= NDIRECT && !Reaches(NDIRECT, bn0, k) then Lack(d, i, NDIRECT) else 0
  }

  /** The blocks have been taken from the free ones, and no more than were needed. */
  ghost predicate Account(d: Disk, d': Disk, i: nat, bn0: nat, c: nat) {
    Fills(d, d', i, bn0, c) && FreeBlocks(d'.bits) + Needs(d, i, bn0, c) == FreeBlocks(d.bits)
  }

  lemma AccountNone(d: Disk, i: nat, bn0: nat)
    ensures Account(d, d, i, bn0, 0)
  {
  }

  lemma NeedsOne(d: Disk, i: nat, bn: nat)
    ensures Needs(d, i, bn, 1) == Lack(d, i, SlotOf(bn)) + if bn >= NDIRECT then Lack(d, i, NDIRECT) else 0
  {
    assert Needs(d, i, bn, 0) == 0;
  }

  lemma AccountDirect(d: Disk, d': Disk, i: nat, bn: nat)
    requires bn < NDIRECT && SlotFilled(d, d', i, bn)
    ensures Account(d, d', i, bn, 1)
  {
    hide Lacks;
    NeedsOne(d, i, bn);
  }

  lemma AccountIndirect(d: Disk, d1: Disk, d2: Disk, i: nat, bn: nat)
    requires NDIRECT <= bn && SlotFilled(d, d1, i, NDIRECT) && SlotFilled(d1, d2, i, bn + 1)
    ensures Account(d, d2, i, bn, 1)
  {
    hide Lacks;
    NeedsOne(d, i, bn);
    assert Lacks(d1, i, bn + 1) <==> Lacks(d, i, bn + 1);
    forall j: nat, t: nat ensures Lacks(d2, j, t) <==> Lacks(d, j, t) && !(j == i && Reaches(t, bn, 1)) {
      assert Lacks(d1, j, t) <==> Lacks(d, j, t) && !(j == i && t == NDIRECT);
    }
  }

  /** Blocks that are filled already need nothing; what the others need is what they add. */
  lemma {:induction false} NeedsJoin(d: Disk, d1: Disk, i: nat, bn0: nat, c: nat, bn1: nat, c1: nat)
    requires Fills(d, d1, i, bn0, c) && bn0 <= bn1 <= bn0 + c && (c == 0 ==> bn1 == bn0)
    ensures Needs(d, i, bn0, Joined(bn0, c, bn1, c1)) == Needs(d, i, bn0, c) + Needs(d1, i, bn1, c1)
    decreases c1
  {
    hide NeedsNext, Fills;
    if c1 > 0 {
      NeedsJoin(d, d1, i, bn0, c, bn1, c1 - 1);
      NeedsJoinNext(d, d1, i, bn0, c, bn1, c1 - 1);
    }
  }

  lemma NeedsJoinNext(d: Disk, d1: Disk, i: nat, bn0: nat, c: nat, bn1: nat, k: nat)
    requires Fills(d, d1, i, bn0, c) && bn0 <= bn1 <= bn0 + c && (c == 0 ==> bn1 == bn0)
    ensures NeedsNext(d1, i, bn1, k) == if bn1 + k < bn0 + c then 0 else NeedsNext(d, i, bn0, bn1 + k - bn0)
  {
    hide Lacks;
    var bn := bn1 + k;
    assert Lacks(d1, i, SlotOf(bn)) <==> Lacks(d, i, SlotOf(bn)) && !Reaches(SlotOf(bn), bn0, c);
    assert Lacks(d1, i, NDIRECT) <==> Lacks(d, i, NDIRECT) && !Reaches(NDIRECT, bn0, c);
  }

  function Joined(bn0: nat, c: nat, bn1: nat, c1: nat): nat {
    if bn1 + c1 > bn0 + c then bn1 + c1 - bn0 else c
  }

  lemma AccountJoin(d: Disk, d1: Disk, d2: Disk, i: nat, bn0: nat, c: nat, bn1: nat, c1: nat)
    requires Account(d, d1, i, bn0, c) && Account(d1, d2, i, bn1, c1)
    requires bn0 <= bn1 <= bn0 + c && (c == 0 ==> bn1 == bn0)
    ensures Account(d, d2, i, bn0, Joined(bn0, c, bn1, c1))
  {
    NeedsJoin(d, d1, i, bn0, c, bn1, c1);
    hide Lacks, Needs;
    var n := Joined(bn0, c, bn1, c1);
    forall j: nat, t: nat ensures Lacks(d2, j, t) <==> Lacks(d, j, t) && !(j == i && Reaches(t, bn0, n)) {
      assert Lacks(d1, j, t) <==> Lacks(d, j, t) && !(j == i && Reaches(t, bn0, c));
    }
  }

  /** If the next blocks cannot be had, then all of them together could not be had from the start. */
  lemma AccountFails(d: Disk, d1: Disk, i: nat, bn0: nat, c: nat, bn1: nat, c1: nat, total: nat)
    requires Account(d, d1, i, bn0, c) && FreeBlocks(d1.bits) < Needs(d1, i, bn1, c1)
    requires bn0 <= bn1 <= bn0 + c && (c == 0 ==> bn1 == bn0) && Joined(bn0, c, bn1, c1) <= total
    ensures FreeBlocks(d.bits) < Needs(d, i, bn0, total)
  {
    NeedsJoin(d, d1, i, bn0, c, bn1, c1);
    NeedsGrows(d, i, bn0, Joined(bn0, c, bn1, c1), total);
  }

  lemma {:induction false} NeedsGrows(d: Disk, i: nat, bn0: nat, c: nat, c': nat)
    requires c <= c'
    ensures Needs(d, i, bn0, c) <= Needs(d, i, bn0, c')
    decreases c'
  {
    if c < c' {
      NeedsGrows(d, i, bn0, c, c' - 1);
    }
  }

  /** A disk with the same slots and bits has the same accounts. */
  lemma AccountSame(d: Disk, d1: Disk, d2: Disk, i: nat, bn0: nat, c: nat)
    requires Account(d, d1, i, bn0, c) && d2.bits == d1.bits && forall j, t :: Lacks(d2, j, t) <==> Lacks(d1, j, t)
    ensures Account(d, d2, i, bn0, c)
  {
    hide Lacks;
  }

  lemma PatchLacks(sb: Super, d: Disk, owner: Owner, i: nat, bn: nat, v: Block, j: nat, t: nat)
    requires Inv(sb, d, owner) && i < sb.ninodes && bn < MAXFILE && d.Addr(i, bn) != 0 && d.Addr(i, bn) < |d.blocks|
    ensures Lacks(d.(blocks := d.blocks[d.Addr(i, bn) := v]), j, t) <==> Lacks(d, j, t)
  {
    var a := d.Addr(i, bn);
    assert SlotOk(d, owner, i, SlotOf(bn)) && OwnerOk(sb, d, owner, a);
    if j < sb.ninodes && t < NSLOTS {
      DataWriteSlot(sb, d, owner, a, v, j, t);
    }
  }

  lemma ResizeLacks(d: Disk, d': Disk, i: nat, size: nat, j: nat, t: nat)
    requires Resized(d, d', i, size)
    ensures Lacks(d', j, t) <==> Lacks(d, j, t)
  {
  }

  lemma PatchAccount(sb: Super, d: Disk, d1: Disk, owner: Owner, i: nat, bn: nat, v: Block)
    requires Inv(sb, d1, owner) && i < sb.ninodes && bn < MAXFILE && d1.Addr(i, bn) != 0 && d1.Addr(i, bn) < |d1.blocks|
    requires Account(d, d1, i, bn, 1)
    ensures Account(d, d1.(blocks := d1.blocks[d1.Addr(i, bn) := v]), i, bn, 1)
  {
    var d2 := d1.(blocks := d1.blocks[d1.Addr(i, bn) := v]);
    hide Inv, Account, Lacks;
    forall j: nat, t: nat ensures Lacks(d2, j, t) <==> Lacks(d1, j, t) {
      PatchLacks(sb, d1, owner, i, bn, v, j, t);
    }
    AccountSame(d, d1, d2, i, bn, 1);
  }

  lemma ResizeAccount(d: Disk, d1: Disk, d2: Disk, i: nat, size: nat, bn: nat, c: nat)
    requires Account(d, d1, i, bn, c) && Resized(d1, d2, i, size)
    ensures Account(d, d2, i, bn, c)
  {
    hide Account, Lacks;
    forall j: nat, t: nat ensures Lacks(d2, j, t) <==> Lacks(d1, j, t) {
      ResizeLacks(d1, d2, i, size, j, t);
    }
    AccountSame(d, d1, d2, i, bn, c);
  }

  lemma AccountEnds(d: Disk, d': Disk, i: nat, bn0: nat, c: nat)
    requires Account(d, d', i, bn0, c)
    ensures FreeBlocks(d.bits) >= Needs(d, i, bn0, c)
  {
  }
}
