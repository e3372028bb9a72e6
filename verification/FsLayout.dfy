/**
 The on-disk layout of the file system (kernel/fs.h, kernel/fs.c): the free-block bitmap, inodes with
 direct and indirect block addresses, and the bytes of a file.

 A disk is a value here; FileSystem.dfy has the routines that change one in place.
 */
module FsLayout {
  import opened Blocks

  const NDIRECT := 12
  const NINDIRECT := 256  // BSIZE / sizeof(uint)
  const MAXFILE := 268    // NDIRECT + NINDIRECT
  const BPB := 8192       // bitmap bits per block
  const IPB := 16         // inodes per block
  const NSLOTS := 269     // addresses an inode can hold: direct, indirect block, indirect entries

  datatype Super = Super(size: nat, ninodes: nat, inodestart: nat, bmapstart: nat, datastart: nat) {
    /** Boot block, superblock, log, inodes and bitmap lie below datastart. */
    predicate Ok() {
      && 1 <= datastart <= size <= UINT_LIMIT
      && inodestart + ninodes / IPB < bmapstart && bmapstart + size / BPB < datastart
    }

    function IBlock(inum: nat): nat { inum / IPB + inodestart }
    function BBlock(b: nat): nat { b / BPB + bmapstart }

    /** The number of bitmap blocks, and the blocks themselves. */
    function Bitmaps(): nat { (size + BPB - 1) / BPB }

    function BitmapBlocks(): set<nat> { Range(bmapstart, Bitmaps()) }
  }

  /** Every inode and every bit of the bitmap has a place of its own, in a block that holds nothing else. */
  lemma PlacesApart(sb: Super, i: nat, j: nat, b: nat, c: nat)
    requires sb.Ok() && i < sb.ninodes && j < sb.ninodes && b < sb.size && c < sb.size
    ensures sb.inodestart <= sb.IBlock(i) < sb.bmapstart <= sb.BBlock(b) < sb.datastart
    ensures sb.IBlock(i) == sb.IBlock(j) && i % IPB == j % IPB ==> i == j
    ensures sb.BBlock(b) == sb.BBlock(c) && b % BPB == c % BPB ==> b == c
  {
    assert i == i / IPB * IPB + i % IPB && j == j / IPB * IPB + j % IPB;
    assert b == b / BPB * BPB + b % BPB && c == c / BPB * BPB + c % BPB;
  }

  /** The bitmap blocks are those that hold the bit of some block. */
  lemma BitmapBlocksUsed(sb: Super, x: nat)
    ensures x in sb.BitmapBlocks() <==> exists b: nat :: b < sb.size && sb.BBlock(b) == x
  {
    if x in sb.BitmapBlocks() {
      var b := (x - sb.bmapstart) * BPB;
      assert b < sb.size && sb.BBlock(b) == x;
    }
  }

  /** The n numbers from x on. */
  function Range(x: nat, n: nat): (r: set<nat>)
    ensures |r| == n && forall b: nat :: b in r <==> x <= b < x + n
  {
    if n == 0 then {} else Range(x, n - 1) + {x + n - 1}
  }

  datatype Dinode = Dinode(typ: nat, major: nat, minor: nat, nlink: nat, size: nat, addrs: seq<Uint>)

  /** What is on disk: the bitmap, the inodes and the contents of the blocks. */
  datatype Disk = Disk(bits: seq<bool>, inodes: seq<Dinode>, blocks: seq<Block>) {

    predicate Shaped(sb: Super) {
      && sb.Ok() && |bits| == |blocks| == sb.size && |inodes| == sb.ninodes
      && forall i | 0 <= i < |inodes| :: |inodes[i].addrs| == NDIRECT + 1
    }

    /** Address slot s of inode i: direct addresses, the indirect block, the entries of that block. */
    function Slot(i: nat, s: nat): Uint
      requires i < |inodes| && |inodes[i].addrs| == NDIRECT + 1 && s < NSLOTS
    {
      var ind := inodes[i].addrs[NDIRECT];
      if s <= NDIRECT then inodes[i].addrs[s]
      else if ind == 0 || ind >= |blocks| then 0
      else Word(blocks[ind], s - NDIRECT - 1)
    }

    /** The address of block bn of file i, or 0. */
    function Addr(i: nat, bn: nat): Uint
      requires i < |inodes| && |inodes[i].addrs| == NDIRECT + 1 && bn < MAXFILE
    {
      Slot(i, SlotOf(bn))
    }
  }

  function SlotOf(bn: nat): nat {
    if bn < NDIRECT then bn else bn + 1
  }

  type Owner = map<nat, (nat, nat)>  // the slot (inode, slot) that holds a block's address

  ghost predicate SlotOk(d: Disk, owner: Owner, i: nat, s: nat)
    requires i < |d.inodes| && |d.inodes[i].addrs| == NDIRECT + 1 && s < NSLOTS
  {
    var a := d.Slot(i, s);
    a != 0 ==> a in owner && owner[a] == (i, s)
  }

  ghost predicate OwnerOk(sb: Super, d: Disk, owner: Owner, b: nat)
    requires d.Shaped(sb)
  {
    b in owner ==>
      && sb.datastart <= b < sb.size && d.bits[b]
      && var (i, s) := owner[b];
      i < sb.ninodes && s < NSLOTS && d.Slot(i, s) == b
  }

  ghost predicate BitOk(sb: Super, d: Disk, owner: Owner, b: nat)
    requires d.Shaped(sb) && b < sb.size
  {
    (b < sb.datastart ==> d.bits[b]) && (b >= sb.datastart && d.bits[b] ==> b in owner)
  }

  ghost predicate FileOk(d: Disk, i: nat)
    requires i < |d.inodes| && |d.inodes[i].addrs| == NDIRECT + 1
  {
    && d.inodes[i].size <= MAXFILE * BSIZE
    && forall bn | 0 <= bn < MAXFILE && bn * BSIZE < d.inodes[i].size :: d.Addr(i, bn) != 0
  }

  /** Blocks and address slots match one to one, and no file has holes. */
  ghost predicate Inv(sb: Super, d: Disk, owner: Owner) {
    && d.Shaped(sb)
    && (forall i, s {:trigger SlotOk(d, owner, i, s)} | 0 <= i < sb.ninodes && 0 <= s < NSLOTS ::
        SlotOk(d, owner, i, s))
    && (forall b {:trigger OwnerOk(sb, d, owner, b)} :: OwnerOk(sb, d, owner, b))
    && (forall b {:trigger BitOk(sb, d, owner, b)} | 0 <= b < sb.size :: BitOk(sb, d, owner, b))
    && (forall i {:trigger FileOk(d, i)} | 0 <= i < sb.ninodes :: FileOk(d, i))
  }

  ghost predicate Holds(d: Disk, b: nat, i: nat, s: nat) {
    b != 0 && i < |d.inodes| && |d.inodes[i].addrs| == NDIRECT + 1 && s < NSLOTS && d.Slot(i, s) == b
  }

  /** The invariant in terms of the disk alone: a bit is set exactly when its block is metadata or is
      the address in one slot of one inode, and no block is in two slots. */
  lemma BitSetIff(sb: Super, d: Disk, owner: Owner, b: nat)
    requires Inv(sb, d, owner) && b < sb.size
    ensures d.bits[b] <==> b < sb.datastart || exists i: nat, s: nat :: Holds(d, b, i, s)
    ensures forall i: nat, s: nat | Holds(d, b, i, s) :: b >= sb.datastart
    ensures forall i: nat, s: nat, j: nat, t: nat | Holds(d, b, i, s) && Holds(d, b, j, t) :: i == j && s == t
  {
    assert BitOk(sb, d, owner, b);
    assert OwnerOk(sb, d, owner, b);
    if b in owner && b > 0 {
      assert Holds(d, b, owner[b].0, owner[b].1);
    }
    forall i: nat, s: nat | Holds(d, b, i, s) ensures b in owner && owner[b] == (i, s) {
      assert SlotOk(d, owner, i, s);
    }
  }

  // ---------- Attaching a new block to a slot ----------

  function Zero(): (z: Block)
    ensures forall i | 0 <= i < BSIZE :: z[i] == 0
  {
    seq(BSIZE, _ => 0)
  }

  /** balloc: block b is marked in use and zeroed. */
  function Allocated(d: Disk, b: nat): Disk
    requires b < |d.bits| && b < |d.blocks|
  {
    d.(bits := d.bits[b := true], blocks := d.blocks[b := Zero()])
  }

  /** Address a is stored in slot s of inode i. */
  function Stored(d: Disk, i: nat, s: nat, a: Uint): Disk
    requires i < |d.inodes| && |d.inodes[i].addrs| == NDIRECT + 1 && s < NSLOTS
    requires s > NDIRECT ==> d.inodes[i].addrs[NDIRECT] < |d.blocks|
  {
    var ino := d.inodes[i];
    if s <= NDIRECT then d.(inodes := d.inodes[i := ino.(addrs := ino.addrs[s := a])])
    else
      var ind := ino.addrs[NDIRECT];
      d.(blocks := d.blocks[ind := SetWord(d.blocks[ind], s - NDIRECT - 1, a)])
  }

  function Attached(d: Disk, i: nat, s: nat, b: Uint): Disk
    requires i < |d.inodes| && |d.inodes[i].addrs| == NDIRECT + 1 && s < NSLOTS
    requires b < |d.bits| && b < |d.blocks|
    requires s > NDIRECT ==> d.inodes[i].addrs[NDIRECT] < |d.blocks|
  {
    Stored(Allocated(d, b), i, s, b)
  }

  ghost predicate CanAttach(sb: Super, d: Disk, owner: Owner, i: nat, s: nat, b: nat) {
    && Inv(sb, d, owner) && i < sb.ninodes && s < NSLOTS && b < sb.size && !d.bits[b]
    && d.Slot(i, s) == 0 && (s > NDIRECT ==> 0 < d.inodes[i].addrs[NDIRECT] < sb.size)
  }

  lemma AttachedSlot(sb: Super, d: Disk, owner: Owner, i: nat, s: nat, b: nat, j: nat, t: nat)
    requires CanAttach(sb, d, owner, i, s, b) && j < sb.ninodes && t < NSLOTS
    ensures b !in owner && sb.datastart <= b
    ensures Attached(d, i, s, b).Shaped(sb)
    ensures Attached(d, i, s, b).Slot(j, t) == if i == j && s == t then b else d.Slot(j, t)
  {
    var d' := Attached(d, i, s, b);
    assert OwnerOk(sb, d, owner, b) && BitOk(sb, d, owner, b);
    if t > NDIRECT {
      var ind := d.inodes[j].addrs[NDIRECT];
      assert SlotOk(d, owner, j, NDIRECT) && OwnerOk(sb, d, owner, ind);
      if s > NDIRECT {
        assert SlotOk(d, owner, i, NDIRECT);
        WordOfSetWord(d.blocks[d.inodes[i].addrs[NDIRECT]], s - NDIRECT - 1, b, t - NDIRECT - 1);
      }
      if s == NDIRECT && i == j {
        assert Word(Zero(), t - NDIRECT - 1) == 0;
      }
    }
  }

  /** A free block put into an empty slot keeps blocks and slots matched one to one. */
  lemma AttachKeepsInv(sb: Super, d: Disk, owner: Owner, i: nat, s: nat, b: nat)
    requires CanAttach(sb, d, owner, i, s, b)
    ensures sb.datastart <= b && Inv(sb, Attached(d, i, s, b), owner[b := (i, s)])
  {
    var d', owner' := Attached(d, i, s, b), owner[b := (i, s)];
    forall j, t | 0 <= j < sb.ninodes && 0 <= t < NSLOTS ensures SlotOk(d', owner', j, t) {
      AttachedSlot(sb, d, owner, i, s, b, j, t);
      assert SlotOk(d, owner, j, t);
    }
    AttachedSlot(sb, d, owner, i, s, b, i, s);
    forall c: nat ensures OwnerOk(sb, d', owner', c) {
      assert OwnerOk(sb, d, owner, c);
      if c in owner {
        AttachedSlot(sb, d, owner, i, s, b, owner[c].0, owner[c].1);
      }
    }
    forall c | 0 <= c < sb.size ensures BitOk(sb, d', owner', c) {
      assert BitOk(sb, d, owner, c);
    }
    forall j | 0 <= j < sb.ninodes ensures FileOk(d', j) {
      assert FileOk(d, j);
      forall bn | 0 <= bn < MAXFILE && bn * BSIZE < d'.inodes[j].size ensures d'.Addr(j, bn) != 0 {
        assert d.Addr(j, bn) != 0;
        AttachedSlot(sb, d, owner, i, s, b, j, SlotOf(bn));
      }
    }
  }

  // ---------- Writing the data of a file ----------

  /** Writing a data block changes no address anywhere. */
  lemma DataWriteSlot(sb: Super, d: Disk, owner: Owner, b: nat, v: Block, j: nat, t: nat)
    requires Inv(sb, d, owner) && b in owner && owner[b].1 != NDIRECT && b < sb.size && j < sb.ninodes && t < NSLOTS
    ensures var d' := d.(blocks := d.blocks[b := v]); d'.Shaped(sb) && d'.Slot(j, t) == d.Slot(j, t)
  {
    assert SlotOk(d, owner, j, NDIRECT);
  }

  lemma SameSlotsKeepInv(sb: Super, d: Disk, d': Disk, owner: Owner)
    requires Inv(sb, d, owner) && d'.Shaped(sb) && d'.bits == d.bits
    requires forall j, t | 0 <= j < sb.ninodes && 0 <= t < NSLOTS :: d'.Slot(j, t) == d.Slot(j, t)
    requires forall j | 0 <= j < sb.ninodes :: d'.inodes[j].size == d.inodes[j].size || FileOk(d', j)
    ensures Inv(sb, d', owner)
  {
    forall j, t | 0 <= j < sb.ninodes && 0 <= t < NSLOTS ensures SlotOk(d', owner, j, t) {
      assert SlotOk(d, owner, j, t);
    }
    forall c: nat ensures OwnerOk(sb, d', owner, c) {
      assert OwnerOk(sb, d, owner, c);
      assert c in owner ==> d'.Slot(owner[c].0, owner[c].1) == d.Slot(owner[c].0, owner[c].1);
    }
    forall c | 0 <= c < sb.size ensures BitOk(sb, d', owner, c) {
      assert BitOk(sb, d, owner, c);
    }
    forall j | 0 <= j < sb.ninodes ensures FileOk(d', j) {
      assert FileOk(d, j);
      if d'.inodes[j].size == d.inodes[j].size {
        forall bn | 0 <= bn < MAXFILE && bn * BSIZE < d'.inodes[j].size ensures d'.Addr(j, bn) != 0 {
          assert d.Addr(j, bn) != 0;
          assert d'.Slot(j, SlotOf(bn)) == d.Slot(j, SlotOf(bn));
        }
      }
    }
  }

  lemma DataWriteKeepsInv(sb: Super, d: Disk, owner: Owner, b: nat, v: Block)
    requires Inv(sb, d, owner) && b in owner && owner[b].1 != NDIRECT && b < sb.size
    ensures Inv(sb, d.(blocks := d.blocks[b := v]), owner)
  {
    var d' := d.(blocks := d.blocks[b := v]);
    forall j, t | 0 <= j < sb.ninodes && 0 <= t < NSLOTS ensures d'.Slot(j, t) == d.Slot(j, t) {
      DataWriteSlot(sb, d, owner, b, v, j, t);
    }
    hide Disk.Slot;
    SameSlotsKeepInv(sb, d, d', owner);
  }

  // ---------- Freeing all blocks of an inode ----------

  /** itrunc: every address of inode i is gone, and its blocks are free. */
  ghost predicate Truncated(sb: Super, d: Disk, d': Disk, owner: Owner, i: nat) {
    && d.Shaped(sb) && d'.Shaped(sb) && i < sb.ninodes && d'.blocks == d.blocks
    && d'.inodes == d.inodes[i := d.inodes[i].(size := 0, addrs := seq(NDIRECT + 1, _ => 0))]
    && forall b | 0 <= b < sb.size :: d'.bits[b] == (d.bits[b] && !(b in owner && owner[b].0 == i))
  }

  lemma TruncateKeepsInv(sb: Super, d: Disk, d': Disk, owner: Owner, i: nat)
    requires Inv(sb, d, owner) && Truncated(sb, d, d', owner, i)
    ensures Inv(sb, d', map b | b in owner && owner[b].0 != i :: owner[b])
  {
    var owner' := map b | b in owner && owner[b].0 != i :: owner[b];
    forall j, t | 0 <= j < sb.ninodes && 0 <= t < NSLOTS ensures SlotOk(d', owner', j, t) {
      assert SlotOk(d, owner, j, t);
    }
    forall c: nat ensures OwnerOk(sb, d', owner', c) {
      assert OwnerOk(sb, d, owner, c);
    }
    forall c | 0 <= c < sb.size ensures BitOk(sb, d', owner', c) {
      assert BitOk(sb, d, owner, c) && OwnerOk(sb, d, owner, c);
    }
    forall j | 0 <= j < sb.ninodes ensures FileOk(d', j) {
      assert FileOk(d, j);
      if j != i {
        forall bn | 0 <= bn < MAXFILE && bn * BSIZE < d'.inodes[j].size ensures d'.Addr(j, bn) != 0 {
          assert d.Addr(j, bn) != 0;
        }
      }
    }
  }

  /** Of the blocks in the slots of inode i, those in the slots done have been freed. */
  ghost predicate Freed(sb: Super, d: Disk, bits: seq<bool>, owner: Owner, i: nat, done: set<nat>) {
    d.Shaped(sb) && |bits| == sb.size
    && forall b | 0 <= b < sb.size :: bits[b] == (d.bits[b] && !(b in owner && owner[b].0 == i && owner[b].1 in done))
  }

  /** The block in a slot not yet done is still in use, so bfree does not panic. */
  lemma FreeNext(sb: Super, d: Disk, bits: seq<bool>, owner: Owner, i: nat, done: set<nat>, s: nat)
    requires Inv(sb, d, owner) && Freed(sb, d, bits, owner, i, done) && i < sb.ninodes && s < NSLOTS && s !in done
    ensures var b := d.Slot(i, s);
            if b == 0 then Freed(sb, d, bits, owner, i, done + {s})
            else b < sb.size && bits[b] && Freed(sb, d, bits[b := false], owner, i, done + {s})
  {
    var b := d.Slot(i, s);
    assert SlotOk(d, owner, i, s) && OwnerOk(sb, d, owner, b);
    forall c | 0 <= c < sb.size && c in owner && owner[c] == (i, s) ensures c == b {
      assert OwnerOk(sb, d, owner, c);
    }
  }

  lemma FreedNone(sb: Super, d: Disk, owner: Owner, i: nat)
    requires Inv(sb, d, owner)
    ensures Freed(sb, d, d.bits, owner, i, {})
  {
  }

  lemma IndirectInUse(sb: Super, d: Disk, owner: Owner, i: nat)
    requires Inv(sb, d, owner) && i < sb.ninodes && d.inodes[i].addrs[NDIRECT] != 0
    ensures d.inodes[i].addrs[NDIRECT] < sb.size
  {
    assert SlotOk(d, owner, i, NDIRECT) && OwnerOk(sb, d, owner, d.inodes[i].addrs[NDIRECT]);
  }

  lemma AllFreed(sb: Super, d: Disk, d': Disk, owner: Owner, i: nat, done: set<nat>)
    requires Inv(sb, d, owner) && Freed(sb, d, d'.bits, owner, i, done) && i < sb.ninodes
    requires forall s | 0 <= s < NSLOTS :: s in done || d.Slot(i, s) == 0
    requires d'.blocks == d.blocks
             && d'.inodes == d.inodes[i := d.inodes[i].(size := 0, addrs := seq(NDIRECT + 1, _ => 0))]
    ensures Truncated(sb, d, d', owner, i)
  {
    forall b | 0 <= b < sb.size && b in owner && owner[b].0 == i ensures owner[b].1 in done {
      assert OwnerOk(sb, d, owner, b);
    }
  }

  // ---------- The bytes of a file ----------

  ghost predicate Mapped(sb: Super, d: Disk, i: nat, bn: nat) {
    d.Shaped(sb) && i < sb.ninodes && bn < MAXFILE && 0 < d.Addr(i, bn) < sb.size
  }

  function ByteAt(sb: Super, d: Disk, i: nat, k: nat): Byte
    requires Mapped(sb, d, i, k / BSIZE)
  {
    d.blocks[d.Addr(i, k / BSIZE)][k % BSIZE]
  }

  lemma SizeMapped(sb: Super, d: Disk, owner: Owner, i: nat, k: nat)
    requires Inv(sb, d, owner) && i < sb.ninodes && k < d.inodes[i].size
    ensures Mapped(sb, d, i, k / BSIZE)
  {
    assert FileOk(d, i);
    assert d.Addr(i, k / BSIZE) != 0;
    assert SlotOk(d, owner, i, SlotOf(k / BSIZE));
    assert OwnerOk(sb, d, owner, d.Addr(i, k / BSIZE));
  }

  /** The address of a data block is in the data area, and writing data there keeps the invariant. */
  lemma NonzeroMapped(sb: Super, d: Disk, owner: Owner, i: nat, bn: nat, v: Block)
    requires Inv(sb, d, owner) && i < sb.ninodes && bn < MAXFILE && d.Addr(i, bn) != 0
    ensures Mapped(sb, d, i, bn)
    ensures Inv(sb, d.(blocks := d.blocks[d.Addr(i, bn) := v]), owner)
  {
    var a := d.Addr(i, bn);
    assert SlotOk(d, owner, i, SlotOf(bn)) && OwnerOk(sb, d, owner, a);
    DataWriteKeepsInv(sb, d, owner, a, v);
  }

  lemma SizeBound(sb: Super, d: Disk, owner: Owner, i: nat)
    requires Inv(sb, d, owner) && i < sb.ninodes
    ensures d.inodes[i].size <= MAXFILE * BSIZE
  {
    assert FileOk(d, i);
  }

  /** The contents of file i. */
  ghost function Content(sb: Super, d: Disk, owner: Owner, i: nat): (c: seq<Byte>)
    requires Inv(sb, d, owner) && i < sb.ninodes
    ensures |c| == d.inodes[i].size
  {
    seq(d.inodes[i].size, k requires 0 <= k < d.inodes[i].size => SizeMapped(sb, d, owner, i, k); ByteAt(sb, d, i, k))
  }

  // ---------- Growing a file by a block ----------

  /** Block n of file j is where it was, with the same contents. */
  ghost predicate Kept(sb: Super, d: Disk, d': Disk, j: nat, n: nat) {
    && Mapped(sb, d, j, n) ==>
      && Mapped(sb, d', j, n) && d'.Addr(j, n) == d.Addr(j, n)
      && d'.blocks[d.Addr(j, n)] == d.blocks[d.Addr(j, n)]
  }

  /** The inodes differ in nothing but addresses. */
  ghost predicate SameInodes(d: Disk, d': Disk) {
    && |d'.inodes| == |d.inodes|
    && forall j | 0 <= j < |d.inodes| :: d'.inodes[j] == d.inodes[j].(addrs := d'.inodes[j].addrs)
  }

  /** All mapped blocks of all files are kept. */
  ghost predicate Extends(sb: Super, d: Disk, d': Disk) {
    && SameInodes(d, d')
    && forall j, n {:trigger Kept(sb, d, d', j, n)} | 0 <= j < sb.ninodes && 0 <= n < MAXFILE :: Kept(sb, d, d', j, n)
  }

  lemma AttachKeeps(sb: Super, d: Disk, owner: Owner, i: nat, s: nat, b: nat, j: nat, n: nat)
    requires CanAttach(sb, d, owner, i, s, b) && j < sb.ninodes && n < MAXFILE
    ensures Attached(d, i, s, b).Shaped(sb) && Kept(sb, d, Attached(d, i, s, b), j, n)
  {
    AttachedSlot(sb, d, owner, i, s, b, j, SlotOf(n));
    assert SlotOk(d, owner, j, SlotOf(n));
    if s > NDIRECT {
      assert SlotOk(d, owner, i, NDIRECT);
    }
  }

  lemma AttachExtends(sb: Super, d: Disk, owner: Owner, i: nat, s: nat, b: nat)
    requires CanAttach(sb, d, owner, i, s, b)
    ensures Extends(sb, d, Attached(d, i, s, b))
  {
    var d' := Attached(d, i, s, b);
    assert SameInodes(d, d');
    forall j, n | 0 <= j < sb.ninodes && 0 <= n < MAXFILE ensures Kept(sb, d, d', j, n) {
      AttachKeeps(sb, d, owner, i, s, b, j, n);
    }
  }

  lemma ExtendsTrans(sb: Super, d: Disk, d1: Disk, d2: Disk)
    requires Extends(sb, d, d1) && Extends(sb, d1, d2)
    ensures Extends(sb, d, d2)
  {
    hide Mapped;
    forall j, n | 0 <= j < sb.ninodes && 0 <= n < MAXFILE ensures Kept(sb, d, d2, j, n) {
      assert Kept(sb, d, d1, j, n) && Kept(sb, d1, d2, j, n);
    }
  }

  lemma ExtendsSelf(sb: Super, d: Disk)
    ensures Extends(sb, d, d)
  {
  }

  // ---------- Writing bytes ----------

  /** Bytes src put into block v at position o. */
  function Patch(v: Block, o: nat, src: seq<Byte>): Block
    requires o + |src| <= BSIZE
  {
    v[..o] + src + v[o + |src|..]
  }

  /** Byte k of file i after the first tot bytes of src have been written at offset off. */
  ghost predicate Wrote(sb: Super, d: Disk, d': Disk, i: nat, off: nat, src: seq<Byte>, k: nat) {
    && (off <= k < off + |src| ==> Mapped(sb, d', i, k / BSIZE) && ByteAt(sb, d', i, k) == src[k - off])
    && (Mapped(sb, d, i, k / BSIZE) ==>
          Mapped(sb, d', i, k / BSIZE) && (!(off <= k < off + |src|) ==> ByteAt(sb, d', i, k) == ByteAt(sb, d, i, k)))
  }

  /** Only the bytes of file i from offset off on have changed, to those of src. */
  ghost predicate Written(sb: Super, d: Disk, d': Disk, i: nat, off: nat, src: seq<Byte>) {
    && SameInodes(d, d')
    && (forall k: nat {:trigger Wrote(sb, d, d', i, off, src, k)} :: Wrote(sb, d, d', i, off, src, k))
    && (forall j, n {:trigger Kept(sb, d, d', j, n)} | 0 <= j < sb.ninodes && j != i && 0 <= n < MAXFILE ::
        Kept(sb, d, d', j, n))
  }

  lemma WrittenNothing(sb: Super, d: Disk, i: nat, off: nat)
    ensures Written(sb, d, d, i, off, [])
  {
  }

  lemma ExtendsWritten(sb: Super, d: Disk, d1: Disk, d2: Disk, i: nat, off: nat, src: seq<Byte>)
    requires Written(sb, d, d1, i, off, src) && Extends(sb, d1, d2) && i < sb.ninodes
    ensures Written(sb, d, d2, i, off, src)
  {
    forall k: nat ensures Wrote(sb, d, d2, i, off, src, k) {
      assert Wrote(sb, d, d1, i, off, src, k);
      if k / BSIZE < MAXFILE {
        assert Kept(sb, d1, d2, i, k / BSIZE);
      }
    }
    forall j, n | 0 <= j < sb.ninodes && j != i && 0 <= n < MAXFILE ensures Kept(sb, d, d2, j, n) {
      assert Kept(sb, d, d1, j, n) && Kept(sb, d1, d2, j, n);
    }
  }

  /** A byte of any file after a chunk has been put into block bn of file i. */
  lemma PatchByte(sb: Super, d: Disk, owner: Owner, i: nat, bn: nat, o: nat, chunk: seq<Byte>, j: nat, k: nat)
    requires Inv(sb, d, owner) && Mapped(sb, d, i, bn) && o + |chunk| <= BSIZE && j < sb.ninodes && k / BSIZE < MAXFILE
    ensures var a := d.Addr(i, bn);
            var d' := d.(blocks := d.blocks[a := Patch(d.blocks[a], o, chunk)]);
            && Mapped(sb, d', j, k / BSIZE) == Mapped(sb, d, j, k / BSIZE)
            && (Mapped(sb, d, j, k / BSIZE) ==>
                  && d'.Addr(j, k / BSIZE) == d.Addr(j, k / BSIZE)
                  && (j != i ==> Kept(sb, d, d', j, k / BSIZE))
                  && ByteAt(sb, d', j, k) == if j == i && bn * BSIZE + o <= k < bn * BSIZE + o + |chunk|
                                             then chunk[k - bn * BSIZE - o] else ByteAt(sb, d, j, k))
  {
    var a := d.Addr(i, bn);
    assert SlotOk(d, owner, i, SlotOf(bn)) && OwnerOk(sb, d, owner, a);
    DataWriteSlot(sb, d, owner, a, Patch(d.blocks[a], o, chunk), j, SlotOf(k / BSIZE));
    assert SlotOk(d, owner, j, SlotOf(k / BSIZE));
  }

  /** Writing the next chunk, in the block at its offset, continues the write. */
  lemma PatchWritten(sb: Super, d0: Disk, d: Disk, owner: Owner, i: nat, off: nat, src: seq<Byte>, chunk: seq<Byte>)
    requires Written(sb, d0, d, i, off, src) && Inv(sb, d, owner)
    requires var end := off + |src|; Mapped(sb, d, i, end / BSIZE) && end % BSIZE + |chunk| <= BSIZE
    ensures var end := off + |src|;
            var a := d.Addr(i, end / BSIZE);
            Written(sb, d0, d.(blocks := d.blocks[a := Patch(d.blocks[a], end % BSIZE, chunk)]), i, off, src + chunk)
  {
    var end := off + |src|;
    var a := d.Addr(i, end / BSIZE);
    var d' := d.(blocks := d.blocks[a := Patch(d.blocks[a], end % BSIZE, chunk)]);
    hide Patch, Inv, Mapped, ByteAt;
    forall k: nat ensures Wrote(sb, d0, d', i, off, src + chunk, k) {
      assert Wrote(sb, d0, d, i, off, src, k);
      WroteNext(sb, d0, d, owner, i, off, src, chunk, k);
    }
    forall j, n | 0 <= j < sb.ninodes && j != i && 0 <= n < MAXFILE ensures Kept(sb, d0, d', j, n) {
      assert Kept(sb, d0, d, j, n);
      KeptNext(sb, d0, d, owner, i, end, chunk, j, n);
    }
  }

  lemma WroteNext(sb: Super, d0: Disk, d: Disk, owner: Owner, i: nat, off: nat, src: seq<Byte>, chunk: seq<Byte>,
                  k: nat)
    requires Wrote(sb, d0, d, i, off, src, k) && Inv(sb, d, owner)
    requires var end := off + |src|; Mapped(sb, d, i, end / BSIZE) && end % BSIZE + |chunk| <= BSIZE
    ensures var end := off + |src|;
            var a := d.Addr(i, end / BSIZE);
            Wrote(sb, d0, d.(blocks := d.blocks[a := Patch(d.blocks[a], end % BSIZE, chunk)]), i, off, src + chunk, k)
  {
    var end := off + |src|;
    if k / BSIZE < MAXFILE {
      PatchByte(sb, d, owner, i, end / BSIZE, end % BSIZE, chunk, i, k);
    }
    hide Patch, Inv, Disk.Addr;
  }

  lemma KeptNext(sb: Super, d0: Disk, d: Disk, owner: Owner, i: nat, end: nat, chunk: seq<Byte>, j: nat, n: nat)
    requires Kept(sb, d0, d, j, n) && Inv(sb, d, owner) && j != i && j < sb.ninodes && n < MAXFILE
    requires Mapped(sb, d, i, end / BSIZE) && end % BSIZE + |chunk| <= BSIZE
    ensures var a := d.Addr(i, end / BSIZE);
            Kept(sb, d0, d.(blocks := d.blocks[a := Patch(d.blocks[a], end % BSIZE, chunk)]), j, n)
  {
    PatchByte(sb, d, owner, i, end / BSIZE, end % BSIZE, chunk, j, n * BSIZE);
    hide Patch, Inv, Disk.Addr;
  }

  /** A file with the bytes of src written over it from offset off. */
  function Splice(c: seq<Byte>, off: nat, src: seq<Byte>): seq<Byte>
    requires off <= |c|
  {
    c[..off] + src + if off + |src| < |c| then c[off + |src|..] else []
  }

  function Max(a: nat, b: nat): nat { if a < b then b else a }

  ghost predicate Resized(d: Disk, d': Disk, i: nat, size: nat) {
    i < |d.inodes| && d' == d.(inodes := d.inodes[i := d.inodes[i].(size := size)])
  }

  lemma ResizeKeepsInv(sb: Super, d0: Disk, owner0: Owner, d: Disk, owner: Owner, d': Disk, i: nat, off: nat,
                       src: seq<Byte>)
    requires Inv(sb, d0, owner0) && Inv(sb, d, owner) && Written(sb, d0, d, i, off, src) && i < sb.ninodes
    requires off <= d0.inodes[i].size && off + |src| <= MAXFILE * BSIZE
    requires Resized(d, d', i, Max(d0.inodes[i].size, off + |src|))
    ensures Inv(sb, d', owner)
  {
    forall bn | 0 <= bn < MAXFILE && bn * BSIZE < d'.inodes[i].size ensures d'.Addr(i, bn) != 0 {
      var k := if bn * BSIZE < d0.inodes[i].size then bn * BSIZE else if bn * BSIZE < off then off else bn * BSIZE;
      assert k / BSIZE == bn;
      if k < d0.inodes[i].size {
        SizeMapped(sb, d0, owner0, i, k);
      }
      assert Wrote(sb, d0, d, i, off, src, k);
    }
    assert FileOk(d, i);
    assert FileOk(d0, i);
    assert FileOk(d', i);
    hide Disk.Slot;
    SameSlotsKeepInv(sb, d, d', owner);
  }

  lemma ContentAt(sb: Super, d: Disk, owner: Owner, i: nat, k: nat)
    requires Inv(sb, d, owner) && i < sb.ninodes && k < d.inodes[i].size
    ensures Mapped(sb, d, i, k / BSIZE) && Content(sb, d, owner, i)[k] == ByteAt(sb, d, i, k)
  {
    SizeMapped(sb, d, owner, i, k);
  }

  /** The file written to has the bytes of src spliced in and is as long as needed. */
  lemma WrittenContent(sb: Super, d0: Disk, owner0: Owner, d: Disk, d': Disk, owner: Owner, i: nat, off: nat,
                       src: seq<Byte>)
    requires Inv(sb, d0, owner0) && Inv(sb, d', owner) && Written(sb, d0, d, i, off, src) && i < sb.ninodes
    requires off <= d0.inodes[i].size && Resized(d, d', i, Max(d0.inodes[i].size, off + |src|))
    ensures Content(sb, d', owner, i) == Splice(Content(sb, d0, owner0, i), off, src)
  {
    var c, c' := Content(sb, d0, owner0, i), Content(sb, d', owner, i);
    forall k | 0 <= k < |c'| ensures c'[k] == Splice(c, off, src)[k] {
      ContentAt(sb, d', owner, i, k);
      assert Wrote(sb, d0, d, i, off, src, k);
      if k < |c| {
        ContentAt(sb, d0, owner0, i, k);
      }
      hide Content, Inv;
    }
  }

  /** The other files keep their contents. */
  lemma OtherContent(sb: Super, d0: Disk, owner0: Owner, d: Disk, d': Disk, owner: Owner, i: nat, size: nat, j: nat)
    requires Inv(sb, d0, owner0) && Inv(sb, d', owner) && i < sb.ninodes && j < sb.ninodes && j != i
    requires SameInodes(d0, d) && Resized(d, d', i, size)
    requires forall n {:trigger Kept(sb, d0, d, j, n)} | 0 <= n < MAXFILE :: Kept(sb, d0, d, j, n)
    ensures Content(sb, d', owner, j) == Content(sb, d0, owner0, j)
  {
    var c, c' := Content(sb, d0, owner0, j), Content(sb, d', owner, j);
    forall k | 0 <= k < |c| ensures c'[k] == c[k] {
      ContentAt(sb, d0, owner0, j, k);
      ContentAt(sb, d', owner, j, k);
      assert Kept(sb, d0, d, j, k / BSIZE);
      hide Content, Inv;
    }
  }

  lemma WrittenSame(sb: Super, d0: Disk, d: Disk, i: nat, off: nat, src: seq<Byte>)
    requires Written(sb, d0, d, i, off, src) && i < |d0.inodes|
    ensures |d.inodes| == |d0.inodes| && d.inodes[i] == d0.inodes[i].(addrs := d.inodes[i].addrs)
  {
  }

  /** What a finished write means for the contents of all files. */
  lemma WriteMeaning(sb: Super, d0: Disk, owner0: Owner, d: Disk, owner: Owner, d': Disk, i: nat, off: nat,
                     src: seq<Byte>)
    requires Inv(sb, d0, owner0) && Inv(sb, d, owner) && Written(sb, d0, d, i, off, src) && i < sb.ninodes
    requires off <= d0.inodes[i].size && off + |src| <= MAXFILE * BSIZE
    requires Resized(d, d', i, Max(d0.inodes[i].size, off + |src|))
    ensures Inv(sb, d', owner)
    ensures Content(sb, d', owner, i) == Splice(Content(sb, d0, owner0, i), off, src)
    ensures forall j | 0 <= j < sb.ninodes && j != i :: Content(sb, d', owner, j) == Content(sb, d0, owner0, j)
  {
    ResizeKeepsInv(sb, d0, owner0, d, owner, d', i, off, src);
    WrittenContent(sb, d0, owner0, d, d', owner, i, off, src);
    hide Content, Inv;
    forall j | 0 <= j < sb.ninodes && j != i ensures Content(sb, d', owner, j) == Content(sb, d0, owner0, j) {
      OtherContent(sb, d0, owner0, d, d', owner, i, Max(d0.inodes[i].size, off + |src|), j);
    }
  }

  /** The part of a file that lies in one block. */
  lemma ContentChunk(sb: Super, d: Disk, owner: Owner, i: nat, off: nat, m: nat)
    requires Inv(sb, d, owner) && i < sb.ninodes && off + m <= d.inodes[i].size && off % BSIZE + m <= BSIZE && m > 0
    ensures Mapped(sb, d, i, off / BSIZE)
    ensures Content(sb, d, owner, i)[off..off + m] == d.blocks[d.Addr(i, off / BSIZE)][off % BSIZE..off % BSIZE + m]
  {
    ContentAt(sb, d, owner, i, off);
    var x := Content(sb, d, owner, i)[off..off + m];
    var y := d.blocks[d.Addr(i, off / BSIZE)][off % BSIZE..off % BSIZE + m];
    hide Content, Inv;
    forall k | 0 <= k < m ensures x[k] == y[k] {
      ContentAt(sb, d, owner, i, off + k);
    }
  }

  /** A truncated file is empty, and the others keep their contents. */
  lemma TruncatedContent(sb: Super, d: Disk, d': Disk, owner: Owner, owner': Owner, i: nat, j: nat)
    requires Inv(sb, d, owner) && Inv(sb, d', owner') && Truncated(sb, d, d', owner, i) && j < sb.ninodes
    ensures Content(sb, d', owner', j) == if j == i then [] else Content(sb, d, owner, j)
  {
    if j != i {
      var c, c' := Content(sb, d, owner, j), Content(sb, d', owner', j);
      forall k | 0 <= k < |c| ensures c'[k] == c[k] {
        ContentAt(sb, d, owner, j, k);
        ContentAt(sb, d', owner', j, k);
        hide Content, Inv;
      }
    }
  }

  /** Writing two pieces one after the other is writing both at once. */
  lemma SpliceSplice(c: seq<Byte>, off: nat, a: seq<Byte>, b: seq<Byte>)
    requires off <= |c|
    ensures Splice(Splice(c, off, a), off + |a|, b) == Splice(c, off, a + b)
  {
  }
}
