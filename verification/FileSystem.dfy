/**
 The block allocator and the file routines of kernel/fs.c, and filewrite of kernel/file.c, as methods
 that change the bitmap, the inodes and the data blocks in place.

 The buffer cache and the log are a plain block store here (KernelLog.dfy shows that they are); calls
 collects the calls of log_write, and Transactions.dfy puts the pieces of a file write on top of the log.
 A panic for want of free blocks is a result.
 */
module FileSystem {
  import opened BlockCounts
  import opened Blocks
  import opened FsLayout

  // ---------- Bits of the bitmap ----------

  /** Bit k of n: (n & (1 << k)) != 0. */
  predicate BitIn(n: nat, k: nat) {
    if k == 0 then n % 2 == 1 else BitIn(n / 2, k - 1)
  }

  /** n with bit k made one or zero: n | (1 << k), n & ~(1 << k). */
  function SetBit(n: nat, k: nat, one: bool): nat {
    if k == 0 then n / 2 * 2 + (if one then 1 else 0) else SetBit(n / 2, k - 1, one) * 2 + n % 2
  }

  function Pow2(k: nat): nat {
    if k == 0 then 1 else 2 * Pow2(k - 1)
  }

  lemma {:induction false} BitOfSetBit(n: nat, k: nat, one: bool, j: nat)
    ensures BitIn(SetBit(n, k, one), j) == if j == k then one else BitIn(n, j)
  {
    if k > 0 {
      assert SetBit(n, k, one) / 2 == SetBit(n / 2, k - 1, one);
      if j > 0 {
        BitOfSetBit(n / 2, k - 1, one, j - 1);
      }
    }
  }

  lemma {:induction false} SetBitBound(n: nat, k: nat, one: bool, width: nat)
    requires k < width && n < Pow2(width)
    ensures SetBit(n, k, one) < Pow2(width)
  {
    if k > 0 {
      SetBitBound(n / 2, k - 1, one, width - 1);
    }
  }

  /** A byte of the bitmap with bit k made one or zero. */
  function ByteWith(x: Byte, k: nat, one: bool): (y: Byte)
    requires k < 8
    ensures forall j | 0 <= j < 8 :: BitIn(y, j) == if j == k then one else BitIn(x, j)
  {
    assert Pow2(8) == 256;
    SetBitBound(x, k, one, 8);
    assert forall j | 0 <= j < 8 :: BitIn(SetBit(x, k, one), j) == (if j == k then one else BitIn(x, j)) by {
      forall j | 0 <= j < 8 ensures BitIn(SetBit(x, k, one), j) == if j == k then one else BitIn(x, j) {
        BitOfSetBit(x, k, one, j);
      }
    }
    SetBit(x, k, one)
  }

  predicate BitOf(bytes: seq<Byte>, b: nat)
    requires b < 8 * |bytes|
  {
    BitIn(bytes[b / 8], b % 8)
  }

  /** Bit bi of bitmap block q. */
  lemma BitAt(bytes: seq<Byte>, n: nat, q: nat, bi: nat)
    requires bi < BPB && q * BPB + bi < n <= 8 * |bytes|
    ensures var (i, b) := (q * BPB / 8 + bi / 8, q * BPB + bi);
            i == b / 8 && bi % 8 == b % 8 && i < |bytes| && Bits(bytes, n)[b] == BitIn(bytes[i], bi % 8)
  {
    assert q * BPB == 8 * (q * 1024);
  }

  function Bits(bytes: seq<Byte>, n: nat): (bits: seq<bool>)
    requires n <= 8 * |bytes|
    ensures |bits| == n
  {
    seq(n, b requires 0 <= b < n => BitOf(bytes, b))
  }

  lemma BitsWith(bytes: seq<Byte>, n: nat, b: nat, one: bool)
    requires b < n <= 8 * |bytes|
    ensures Bits(bytes[b / 8 := ByteWith(bytes[b / 8], b % 8, one)], n) == Bits(bytes, n)[b := one]
  {
    hide BitIn;
    var bytes' := bytes[b / 8 := ByteWith(bytes[b / 8], b % 8, one)];
    forall c | 0 <= c < n ensures BitOf(bytes', c) == if c == b then one else BitOf(bytes, c) {
      assert c / 8 == b / 8 && c % 8 == b % 8 ==> c == b;
    }
  }

  // ---------- Chunks of a transfer ----------

  /** A transfer of n bytes at off goes block by block; this is its first chunk. */
  function Chunk(off: nat, n: nat): nat {
    if n < BSIZE - off % BSIZE then n else BSIZE - off % BSIZE
  }

  /** How many bytes are transferred when the first c chunks can be copied. */
  function Reach(off: nat, n: nat, c: nat): (t: nat)
    ensures t <= n
    decreases c
  {
    if n == 0 || c == 0 then 0 else Chunk(off, n) + Reach(off + Chunk(off, n), n - Chunk(off, n), c - 1)
  }

  /** c copies reach to the end of the c-th block, or of the transfer. */
  lemma {:induction false} ReachIs(off: nat, n: nat, c: nat)
    ensures Reach(off, n, c) == if c == 0 then 0 else if n < c * BSIZE - off % BSIZE then n else c * BSIZE - off % BSIZE
    decreases c
  {
    var m := Chunk(off, n);
    if c > 0 && n > m {
      assert (off + m) % BSIZE == 0;
      ReachIs(off + m, n - m, c - 1);
    } else if c > 0 {
      assert Reach(off + m, n - m, c - 1) == 0;
    }
  }

  /** All bytes are transferred exactly if there is a copy for every block that is touched. */
  lemma ReachAll(off: nat, n: nat, c: nat)
    ensures Reach(off, n, c) == n <==> c >= Touched(off, n)
  {
    ReachIs(off, n, c);
    var o := off % BSIZE;
    assert n > 0 ==> Touched(off, n) == (o + n - 1) / BSIZE + 1;
  }

  /** The number of blocks that a transfer touches. */
  function Touched(off: nat, n: nat): nat {
    if n == 0 then 0 else (off + n - 1) / BSIZE - off / BSIZE + 1
  }

  /** The blocks that a write tries to map: the one for which the copy fails is among them. */
  function Tried(off: nat, n: nat, copies: nat): nat {
    if copies < Touched(off, n) then copies + 1 else Touched(off, n)
  }

  /** A transfer that has done tot of n bytes is between blocks unless it is at an end. */
  predicate Between(off: nat, n: nat, tot: nat) {
    tot <= n && (0 < tot < n ==> (off + tot) % BSIZE == 0)
  }

  lemma ChunkStep(off: nat, n: nat, tot: nat, c: nat)
    requires Between(off, n, tot) && tot < n
    ensures var m := Chunk(off + tot, n - tot);
            && 0 < m <= n - tot && (off + tot) % BSIZE + m <= BSIZE && Between(off, n, tot + m)
            && (off + tot) / BSIZE == off / BSIZE + Touched(off, tot)
            && Touched(off, tot + m) == Touched(off, tot) + 1 <= Touched(off, n)
            && (c > 0 ==> Reach(off + tot, n - tot, c) == m + Reach(off + tot + m, n - tot - m, c - 1))
            && (c == 0 ==> Reach(off + tot, n - tot, c) == 0)
  {
  }

  /** The different blocks a write may log: every block it touches, the indirect block, the inode, and the
      bitmap blocks of the indirect block and of the new ones among the blocks it touches (the first is
      not new if the write starts inside it), of which there are no more than the bitmap has. */
  function Budget(sb: Super, off: nat, n: nat): nat {
    var new' := Touched(off, n) + 1 - if off % BSIZE != 0 && n > 0 then 1 else 0;
    Touched(off, n) + 2 + if new' < sb.Bitmaps() then new' else sb.Bitmaps()
  }

  /** c blocks touched, and bitmap blocks as their number or the bitmap allows. */
  lemma BudgetCovers(sb: Super, off: nat, n: nat, c: nat)
    requires c <= Touched(off, n)
    ensures var first := if off % BSIZE != 0 && n > 0 then 1 else 0;
            var x := 2 * c + 2 - if c > 0 then first else 0;
            Budget(sb, off, n) - 1 >= if x <= c + 1 + sb.Bitmaps() then x else c + 1 + sb.Bitmaps()
  {
    hide Super.Bitmaps;
  }

  const MAXWRITE := (MAXOPBLOCKS - 1 - 1 - 2) / 2 * BSIZE

  /** No piece of a file write logs more blocks than an operation may, whatever its offset, and it logs as
      many only if it touches four blocks and the bitmap has four. */
  lemma BudgetFits(sb: Super, off: nat, n: nat)
    requires n <= MAXWRITE
    ensures 2 <= Budget(sb, off, n) <= MAXOPBLOCKS
    ensures Budget(sb, off, n) == MAXOPBLOCKS <==> off % BSIZE + n > MAXWRITE && sb.Bitmaps() >= 4
  {
  }

  /** How many bytes filewrite carries over, piece by piece, with a number of copies that succeed.  A piece
      that would make the file too large is refused as a whole. */
  function Carried(off: nat, n: nat, copies: nat): nat
    decreases n
  {
    if n == 0 then 0 else
    var n1 := if n > MAXWRITE then MAXWRITE else n;
    if off + n1 > MAXFILE * BSIZE then 0
    else if copies < Touched(off, n1) then Reach(off, n1, copies)
    else n1 + Carried(off + n1, n - n1, copies - Touched(off, n1))
  }

  /** The copies that all pieces of a write need. */
  function Pieces(off: nat, n: nat): nat
    decreases n
  {
    if n == 0 then 0 else
    var n1 := if n > MAXWRITE then MAXWRITE else n;
    Touched(off, n1) + Pieces(off + n1, n - n1)
  }

  lemma CarriedStep(off: nat, n: nat, copies: nat)
    requires n > 0
    ensures var n1 := if n > MAXWRITE then MAXWRITE else n;
            Carried(off, n, copies) ==
            if off + n1 > MAXFILE * BSIZE then 0
            else if copies < Touched(off, n1) then Reach(off, n1, copies)
            else n1 + Carried(off + n1, n - n1, copies - Touched(off, n1))
  {
  }

  /** Everything is carried over exactly if the file has room for it and all copies succeed. */
  lemma {:induction false} CarriedAll(off: nat, n: nat, copies: nat)
    ensures Carried(off, n, copies) <= n
    ensures n > 0 ==> (Carried(off, n, copies) == n <==> off + n <= MAXFILE * BSIZE && copies >= Pieces(off, n))
    decreases n
  {
    hide Touched, Reach;
    if n > 0 {
      var n1 := if n > MAXWRITE then MAXWRITE else n;
      ReachAll(off, n1, copies);
      if copies >= Touched(off, n1) {
        CarriedAll(off + n1, n - n1, copies - Touched(off, n1));
      }
    }
  }

  /** If all copies succeed and the file is too small, as many whole pieces go in as fit. */
  lemma {:induction false} CarriedPieces(off: nat, n: nat, copies: nat)
    requires off <= MAXFILE * BSIZE < off + n && copies >= Pieces(off, n)
    ensures Carried(off, n, copies) == (MAXFILE * BSIZE - off) / MAXWRITE * MAXWRITE
    decreases n
  {
    hide Touched, Reach;
    var n1 := if n > MAXWRITE then MAXWRITE else n;
    if off + n1 <= MAXFILE * BSIZE {
      CarriedPieces(off + n1, n - n1, copies - Touched(off, n1));
    }
  }

  /** A piece of n1 bytes behind i bytes: the blocks that it touches overlap with the others in one at most. */
  lemma PieceBlocks(start: nat, i: nat, n1: nat, copies: nat, n: nat)
    requires 0 < n1 && i + n1 <= n
    ensures var bn0, c, bn1 := start / BSIZE, Touched(start, i), (start + i) / BSIZE;
            && bn0 <= bn1 <= bn0 + c && (c == 0 ==> bn1 == bn0)
            && Joined(bn0, c, bn1, Touched(start + i, n1)) == Touched(start, i + n1)
            && Joined(bn0, c, bn1, Tried(start + i, n1, copies)) <= Touched(start, n)
            && (copies >= Touched(start + i, n1) ==> Tried(start + i, n1, copies) == Touched(start + i, n1))
  {
  }

  /** The calls of log_write of one piece of a file write: before the last one, which is for the inode, at
      most MAXOPBLOCKS - 1 different blocks have been logged, and fewer if the bitmap has at most three. */
  ghost predicate PieceCalls(sb: Super, calls: seq<nat>) {
    Paced(calls, MAXOPBLOCKS - 1) && (sb.Bitmaps() <= 3 ==> Paced(calls, MAXOPBLOCKS - 2))
  }

  lemma PieceOk(sb: Super, off: nat, n: nat, calls: seq<nat>)
    requires n <= MAXWRITE && Paced(calls, Budget(sb, off, n) - 1)
    ensures PieceCalls(sb, calls)
  {
    BudgetFits(sb, off, n);
  }

  // ---------- What has been logged ----------

  /** If block b, or the bit of block b, differs between the disks, the block that holds it was logged. */
  ghost predicate ChangeLogged(sb: Super, d: Disk, d': Disk, logged: set<nat>, b: nat) {
    && (b < |d.blocks| && b < |d'.blocks| && d'.blocks[b] != d.blocks[b] ==> b in logged)
    && (b < |d.bits| && b < |d'.bits| && d'.bits[b] != d.bits[b] ==> sb.BBlock(b) in logged)
  }

  /** Every change to a data block or to the bitmap was handed to log_write. */
  ghost predicate AllLogged(sb: Super, d: Disk, d': Disk, logged: set<nat>) {
    |d'.blocks| == |d.blocks| && |d'.bits| == |d.bits|
    && forall b {:trigger ChangeLogged(sb, d, d', logged, b)} :: ChangeLogged(sb, d, d', logged, b)
  }

  lemma AllLoggedSame(sb: Super, d: Disk, logged: set<nat>)
    ensures AllLogged(sb, d, d, logged)
  {
  }

  lemma AllLoggedTrans(sb: Super, d: Disk, d1: Disk, d2: Disk, l1: set<nat>, l2: set<nat>)
    requires AllLogged(sb, d, d1, l1) && AllLogged(sb, d1, d2, l2) && l1 <= l2
    ensures AllLogged(sb, d, d2, l2)
  {
    forall b: nat ensures ChangeLogged(sb, d, d2, l2, b) {
      assert ChangeLogged(sb, d, d1, l1, b) && ChangeLogged(sb, d1, d2, l2, b);
    }
  }

  /** More may be logged, and the inodes do not matter. */
  lemma AllLoggedGrows(sb: Super, d: Disk, d1: Disk, d2: Disk, l1: set<nat>, l2: set<nat>)
    requires AllLogged(sb, d, d1, l1) && d2.blocks == d1.blocks && d2.bits == d1.bits && l1 <= l2
    ensures AllLogged(sb, d, d2, l2)
  {
    forall b: nat ensures ChangeLogged(sb, d, d2, l2, b) {
      assert ChangeLogged(sb, d, d1, l1, b);
    }
  }

  /** A change to one block, or to one bit. */
  lemma OneLogged(sb: Super, d: Disk, d': Disk, logged: set<nat>, b: nat)
    requires |d'.blocks| == |d.blocks| && |d'.bits| == |d.bits|
    requires forall c | 0 <= c < |d.blocks| && c != b :: d'.blocks[c] == d.blocks[c]
    requires forall c | 0 <= c < |d.bits| && c != b :: d'.bits[c] == d.bits[c]
    requires ChangeLogged(sb, d, d', logged, b)
    ensures AllLogged(sb, d, d', logged)
  {
    forall c: nat ensures ChangeLogged(sb, d, d', logged, c) {
    }
  }

  /** Every change to an inode was handed to log_write. */
  ghost predicate InodesLogged(sb: Super, d: Disk, d': Disk, logged: set<nat>) {
    |d'.inodes| == |d.inodes| && forall i | 0 <= i < |d.inodes| && d'.inodes[i] != d.inodes[i] :: sb.IBlock(i) in logged
  }

  // ---------- The transactions of a file write ----------

  /** The disk after a transaction, the bytes written so far, and the calls of log_write it made. */
  datatype Moment = Moment(disk: Disk, owner: Owner, done: nat, calls: seq<nat>)

  /** The disk is sound; the file is the old one with the bytes done spliced in, unless it is too short for
      that; and the other files are as they were. */
  ghost predicate MomentOk(sb: Super, start: Moment, m: Moment, inum: nat, off: nat, src: seq<Byte>) {
    && Inv(sb, start.disk, start.owner) && Inv(sb, m.disk, m.owner) && inum < sb.ninodes && m.done <= |src|
    && (var c := Content(sb, start.disk, start.owner, inum);
        && (off > |c| ==> m.done == 0)
        && Content(sb, m.disk, m.owner, inum) == if off <= |c| then Splice(c, off, src[..m.done]) else c)
    && forall j | 0 <= j < sb.ninodes && j != inum ::
         Content(sb, m.disk, m.owner, j) == Content(sb, start.disk, start.owner, j)
  }

  /** A transaction logs whatever it changes, and keeps within the log. */
  ghost predicate TransactionOk(sb: Super, m: Moment, m': Moment) {
    && AllLogged(sb, m.disk, m'.disk, Distinct(m'.calls)) && InodesLogged(sb, m.disk, m'.disk, Distinct(m'.calls))
    && PieceCalls(sb, m'.calls) && m.done <= m'.done
  }

  /** What a file write does, transaction by transaction. */
  ghost predicate Progress(sb: Super, trace: seq<Moment>, inum: nat, off: nat, src: seq<Byte>) {
    && trace != [] && trace[0].done == 0
    && (forall k {:trigger trace[k]} | 0 <= k < |trace| :: MomentOk(sb, trace[0], trace[k], inum, off, src))
    && forall k | 0 <= k < |trace| - 1 :: TransactionOk(sb, trace[k], trace[k + 1])
  }

  lemma ProgressStart(sb: Super, m: Moment, inum: nat, off: nat, src: seq<Byte>)
    requires Inv(sb, m.disk, m.owner) && inum < sb.ninodes && m.done == 0
    ensures Progress(sb, [m], inum, off, src)
  {
    hide Inv, Content, Splice;
    SpliceNothing(Content(sb, m.disk, m.owner, inum), off);
  }

  lemma ProgressMore(sb: Super, trace: seq<Moment>, m: Moment, inum: nat, off: nat, src: seq<Byte>)
    requires Progress(sb, trace, inum, off, src) && MomentOk(sb, trace[0], m, inum, off, src)
             && TransactionOk(sb, trace[|trace| - 1], m)
    ensures Progress(sb, trace + [m], inum, off, src)
  {
    hide MomentOk, TransactionOk;
    var trace' := trace + [m];
    forall k | 0 <= k < |trace'| - 1 ensures TransactionOk(sb, trace'[k], trace'[k + 1]) {
      assert k + 1 < |trace| ==> TransactionOk(sb, trace[k], trace[k + 1]);
    }
    forall k | 0 <= k < |trace'| ensures MomentOk(sb, trace'[0], trace'[k], inum, off, src) {
      assert k < |trace| ==> trace'[k] == trace[k];
    }
  }

  lemma ProgressLast(sb: Super, trace: seq<Moment>, inum: nat, off: nat, src: seq<Byte>)
    requires Progress(sb, trace, inum, off, src)
    ensures trace != [] && MomentOk(sb, trace[0], trace[|trace| - 1], inum, off, src)
  {
    hide MomentOk;
    var last := trace[|trace| - 1];
  }

  /** A piece of a write continues where the pieces before it ended. */
  lemma MomentNext(sb: Super, start: Moment, m: Moment, m': Moment, inum: nat, off: nat, src: seq<Byte>, r: nat)
    requires MomentOk(sb, start, m, inum, off, src) && Inv(sb, m'.disk, m'.owner) && m'.done == m.done + r <= |src|
    requires off + m.done <= |Content(sb, m.disk, m.owner, inum)|
    requires Content(sb, m'.disk, m'.owner, inum)
          == Splice(Content(sb, m.disk, m.owner, inum), off + m.done, src[m.done..m.done + r])
    requires forall j | 0 <= j < sb.ninodes && j != inum ::
               Content(sb, m'.disk, m'.owner, j) == Content(sb, m.disk, m.owner, j)
    ensures MomentOk(sb, start, m', inum, off, src)
  {
    hide Inv, Content, Splice;
    assert src[..m.done] + src[m.done..m.done + r] == src[..m'.done];
    SpliceSplice(Content(sb, start.disk, start.owner, inum), off, src[..m.done], src[m.done..m.done + r]);
  }

  /** One more piece, of which r bytes went in, or which was refused. */
  lemma ProgressPiece(sb: Super, trace: seq<Moment>, m': Moment, inum: nat, off: nat, src: seq<Byte>, r: int)
    requires Progress(sb, trace, inum, off, src) && inum < sb.ninodes && TransactionOk(sb, trace[|trace| - 1], m')
    requires var m := trace[|trace| - 1];
             && Inv(sb, m.disk, m.owner) && Inv(sb, m'.disk, m'.owner)
             && (forall j | 0 <= j < sb.ninodes && j != inum ::
                 Content(sb, m'.disk, m'.owner, j) == Content(sb, m.disk, m.owner, j))
             && if r < 0 then m'.disk == m.disk && m'.owner == m.owner && m'.done == m.done
                else
                  && m'.done == m.done + r <= |src| && off + m.done <= |Content(sb, m.disk, m.owner, inum)|
                  && Content(sb, m'.disk, m'.owner, inum)
                     == Splice(Content(sb, m.disk, m.owner, inum), off + m.done, src[m.done..m.done + r])
    ensures Progress(sb, trace + [m'], inum, off, src)
  {
    hide Inv, Content, Splice, MomentOk, TransactionOk, Progress;
    ProgressLast(sb, trace, inum, off, src);
    if r >= 0 {
      MomentNext(sb, trace[0], trace[|trace| - 1], m', inum, off, src, r);
    } else {
      MomentSame(sb, trace[0], trace[|trace| - 1], m', inum, off, src);
    }
    ProgressMore(sb, trace, m', inum, off, src);
  }

  lemma MomentMeans(sb: Super, start: Moment, m: Moment, inum: nat, off: nat, src: seq<Byte>)
    requires MomentOk(sb, start, m, inum, off, src)
    ensures Inv(sb, start.disk, start.owner) && Inv(sb, m.disk, m.owner) && inum < sb.ninodes && m.done <= |src|
    ensures var c := Content(sb, start.disk, start.owner, inum);
            && (off > |c| ==> m.done == 0)
            && Content(sb, m.disk, m.owner, inum) == if off <= |c| then Splice(c, off, src[..m.done]) else c
    ensures forall j | 0 <= j < sb.ninodes && j != inum ::
              Content(sb, m.disk, m.owner, j) == Content(sb, start.disk, start.owner, j)
  {
    hide Inv, Content, Splice;
  }

  lemma MomentSame(sb: Super, start: Moment, m: Moment, m': Moment, inum: nat, off: nat, src: seq<Byte>)
    requires MomentOk(sb, start, m, inum, off, src) && m'.disk == m.disk && m'.owner == m.owner && m'.done == m.done
    ensures MomentOk(sb, start, m', inum, off, src)
  {
    hide Inv, Content, Splice;
  }

  /** A locked in-memory inode (struct inode). */
  class Inode {
    const inum: nat
    var typ: nat
    var major: nat
    var minor: nat
    var nlink: nat
    var size: nat
    const addrs: array<Uint>

    constructor (inum: nat, dip: Dinode)
      requires |dip.addrs| == NDIRECT + 1
      ensures this.inum == inum && fresh(addrs) && Rec() == dip
    {
      this.inum := inum;
      typ, major, minor, nlink, size := dip.typ, dip.major, dip.minor, dip.nlink, dip.size;
      addrs := new Uint[NDIRECT + 1](k requires 0 <= k < NDIRECT + 1 => dip.addrs[k]);
    }

    ghost function Rec(): Dinode
      reads this, addrs
    {
      Dinode(typ, major, minor, nlink, size, addrs[..])
    }
  }

  /** An open file on an inode (struct file). */
  class File {
    const ip: Inode
    var off: Uint

    constructor (ip: Inode)
      ensures this.ip == ip && off == 0
    {
      this.ip := ip;
      off := 0;
    }
  }

  class Fs {
    const sb: Super
    const bitmap: array<Byte>     // the bitmap blocks, one after the other
    const dinodes: array<Dinode>
    const blocks: array<Block>
    ghost var owner: Owner
    ghost var calls: seq<nat>     // the calls of log_write in this transaction

    constructor (sb: Super, bitmap: array<Byte>, dinodes: array<Dinode>, blocks: array<Block>, ghost owner: Owner)
      ensures this.sb == sb && this.bitmap == bitmap && this.dinodes == dinodes && this.blocks == blocks
      ensures this.owner == owner && calls == []
    {
      this.sb, this.bitmap, this.dinodes, this.blocks := sb, bitmap, dinodes, blocks;
      this.owner, calls := owner, [];
    }

    /** The blocks that this transaction has logged. */
    ghost function Logged(): set<nat>
      reads this`calls
    {
      Distinct(calls)
    }

    /** log_write, as far as it concerns the reservation. */
    ghost method LogWrite(b: nat)
      modifies this`calls
      ensures calls == old(calls) + [b] && Logged() == old(Logged()) + {b}
    {
      DistinctMore(calls, b);
      calls := calls + [b];
    }

    /** The arrays have the sizes the superblock says. */
    ghost predicate Shape(ip: Inode)
    {
      && sb.Ok() && sb.size <= 8 * bitmap.Length && dinodes.Length == sb.ninodes && blocks.Length == sb.size
      && ip.inum < sb.ninodes && ip.addrs.Length == NDIRECT + 1
      && bitmap as object != ip.addrs as object
    }

    /** The disk, with the in-memory copy of the locked inode in place of the one on disk. */
    ghost function Snap(ip: Inode): Disk
      reads bitmap, dinodes, blocks, ip, ip.addrs
      requires Shape(ip)
    {
      Disk(Bits(bitmap[..], sb.size), dinodes[..][ip.inum := ip.Rec()], blocks[..])
    }

    ghost predicate Valid(ip: Inode)
      reads this, bitmap, dinodes, blocks, ip, ip.addrs
    {
      Shape(ip) && Inv(sb, Snap(ip), owner)
    }

    /** balloc: the first free block, marked in use and zeroed. */
    method Balloc(ghost ip: Inode) returns (ok: bool, b: nat)
      requires Shape(ip)
      modifies this`calls, bitmap, blocks
      ensures ok ==> b < sb.size && !old(Snap(ip)).bits[b] && forall c | 0 <= c < b :: old(Snap(ip)).bits[c]
      ensures ok ==> Snap(ip) == Allocated(old(Snap(ip)), b)
      ensures ok ==> calls == old(calls) + [sb.BBlock(b), b] && Logged() == old(Logged()) + {sb.BBlock(b), b}
      ensures !ok ==>
                && Snap(ip) == old(Snap(ip)) && calls == old(calls)
                && forall c | 0 <= c < sb.size :: Snap(ip).bits[c]
    {
      hide BitIn, Bits, ByteWith;
      ghost var bytes, bits := bitmap[..], Snap(ip).bits;
      var base := 0;
      ghost var q := 0;
      while base < sb.size
        invariant base == q * BPB && bitmap[..] == bytes && blocks[..] == old(blocks[..]) && calls == old(calls)
        invariant forall c | 0 <= c < base && c < sb.size :: bits[c]
      {
        var bi := 0;
        while bi < BPB && base + bi < sb.size
          invariant 0 <= bi <= BPB && bitmap[..] == bytes && blocks[..] == old(blocks[..]) && calls == old(calls)
          invariant forall c | 0 <= c < base + bi && c < sb.size :: bits[c]
        {
          b := base + bi;
          BitAt(bytes, sb.size, q, bi);
          if !BitIn(bitmap[base / 8 + bi / 8], bi % 8) {
            BitsWith(bytes, sb.size, b, true);
            bitmap[base / 8 + bi / 8] := ByteWith(bitmap[base / 8 + bi / 8], bi % 8, true);
            assert bitmap[..] == bytes[b / 8 := ByteWith(bytes[b / 8], b % 8, true)];
            blocks[b] := Zero();
            LogWrite(sb.BBlock(b));
            LogWrite(b);
            return true, b;
          }
          bi := bi + 1;
        }
        base, q := base + BPB, q + 1;
      }
      return false, 0;
    }

    /** bfree; freeing a free block is a panic. */
    method Bfree(b: nat, ghost ip: Inode) returns (ok: bool)
      requires Shape(ip) && b < sb.size
      modifies this`calls, bitmap
      ensures ok == old(Snap(ip)).bits[b]
      ensures ok ==> Snap(ip) == old(Snap(ip)).(bits := old(Snap(ip)).bits[b := false])
      ensures calls == old(calls) + if ok then [sb.BBlock(b)] else []
      ensures Logged() == old(Logged()) + if ok then {sb.BBlock(b)} else {}
      ensures !ok ==> Snap(ip) == old(Snap(ip))
    {
      hide BitIn;
      if !BitIn(bitmap[b / 8], b % 8) {
        return false;
      }
      BitsWith(bitmap[..], sb.size, b, false);
      bitmap[b / 8] := ByteWith(bitmap[b / 8], b % 8, false);
      LogWrite(sb.BBlock(b));
      return true;
    }

    /** A slot in the inode itself, given a new block if it is empty. */
    method FillSlot(ip: Inode, s: nat) returns (ok: bool, addr: Uint)
      requires Valid(ip) && s <= NDIRECT
      modifies this`owner, this`calls, bitmap, blocks, ip.addrs
      ensures ok ==> Valid(ip) && Extends(sb, old(Snap(ip)), Snap(ip)) && addr == Snap(ip).Slot(ip.inum, s) != 0
      ensures old(Logged()) <= Logged() && AllLogged(sb, old(Snap(ip)), Snap(ip), Logged())
      ensures ok && old(ip.addrs[s]) != 0 ==>
                Snap(ip) == old(Snap(ip)) && calls == old(calls) && owner == old(owner)
      ensures forall k | 0 <= k <= NDIRECT && (k != s || old(ip.addrs[s]) != 0) :: ip.addrs[k] == old(ip.addrs[k])
      ensures ok && old(ip.addrs[s]) == 0 ==>
                addr < sb.size && !old(Snap(ip)).bits[addr] && Snap(ip) == Attached(old(Snap(ip)), ip.inum, s, addr)
                && Logged() == old(Logged()) + {sb.BBlock(addr), addr}
      ensures !ok ==>
                Snap(ip) == old(Snap(ip)) && old(ip.addrs[s]) == 0 && forall c | 0 <= c < sb.size :: Snap(ip).bits[c]
      ensures ok <==> FreeBlocks(old(Snap(ip)).bits) >= Lack(old(Snap(ip)), ip.inum, s)
      ensures ok ==> SlotFilled(old(Snap(ip)), Snap(ip), ip.inum, s)
    {
      hide Extends, BitIn, Bits, AllLogged, SlotFilled, FreeBlocks;
      ghost var d := Snap(ip);
      addr := ip.addrs[s];
      ok := true;
      AllLoggedSame(sb, d, Logged());
      NoFreeBlocks(d.bits);
      if addr == 0 {
        var b;
        ok, b := Balloc(ip);
        if ok {
          addr := b;
          AttachKeepsInv(sb, d, owner, ip.inum, s, addr);
          AttachExtends(sb, d, owner, ip.inum, s, addr);
          AttachFills(sb, d, owner, ip.inum, s, addr);
          ip.addrs[s] := addr;
          owner := owner[b := (ip.inum, s)];
          assert Snap(ip) == Attached(d, ip.inum, s, addr);
          OneLogged(sb, d, Snap(ip), Logged(), addr);
        }
      } else {
        ExtendsSelf(sb, d);
        SlotFilledAlready(d, ip.inum, s);
      }
    }

    /** An entry of the indirect block, given a new block if it is empty. */
    method FillEntry(ip: Inode, k: nat) returns (ok: bool, addr: Uint)
      requires Valid(ip) && k < NINDIRECT && ip.addrs[NDIRECT] != 0
      modifies this`owner, this`calls, bitmap, blocks
      ensures ok ==>
                && Valid(ip) && Extends(sb, old(Snap(ip)), Snap(ip))
                && addr == Snap(ip).Slot(ip.inum, NDIRECT + 1 + k) != 0
      ensures old(Logged()) <= Logged() && AllLogged(sb, old(Snap(ip)), Snap(ip), Logged())
      ensures ok && old(Snap(ip)).Slot(ip.inum, NDIRECT + 1 + k) != 0 ==>
                Snap(ip) == old(Snap(ip)) && calls == old(calls) && owner == old(owner)
      ensures ok && old(Snap(ip)).Slot(ip.inum, NDIRECT + 1 + k) == 0 ==>
                addr < sb.size && !old(Snap(ip)).bits[addr]
                && Logged() == old(Logged()) + {sb.BBlock(addr), addr, ip.addrs[NDIRECT]}
      ensures !ok ==> Snap(ip) == old(Snap(ip)) && Snap(ip).Slot(ip.inum, NDIRECT + 1 + k) == 0
      ensures !ok ==> forall c | 0 <= c < sb.size :: Snap(ip).bits[c]
      ensures ok <==> FreeBlocks(old(Snap(ip)).bits) >= Lack(old(Snap(ip)), ip.inum, NDIRECT + 1 + k)
      ensures ok ==> SlotFilled(old(Snap(ip)), Snap(ip), ip.inum, NDIRECT + 1 + k)
    {
      hide Extends, BitIn, Bits, Word, SetWord, AllLogged, SlotFilled, FreeBlocks;
      ghost var d, s := Snap(ip), NDIRECT + 1 + k;
      AllLoggedSame(sb, d, Logged());
      NoFreeBlocks(d.bits);
      var ind := ip.addrs[NDIRECT];
      assert ind < sb.size by {
        assert SlotOk(d, owner, ip.inum, NDIRECT) && OwnerOk(sb, d, owner, ind);
      }
      addr := Word(blocks[ind], k);
      ok := true;
      if addr == 0 {
        var b;
        ok, b := Balloc(ip);
        if ok {
          addr := b;
          AttachKeepsInv(sb, d, owner, ip.inum, s, addr);
          AttachExtends(sb, d, owner, ip.inum, s, addr);
          AttachFills(sb, d, owner, ip.inum, s, addr);
          AttachedSlot(sb, d, owner, ip.inum, s, addr, ip.inum, s);
          ghost var d1, l1 := Snap(ip), Logged();
          OneLogged(sb, d, d1, l1, b);
          blocks[ind] := SetWord(blocks[ind], k, addr);
          LogWrite(ind);
          OneLogged(sb, d1, Snap(ip), Logged(), ind);
          AllLoggedTrans(sb, d, d1, Snap(ip), l1, Logged());
          owner := owner[b := (ip.inum, s)];
          assert Snap(ip) == Attached(d, ip.inum, s, addr);
        }
      } else {
        ExtendsSelf(sb, d);
        SlotFilledAlready(d, ip.inum, s);
      }
    }

    /** bmap: the address of block bn of the file, which gets a new zeroed block if it has none.
        No other block of any file moves or changes. */
    method Bmap(ip: Inode, bn: nat) returns (ok: bool, addr: Uint)
      requires Valid(ip) && bn < MAXFILE
      modifies this`owner, this`calls, bitmap, blocks, ip.addrs
      ensures ok ==> Valid(ip) && Extends(sb, old(Snap(ip)), Snap(ip)) && addr == Snap(ip).Addr(ip.inum, bn) != 0
      ensures ok && old(Snap(ip)).Addr(ip.inum, bn) != 0 ==>
                Snap(ip) == old(Snap(ip)) && calls == old(calls) && owner == old(owner)
      ensures ok && old(Snap(ip)).Addr(ip.inum, bn) == 0 ==>
                Logged() <= old(Logged()) + {sb.BBlock(addr), addr} + IndirectBlocks(ip)
      ensures old(IndirectBlocks(ip)) <= IndirectBlocks(ip)
      ensures old(Logged()) <= Logged() && AllLogged(sb, old(Snap(ip)), Snap(ip), Logged())
      ensures !ok ==> old(Snap(ip)).Addr(ip.inum, bn) == 0 && forall c | 0 <= c < sb.size :: Snap(ip).bits[c]
      ensures ok <==> FreeBlocks(old(Snap(ip)).bits) >= Needs(old(Snap(ip)), ip.inum, bn, 1)
      ensures ok ==> Account(old(Snap(ip)), Snap(ip), ip.inum, bn, 1)
    {
      hide Extends, BitIn, Bits, Inv, Attached, AllLogged, FreeBlocks, Lack, SlotFilled, Account, Needs;
      ghost var d := Snap(ip);
      NeedsOne(d, ip.inum, bn);
      if bn < NDIRECT {
        ok, addr := FillSlot(ip, bn);
        if ok {
          AccountDirect(d, Snap(ip), ip.inum, bn);
        }
        return;
      }
      var ind;
      ok, ind := FillSlot(ip, NDIRECT);
      if !ok {
        return false, 0;
      }
      ghost var d1, l1 := Snap(ip), Logged();
      ok, addr := FillEntry(ip, bn - NDIRECT);
      AllLoggedTrans(sb, d, d1, Snap(ip), l1, Logged());
      FilledElsewhere(d, d1, ip.inum, NDIRECT, bn + 1);
      if ok {
        AccountIndirect(d, d1, Snap(ip), ip.inum, bn);
        ExtendsTrans(sb, d, d1, Snap(ip));
      }
    }

    /** The indirect block and the bitmap block that has its bit. */
    ghost function IndirectBlocks(ip: Inode): (s: set<nat>)
      reads ip.addrs
      requires ip.addrs.Length == NDIRECT + 1
      ensures |s| <= 2
    {
      var ind := ip.addrs[NDIRECT];
      if ind == 0 then {} else {ind, sb.BBlock(ind)}
    }

    /** The record of what a write has logged keeps it within the budget. */
    lemma RecordFits(ip: Inode, rec: LogRecord, start: nat, n: nat)
      requires Valid(ip) && Logs(Logged(), rec, IndirectBlocks(ip), sb.BitmapBlocks())
      requires rec.c <= Touched(start, n) && rec.first == if start % BSIZE != 0 && n > 0 then 1 else 0
      ensures |Logged()| <= |rec.L0| + Budget(sb, start, n) - 1
    {
      var ind := ip.addrs[NDIRECT];
      assert ind < sb.size by {
        assert SlotOk(Snap(ip), owner, ip.inum, NDIRECT) && OwnerOk(sb, Snap(ip), owner, ind);
      }
      hide Inv, Bits, Logs, Super.Bitmaps, Distinct, Touched, Budget;
      BBlockIn(sb, ind);
      LogsSize(Logged(), rec, IndirectBlocks(ip), sb.BitmapBlocks(), ind, sb.BBlock(ind));
      BudgetCovers(sb, start, n, rec.c);
    }

    /** iupdate: the in-memory inode goes to its place on disk. */
    method Iupdate(ip: Inode)
      requires Shape(ip)
      modifies this`calls, dinodes
      ensures dinodes[..] == old(dinodes[..])[ip.inum := ip.Rec()] && Snap(ip) == old(Snap(ip))
      ensures calls == old(calls) + [sb.IBlock(ip.inum)] && Logged() == old(Logged()) + {sb.IBlock(ip.inum)}
    {
      dinodes[ip.inum] := Dinode(ip.typ, ip.major, ip.minor, ip.nlink, ip.size, ip.addrs[..]);
      LogWrite(sb.IBlock(ip.inum));
    }

    /** One round of the loop in writei: map the block at off, and copy the chunk into it if the copy
        from the caller succeeds.  It continues a write that started at start with the bytes done, and
        the record of the blocks that this write has Logged(). */
    method WriteChunk(ip: Inode, off: nat, chunk: seq<Byte>, copied: bool,
                      ghost d0: Disk, ghost start: nat, ghost done: seq<Byte>, ghost rec: LogRecord)
      returns (ok: bool, ghost rec': LogRecord)
      requires Valid(ip) && off < MAXFILE * BSIZE && off % BSIZE + |chunk| <= BSIZE
      requires Written(sb, d0, Snap(ip), ip.inum, start, done) && off == start + |done|
      requires Logs(Logged(), rec, IndirectBlocks(ip), sb.BitmapBlocks())
      requires rec.c == 0 && rec.first == 1 ==> Snap(ip).Addr(ip.inum, off / BSIZE) != 0
      modifies this`owner, this`calls, bitmap, blocks, ip.addrs
      ensures ok ==> Valid(ip) && Written(sb, d0, Snap(ip), ip.inum, start, if copied then done + chunk else done)
      ensures ok ==>
                && Logs(Logged(), rec', IndirectBlocks(ip), sb.BitmapBlocks()) && rec'.c == rec.c + 1
                && rec'.first == rec.first && rec'.L0 == rec.L0
      ensures old(Logged()) <= Logged() && AllLogged(sb, old(Snap(ip)), Snap(ip), Logged())
      ensures !ok ==> forall c | 0 <= c < sb.size :: Snap(ip).bits[c]
      ensures ok <==> FreeBlocks(old(Snap(ip)).bits) >= Needs(old(Snap(ip)), ip.inum, off / BSIZE, 1)
      ensures ok ==> Account(old(Snap(ip)), Snap(ip), ip.inum, off / BSIZE, 1)
    {
      hide Written, Extends, Inv, Bits, Patch, Logs, IndirectBlocks, AllLogged,
           Super.BitmapBlocks, Distinct, FreeBlocks, Account, Needs, Lacks;
      ghost var d, l, inds := Snap(ip), Logged(), IndirectBlocks(ip);
      rec' := rec;
      var addr;
      ok, addr := Bmap(ip, off / BSIZE);
      if ok {
        ghost var d1 := Snap(ip);
        ExtendsWritten(sb, d0, d, d1, ip.inum, start, done);
        NonzeroMapped(sb, d1, owner, ip.inum, off / BSIZE, Zero());
        if copied {
          NonzeroMapped(sb, d1, owner, ip.inum, off / BSIZE, Patch(d1.blocks[addr], off % BSIZE, chunk));
          PatchWritten(sb, d0, d1, owner, ip.inum, start, done, chunk);
          blocks[addr] := Patch(blocks[addr], off % BSIZE, chunk);
          assert Snap(ip) == d1.(blocks := d1.blocks[addr := Patch(d1.blocks[addr], off % BSIZE, chunk)]);
          PatchAccount(sb, d, d1, owner, ip.inum, off / BSIZE, Patch(d1.blocks[addr], off % BSIZE, chunk));
          ghost var l1 := Logged();
          LogWrite(addr);
          OneLogged(sb, d1, Snap(ip), Logged(), addr);
          AllLoggedTrans(sb, d, d1, Snap(ip), l1, Logged());
        }
        BBlockIn(sb, addr);
        rec' := LogsNext(l, Logged(), rec, inds, IndirectBlocks(ip), sb.BitmapBlocks(), addr, sb.BBlock(addr),
                         d.Addr(ip.inum, off / BSIZE) == 0);
      }
    }

    /** The state of the loop in writei, which started on disk d0 with the blocks L0 logged: the bytes done are
        written, and c blocks have been mapped and accounted for. */
    ghost predicate Going(ip: Inode, d0: Disk, L0: set<nat>, start: nat, done: seq<Byte>, c: nat, rec: LogRecord)
      reads this, bitmap, dinodes, blocks, ip, ip.addrs
    {
      && Valid(ip) && Written(sb, d0, Snap(ip), ip.inum, start, done)
      && Logs(Logged(), rec, IndirectBlocks(ip), sb.BitmapBlocks()) && rec.c == c && rec.L0 == L0
      && L0 <= Logged() && AllLogged(sb, d0, Snap(ip), Logged()) && Account(d0, Snap(ip), ip.inum, start / BSIZE, c)
    }

    lemma GoingStart(ip: Inode, start: nat, first: nat)
      requires Valid(ip) && first <= 1
      ensures Going(ip, Snap(ip), Logged(), start, [], 0, LogRecord(Logged(), {}, {}, 0, first))
    {
      hide Written, Inv, Bits, IndirectBlocks, Logs, AllLogged, Distinct, Account;
      WrittenNothing(sb, Snap(ip), ip.inum, start);
      AccountNone(Snap(ip), ip.inum, start / BSIZE);
      LogsNone(Logged(), IndirectBlocks(ip), sb.BitmapBlocks(), first);
      AllLoggedSame(sb, Snap(ip), Logged());
    }

    lemma GoingEnds(ip: Inode, d0: Disk, L0: set<nat>, start: nat, n: nat, done: seq<Byte>, c: nat, rec: LogRecord)
      requires Going(ip, d0, L0, start, done, c, rec) && c <= Touched(start, n)
      requires rec.first == if start % BSIZE != 0 && n > 0 then 1 else 0
      ensures Valid(ip) && Written(sb, d0, Snap(ip), ip.inum, start, done)
      ensures |Logged()| <= |L0| + Budget(sb, start, n) - 1
      ensures L0 <= Logged() && AllLogged(sb, d0, Snap(ip), Logged())
      ensures Account(d0, Snap(ip), ip.inum, start / BSIZE, c)
      ensures FreeBlocks(d0.bits) >= Needs(d0, ip.inum, start / BSIZE, c)
    {
      hide Written, Inv, Bits, IndirectBlocks, Logs, AllLogged, Distinct, Account, Budget, Touched;
      RecordFits(ip, rec, start, n);
      AccountEnds(d0, Snap(ip), ip.inum, start / BSIZE, c);
    }

    /** One round of the loop, for the chunk at start + tot. */
    method WriteRound(ip: Inode, src: seq<Byte>, start: nat, tot: nat, m: nat, copied: bool,
                      ghost d0: Disk, ghost L0: set<nat>, ghost rec: LogRecord)
      returns (ok: bool, ghost rec': LogRecord)
      requires tot < |src| && Going(ip, d0, L0, start, src[..tot], Touched(start, tot), rec)
      requires 0 < m <= |src| - tot && (start + tot) % BSIZE + m <= BSIZE && start + |src| <= MAXFILE * BSIZE
      requires (start + tot) / BSIZE == start / BSIZE + Touched(start, tot)
      requires rec.c == 0 && rec.first == 1 ==> Snap(ip).Addr(ip.inum, (start + tot) / BSIZE) != 0
      modifies this`owner, this`calls, bitmap, blocks, ip.addrs
      ensures !ok ==> forall c | 0 <= c < sb.size :: Snap(ip).bits[c]
      ensures L0 <= Logged() && AllLogged(sb, d0, Snap(ip), Logged())
      ensures !ok ==> forall total | total > Touched(start, tot) ::
                        FreeBlocks(d0.bits) < Needs(d0, ip.inum, start / BSIZE, total)
      ensures ok ==> Going(ip, d0, L0, start, src[..if copied then tot + m else tot], Touched(start, tot) + 1, rec')
      ensures ok ==> rec'.first == rec.first && rec'.c == Touched(start, tot) + 1
    {
      hide Written, Inv, Bits, Touched, Disk.Addr, Disk.Shaped, IndirectBlocks, Logs, AllLogged, Super.BitmapBlocks,
           Distinct, FreeBlocks, Account, Needs;
      ghost var d1, l1, bn0, c := Snap(ip), Logged(), start / BSIZE, Touched(start, tot);
      ok, rec' := WriteChunk(ip, start + tot, src[tot..tot + m], copied, d0, start, src[..tot], rec);
      AllLoggedTrans(sb, d0, d1, Snap(ip), l1, Logged());
      if ok {
        AccountJoin(d0, d1, Snap(ip), ip.inum, bn0, c, bn0 + c, 1);
        assert src[..tot] + src[tot..tot + m] == src[..tot + m];
      } else {
        forall total | total > c ensures FreeBlocks(d0.bits) < Needs(d0, ip.inum, bn0, total) {
          AccountFails(d0, d1, ip.inum, bn0, c, bn0 + c, 1, total);
        }
      }
    }

    /** The loop of writei. */
    method WriteLoop(ip: Inode, src: seq<Byte>, start: nat, copies: nat) returns (ok: bool, tot: nat, left: nat)
      requires Valid(ip) && start <= ip.size && start + |src| <= MAXFILE * BSIZE
      modifies this`owner, this`calls, bitmap, blocks, ip.addrs
      ensures ok ==> Valid(ip) && tot == Reach(start, |src|, copies)
      ensures ok ==> left == if tot < |src| then 0 else copies - Touched(start, |src|)
      ensures ok ==> Written(sb, old(Snap(ip)), Snap(ip), ip.inum, start, src[..tot])
      ensures ok ==> |Logged()| <= |old(Logged())| + Budget(sb, start, |src|) - 1
      ensures old(Logged()) <= Logged() && AllLogged(sb, old(Snap(ip)), Snap(ip), Logged())
      ensures !ok ==> forall c | 0 <= c < sb.size :: Snap(ip).bits[c]
      ensures ok <==> FreeBlocks(old(Snap(ip)).bits)
                      >= Needs(old(Snap(ip)), ip.inum, start / BSIZE, Tried(start, |src|, copies))
      ensures ok ==> Account(old(Snap(ip)), Snap(ip), ip.inum, start / BSIZE, Tried(start, |src|, copies))
    {
      hide Written, Inv, Bits, Chunk, Reach, Touched, Disk.Addr, Disk.Shaped, Mapped, IndirectBlocks, Logs, AllLogged,
           Budget, Super.BitmapBlocks, Distinct, FreeBlocks, Account, Needs, Going;
      ghost var d0, L0, first := Snap(ip), Logged(), if start % BSIZE != 0 && |src| > 0 then 1 else 0;
      ghost var rec := LogRecord(L0, {}, {}, 0, first);
      if first == 1 {
        SizeMapped(sb, d0, owner, ip.inum, start - 1);
      }
      TouchedNone(start);
      GoingStart(ip, start, first);
      tot, left := 0, copies;
      assert src[..0] == [];
      while tot < |src|
        invariant Between(start, |src|, tot) && Going(ip, d0, L0, start, src[..tot], Touched(start, tot), rec)
        invariant tot + Reach(start + tot, |src| - tot, left) == Reach(start, |src|, copies)
        invariant tot == 0 ==> Snap(ip) == d0
        invariant left + Touched(start, tot) == copies && rec.first == first
        invariant Touched(start, tot) <= Touched(start, |src|) && (rec.c == 0 ==> tot == 0)
                  && rec.c == Touched(start, tot)
      {
        ChunkStep(start, |src|, tot, left);
        var m := Chunk(start + tot, |src| - tot);
        ok, rec := WriteRound(ip, src, start, tot, m, left > 0, d0, L0, rec);
        if !ok {
          return;
        }
        if left == 0 {
          break;
        }
        tot, left := tot + m, left - 1;
      }
      GoingEnds(ip, d0, L0, start, |src|, src[..tot], rec.c, rec);
      return true, tot, left;
    }

    /** writei: either the request is out of range and nothing happens, or as many bytes as could be
        copied in are spliced into the file, which grows to hold them.  No other file changes, and at
        most Budget(sb, off, n) blocks are logged. */
    method Writei(ip: Inode, src: seq<Byte>, off: Uint, copies: nat) returns (ok: bool, r: int, left: nat)
      requires Valid(ip) && |src| < UINT_LIMIT
      modifies this`owner, this`calls, bitmap, blocks, dinodes, ip`size, ip.addrs
      ensures !ok ==> forall c | 0 <= c < sb.size :: Snap(ip).bits[c]
      ensures ok ==> Valid(ip) && -1 <= r <= |src|
      ensures ok ==> (r == -1 <==> off > old(ip.size) || off + |src| > MAXFILE * BSIZE)
      ensures ok && r == -1 ==>
                && left == copies && Snap(ip) == old(Snap(ip)) && ip.size == old(ip.size) && owner == old(owner)
                && dinodes[..] == old(dinodes[..]) && calls == old(calls)
      ensures ok && r >= 0 ==>
                && r == Reach(off, |src|, copies) && left == (if r < |src| then 0 else copies - Touched(off, |src|))
                && ip.size == Max(old(ip.size), off + r)
                && Content(sb, Snap(ip), owner, ip.inum)
                   == Splice(old(Content(sb, Snap(ip), owner, ip.inum)), off, src[..r])
                && dinodes[..] == old(dinodes[..])[ip.inum := ip.Rec()]
      ensures ok ==> forall j | 0 <= j < sb.ninodes && j != ip.inum ::
                       Content(sb, Snap(ip), owner, j) == old(Content(sb, Snap(ip), owner, j))
      ensures ok && r >= 0 ==> (r == |src| <==> copies >= Touched(off, |src|))
      ensures ok ==> |Logged()| <= |old(Logged())| + Budget(sb, off, |src|)
      ensures ok && r >= 0 ==>
                && calls != [] && calls[|calls| - 1] == sb.IBlock(ip.inum)
                && |Distinct(calls[..|calls| - 1])| <= |old(Logged())| + Budget(sb, off, |src|) - 1
      ensures AllLogged(sb, old(Snap(ip)), Snap(ip), Logged())
      ensures off <= old(ip.size) && off + |src| <= MAXFILE * BSIZE ==>
                && (ok <==> FreeBlocks(old(Snap(ip)).bits)
                            >= Needs(old(Snap(ip)), ip.inum, off / BSIZE, Tried(off, |src|, copies)))
                && (ok ==> Account(old(Snap(ip)), Snap(ip), ip.inum, off / BSIZE, Tried(off, |src|, copies)))
      ensures off > old(ip.size) || off + |src| > MAXFILE * BSIZE ==> ok
    {
      hide Written, Inv, Bits, Content, Splice, Reach, Disk.Slot, AllLogged, FreeBlocks, Account, Needs, Tried, Lacks;
      var n := |src|;
      left := copies;
      ghost var d0, owner0, L0 := Snap(ip), owner, Logged();
      SizeBound(sb, d0, owner, ip.inum);
      AllLoggedSame(sb, d0, Logged());
      if off > ip.size || (off + n) % UINT_LIMIT < off || (off + n) % UINT_LIMIT > MAXFILE * BSIZE {
        return true, -1, left;
      }
      var tot;
      ok, tot, left := WriteLoop(ip, src, off, copies);
      r := tot;
      if !ok {
        return;
      }
      ReachAll(off, n, copies);
      ghost var d := Snap(ip);
      WrittenSame(sb, d0, d, ip.inum, off, src[..tot]);
      if off + tot > ip.size {
        ip.size := off + tot;
      }
      ghost var d' := Snap(ip);
      assert Resized(d, d', ip.inum, Max(d0.inodes[ip.inum].size, off + tot));
      WriteMeaning(sb, d0, owner0, d, owner, d', ip.inum, off, src[..tot]);
      ResizeAccount(d0, d, d', ip.inum, Max(d0.inodes[ip.inum].size, off + tot), off / BSIZE, Tried(off, n, copies));
      ghost var l, before := Logged(), calls;
      Iupdate(ip);
      assert calls[..|calls| - 1] == before;
      AllLoggedGrows(sb, d0, d, Snap(ip), l, Logged());
    }

    /** One round of the loop in readi: the part of the file from off on that lies in one block. */
    method ReadChunk(ip: Inode, off: nat, m: nat) returns (chunk: seq<Byte>)
      requires Valid(ip) && m > 0 && off + m <= ip.size && off % BSIZE + m <= BSIZE
      modifies this`owner, this`calls, bitmap, blocks, ip.addrs
      ensures Valid(ip) && Snap(ip) == old(Snap(ip)) && owner == old(owner) && calls == old(calls)
      ensures chunk == Content(sb, Snap(ip), owner, ip.inum)[off..off + m]
    {
      hide Inv, Bits, Content, Disk.Slot;
      ContentChunk(sb, Snap(ip), owner, ip.inum, off, m);
      var ok, addr := Bmap(ip, off / BSIZE);
      chunk := blocks[addr][off % BSIZE..off % BSIZE + m];
    }

    /** The loop of readi. */
    method ReadLoop(ip: Inode, off: nat, m: nat, copies: nat) returns (ok: bool, data: seq<Byte>)
      requires Valid(ip) && off + m <= ip.size
      modifies this`owner, this`calls, bitmap, blocks, ip.addrs
      ensures Valid(ip) && Snap(ip) == old(Snap(ip)) && owner == old(owner) && calls == old(calls)
      ensures var got := Reach(off, m, copies);
              ok == (got == m) && data == Content(sb, Snap(ip), owner, ip.inum)[off..off + got]
    {
      hide Inv, Bits, Content, Chunk, Reach, Touched, Disk.Slot, Disk.Shaped;
      data := [];
      ghost var content := Content(sb, Snap(ip), owner, ip.inum);
      SizeBound(sb, Snap(ip), owner, ip.inum);
      var tot, left := 0, copies;
      while tot < m
        invariant Between(off, m, tot) && Valid(ip)
        invariant Snap(ip) == old(Snap(ip)) && owner == old(owner) && calls == old(calls)
        invariant data == content[off..off + tot]
        invariant tot + Reach(off + tot, m - tot, left) == Reach(off, m, copies)
      {
        ChunkStep(off, m, tot, left);
        var step := Chunk(off + tot, m - tot);
        var chunk := ReadChunk(ip, off + tot, step);
        if left == 0 {
          return false, data;
        }
        assert data + chunk == content[off..off + (tot + step)];
        data := data + chunk;
        tot, left := tot + step, left - 1;
      }
      return true, data;
    }

    /** readi: the bytes of the file that lie in the requested range, if they can all be copied out.
        Although it goes through bmap it never allocates. */
    method Readi(ip: Inode, off: Uint, n: Uint, copies: nat) returns (r: int, data: seq<Byte>)
      requires Valid(ip)
      modifies this`owner, this`calls, bitmap, blocks, ip.addrs
      ensures Valid(ip) && Snap(ip) == old(Snap(ip)) && owner == old(owner) && calls == old(calls)
      ensures off > ip.size || off + n >= UINT_LIMIT ==> r == 0 && data == []
      ensures off <= ip.size && off + n < UINT_LIMIT ==>
                var m := if off + n > ip.size then ip.size - off else n;
                var got := Reach(off, m, copies);
                r == (if got == m then m else -1) && data == Content(sb, Snap(ip), owner, ip.inum)[off..off + got]
    {
      hide Inv, Bits, Content, Chunk, Reach, Disk.Slot, Disk.Shaped;
      if off > ip.size || (off + n) % UINT_LIMIT < off {
        return 0, [];
      }
      var m := if off + n > ip.size then ip.size - off else n;
      var ok;
      ok, data := ReadLoop(ip, off, m, copies);
      return if ok then m else -1, data;
    }

    /** Free the block in slot s of the inode, if there is one. */
    method FreeSlot(ip: Inode, s: nat, b: nat, ghost d: Disk, ghost done: set<nat>) returns (ok: bool)
      requires Shape(ip) && Inv(sb, d, owner) && s < NSLOTS && s !in done && b == d.Slot(ip.inum, s)
      requires Freed(sb, d, Snap(ip).bits, owner, ip.inum, done)
      modifies this`calls, bitmap
      ensures ok && Freed(sb, d, Snap(ip).bits, owner, ip.inum, done + {s})
      ensures old(Logged()) <= Logged() <= old(Logged()) + sb.BitmapBlocks()
              && AllLogged(sb, old(Snap(ip)), Snap(ip), Logged())
    {
      hide Inv, Bits, Freed, AllLogged, Distinct, Super.BitmapBlocks;
      AllLoggedSame(sb, Snap(ip), Logged());
      ghost var d0 := Snap(ip);
      FreeNext(sb, d, Snap(ip).bits, owner, ip.inum, done, s);
      ok := true;
      if b != 0 {
        ok := Bfree(b, ip);
        BBlockIn(sb, b);
        OneLogged(sb, d0, Snap(ip), Logged(), b);
      }
    }

    /** itrunc: all blocks of the file are freed, none of them twice, and the inode is left empty. */
    method Itrunc(ip: Inode) returns (ok: bool)
      requires Valid(ip)
      modifies this`owner, this`calls, bitmap, dinodes, ip`size, ip.addrs
      ensures ok && Valid(ip) && Truncated(sb, old(Snap(ip)), Snap(ip), old(owner), ip.inum)
      ensures dinodes[..] == old(dinodes[..])[ip.inum := ip.Rec()]
      ensures AllLogged(sb, old(Snap(ip)), Snap(ip), Logged())
      ensures calls != [] && calls[|calls| - 1] == sb.IBlock(ip.inum)
      ensures |Distinct(calls[..|calls| - 1])| <= |old(Logged())| + sb.Bitmaps()
    {
      hide Inv, Bits, Freed, Word, Truncated, AllLogged, Distinct;
      ghost var d, done := Snap(ip), {};
      done := FreeDirect(ip, d);
      ghost var d1, l1 := Snap(ip), Logged();
      done := FreeIndirect(ip, d, done);
      AllLoggedTrans(sb, d, d1, Snap(ip), l1, Logged());
      ghost var d2, l2, before := Snap(ip), Logged(), calls;
      SubsetSize(l2, old(Logged()) + sb.BitmapBlocks());
      ip.size := 0;
      Iupdate(ip);
      assert calls[..|calls| - 1] == before;
      AllLoggedGrows(sb, d, d2, Snap(ip), l2, Logged());
      assert ip.addrs[..] == seq(NDIRECT + 1, _ => 0);
      assert Truncated(sb, d, Snap(ip), owner, ip.inum) by { AllFreed(sb, d, Snap(ip), owner, ip.inum, done); }
      TruncateKeepsInv(sb, d, Snap(ip), owner, ip.inum);
      owner := map b | b in owner && owner[b].0 != ip.inum :: owner[b];
      return true;
    }

    /** The first half of itrunc: the direct blocks. */
    method FreeDirect(ip: Inode, ghost d: Disk) returns (ghost done: set<nat>)
      requires Valid(ip) && d == Snap(ip)
      modifies this`calls, bitmap, ip.addrs
      ensures Freed(sb, d, Snap(ip).bits, owner, ip.inum, done) && forall s :: s in done <==> 0 <= s < NDIRECT
      ensures forall k | 0 <= k <= NDIRECT :: ip.addrs[k] == if k < NDIRECT then 0 else old(ip.addrs[k])
      ensures Logged() <= old(Logged()) + sb.BitmapBlocks() && AllLogged(sb, d, Snap(ip), Logged())
    {
      hide Inv, Bits, Freed, Word, AllLogged, Distinct;
      done := {};
      AllLoggedSame(sb, d, Logged());
      FreedNone(sb, d, owner, ip.inum);
      var i := 0;
      while i < NDIRECT
        invariant 0 <= i <= NDIRECT && forall s :: s in done <==> 0 <= s < i
        invariant Freed(sb, d, Snap(ip).bits, owner, ip.inum, done)
        invariant forall k | 0 <= k <= NDIRECT :: ip.addrs[k] == if k < i then 0 else d.inodes[ip.inum].addrs[k]
        invariant Logged() <= old(Logged()) + sb.BitmapBlocks() && AllLogged(sb, d, Snap(ip), Logged())
      {
        ghost var d1, l1 := Snap(ip), Logged();
        var ok := FreeSlot(ip, i, ip.addrs[i], d, done);
        AllLoggedTrans(sb, d, d1, Snap(ip), l1, Logged());
        ghost var d2, l2 := Snap(ip), Logged();
        ip.addrs[i] := 0;
        AllLoggedGrows(sb, d, d2, Snap(ip), l2, Logged());
        done := done + {i};
        i := i + 1;
      }
    }

    /** The second half of itrunc: the entries of the indirect block, then the block itself. */
    method FreeIndirect(ip: Inode, ghost d: Disk, ghost start: set<nat>) returns (ghost done: set<nat>)
      requires Shape(ip) && Inv(sb, d, owner) && blocks[..] == d.blocks && forall s :: s in start <==> 0 <= s < NDIRECT
      requires Freed(sb, d, Snap(ip).bits, owner, ip.inum, start)
               && ip.addrs[NDIRECT] == d.inodes[ip.inum].addrs[NDIRECT]
      modifies this`calls, bitmap, ip.addrs
      ensures Freed(sb, d, Snap(ip).bits, owner, ip.inum, done)
              && forall s | 0 <= s < NSLOTS :: s in done || d.Slot(ip.inum, s) == 0
      ensures ip.addrs[..] == old(ip.addrs[..])[NDIRECT := 0]
      ensures old(Logged()) <= Logged() <= old(Logged()) + sb.BitmapBlocks()
              && AllLogged(sb, old(Snap(ip)), Snap(ip), Logged())
    {
      hide Inv, Bits, Freed, Word, AllLogged, Distinct, Super.BitmapBlocks;
      done := start;
      ghost var d0 := Snap(ip);
      AllLoggedSame(sb, d0, Logged());
      var ind := ip.addrs[NDIRECT];
      if ind != 0 {
        IndirectInUse(sb, d, owner, ip.inum);
        var a := blocks[ind];
        var j := 0;
        while j < NINDIRECT
          invariant 0 <= j <= NINDIRECT && forall s :: s in done <==> 0 <= s < NDIRECT || NDIRECT < s <= NDIRECT + j
          invariant Freed(sb, d, Snap(ip).bits, owner, ip.inum, done) && ip.addrs[..] == old(ip.addrs[..])
          invariant old(Logged()) <= Logged() <= old(Logged()) + sb.BitmapBlocks()
                    && AllLogged(sb, d0, Snap(ip), Logged())
        {
          ghost var d1, l1 := Snap(ip), Logged();
          var ok := FreeSlot(ip, NDIRECT + 1 + j, Word(a, j), d, done);
          AllLoggedTrans(sb, d0, d1, Snap(ip), l1, Logged());
          done := done + {NDIRECT + 1 + j};
          j := j + 1;
        }
        ghost var d1, l1 := Snap(ip), Logged();
        var ok := FreeSlot(ip, NDIRECT, ind, d, done);
        AllLoggedTrans(sb, d0, d1, Snap(ip), l1, Logged());
        ghost var d2, l2 := Snap(ip), Logged();
        done := done + {NDIRECT};
        ip.addrs[NDIRECT] := 0;
        AllLoggedGrows(sb, d0, d2, Snap(ip), l2, Logged());
      }
    }

    /** The part of filewrite between begin_op and end_op: one piece in one transaction, at the offset of the
        open file, which moves on.  Other processes may change the file, and the offset, between two pieces. */
    method WriteTransaction(f: File, src: seq<Byte>, copies: nat) returns (ok: bool, r: int, left: nat)
      requires Valid(f.ip) && |src| <= MAXWRITE
      modifies this`owner, this`calls, bitmap, blocks, dinodes, f`off, f.ip`size, f.ip.addrs
      ensures !ok ==> forall c | 0 <= c < sb.size :: Snap(f.ip).bits[c]
      ensures ok ==> Valid(f.ip) && -1 <= r <= |src|
      ensures ok ==> (r == -1 <==> old(f.off) > old(f.ip.size) || old(f.off) + |src| > MAXFILE * BSIZE)
      ensures ok && r == -1 ==>
                Snap(f.ip) == old(Snap(f.ip)) && f.ip.size == old(f.ip.size) && owner == old(owner) && calls == []
      ensures ok && r >= 0 ==>
                && r == Reach(old(f.off), |src|, copies) && (r == |src| <==> copies >= Touched(old(f.off), |src|))
                && (r == |src| ==> left == copies - Touched(old(f.off), |src|))
                && f.ip.size == Max(old(f.ip.size), old(f.off) + r)
                && calls != [] && calls[|calls| - 1] == sb.IBlock(f.ip.inum)
                && Content(sb, Snap(f.ip), owner, f.ip.inum)
                   == Splice(old(Content(sb, Snap(f.ip), owner, f.ip.inum)), old(f.off), src[..r])
      ensures ok ==> f.off == old(f.off) + if r > 0 then r else 0
      ensures ok ==> forall j | 0 <= j < sb.ninodes && j != f.ip.inum ::
                       Content(sb, Snap(f.ip), owner, j) == old(Content(sb, Snap(f.ip), owner, j))
      ensures ok ==> AllLogged(sb, old(Snap(f.ip)), Snap(f.ip), Logged())
      ensures ok ==> InodesLogged(sb, old(Snap(f.ip)), Snap(f.ip), Logged())
      ensures ok ==> Paced(calls, Budget(sb, old(f.off), |src|) - 1)
      ensures ok ==> |Logged()| <= Budget(sb, old(f.off), |src|) <= MAXOPBLOCKS
      ensures old(f.off) <= old(f.ip.size) && old(f.off) + |src| <= MAXFILE * BSIZE ==>
                var d, bn, c := old(Snap(f.ip)), old(f.off) / BSIZE, Tried(old(f.off), |src|, copies);
                && (ok <==> FreeBlocks(d.bits) >= Needs(d, f.ip.inum, bn, c))
                && (ok ==> Account(d, Snap(f.ip), f.ip.inum, bn, c))
      ensures old(f.off) > old(f.ip.size) || old(f.off) + |src| > MAXFILE * BSIZE ==> ok
    {
      hide Inv, Bits, Content, Splice, Reach, Disk.Slot, Disk.Shaped, Budget, AllLogged, Paced, FreeBlocks, Account,
           Needs, Tried;
      calls := [];
      DistinctBound(calls);
      ok, r, left := Writei(f.ip, src, f.off, copies);
      if !ok {
        return;
      }
      BudgetFits(sb, old(f.off), |src|);
      if r >= 0 {
        PacedUpTo(calls, Budget(sb, old(f.off), |src|) - 1);
        DistinctLast(calls);
      } else {
        PacedNone(Budget(sb, old(f.off), |src|) - 1);
      }
      if r > 0 {
        f.off := f.off + r;
      }
    }

    /** A piece of n1 bytes from byte i of src on continues the trace. */
    method TracedPiece(f: File, src: seq<Byte>, i: nat, n1: nat, copies: nat, ghost trace: seq<Moment>)
      returns (ok: bool, r: int, left: nat, ghost trace': seq<Moment>)
      requires Valid(f.ip) && n1 <= MAXWRITE && i + n1 <= |src| && i <= f.off
      requires Progress(sb, trace, f.ip.inum, f.off - i, src)
      requires var m := trace[|trace| - 1]; m.disk == Snap(f.ip) && m.owner == owner && m.done == i
      modifies this`owner, this`calls, bitmap, blocks, dinodes, f`off, f.ip`size, f.ip.addrs
      ensures !ok ==> trace' == trace && forall c | 0 <= c < sb.size :: Snap(f.ip).bits[c]
      ensures ok ==> Valid(f.ip) && -1 <= r <= n1
      ensures ok ==> (r == -1 <==> old(f.off) > old(f.ip.size) || old(f.off) + n1 > MAXFILE * BSIZE)
      ensures ok && r >= 0 ==>
                && r == Reach(old(f.off), n1, copies) && (r == n1 <==> copies >= Touched(old(f.off), n1))
                && (r == n1 ==> left == copies - Touched(old(f.off), n1))
                && f.ip.size == Max(old(f.ip.size), old(f.off) + r)
      ensures ok && r == -1 ==> f.ip.size == old(f.ip.size)
      ensures ok ==> f.off == old(f.off) + if r > 0 then r else 0
      ensures ok ==>
                && Progress(sb, trace', f.ip.inum, old(f.off) - i, src) && |trace'| == |trace| + 1
                && trace'[0] == trace[0]
                && trace'[|trace|].disk == Snap(f.ip) && trace'[|trace|].owner == owner
                && trace'[|trace|].done == i + f.off - old(f.off)
      ensures old(f.off) <= old(f.ip.size) && old(f.off) + n1 <= MAXFILE * BSIZE ==>
                var d, bn, c := old(Snap(f.ip)), old(f.off) / BSIZE, Tried(old(f.off), n1, copies);
                && (ok <==> FreeBlocks(d.bits) >= Needs(d, f.ip.inum, bn, c))
                && (ok ==> Account(d, Snap(f.ip), f.ip.inum, bn, c))
      ensures old(f.off) > old(f.ip.size) || old(f.off) + n1 > MAXFILE * BSIZE ==> ok
    {
      hide Inv, Bits, Content, Splice, Reach, Disk.Slot, Disk.Shaped, Budget, AllLogged, InodesLogged, Paced, Progress,
           MomentOk, Touched, FreeBlocks, Account, Needs, Tried;
      trace' := trace;
      assert |trace| > 0 by { ProgressLast(sb, trace, f.ip.inum, f.off - i, src); }
      ok, r, left := WriteTransaction(f, src[i..i + n1], copies);
      if ok {
        PieceOk(sb, old(f.off), n1, calls);
        ghost var m' := Moment(Snap(f.ip), owner, i + f.off - old(f.off), calls);
        assert r >= 0 ==> src[i..i + n1][..r] == src[i..i + r];
        ProgressPiece(sb, trace, m', f.ip.inum, old(f.off) - i, src, r);
        trace' := trace + [m'];
      }
    }

    /** filewrite on an inode: one transaction per piece, each of which fits the log.  The bytes that
        are written extend the file from the old offset, and the offset moves past them.  The trace holds
        the disk after every transaction that was completed. */
    method FileWrite(f: File, src: seq<Byte>, copies: nat) returns (ok: bool, ret: int, ghost trace: seq<Moment>)
      requires Valid(f.ip) && |src| < UINT_LIMIT
      modifies this`owner, this`calls, bitmap, blocks, dinodes, f`off, f.ip`size, f.ip.addrs
      ensures !ok ==> forall c | 0 <= c < sb.size :: Snap(f.ip).bits[c]
      ensures !ok ==> FreeBlocks(old(Snap(f.ip)).bits)
                      < Needs(old(Snap(f.ip)), f.ip.inum, old(f.off) / BSIZE, Touched(old(f.off), |src|))
      ensures ok && ret == |src| ==>
                || |src| == 0
                || Account(old(Snap(f.ip)), Snap(f.ip), f.ip.inum, old(f.off) / BSIZE, Touched(old(f.off), |src|))
      ensures Progress(sb, trace, f.ip.inum, old(f.off), src)
      ensures trace[0].disk == old(Snap(f.ip)) && trace[0].owner == old(owner)
      ensures ok ==> Valid(f.ip) && old(f.off) <= f.off <= old(f.off) + |src|
      ensures ok ==>
                var m := trace[|trace| - 1]; m.disk == Snap(f.ip) && m.owner == owner && m.done == f.off - old(f.off)
      ensures ok ==> ret == if f.off == old(f.off) + |src| then |src| else -1
      ensures ok ==> f.off == old(f.off) + if old(f.off) > old(f.ip.size) then 0 else Carried(old(f.off), |src|, copies)
      ensures ok && |src| > 0 ==>
                (ret == |src| <==>
                 && old(f.off) <= old(f.ip.size) && old(f.off) + |src| <= MAXFILE * BSIZE
                 && copies >= Pieces(old(f.off), |src|))
      ensures ok && old(f.off) <= old(f.ip.size) ==>
                Content(sb, Snap(f.ip), owner, f.ip.inum)
                == Splice(old(Content(sb, Snap(f.ip), owner, f.ip.inum)), old(f.off), src[..f.off - old(f.off)])
      ensures ok && old(f.off) > old(f.ip.size) ==>
                && f.off == old(f.off)
                && Content(sb, Snap(f.ip), owner, f.ip.inum) == old(Content(sb, Snap(f.ip), owner, f.ip.inum))
      ensures ok ==> forall j | 0 <= j < sb.ninodes && j != f.ip.inum ::
                       Content(sb, Snap(f.ip), owner, j) == old(Content(sb, Snap(f.ip), owner, j))
    {
      hide Inv, Bits, Content, Splice, Reach, Disk.Slot, Disk.Shaped, Budget, AllLogged, InodesLogged, Paced, Progress,
           MomentOk, Touched, Carried, Pieces, FreeBlocks, Account, Needs, Tried, Joined;
      var ip, i, left := f.ip, 0, copies;
      ghost var start, m := f.off, Moment(Snap(ip), owner, 0, []);
      trace := [m];
      ProgressStart(sb, m, ip.inum, start, src);
      TouchedNone(start);
      AccountNone(m.disk, ip.inum, start / BSIZE);
      while i < |src|
        invariant start <= old(ip.size) ==> Account(m.disk, Snap(ip), ip.inum, start / BSIZE, Touched(start, i))
        invariant 0 <= i <= |src| && Valid(ip) && f.off == start + i
        invariant Progress(sb, trace, ip.inum, start, src) && |trace| > 0 && trace[0] == m
        invariant var last := trace[|trace| - 1]; last.disk == Snap(ip) && last.owner == owner && last.done == i
        invariant start <= old(ip.size) ==>
                    f.off <= ip.size && i + Carried(start + i, |src| - i, left) == Carried(start, |src|, copies)
        invariant start > old(ip.size) ==> i == 0 && ip.size == old(ip.size)
        decreases |src| - i
      {
        var n1 := if |src| - i > MAXWRITE then MAXWRITE else |src| - i;
        var r;
        CarriedStep(f.off, |src| - i, left);
        ghost var d1, left1, bn0, c, bn1 := Snap(ip), left, start / BSIZE, Touched(start, i), f.off / BSIZE;
        PieceBlocks(start, i, n1, left, |src|);
        ok, r, left, trace := TracedPiece(f, src, i, n1, left, trace);
        if !ok {
          AccountFails(m.disk, d1, ip.inum, bn0, c, bn1, Tried(start + i, n1, left1), Touched(start, |src|));
          return false, -1, trace;
        }
        if r == n1 {
          AccountJoin(m.disk, d1, Snap(ip), ip.inum, bn0, c, bn1, Tried(start + i, n1, left1));
        }
        if r != n1 {
          break;
        }
        i := i + r;
      }
      ret := if i == |src| then |src| else -1;
      ok := true;
      CarriedAll(start, |src|, copies);
      ProgressLast(sb, trace, ip.inum, start, src);
      MomentMeans(sb, m, trace[|trace| - 1], ip.inum, start, src);
    }
  }

  lemma SpliceNothing(c: seq<Byte>, off: nat)
    ensures off <= |c| ==> Splice(c, off, []) == c
  {
  }

  lemma TouchedNone(off: nat)
    ensures Touched(off, 0) == 0
  {
  }

  /** The blocks that a write has logged since L0: c data blocks D, and bitmap blocks X for the new
      ones among them, which are all but the first if first is 1. */
  datatype LogRecord = LogRecord(L0: set<nat>, D: set<nat>, X: set<nat>, c: nat, first: nat)

  ghost predicate Logs(logged: set<nat>, r: LogRecord, I: set<nat>, B: set<nat>) {
    && logged <= r.L0 + r.D + r.X + I && |r.D| <= r.c && r.X <= B
    && r.first <= 1 && |r.X| + (if r.c > 0 then r.first else 0) <= r.c
  }

  lemma LogsNone(l: set<nat>, I: set<nat>, B: set<nat>, first: nat)
    requires first <= 1
    ensures Logs(l, LogRecord(l, {}, {}, 0, first), I, B)
  {
  }

  lemma LogsNext(l: set<nat>, l': set<nat>, r: LogRecord, I: set<nat>, I': set<nat>, B: set<nat>, a: nat, bb: nat,
                 unmapped: bool)
    returns (r': LogRecord)
    requires Logs(l, r, I, B) && I <= I' && (r.c == 0 && r.first == 1 ==> !unmapped) && bb in B
    requires l' <= l + {a} + I' + (if unmapped then {bb} else {})
    ensures Logs(l', r', I', B) && r'.c == r.c + 1 && r'.first == r.first && r'.L0 == r.L0
  {
    r' := LogRecord(r.L0, r.D + {a}, if unmapped then r.X + {bb} else r.X, r.c + 1, r.first);
  }

  lemma LogsSize(l: set<nat>, r: LogRecord, I: set<nat>, B: set<nat>, ind: nat, bi: nat)
    requires Logs(l, r, I, B) && I <= {ind, bi} && (I != {} ==> bi in B)
    ensures |l| <= |r.L0| + r.c + 1 + |B|
    ensures |l| <= |r.L0| + 2 * r.c + 2 - (if r.c > 0 then r.first else 0)
  {
    SubsetSize(l, r.L0 + r.D + r.X + I);
    SubsetSize(I, {ind, bi});
    SubsetSize(l, r.L0 + r.D + {ind} + B);
  }

  lemma BBlockIn(sb: Super, b: nat)
    requires b < sb.size
    ensures sb.BBlock(b) in sb.BitmapBlocks()
  {
  }
}
