/**
 Disk blocks as byte arrays, the little-endian 32-bit words that the kernel overlays on them, and
 the log header (struct logheader) stored in such words.
 */
module Blocks {

  const BSIZE := 1024
  const NWORDS := 256       // BSIZE / sizeof(uint)
  const UINT_LIMIT := 0x1_0000_0000
  const MAXOPBLOCKS := 10
  const LOGSIZE := 30       // MAXOPBLOCKS * 3

  type Byte = x: nat | x < 256
  type Uint = x: nat | x < UINT_LIMIT
  type Block = b: seq<Byte> | |b| == BSIZE witness seq(BSIZE, _ => 0)

  /** Word i of a block: ((uint*)data)[i]. */
  function Word(b: Block, i: nat): Uint
    requires i < NWORDS
  {
    var b0: nat, b1: nat, b2: nat, b3: nat := b[4 * i], b[4 * i + 1], b[4 * i + 2], b[4 * i + 3];
    b0 + 0x100 * b1 + 0x1_0000 * b2 + 0x100_0000 * b3
  }

  /** Byte k of a number, the low byte first. */
  function ByteOf(v: nat, k: nat): Byte {
    if k == 0 then v % 0x100 else ByteOf(v / 0x100, k - 1)
  }

  function SetWord(b: Block, i: nat, v: Uint): Block
    requires i < NWORDS
  {
    b[4 * i := ByteOf(v, 0)][4 * i + 1 := ByteOf(v, 1)][4 * i + 2 := ByteOf(v, 2)][4 * i + 3 := ByteOf(v, 3)]
  }

  lemma BytesOfWord(v: Uint)
    ensures var b0: nat, b1: nat, b2: nat, b3: nat := ByteOf(v, 0), ByteOf(v, 1), ByteOf(v, 2), ByteOf(v, 3);
            v == b0 + 0x100 * b1 + 0x1_0000 * b2 + 0x100_0000 * b3
  {
    var v1 := v / 0x100;
    var v2 := v1 / 0x100;
    var v3 := v2 / 0x100;
    assert v3 < 0x100;
    assert ByteOf(v, 1) == v1 % 0x100;
    assert ByteOf(v, 2) == ByteOf(v1, 1) == v2 % 0x100;
    assert ByteOf(v, 3) == ByteOf(v1, 2) == ByteOf(v2, 1) == v3;
  }

  /** Storing a word changes that word and no other. */
  lemma WordOfSetWord(b: Block, i: nat, v: Uint, j: nat)
    requires i < NWORDS && j < NWORDS
    ensures Word(SetWord(b, i, v), j) == if i == j then v else Word(b, j)
  {
    hide ByteOf;
    BytesOfWord(v);
  }

  /** The header stored in a block: word 0 counts the block numbers that follow it. */
  predicate HeaderOk(b: Block) {
    Word(b, 0) <= LOGSIZE
  }

  function Header(b: Block): (h: seq<Uint>)
    requires HeaderOk(b)
    ensures |h| == Word(b, 0)
  {
    seq(Word(b, 0), k requires 0 <= k < Word(b, 0) => Word(b, k + 1))
  }

  /** What write_head leaves in the header buffer: the count and the first |h| numbers. */
  function PutHeader(b: Block, h: seq<Uint>): Block
    requires |h| <= LOGSIZE
  {
    PutEntries(SetWord(b, 0, |h|), h, |h|)
  }

  function PutEntries(b: Block, h: seq<Uint>, k: nat): Block
    requires k <= |h| <= LOGSIZE
  {
    if k == 0 then b else SetWord(PutEntries(b, h, k - 1), k, h[k - 1])
  }

  lemma {:induction false} WordOfPutEntries(b: Block, h: seq<Uint>, k: nat, j: nat)
    requires k <= |h| <= LOGSIZE && j < NWORDS
    ensures Word(PutEntries(b, h, k), j) == if 1 <= j <= k then h[j - 1] else Word(b, j)
  {
    if k > 0 {
      WordOfPutEntries(b, h, k - 1, j);
      WordOfSetWord(PutEntries(b, h, k - 1), k, h[k - 1], j);
    }
  }

  /** A header written to any old header block reads back unchanged. */
  lemma HeaderRoundTrip(b: Block, h: seq<Uint>)
    requires |h| <= LOGSIZE
    ensures HeaderOk(PutHeader(b, h)) && Header(PutHeader(b, h)) == h
  {
    var b0 := SetWord(b, 0, |h|);
    WordOfPutEntries(b0, h, |h|, 0);
    WordOfSetWord(b, 0, |h|, 0);
    forall j | 1 <= j <= |h| ensures Word(PutHeader(b, h), j) == h[j - 1] {
      WordOfPutEntries(b0, h, |h|, j);
    }
    assert forall k | 0 <= k < |h| :: Header(PutHeader(b, h))[k] == Word(PutHeader(b, h), k + 1);
  }

  lemma {:induction false} SubsetSize(s: set<nat>, t: set<nat>)
    requires s <= t
    ensures |s| <= |t|
  {
    if s != {} {
      var x :| x in s;
      SubsetSize(s - {x}, t - {x});
    }
  }

  // ---------- Calls of log_write ----------

  /** The blocks named by a sequence of calls of log_write. */
  function Distinct(calls: seq<nat>): set<nat> {
    set b | b in calls
  }

  /** Every call is made when at most m different blocks have been named before it. */
  ghost predicate Paced(calls: seq<nat>, m: nat) {
    forall k {:trigger calls[..k]} | 0 <= k < |calls| :: |Distinct(calls[..k])| <= m
  }

  lemma DistinctMore(calls: seq<nat>, b: nat)
    ensures Distinct(calls + [b]) == Distinct(calls) + {b}
  {
  }

  lemma {:induction false} DistinctBound(calls: seq<nat>)
    ensures |Distinct(calls)| <= |calls|
  {
    if calls != [] {
      var k := |calls| - 1;
      DistinctBound(calls[..k]);
      assert calls == calls[..k] + [calls[k]];
      DistinctMore(calls[..k], calls[k]);
    }
  }

  lemma DistinctPrefix(calls: seq<nat>, k: nat)
    requires k <= |calls|
    ensures |Distinct(calls[..k])| <= |Distinct(calls)|
  {
    SubsetSize(Distinct(calls[..k]), Distinct(calls));
  }

  /** It is enough to look at the last call. */
  lemma PacedUpTo(calls: seq<nat>, m: nat)
    requires calls != [] && |Distinct(calls[..|calls| - 1])| <= m
    ensures Paced(calls, m)
  {
    var before := calls[..|calls| - 1];
    forall k | 0 <= k < |calls| ensures |Distinct(calls[..k])| <= m {
      DistinctPrefix(before, k);
      assert before[..k] == calls[..k];
    }
  }

  lemma PacedNone(m: nat)
    ensures Paced([], m) && Distinct([]) == {}
  {
  }

  lemma DistinctLast(calls: seq<nat>)
    requires calls != []
    ensures |Distinct(calls)| <= |Distinct(calls[..|calls| - 1])| + 1
  {
    var k := |calls| - 1;
    assert calls == calls[..k] + [calls[k]];
    DistinctMore(calls[..k], calls[k]);
  }
}
