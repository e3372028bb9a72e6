/**
 File writes as operations of the log: FileSystem.dfy above LogProtocol.dfy.

 filewrite makes every piece of a write an operation of its own.  The operations never fill up the log,
 although they call log_write more often than they have reserved blocks; and wherever a crash falls,
 recovery finds the file system as it was after some number of whole pieces.
 */
module Transactions {
  import opened Blocks
  import opened FsLayout
  import opened FileSystem
  import L = LogProtocol
  import R = LogReservation

  // ---------- Space in the log ----------

  /** Every operation under way is, as far as its calls of log_write go, a piece of a file write. */
  ghost predicate PieceOps(sb: Super, ops: seq<L.Op>) {
    forall t | 0 <= t < |ops| && ops[t].Active? :: PieceCalls(sb, ops[t].calls)
  }

  /** A piece of a file write is about to log a block, and the log is too full for it. */
  ghost predicate PiecePanic(g: L.Geometry, sb: Super, run: seq<L.State>, t: nat, b: nat) {
    && L.IsRun(g, run)
    && (forall j | 0 <= j < |run| :: PieceOps(sb, run[j].ops))
    && var s := run[|run| - 1];
    && L.Holds(g, s, t, b) && PieceCalls(sb, s.ops[t].calls + [b]) && L.TooBig(g, s.lh)
  }

  /** How far the operations of file writes are paced. */
  function Pace(sb: Super): nat {
    if sb.Bitmaps() <= 3 then MAXOPBLOCKS - 2 else MAXOPBLOCKS - 1
  }

  lemma PieceIsPaced(sb: Super, calls: seq<nat>)
    ensures PieceCalls(sb, calls) <==> Paced(calls, Pace(sb))
  {
  }

  lemma PieceOpsPaced(sb: Super, ops: seq<L.Op>)
    ensures PieceOps(sb, ops) <==> R.PacedOps(ops, Pace(sb))
  {
    hide Paced, PieceCalls, Pace;
    forall t | 0 <= t < |ops| && ops[t].Active?
      ensures PieceCalls(sb, ops[t].calls) <==> Paced(ops[t].calls, Pace(sb)) {
      PieceIsPaced(sb, ops[t].calls);
    }
  }

  lemma PiecePanicIsPaced(g: L.Geometry, sb: Super, run: seq<L.State>, t: nat, b: nat)
    ensures PiecePanic(g, sb, run, t, b) <==> R.PacedPanic(g, run, t, b, Pace(sb))
  {
    hide Paced, PieceCalls, Pace, PieceOps, R.PacedOps, L.StepAt, L.Init;
    forall j | 0 <= j < |run| ensures PieceOps(sb, run[j].ops) <==> R.PacedOps(run[j].ops, Pace(sb)) {
      PieceOpsPaced(sb, run[j].ops);
    }
    if run != [] && L.Holds(g, run[|run| - 1], t, b) {
      PieceIsPaced(sb, run[|run| - 1].ops[t].calls + [b]);
    }
  }

  /** File writes cannot make log_write panic if the log is larger than LOGSIZE blocks.  If it has LOGSIZE
      blocks, as mkfs makes it, then they cannot if the bitmap has at most three blocks; with more, the
      bound on their calls no longer rules it out. */
  lemma FileWritesFitIff(g: L.Geometry, sb: Super)
    requires g.Ok() && g.size >= LOGSIZE && g.size + LOGSIZE <= g.nblocks
    ensures (forall run, t, b :: !PiecePanic(g, sb, run, t, b)) <==> g.size > LOGSIZE || sb.Bitmaps() <= 3
  {
    forall run, t, b ensures PiecePanic(g, sb, run, t, b) <==> R.PacedPanic(g, run, t, b, Pace(sb)) {
      PiecePanicIsPaced(g, sb, run, t, b);
    }
    hide PiecePanic, R.PacedPanic;
    R.PacedSufficesIff(g, Pace(sb));
  }

  // ---------- What a disk image says ----------

  /** Inode k of an inode block (struct dinode). */
  function DinodeAt(v: Block, k: nat): Dinode
    requires k < IPB
  {
    var types, links := Word(v, 16 * k), Word(v, 16 * k + 1);
    Dinode(types % 0x1_0000, types / 0x1_0000, links % 0x1_0000, links / 0x1_0000, Word(v, 16 * k + 2),
           seq<Uint>(NDIRECT + 1, j requires 0 <= j <= NDIRECT => Word(v, 16 * k + 3 + j)))
  }

  ghost predicate ShowsBit(sb: Super, v: Block, d: Disk, b: nat, c: nat) {
    c < |d.bits| && sb.BBlock(c) == b ==> BitOf(v, c % BPB) == d.bits[c]
  }

  ghost predicate ShowsInode(sb: Super, v: Block, d: Disk, b: nat, i: nat) {
    i < |d.inodes| && sb.IBlock(i) == b ==> DinodeAt(v, i % IPB) == d.inodes[i]
  }

  /** v is block b of the disk d: a data block, or a block with bits or inodes. */
  ghost predicate Shows(sb: Super, v: Block, d: Disk, b: nat) {
    && (sb.datastart <= b < |d.blocks| ==> v == d.blocks[b])
    && (forall c {:trigger ShowsBit(sb, v, d, b, c)} :: ShowsBit(sb, v, d, b, c))
    && (forall i {:trigger ShowsInode(sb, v, d, b, i)} :: ShowsInode(sb, v, d, b, i))
  }

  /** The blocks outside the log are those of the disk d. */
  ghost predicate Represents(sb: Super, store: map<nat, Block>, d: Disk) {
    forall b | b in store :: Shows(sb, store[b], d, b)
  }

  /** The store has all blocks of the file system. */
  ghost predicate Covers(sb: Super, store: map<nat, Block>) {
    && (forall b: nat | sb.datastart <= b < sb.size :: b in store)
    && (forall c: nat | c < sb.size :: sb.BBlock(c) in store)
    && (forall i: nat | i < sb.ninodes :: sb.IBlock(i) in store)
  }

  /** A store represents one bitmap, one set of inodes and one set of data blocks. */
  lemma RepresentsOne(sb: Super, store: map<nat, Block>, d: Disk, d': Disk)
    requires Represents(sb, store, d) && Represents(sb, store, d') && Covers(sb, store) && d.Shaped(sb) && d'.Shaped(sb)
    ensures d'.bits == d.bits && d'.inodes == d.inodes && d'.blocks[sb.datastart..] == d.blocks[sb.datastart..]
  {
    hide BitOf, DinodeAt;
    forall c: nat | c < sb.size ensures d'.bits[c] == d.bits[c] {
      var v := store[sb.BBlock(c)];
      assert ShowsBit(sb, v, d, sb.BBlock(c), c) && ShowsBit(sb, v, d', sb.BBlock(c), c);
    }
    forall i: nat | i < sb.ninodes ensures d'.inodes[i] == d.inodes[i] {
      var v := store[sb.IBlock(i)];
      assert ShowsInode(sb, v, d, sb.IBlock(i), i) && ShowsInode(sb, v, d', sb.IBlock(i), i);
    }
    forall b: nat | sb.datastart <= b < sb.size ensures d'.blocks[b] == d.blocks[b] {
      assert Shows(sb, store[b], d, b) && Shows(sb, store[b], d', b);
    }
  }

  /** A block that is not logged is the same before and after. */
  lemma UnloggedShows(sb: Super, v: Block, d: Disk, d': Disk, logged: set<nat>, b: nat)
    requires Shows(sb, v, d, b) && b !in logged && AllLogged(sb, d, d', logged) && InodesLogged(sb, d, d', logged)
    ensures Shows(sb, v, d', b)
  {
    hide BitOf, DinodeAt;
    assert ChangeLogged(sb, d, d', logged, b);
    forall c: nat ensures ShowsBit(sb, v, d', b, c) {
      assert ShowsBit(sb, v, d, b, c) && ChangeLogged(sb, d, d', logged, c);
    }
    forall i: nat ensures ShowsInode(sb, v, d', b, i) {
      assert ShowsInode(sb, v, d, b, i);
    }
  }

  // ---------- Runs of the log in which a process writes a file ----------

  ghost predicate Labelled(g: L.Geometry, run: seq<L.State>, steps: seq<L.Step>) {
    && |run| == |steps| + 1 && L.Init(g, run[0])
    && forall k | 0 <= k < |steps| :: L.NextStep(g, run[k], run[k + 1], steps[k])
  }

  /** How many operations process t has ended. */
  function Ended(steps: seq<L.Step>, t: nat): nat {
    if steps == [] then 0 else Ended(steps[..|steps| - 1], t) + if steps[|steps| - 1] == L.End(t) then 1 else 0
  }

  /** In a step of the write, nobody but t logs blocks; and if t ends its n-th operation, it has logged what
      transaction n of the trace logs, each block as it is after that transaction. */
  ghost predicate Follows(sb: Super, s: L.State, step: L.Step, t: nat, trace: seq<Moment>, n: nat) {
    match step
    case LogWrite(u, b) => u == t
    case End(u) =>
      u == t && L.IsActive(s, t) ==>
        && n + 1 < |trace| && Distinct(s.ops[t].calls) == Distinct(trace[n + 1].calls)
        && forall b | b in s.ops[t].calls && b in s.store :: Shows(sb, s.store[b], trace[n + 1].disk, b)
    case Crash => false
    case _ => true
  }

  /** From state a to state i of the run, process t does the transactions of the trace, and there is no crash. */
  ghost predicate Writes(g: L.Geometry, sb: Super, run: seq<L.State>, steps: seq<L.Step>, a: nat, i: nat, t: nat,
                         trace: seq<Moment>) {
    && Labelled(g, run, steps) && a <= i < |run| && trace != []
    && StartsAt(g, sb, run[a], t, trace[0].disk)
    && forall k | a <= k < i :: Follows(sb, run[k], steps[k], t, trace, Ended(steps[a..k], t))
  }

  /** Process t has no operation under way, and all that was done before is committed. */
  ghost predicate StartsAt(g: L.Geometry, sb: Super, s: L.State, t: nat, d: Disk) {
    && L.DiskOk(g, s.disk) && !L.IsActive(s, t)
    && Represents(sb, s.store, d) && Represents(sb, L.Durable(g, s.disk), d)
  }

  /** What holds while t writes, with n operations ended. */
  ghost predicate Sync(g: L.Geometry, sb: Super, s: L.State, t: nat, trace: seq<Moment>, n: nat) {
    && n < |trace|
    && (exists m: nat :: m <= n && Committed(g, sb, s, trace, m))
    && forall b | b in s.store && !(L.IsActive(s, t) && b in s.ops[t].calls) :: Shows(sb, s.store[b], trace[n].disk, b)
  }

  /** A crash now would leave the disk as it was after m transactions. */
  ghost predicate Committed(g: L.Geometry, sb: Super, s: L.State, trace: seq<Moment>, m: nat) {
    m < |trace| && L.DiskOk(g, s.disk) && Represents(sb, L.Durable(g, s.disk), trace[m].disk)
  }

  ghost predicate AllLoggedIn(sb: Super, trace: seq<Moment>) {
    forall k | 0 <= k < |trace| - 1 :: TransactionOk(sb, trace[k], trace[k + 1])
  }

  lemma SyncEnds(g: L.Geometry, sb: Super, s: L.State, s': L.State, t: nat, trace: seq<Moment>, n: nat)
    requires L.Inv(g, s) && L.Inv(g, s') && Sync(g, sb, s, t, trace, n) && AllLoggedIn(sb, trace) && L.IsActive(s, t)
    requires Follows(sb, s, L.End(t), t, trace, n)
    requires s'.store == s.store && s'.disk == s.disk && !L.IsActive(s', t)
    ensures Sync(g, sb, s', t, trace, n + 1)
  {
    hide L.Inv, Shows, AllLogged, InodesLogged, PieceCalls, L.Durable, L.DiskOk, Represents;
    var m: nat :| m <= n && Committed(g, sb, s, trace, m);
    assert Committed(g, sb, s', trace, m);
    var calls := Distinct(trace[n + 1].calls);
    assert TransactionOk(sb, trace[n], trace[n + 1]);
    forall b | b in s'.store ensures Shows(sb, s'.store[b], trace[n + 1].disk, b) {
      assert b in s.ops[t].calls <==> b in calls;
      if b !in calls {
        UnloggedShows(sb, s.store[b], trace[n].disk, trace[n + 1].disk, calls, b);
      }
    }
  }

  /** A step that neither ends an operation of t nor commits. */
  lemma SyncSame(g: L.Geometry, sb: Super, s: L.State, s': L.State, t: nat, trace: seq<Moment>, n: nat)
    requires Sync(g, sb, s, t, trace, n) && L.DiskOk(g, s.disk) && L.DiskOk(g, s'.disk)
             && L.Durable(g, s'.disk) == L.Durable(g, s.disk)
    requires forall b | b in s'.store && !(L.IsActive(s', t) && b in s'.ops[t].calls) ::
               b in s.store && s'.store[b] == s.store[b] && !(L.IsActive(s, t) && b in s.ops[t].calls)
    ensures Sync(g, sb, s', t, trace, n)
  {
    hide Shows, L.Durable, L.DiskOk, Represents;
    var m: nat :| m <= n && Committed(g, sb, s, trace, m);
    assert Committed(g, sb, s', trace, m);
  }

  /** A commit happens when no operation is under way, so it commits whole transactions. */
  lemma SyncCommits(g: L.Geometry, sb: Super, s: L.State, s': L.State, t: nat, trace: seq<Moment>, n: nat)
    requires Sync(g, sb, s, t, trace, n) && L.DiskOk(g, s'.disk) && L.Durable(g, s'.disk) == s.store == s'.store
    requires !L.IsActive(s, t) && !L.IsActive(s', t)
    ensures Sync(g, sb, s', t, trace, n)
  {
    hide Shows, L.Durable, L.DiskOk;
    assert Committed(g, sb, s', trace, n);
  }

  /** Only log_write changes the store, and only begin_op, end_op and log_write change the operations. */
  lemma StepEffect(g: L.Geometry, s: L.State, s': L.State, step: L.Step)
    requires L.NextStep(g, s, s', step) && !step.Crash?
    ensures step.LogWrite? ==>
              L.IsActive(s, step.t) && step.b in s.cache && s'.store == s.store[step.b := s.cache[step.b]]
    ensures step.LogWrite? ==> s'.ops == s.ops[step.t := L.Active(s.ops[step.t].calls + [step.b])]
    ensures !step.LogWrite? ==> s'.store == s.store
    ensures step.Begin? ==> step.t < |s.ops| && s'.ops == s.ops[step.t := L.Active([])] && !L.IsActive(s, step.t)
    ensures step.End? ==> L.IsActive(s, step.t) && s'.ops == s.ops[step.t := L.Idle] && s'.disk == s.disk
    ensures !step.LogWrite? && !step.Begin? && !step.End? ==> s'.ops == s.ops
  {
  }

  /** A block that t has not logged is as it was. */
  lemma StoreFrame(g: L.Geometry, s: L.State, s': L.State, step: L.Step, t: nat, b: nat)
    requires L.NextStep(g, s, s', step) && !step.Crash? && step != L.End(t) && (step.LogWrite? ==> step.t == t)
    requires b in s'.store && !(L.IsActive(s', t) && b in s'.ops[t].calls)
    ensures b in s.store && s'.store[b] == s.store[b] && !(L.IsActive(s, t) && b in s.ops[t].calls)
  {
    StepEffect(g, s, s', step);
    hide L.NextStep;
    if step.LogWrite? {
      assert b != step.b;
    }
  }

  lemma CommitEffect(g: L.Geometry, s: L.State, s': L.State, t: nat)
    requires L.Inv(g, s) && L.NextStep(g, s, s', L.WriteHead)
    ensures L.Inv(g, s') && L.Durable(g, s'.disk) == s.store && !L.IsActive(s, t)
  {
    L.StepSimulates(g, s, s', L.WriteHead);
    assert s.phase.Logging?;
    hide L.Durable, L.DiskOk, L.CacheOk, L.LocksOk, L.PhaseOk, L.NextStep;
  }

  lemma SyncStep(g: L.Geometry, sb: Super, s: L.State, s': L.State, step: L.Step, t: nat, trace: seq<Moment>, n: nat)
    requires L.Inv(g, s) && L.Inv(g, s') && L.NextStep(g, s, s', step) && Sync(g, sb, s, t, trace, n)
             && AllLoggedIn(sb, trace)
    requires Follows(sb, s, step, t, trace, n)
    ensures Sync(g, sb, s', t, trace, n + if step == L.End(t) then 1 else 0)
  {
    assert !step.Crash? && (step.LogWrite? ==> step.t == t);
    hide Sync, AllLoggedIn, Follows, Shows, L.Durable, L.DiskOk, L.Inv, L.NextStep;
    StepEffect(g, s, s', step);
    L.InvDisk(g, s);
    L.InvDisk(g, s');
    if step == L.End(t) {
      SyncEnds(g, sb, s, s', t, trace, n);
    } else if step.WriteHead? {
      CommitEffect(g, s, s', t);
      SyncCommits(g, sb, s, s', t, trace, n);
    } else {
      L.OnlyCommitChangesDurable(g, s, s', step);
      forall b | b in s'.store && !(L.IsActive(s', t) && b in s'.ops[t].calls)
        ensures b in s.store && s'.store[b] == s.store[b] && !(L.IsActive(s, t) && b in s.ops[t].calls) {
        StoreFrame(g, s, s', step, t, b);
      }
      SyncSame(g, sb, s, s', t, trace, n);
    }
  }

  lemma {:induction false} LabelledInv(g: L.Geometry, run: seq<L.State>, steps: seq<L.Step>, i: nat)
    requires Labelled(g, run, steps) && i < |run|
    ensures L.Inv(g, run[i])
  {
    hide L.Inv, L.NextStep, L.Init;
    if i == 0 {
      L.InitInv(g, run[0]);
    } else {
      LabelledInv(g, run, steps, i - 1);
      assert L.NextStep(g, run[i - 1], run[i], steps[i - 1]);
      L.StepSimulates(g, run[i - 1], run[i], steps[i - 1]);
    }
  }

  lemma SyncStart(g: L.Geometry, sb: Super, s: L.State, t: nat, trace: seq<Moment>)
    requires trace != [] && StartsAt(g, sb, s, t, trace[0].disk)
    ensures Sync(g, sb, s, t, trace, 0)
  {
    hide L.Durable, L.DiskOk, Shows;
    assert Committed(g, sb, s, trace, 0);
  }

  lemma EndedMore(steps: seq<L.Step>, a: nat, i: nat, t: nat)
    requires a < i <= |steps|
    ensures Ended(steps[a..i], t) == Ended(steps[a..i - 1], t) + if steps[i - 1] == L.End(t) then 1 else 0
  {
    assert steps[a..i][..i - a - 1] == steps[a..i - 1];
  }

  lemma {:induction false} SyncRun(g: L.Geometry, sb: Super, run: seq<L.State>, steps: seq<L.Step>, a: nat, i: nat,
                                   t: nat,
                                   trace: seq<Moment>)
    requires Writes(g, sb, run, steps, a, i, t, trace) && AllLoggedIn(sb, trace)
    ensures Sync(g, sb, run[i], t, trace, Ended(steps[a..i], t))
  {
    hide L.Inv, L.NextStep, L.Init, Follows, AllLoggedIn, StartsAt, Sync, Ended;
    if i == a {
      SyncStart(g, sb, run[a], t, trace);
      assert Ended(steps[a..a], t) == 0 by { EndedNone(steps[a..a], t); }
    } else {
      SyncRun(g, sb, run, steps, a, i - 1, t, trace);
      LabelledInv(g, run, steps, i - 1);
      LabelledInv(g, run, steps, i);
      EndedMore(steps, a, i, t);
      assert L.NextStep(g, run[i - 1], run[i], steps[i - 1]);
      SyncStep(g, sb, run[i - 1], run[i], steps[i - 1], t, trace, Ended(steps[a..i - 1], t));
    }
  }

  lemma EndedNone(steps: seq<L.Step>, t: nat)
    requires steps == []
    ensures Ended(steps, t) == 0
  {
  }

  lemma QuietCommitted(g: L.Geometry, sb: Super, run: seq<L.State>, i: nat, t: nat, trace: seq<Moment>, n: nat)
    requires L.IsRun(g, run) && i < |run| && Sync(g, sb, run[i], t, trace, n)
    requires run[i].phase.Running? && L.Outstanding(run[i].ops) == 0
    ensures Committed(g, sb, run[i], trace, n)
  {
    hide L.IsRun, L.Durable, L.DiskOk, Shows, Committed;
    L.QuietIsDurable(g, run, i);
    L.NoneOutstanding(run[i].ops);
    assert Represents(sb, run[i].store, trace[n].disk);
    CommittedIs(g, sb, run[i], trace, n);
  }

  lemma CommittedIs(g: L.Geometry, sb: Super, s: L.State, trace: seq<Moment>, n: nat)
    requires n < |trace| && L.DiskOk(g, s.disk) && Represents(sb, L.Durable(g, s.disk), trace[n].disk)
    ensures Committed(g, sb, s, trace, n)
  {
  }

  /** While a process writes a file, the machine crashes after any step, and recovery, however often it is
      cut short itself, comes to an end.  Then the disk is that after a number m of whole transactions, no
      more than were ended: it is sound, the file is the old one with the bytes of these transactions spliced
      in, and the other files are as they were.  All that were ended are there if the crash falls when no
      operation is in progress and no commit is running. */
  lemma FileWriteSurvivesCrash(g: L.Geometry, sb: Super, run: seq<L.State>, steps: seq<L.Step>, a: nat, i: nat, j: nat,
                               t: nat, trace: seq<Moment>, inum: nat, off: nat, src: seq<Byte>)
    returns (m: nat)
    requires Progress(sb, trace, inum, off, src) && Writes(g, sb, run, steps, a, i, t, trace)
    requires i < j < |run| && run[i + 1].phase.Booting? && run[j].phase.Running?
             && forall k | i < k < j :: L.Rebooting(run[k])
    ensures m <= Ended(steps[a..i], t) && m < |trace| && MomentOk(sb, trace[0], trace[m], inum, off, src)
    ensures |run[j].disk| == g.nblocks && Represents(sb, L.View(g, run[j].disk), trace[m].disk)
    ensures run[i].phase.Running? && L.Outstanding(run[i].ops) == 0 ==> m == Ended(steps[a..i], t)
  {
    hide MomentOk, TransactionOk, L.Inv, L.NextStep, L.Init, Follows, L.Durable, L.DiskOk, Represents, L.Rebooting,
         L.View;
    SyncRun(g, sb, run, steps, a, i, t, trace);
    LabelledIsRun(g, run, steps);
    L.RecoveryRestoresCommitted(g, run, i, j);
    if run[i].phase.Running? && L.Outstanding(run[i].ops) == 0 {
      m := Ended(steps[a..i], t);
      QuietCommitted(g, sb, run, i, t, trace, m);
    } else {
      m :| m <= Ended(steps[a..i], t) && Committed(g, sb, run[i], trace, m);
    }
  }

  lemma LabelledIsRun(g: L.Geometry, run: seq<L.State>, steps: seq<L.Step>)
    requires Labelled(g, run, steps)
    ensures L.IsRun(g, run)
  {
    hide L.NextStep, L.Init;
    forall k | 0 <= k < |run| - 1 ensures L.StepAt(g, run, k) {
      assert L.NextStep(g, run[k], run[k + 1], steps[k]);
    }
  }
}
