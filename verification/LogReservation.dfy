/**
 The log space that begin_op reserves (kernel/log.c), and when the panic in log_write cannot fire.

 If operations call log_write at most MAXOPBLOCKS times each, it depends on the size of the log.  If
 they call it more often, as filewrite may, it depends on how many different blocks they have logged
 when they call it: log_write looks for space before it looks for the block.
 */
module LogReservation {
  import opened Blocks
  import opened LogProtocol

  /** The blocks that the active operations may still add to the log. */
  function Unused(ops: seq<Op>): int {
    if ops == [] then 0 else Left(ops[0]) + Unused(ops[1..])
  }

  function Left(op: Op): int {
    if op.Active? then MAXOPBLOCKS - |Distinct(op.calls)| else 0
  }

  /** No operation has called log_write more than MAXOPBLOCKS times. */
  ghost predicate InBudget(ops: seq<Op>) {
    forall t | 0 <= t < |ops| && ops[t].Active? :: |ops[t].calls| <= MAXOPBLOCKS
  }

  /** No operation has logged more than m different blocks. */
  ghost predicate Bounded(ops: seq<Op>, m: nat) {
    forall t | 0 <= t < |ops| && ops[t].Active? :: |Distinct(ops[t].calls)| <= m
  }

  /** No operation has called log_write after logging more than m different blocks. */
  ghost predicate PacedOps(ops: seq<Op>, m: nat) {
    forall t | 0 <= t < |ops| && ops[t].Active? :: Paced(ops[t].calls, m)
  }

  lemma BudgetPaces(ops: seq<Op>, m: nat)
    requires InBudget(ops) && m + 1 >= MAXOPBLOCKS
    ensures Bounded(ops, MAXOPBLOCKS) && PacedOps(ops, m)
  {
    forall t | 0 <= t < |ops| && ops[t].Active?
      ensures |Distinct(ops[t].calls)| <= MAXOPBLOCKS && Paced(ops[t].calls, m) {
      DistinctBound(ops[t].calls);
      ShortIsPaced(ops[t].calls, m);
    }
  }

  lemma ShortIsPaced(calls: seq<nat>, m: nat)
    requires |calls| <= m + 1
    ensures Paced(calls, m)
  {
    forall k | 0 <= k < |calls| ensures |Distinct(calls[..k])| <= m {
      DistinctBound(calls[..k]);
    }
  }

  lemma PacedBound(calls: seq<nat>, m: nat)
    requires Paced(calls, m)
    ensures |Distinct(calls)| <= m + 1
  {
    if calls != [] {
      var k := |calls| - 1;
      assert calls == calls[..k] + [calls[k]];
      DistinctMore(calls[..k], calls[k]);
    }
  }

  lemma PacedBefore(calls: seq<nat>, b: nat, m: nat)
    requires Paced(calls + [b], m)
    ensures |Distinct(calls)| <= m
  {
    assert (calls + [b])[..|calls|] == calls;
  }

  lemma {:induction false} CountAfter(ops: seq<Op>, t: nat, op: Op)
    requires t < |ops|
    ensures Unused(ops[t := op]) == Unused(ops) - Left(ops[t]) + Left(op)
  {
    hide Left;
    if t == 0 {
      assert ops[t := op][1..] == ops[1..];
    } else {
      CountAfter(ops[1..], t - 1, op);
      assert ops[t := op][1..] == ops[1..][t - 1 := op];
    }
  }

  lemma {:induction false} CountBounds(ops: seq<Op>)
    requires Bounded(ops, MAXOPBLOCKS)
    ensures 0 <= Unused(ops)
    ensures forall t | 0 <= t < |ops| :: Left(ops[t]) <= Unused(ops)
    ensures Unused(ops) <= Outstanding(ops) * MAXOPBLOCKS
    ensures (forall t | 0 <= t < |ops| :: ops[t].Idle?) ==> Unused(ops) == 0
  {
    if ops != [] {
      assert forall t | 0 < t < |ops| :: ops[t] == ops[1..][t - 1];
      assert forall t | 0 <= t < |ops| - 1 :: ops[1..][t] == ops[t + 1];
      CountBounds(ops[1..]);
    }
  }

  /** What operation t has logged is in the log. */
  ghost predicate InLog(s: State, t: nat) {
    t < |s.ops| && s.ops[t].Active? ==> forall b | b in s.ops[t].calls :: b in s.lh
  }

  ghost predicate Reserved(s: State) {
    && |s.lh| + Unused(s.ops) <= LOGSIZE
    && forall t {:trigger InLog(s, t)} :: InLog(s, t)
  }

  lemma StepKeepsReserved(g: Geometry, s: State, s': State, step: Step)
    requires Inv(g, s) && NextStep(g, s, s', step) && Inv(g, s')
    requires Bounded(s.ops, MAXOPBLOCKS) && Bounded(s'.ops, MAXOPBLOCKS) && Reserved(s)
    ensures Reserved(s')
  {
    hide CacheOk, LocksOk, DiskOk, PhaseOk, Durable, Distinct;
    forall t: nat ensures InLog(s', t) {
      assert InLog(s, t);
    }
    CountBounds(s.ops);
    CountBounds(s'.ops);
    match step
    case Begin(t) => CountAfter(s.ops, t, Active([]));
    case End(t) => CountAfter(s.ops, t, Idle);
    case LogWrite(t, b) =>
      CountAfter(s.ops, t, Active(s.ops[t].calls + [b]));
      LogWriteLeft(s, t, b);
    case _ =>
  }

  /** An operation that adds a block to the log has one less to add. */
  lemma LogWriteLeft(s: State, t: nat, b: nat)
    requires InLog(s, t) && t < |s.ops| && s.ops[t].Active?
    ensures Left(Active(s.ops[t].calls + [b])) <= Left(s.ops[t]) - (if b in s.lh then 0 else 1)
  {
    var before := Distinct(s.ops[t].calls);
    DistinctMore(s.ops[t].calls, b);
    assert b in before ==> b in s.lh && before + {b} == before;
  }

  lemma BootReserved(g: Geometry, s: State)
    requires Init(g, s)
    ensures Reserved(s)
  {
    CountBounds(s.ops);
  }

  /** In every interleaving the log's blocks and the unused reservations together fit the log, as long as
      no operation logs more than MAXOPBLOCKS different blocks. */
  lemma {:induction false} ReservationHolds(g: Geometry, run: seq<State>, i: nat)
    requires IsRun(g, run) && i < |run|
    requires forall j | 0 <= j <= i :: Bounded(run[j].ops, MAXOPBLOCKS)
    ensures Reserved(run[i])
  {
    hide Inv, NextStep, Reserved, DiskOk, Init, Bounded;
    if i == 0 {
      BootReserved(g, run[0]);
    } else {
      RunInv(g, run, i - 1);
      RunInv(g, run, i);
      ReservationHolds(g, run, i - 1);
      assert StepAt(g, run, i - 1);
      var step :| NextStep(g, run[i - 1], run[i], step);
      StepKeepsReserved(g, run[i - 1], run[i], step);
    }
  }

  /** The log at the end of a run in which operation t is active. */
  lemma RoomAtEnd(g: Geometry, run: seq<State>, t: nat)
    requires IsRun(g, run) && (forall j | 0 <= j < |run| :: Bounded(run[j].ops, MAXOPBLOCKS))
    requires IsActive(run[|run| - 1], t)
    ensures var s := run[|run| - 1]; |s.lh| + MAXOPBLOCKS - |Distinct(s.ops[t].calls)| <= LOGSIZE
  {
    assert run != [];
    hide IsRun;
    ReservationHolds(g, run, |run| - 1);
    CountBounds(run[|run| - 1].ops);
    assert Left(run[|run| - 1].ops[t]) <= Unused(run[|run| - 1].ops);
  }

  // ---------- Operations with at most MAXOPBLOCKS calls ----------

  /** An operation within its budget is about to log a block, and the log is too full for it. */
  ghost predicate Overflows(g: Geometry, run: seq<State>, t: nat, b: nat) {
    && IsRun(g, run)
    && (forall j | 0 <= j < |run| :: InBudget(run[j].ops))
    && var s := run[|run| - 1];
    && Holds(g, s, t, b) && |s.ops[t].calls| < MAXOPBLOCKS && TooBig(g, s.lh)
  }

  lemma LargeLogNeverOverflows(g: Geometry, run: seq<State>, t: nat, b: nat)
    requires g.size > LOGSIZE
    ensures !Overflows(g, run, t, b)
  {
    if Overflows(g, run, t, b) {
      hide IsRun;
      forall j | 0 <= j < |run| ensures Bounded(run[j].ops, MAXOPBLOCKS) {
        BudgetPaces(run[j].ops, MAXOPBLOCKS);
      }
      RoomAtEnd(g, run, t);
      DistinctBound(run[|run| - 1].ops[t].calls);
      assert false;
    }
  }

  // ---------- A log of LOGSIZE blocks or less can overflow ----------

  /** The j-th block outside the log. */
  function HomeNo(g: Geometry, j: nat): nat {
    if j < g.start then j else j + g.size
  }

  /** How many of the first k blocks operation t logs when each logs MAXOPBLOCKS in turn. */
  function Share(k: nat, t: nat): nat {
    if k < t * MAXOPBLOCKS then 0 else if k > (t + 1) * MAXOPBLOCKS then MAXOPBLOCKS else k - t * MAXOPBLOCKS
  }

  /** Three operations have logged k different blocks between them and still hold them. */
  ghost predicate Filled(g: Geometry, s: State, k: nat) {
    && g.Ok() && |s.disk| == g.nblocks && s.phase.Running? && |s.ops| == NPROC
    && |s.lh| == k <= LOGSIZE
    && (forall j | 0 <= j < k :: s.lh[j] == HomeNo(g, j))
    && (forall t | 0 <= t < NPROC ::
        if t < 3 then s.ops[t].Active? && |s.ops[t].calls| == Share(k, t) else s.ops[t].Idle?)
    && (forall j | 0 <= j < k :: HomeNo(g, j) in s.ops[j / MAXOPBLOCKS].calls)
    && (forall j: nat :: HomeNo(g, j) in s.holder <==> j < k)
    && (forall j: nat | j < k :: s.holder[HomeNo(g, j)] == j / MAXOPBLOCKS && HomeNo(g, j) in s.cache)
  }

  ghost predicate CleanRun(g: Geometry, run: seq<State>) {
    run != [] && IsRun(g, run) && forall j | 0 <= j < |run| :: InBudget(run[j].ops)
  }

  lemma Extend(g: Geometry, run: seq<State>, s': State, step: Step)
    requires CleanRun(g, run) && InBudget(s'.ops) && NextStep(g, run[|run| - 1], s', step)
    ensures CleanRun(g, run + [s'])
  {
    hide NextStep, Init;
    var run' := run + [s'];
    assert Next(g, run[|run| - 1], s');
    forall i | 0 <= i < |run'| - 1 ensures StepAt(g, run', i) {
      if i < |run| - 1 {
        assert StepAt(g, run, i);
      }
    }
  }

  lemma Boot(g: Geometry) returns (run: seq<State>)
    requires g.Ok()
    ensures CleanRun(g, run)
    ensures var s := run[|run| - 1]; |s.disk| == g.nblocks && s.phase.Running? && s.lh == [] && s.holder == map[]
                                     && s.ops == seq(NPROC, _ => Idle)
  {
    var zero: Block := seq(BSIZE, _ => 0);
    var disk := seq(g.nblocks, _ => zero);
    assert Header(zero) == [];
    var idle := seq(NPROC, _ => Idle);
    var s0 := State(disk, map[], map[], {}, [], Booting, idle, Durable(g, disk));
    hide Durable, DiskOk, PutHeader;
    assert Init(g, s0) by { assert DiskOk(g, disk) by { ZeroDiskOk(g, disk); } }
    var s1 := s0.(phase := Recovering(0), cache := map[g.start := zero]);
    var v := PutHeader(zero, []);
    var s2 := s1.(disk := disk[g.start := v], cache := map[g.start := v], phase := Running);
    run := [s0];
    assert ReadHeadStep(g, s0, s1);
    Extend(g, run, s1, ReadHead);
    run := run + [s1];
    assert ClearHeadStep(g, s1, s2) by { assert s1.cache[g.start := v] == map[g.start := v]; }
    Extend(g, run, s2, ClearHead);
    run := run + [s2];
  }

  lemma ZeroDiskOk(g: Geometry, disk: Disk)
    requires g.Ok() && |disk| == g.nblocks && forall i | 0 <= i < BSIZE :: disk[g.start][i] == 0
    ensures DiskOk(g, disk)
  {
  }

  lemma StartOps(g: Geometry) returns (run: seq<State>)
    requires g.Ok()
    ensures CleanRun(g, run) && Filled(g, run[|run| - 1], 0)
  {
    run := Boot(g);
    hide IsRun;
    var s := run[|run| - 1];
    NoneOutstanding(s.ops);
    var t := 0;
    while t < 3
      invariant 0 <= t <= 3 && CleanRun(g, run) && s == run[|run| - 1]
      invariant |s.disk| == g.nblocks && s.phase.Running? && s.lh == [] && s.holder == map[]
      invariant |s.ops| == NPROC && Outstanding(s.ops) == t
      invariant forall u | 0 <= u < NPROC :: s.ops[u] == if u < t then Active([]) else Idle
    {
      var s' := s.(ops := s.ops[t := Active([])]);
      assert BeginStep(s, s', t);
      Extend(g, run, s', Begin(t));
      OutstandingAfterBegin(s.ops, t);
      run, s, t := run + [s'], s', t + 1;
    }
  }

  lemma {:induction false} OutstandingAfterBegin(ops: seq<Op>, t: nat)
    requires t < |ops| && ops[t].Idle?
    ensures Outstanding(ops[t := Active([])]) == Outstanding(ops) + 1
  {
    if t == 0 {
      assert ops[t := Active([])][1..] == ops[1..];
    } else {
      OutstandingAfterBegin(ops[1..], t - 1);
      assert ops[t := Active([])][1..] == ops[1..][t - 1 := Active([])];
    }
  }

  /** The next operation in turn locks the next block. */
  lemma LockNext(g: Geometry, run: seq<State>, k: nat) returns (s': State)
    requires CleanRun(g, run) && Filled(g, run[|run| - 1], k) && k < LOGSIZE && g.size + k < g.nblocks
    ensures CleanRun(g, run + [s'])
    ensures var s, b := run[|run| - 1], HomeNo(g, k);
            s' == s.(holder := s.holder[b := k / MAXOPBLOCKS], cache := s.cache[b := Read(s, b)])
    ensures Holds(g, s', k / MAXOPBLOCKS, HomeNo(g, k))
  {
    hide IsRun;
    var s, t, b := run[|run| - 1], k / MAXOPBLOCKS, HomeNo(g, k);
    s' := s.(holder := s.holder[b := t], cache := s.cache[b := Read(s, b)]);
    assert LockStep(g, s, s', t, b);
    Extend(g, run, s', Lock(t, b));
  }

  lemma LogNext(g: Geometry, run: seq<State>, k: nat) returns (run': seq<State>)
    requires CleanRun(g, run) && Filled(g, run[|run| - 1], k) && k < LOGSIZE && k < g.size - 1 && g.size + k < g.nblocks
    ensures CleanRun(g, run') && Filled(g, run'[|run'| - 1], k + 1)
  {
    hide IsRun;
    var s, t, b := run[|run| - 1], k / MAXOPBLOCKS, HomeNo(g, k);
    var s1 := LockNext(g, run, k);
    var s2 := s1.(lh := s1.lh + [b], unlogged := s1.unlogged - {b}, ops := s1.ops[t := Active(s1.ops[t].calls + [b])],
                  store := s1.store[b := s1.cache[b]]);
    assert b !in s1.lh;
    assert LogWriteStep(g, s1, s2, t, b);
    Extend(g, run + [s1], s2, LogWrite(t, b));
    run' := run + [s1] + [s2];
    FilledNext(g, s, s2, k);
  }

  lemma FilledNext(g: Geometry, s: State, s2: State, k: nat)
    requires Filled(g, s, k) && k < LOGSIZE
    requires var t, b := k / MAXOPBLOCKS, HomeNo(g, k);
             && s2.disk == s.disk && s2.phase == s.phase && b < UINT_LIMIT && s2.lh == s.lh + [b]
             && s2.ops == s.ops[t := Active(s.ops[t].calls + [b])]
             && s2.holder == s.holder[b := t] && s2.cache.Keys == s.cache.Keys + {b}
    ensures Filled(g, s2, k + 1)
  {
  }

  lemma {:induction false} Fill(g: Geometry, k: nat) returns (run: seq<State>)
    requires g.Ok() && k <= LOGSIZE && k <= g.size - 1 && g.size + k <= g.nblocks
    ensures CleanRun(g, run) && Filled(g, run[|run| - 1], k)
  {
    if k == 0 {
      run := StartOps(g);
    } else {
      var before := Fill(g, k - 1);
      run := LogNext(g, before, k - 1);
    }
  }

  lemma SmallLogOverflows(g: Geometry) returns (run: seq<State>, t: nat, b: nat)
    requires g.Ok() && g.size <= LOGSIZE && g.size + LOGSIZE <= g.nblocks
    ensures Overflows(g, run, t, b)
  {
    var k := g.size - 1;
    var before := Fill(g, k);
    var s := LockNext(g, before, k);
    run, t, b := before + [s], k / MAXOPBLOCKS, HomeNo(g, k);
  }

  /** The reservations of begin_op are sufficient exactly when the log holds more than LOGSIZE blocks;
      mkfs makes it LOGSIZE blocks. */
  lemma ReservationSufficesIff(g: Geometry)
    requires g.Ok() && g.size + LOGSIZE <= g.nblocks
    ensures (forall run, t, b :: !Overflows(g, run, t, b)) <==> g.size > LOGSIZE
  {
    if g.size > LOGSIZE {
      forall run, t, b ensures !Overflows(g, run, t, b) {
        LargeLogNeverOverflows(g, run, t, b);
      }
    } else {
      var run, t, b := SmallLogOverflows(g);
    }
  }

  // ---------- Operations with any number of calls ----------

  /** An operation is about to log a block and the log is too full for it, although no operation has logged
      more than m different blocks, this one included. */
  ghost predicate BoundedPanic(g: Geometry, run: seq<State>, t: nat, b: nat, m: nat) {
    && IsRun(g, run)
    && (forall j | 0 <= j < |run| :: Bounded(run[j].ops, m))
    && var s := run[|run| - 1];
    && Holds(g, s, t, b) && |Distinct(s.ops[t].calls + [b])| <= m && TooBig(g, s.lh)
  }

  /** The same, although no operation has called log_write after logging more than m different blocks. */
  ghost predicate PacedPanic(g: Geometry, run: seq<State>, t: nat, b: nat, m: nat) {
    && IsRun(g, run)
    && (forall j | 0 <= j < |run| :: PacedOps(run[j].ops, m))
    && var s := run[|run| - 1];
    && Holds(g, s, t, b) && Paced(s.ops[t].calls + [b], m) && TooBig(g, s.lh)
  }

  /** The largest m that is safe is one less for a log of LOGSIZE blocks, which has room for one block less. */
  function SafePace(g: Geometry): nat {
    if g.size > LOGSIZE then MAXOPBLOCKS - 1 else MAXOPBLOCKS - 2
  }

  lemma PacedNeverPanics(g: Geometry, run: seq<State>, t: nat, b: nat, m: nat)
    requires g.size >= LOGSIZE && m <= SafePace(g)
    ensures !PacedPanic(g, run, t, b, m)
  {
    if PacedPanic(g, run, t, b, m) {
      hide IsRun, Paced;
      forall j | 0 <= j < |run| ensures Bounded(run[j].ops, MAXOPBLOCKS) {
        forall u | 0 <= u < |run[j].ops| && run[j].ops[u].Active?
          ensures |Distinct(run[j].ops[u].calls)| <= MAXOPBLOCKS {
          assert PacedOps(run[j].ops, m);
          PacedBound(run[j].ops[u].calls, m);
        }
      }
      RoomAtEnd(g, run, t);
      PacedBefore(run[|run| - 1].ops[t].calls, b, m);
      assert false;
    }
  }

  /** Three operations have logged MAXOPBLOCKS different blocks each.  The first logs one of them again:
      log_write checks for space before it looks for the block, and panics. */
  lemma AbsorptionCanPanic(g: Geometry, m: nat) returns (run: seq<State>)
    requires g.Ok() && g.size > LOGSIZE && g.size + LOGSIZE <= g.nblocks && m >= MAXOPBLOCKS
    ensures PacedPanic(g, run, 0, HomeNo(g, 0), m) && BoundedPanic(g, run, 0, HomeNo(g, 0), m)
    ensures HomeNo(g, 0) in run[|run| - 1].lh
  {
    run := Fill(g, LOGSIZE);
    hide IsRun, Paced;
    var s, b := run[|run| - 1], HomeNo(g, 0);
    assert s.lh[0] == b && b in s.ops[0].calls;
    forall j | 0 <= j < |run| ensures PacedOps(run[j].ops, m) && Bounded(run[j].ops, m) {
      BudgetPaces(run[j].ops, m);
    }
    ShortIsPaced(s.ops[0].calls + [b], m);
    DistinctBound(s.ops[0].calls);
    assert Distinct(s.ops[0].calls + [b]) == Distinct(s.ops[0].calls);
  }

  /** Operations may call log_write as often as they like if they do so with few blocks logged.  Up to
      MAXOPBLOCKS - 1 is safe in a log of more than LOGSIZE blocks, and up to MAXOPBLOCKS - 2 in the log
      that mkfs makes; no more than that is. */
  lemma PacedSufficesIff(g: Geometry, m: nat)
    requires g.Ok() && g.size >= LOGSIZE && g.size + LOGSIZE <= g.nblocks
    ensures (forall run, t, b :: !PacedPanic(g, run, t, b, m)) <==> m <= SafePace(g)
  {
    if m <= SafePace(g) {
      forall run, t, b ensures !PacedPanic(g, run, t, b, m) {
        PacedNeverPanics(g, run, t, b, m);
      }
    } else if g.size > LOGSIZE {
      var run := AbsorptionCanPanic(g, m);
    } else {
      var run, t, b := SmallLogOverflows(g);
      OverflowIsPaced(g, run, t, b, m);
    }
  }

  lemma OverflowIsPaced(g: Geometry, run: seq<State>, t: nat, b: nat, m: nat)
    requires Overflows(g, run, t, b) && m + 1 >= MAXOPBLOCKS
    ensures PacedPanic(g, run, t, b, m)
  {
    assert run != [];
    hide IsRun, Paced;
    forall j | 0 <= j < |run| ensures PacedOps(run[j].ops, m) {
      BudgetPaces(run[j].ops, m);
    }
    ShortIsPaced(run[|run| - 1].ops[t].calls + [b], m);
  }

  /** A bound on the different blocks of every operation is enough exactly if it is below MAXOPBLOCKS. */
  lemma DistinctSufficesIff(g: Geometry, m: nat)
    requires g.Ok() && g.size > LOGSIZE && g.size + LOGSIZE <= g.nblocks
    ensures (forall run, t, b :: !BoundedPanic(g, run, t, b, m)) <==> m < MAXOPBLOCKS
  {
    if m < MAXOPBLOCKS {
      forall run, t, b ensures !BoundedPanic(g, run, t, b, m) {
        if BoundedPanic(g, run, t, b, m) {
          BoundedIsPaced(g, run, t, b, m);
          PacedNeverPanics(g, run, t, b, m);
          assert false;
        }
      }
    } else {
      var run := AbsorptionCanPanic(g, m);
    }
  }

  lemma BoundedIsPaced(g: Geometry, run: seq<State>, t: nat, b: nat, m: nat)
    requires BoundedPanic(g, run, t, b, m)
    ensures PacedPanic(g, run, t, b, m)
  {
    assert run != [];
    hide IsRun;
    forall j | 0 <= j < |run| ensures PacedOps(run[j].ops, m) {
      forall u | 0 <= u < |run[j].ops| && run[j].ops[u].Active? ensures Paced(run[j].ops[u].calls, m) {
        assert Bounded(run[j].ops, m);
        SmallIsPaced(run[j].ops[u].calls, m);
      }
    }
    SmallIsPaced(run[|run| - 1].ops[t].calls + [b], m);
  }

  lemma SmallIsPaced(calls: seq<nat>, m: nat)
    requires |Distinct(calls)| <= m
    ensures Paced(calls, m)
  {
    forall k | 0 <= k < |calls| ensures |Distinct(calls[..k])| <= m {
      DistinctPrefix(calls, k);
    }
  }
}
