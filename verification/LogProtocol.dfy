/**
 The write-ahead log with group commit and crash recovery (kernel/log.c) over the buffer cache
 (kernel/bio.c), as a transition system.

 Any number of processes run file-system operations side by side.  One step is one section of code
 that runs under a lock, or one block written to disk; a crash may fall between any two steps, also
 during recovery.  The theorem is that every run looks like a run of a store that commits atomically
 and loses nothing but uncommitted operations when it crashes.
 */
module LogProtocol {
  import opened Blocks

  const NPROC := 64

  type Disk = seq<Block>

  /** The log's place on disk: a header block at start and data blocks up to start + size. */
  datatype Geometry = Geometry(start: nat, size: nat, nblocks: nat) {
    predicate Ok() {
      1 <= size && start + size <= nblocks <= UINT_LIMIT
    }

    predicate Home(b: int) {
      0 <= b < nblocks && !(start <= b < start + size)
    }

    /** The numbers in a log header name distinct blocks outside the log. */
    ghost predicate HeaderFits(h: seq<Uint>) {
      && |h| < size && |h| <= LOGSIZE
      && (forall j | 0 <= j < |h| :: Home(h[j]))
      && (forall i, j | 0 <= i < j < |h| :: h[i] != h[j])
    }
  }

  datatype Op = Idle | Active(calls: seq<nat>)  // the blocks for which the op has called log_write

  datatype Phase =
    | Running
    | Logging(k: nat)     // commit: the first k blocks are in the log
    | Installing(k: nat)  // commit: header written, the first k blocks are at home
    | Booting             // after a crash, before the header is read
    | Recovering(k: nat)  // recovery: the first k blocks are at home

  datatype State = State(
    disk: Disk,
    cache: map<nat, Block>,  // contents of the buffers
    holder: map<nat, nat>,   // blocks whose buffer is locked, and by whom
    unlogged: set<nat>,      // locked blocks changed since they were last logged
    lh: seq<Uint>,           // log.lh
    phase: Phase,
    ops: seq<Op>,            // one entry per process
    store: map<nat, Block>   // history: the last value logged for every home block
  )

  function View(g: Geometry, d: Disk): map<nat, Block>
    requires |d| == g.nblocks
  {
    map b | 0 <= b < g.nblocks && g.Home(b) :: d[b]
  }

  /** install_trans: log block k is copied to the k-th home location, for every k in turn. */
  ghost function Install(g: Geometry, d: Disk, h: seq<Uint>, k: nat): (e: Disk)
    requires g.Ok() && |d| == g.nblocks && g.HeaderFits(h) && k <= |h|
    ensures |e| == |d|
  {
    if k == 0 then d else
    var e := Install(g, d, h, k - 1);
    e[h[k - 1] := e[g.start + k]]
  }

  ghost predicate DiskOk(g: Geometry, d: Disk) {
    g.Ok() && |d| == g.nblocks && HeaderOk(d[g.start]) && g.HeaderFits(Header(d[g.start]))
  }

  function LogBlock(g: Geometry, d: Disk, j: nat): Block
    requires g.Ok() && |d| == g.nblocks && j + 1 < g.size
  {
    d[g.start + j + 1]
  }

  /** The file system that recovery makes of a disk. */
  ghost function Durable(g: Geometry, d: Disk): map<nat, Block>
    requires DiskOk(g, d)
  {
    var h := Header(d[g.start]);
    View(g, Install(g, d, h, |h|))
  }

  // ---------- The steps ----------

  datatype Step =
    | Begin(t: nat)
    | End(t: nat)
    | Lock(t: nat, b: nat)
    | Modify(t: nat, b: nat, v: Block)
    | LogWrite(t: nat, b: nat)
    | Release(t: nat, b: nat)
    | Evict(b: nat)
    | CopyToLog
    | WriteHead
    | InstallOne
    | ClearHead
    | Crash
    | ReadHead

  function Outstanding(ops: seq<Op>): nat {
    if ops == [] then 0 else (if ops[0].Active? then 1 else 0) + Outstanding(ops[1..])
  }

  /** What bread returns for b: the cached copy if there is one. */
  function Read(s: State, b: nat): Block
    requires b < |s.disk|
  {
    if b in s.cache then s.cache[b] else s.disk[b]
  }

  /** The panic in log_write. */
  predicate TooBig(g: Geometry, lh: seq<Uint>) {
    |lh| >= LOGSIZE || |lh| >= g.size - 1
  }

  function Absorb(lh: seq<Uint>, b: Uint): seq<Uint> {
    if b in lh then lh else lh + [b]
  }

  /** Blocks that a log_write pinned and install_trans has not yet unpinned. */
  predicate Pinned(s: State, b: nat) {
    match s.phase
    case Running => b in s.lh
    case Logging(_) => b in s.lh
    case Installing(k) => k <= |s.lh| && b in s.lh[k..]
    case _ => false
  }

  predicate IsActive(s: State, t: nat) {
    t < |s.ops| && s.ops[t].Active?
  }

  predicate BeginStep(s: State, s': State, t: nat) {
    && t < |s.ops| && s.ops[t].Idle? && s.phase.Running?
    && |s.lh| + (Outstanding(s.ops) + 1) * MAXOPBLOCKS <= LOGSIZE
    && s' == s.(ops := s.ops[t := Active([])])
  }

  /** end_op; the last operation to end starts the commit, which does nothing on an empty log. */
  predicate EndStep(s: State, s': State, t: nat) {
    && IsActive(s, t) && s.phase.Running?
    && (forall b | b in s.unlogged :: b in s.holder && s.holder[b] != t)
    && var ops := s.ops[t := Idle];
    && s' == s.(ops := ops, phase := if Outstanding(ops) == 0 && s.lh != [] then Logging(0) else Running)
  }

  /** bread: lock the buffer of b and fill it from disk if it was not cached. */
  predicate LockStep(g: Geometry, s: State, s': State, t: nat, b: nat) {
    && b < g.nblocks == |s.disk| && b !in s.holder && !s.phase.Booting? && !s.phase.Recovering?
    && s' == s.(holder := s.holder[b := t], cache := s.cache[b := Read(s, b)])
  }

  predicate Holds(g: Geometry, s: State, t: nat, b: nat) {
    IsActive(s, t) && g.Home(b) && b in s.holder && s.holder[b] == t && b in s.cache
  }

  predicate ModifyStep(g: Geometry, s: State, s': State, t: nat, b: nat, v: Block) {
    && Holds(g, s, t, b)
    && s' == s.(cache := s.cache[b := v], unlogged := s.unlogged + {b})
  }

  predicate LogWriteStep(g: Geometry, s: State, s': State, t: nat, b: nat) {
    && Holds(g, s, t, b) && b < UINT_LIMIT
    && !TooBig(g, s.lh)
    && s' == s.(lh := Absorb(s.lh, b), unlogged := s.unlogged - {b},
                ops := s.ops[t := Active(s.ops[t].calls + [b])],
                store := s.store[b := s.cache[b]])
  }

  predicate ReleaseStep(s: State, s': State, t: nat, b: nat) {
    && b in s.holder && s.holder[b] == t && b !in s.unlogged
    && s' == s.(holder := s.holder - {b})
  }

  /** bget recycles the buffer of b: it is neither locked nor pinned. */
  predicate EvictStep(s: State, s': State, b: nat) {
    && b !in s.holder && !Pinned(s, b)
    && s' == s.(cache := s.cache - {b})
  }

  /** One round of write_log. */
  predicate CopyToLogStep(g: Geometry, s: State, s': State) {
    && s.phase.Logging? && s.phase.k < |s.lh| < g.size && g.start + g.size <= g.nblocks == |s.disk|
    && var k := s.phase.k;
    && s.lh[k] < g.nblocks && s.lh[k] !in s.holder && g.start + k + 1 !in s.holder
    && var v := Read(s, s.lh[k]);
    && s' == s.(disk := s.disk[g.start + k + 1 := v], phase := Logging(k + 1),
                cache := s.cache[s.lh[k] := v][g.start + k + 1 := v])
  }

  predicate WriteHeadStep(g: Geometry, s: State, s': State) {
    && s.phase == Logging(|s.lh|) && |s.lh| <= LOGSIZE && g.start < |s.disk| && g.start !in s.holder
    && var v := PutHeader(Read(s, g.start), s.lh);
    && s' == s.(disk := s.disk[g.start := v], cache := s.cache[g.start := v], phase := Installing(0))
  }

  /** One round of install_trans. */
  predicate InstallStep(g: Geometry, s: State, s': State) {
    && (s.phase.Installing? || s.phase.Recovering?)
    && s.phase.k < |s.lh| < g.size && g.start + g.size <= g.nblocks == |s.disk|
    && var k := s.phase.k;
    && s.lh[k] < g.nblocks && s.lh[k] !in s.holder && g.start + k + 1 !in s.holder
    && var v := Read(s, g.start + k + 1);
    && s' == s.(disk := s.disk[s.lh[k] := v],
                phase := if s.phase.Installing? then Installing(k + 1) else Recovering(k + 1),
                cache := s.cache[g.start + k + 1 := v][s.lh[k] := v])
  }

  predicate ClearHeadStep(g: Geometry, s: State, s': State) {
    && (s.phase == Installing(|s.lh|) || s.phase == Recovering(|s.lh|))
    && g.start < |s.disk| && g.start !in s.holder
    && var v := PutHeader(Read(s, g.start), []);
    && s' == s.(disk := s.disk[g.start := v], cache := s.cache[g.start := v], lh := [], phase := Running)
  }

  /** Only the disk survives. */
  ghost predicate CrashStep(g: Geometry, s: State, s': State) {
    && DiskOk(g, s.disk)
    && s' == State(s.disk, map[], map[], {}, [], Booting, seq(|s.ops|, _ => Idle), Durable(g, s.disk))
  }

  predicate ReadHeadStep(g: Geometry, s: State, s': State) {
    && s.phase.Booting? && g.start < |s.disk| && HeaderOk(Read(s, g.start))
    && s' == s.(lh := Header(Read(s, g.start)), phase := Recovering(0),
                cache := s.cache[g.start := Read(s, g.start)])
  }

  ghost predicate NextStep(g: Geometry, s: State, s': State, step: Step) {
    match step
    case Begin(t) => BeginStep(s, s', t)
    case End(t) => EndStep(s, s', t)
    case Lock(t, b) => LockStep(g, s, s', t, b)
    case Modify(t, b, v) => ModifyStep(g, s, s', t, b, v)
    case LogWrite(t, b) => LogWriteStep(g, s, s', t, b)
    case Release(t, b) => ReleaseStep(s, s', t, b)
    case Evict(b) => EvictStep(s, s', b)
    case CopyToLog => CopyToLogStep(g, s, s')
    case WriteHead => WriteHeadStep(g, s, s')
    case InstallOne => InstallStep(g, s, s')
    case ClearHead => ClearHeadStep(g, s, s')
    case Crash => CrashStep(g, s, s')
    case ReadHead => ReadHeadStep(g, s, s')
  }

  ghost predicate Next(g: Geometry, s: State, s': State) {
    exists step :: NextStep(g, s, s', step)
  }

  /** A machine that boots from a sound disk. */
  ghost predicate Init(g: Geometry, s: State) {
    && DiskOk(g, s.disk)
    && s == State(s.disk, map[], map[], {}, [], Booting, seq(NPROC, _ => Idle), Durable(g, s.disk))
  }

  ghost predicate StepAt(g: Geometry, run: seq<State>, i: nat) {
    i + 1 < |run| && Next(g, run[i], run[i + 1])
  }

  ghost predicate IsRun(g: Geometry, run: seq<State>) {
    && run != [] && Init(g, run[0])
    && forall i | 0 <= i < |run| - 1 :: StepAt(g, run, i)
  }

  // ---------- The specification ----------

  /** A store with atomic commits: what is durable, what is current, which operations are active. */
  datatype Spec = Spec(durable: map<nat, Block>, current: map<nat, Block>, active: set<nat>)

  datatype Event =
    | Stutter
    | BeginOp(t: nat)
    | EndOp(t: nat)
    | Observe(b: nat, v: Block)
    | Update(t: nat, b: nat, v: Block)
    | Commit
    | Reboot

  ghost predicate SpecNext(a: Spec, a': Spec, event: Event) {
    match event
    case Stutter => a' == a
    case BeginOp(t) => t !in a.active && a' == a.(active := a.active + {t})
    case EndOp(t) => t in a.active && a' == a.(active := a.active - {t})
    case Observe(b, v) => (b in a.current ==> a.current[b] == v) && a' == a
    case Update(t, b, v) => t in a.active && b in a.current && a' == a.(current := a.current[b := v])
    case Commit => a.active == {} && a' == a.(durable := a.current)
    case Reboot => a' == Spec(a.durable, a.durable, {})
  }

  /** What a step of the kernel is to the store: writing the header is the commit. */
  function Label(g: Geometry, s: State, step: Step): Event
    requires |s.disk| == g.nblocks
  {
    match step
    case Begin(t) => BeginOp(t)
    case End(t) => EndOp(t)
    case Lock(t, b) => if b < g.nblocks then Observe(b, Read(s, b)) else Stutter
    case LogWrite(t, b) => if b in s.cache then Update(t, b, s.cache[b]) else Stutter
    case WriteHead => Commit
    case Crash => Reboot
    case _ => Stutter
  }

  ghost function Abs(g: Geometry, s: State): Spec
    requires DiskOk(g, s.disk)
  {
    Spec(Durable(g, s.disk), s.store, set t | 0 <= t < |s.ops| && s.ops[t].Active?)
  }

  // ---------- The invariant ----------

  /** Log blocks are clean; home blocks hold the last logged value unless a process is changing them. */
  ghost predicate CacheOk(g: Geometry, s: State)
    requires |s.disk| == g.nblocks
  {
    forall b | b in s.cache ::
      && b < g.nblocks
      && (if g.Home(b) && !s.phase.Recovering? && !s.phase.Booting?
          then b in s.unlogged || (b in s.store && s.cache[b] == s.store[b])
          else s.cache[b] == s.disk[b])
  }

  /** A home block differs from its last logged value only while it is pinned in the cache. */
  ghost predicate HomeAt(s: State, b: nat) {
    b < |s.disk| && b in s.store && (if Pinned(s, b) then b in s.cache else s.disk[b] == s.store[b])
  }

  ghost predicate HomeOk(g: Geometry, s: State) {
    forall b {:trigger HomeAt(s, b)} | g.Home(b) :: HomeAt(s, b)
  }

  ghost predicate LogOk(g: Geometry, s: State, k: nat)
    requires g.Ok() && |s.disk| == g.nblocks && |s.lh| < g.size
  {
    forall j | 0 <= j < k && j < |s.lh| :: s.lh[j] in s.store && LogBlock(g, s.disk, j) == s.store[s.lh[j]]
  }

  ghost predicate LocksOk(s: State) {
    forall b | b in s.unlogged :: b in s.holder && IsActive(s, s.holder[b])
  }

  ghost predicate PhaseOk(g: Geometry, s: State)
    requires DiskOk(g, s.disk) && g.HeaderFits(s.lh)
  {
    var h := Header(s.disk[g.start]);
    match s.phase
    case Running => h == [] && HomeOk(g, s)
    case Logging(k) => h == [] && HomeOk(g, s) && k <= |s.lh| && s.lh != [] && LogOk(g, s, k)
    case Installing(k) => h == s.lh && HomeOk(g, s) && k <= |s.lh| && LogOk(g, s, |s.lh|)
    case Booting => s.lh == [] && s.store == Durable(g, s.disk)
    case Recovering(k) => h == s.lh && k <= |s.lh| && s.store == Durable(g, s.disk)
                          && forall j | 0 <= j < k :: s.disk[s.lh[j]] == LogBlock(g, s.disk, j)
  }

  ghost predicate Inv(g: Geometry, s: State) {
    && DiskOk(g, s.disk) && g.HeaderFits(s.lh)
    && (forall b :: b in s.store <==> g.Home(b))
    && CacheOk(g, s) && LocksOk(s)
    && PhaseOk(g, s)
    && (forall t | 0 <= t < |s.ops| && s.ops[t].Active? :: s.phase.Running?)
  }

  // ---------- Facts about counting operations ----------

  lemma {:induction false} NoneOutstanding(ops: seq<Op>)
    ensures Outstanding(ops) == 0 <==> forall t | 0 <= t < |ops| :: ops[t].Idle?
  {
    if ops != [] {
      NoneOutstanding(ops[1..]);
      assert forall t | 0 < t < |ops| :: ops[t] == ops[1..][t - 1];
      assert forall t | 0 <= t < |ops| - 1 :: ops[1..][t] == ops[t + 1];
    }
  }

  // ---------- Facts about installing ----------

  /** Installing moves each log block to its home and changes nothing else. */
  lemma {:induction false} InstallAt(g: Geometry, d: Disk, h: seq<Uint>, k: nat, b: nat)
    requires g.Ok() && |d| == g.nblocks && g.HeaderFits(h) && k <= |h| && b < g.nblocks
    ensures b !in h[..k] ==> Install(g, d, h, k)[b] == d[b]
    ensures forall j | 0 <= j < k && h[j] == b :: Install(g, d, h, k)[b] == LogBlock(g, d, j)
  {
    if k > 0 {
      InstallAt(g, d, h, k - 1, b);
      InstallAt(g, d, h, k - 1, g.start + k);
      assert h[..k] == h[..k - 1] + [h[k - 1]];
    }
  }

  lemma DurableAt(g: Geometry, d: Disk)
    requires DiskOk(g, d)
    ensures Durable(g, d).Keys == View(g, d).Keys
    ensures forall b {:trigger Durable(g, d)[b]} | g.Home(b) && b !in Header(d[g.start]) ::
              Durable(g, d)[b] == d[b]
    ensures forall j {:trigger LogBlock(g, d, j)} | 0 <= j < |Header(d[g.start])| ::
              Durable(g, d)[Header(d[g.start])[j]] == LogBlock(g, d, j)
  {
    var h := Header(d[g.start]);
    assert h[..|h|] == h;
    forall b | g.Home(b) && b !in h ensures Durable(g, d)[b] == d[b] {
      InstallAt(g, d, h, |h|, b);
    }
    forall j | 0 <= j < |h| ensures Durable(g, d)[h[j]] == LogBlock(g, d, j) {
      InstallAt(g, d, h, |h|, h[j]);
    }
  }

  /** A map over the home blocks is the durable store if it has the log's value for the blocks that
      the header names, and the home value for the others. */
  lemma DurableIs(g: Geometry, d: Disk, m: map<nat, Block>)
    requires DiskOk(g, d) && m.Keys == View(g, d).Keys
    requires forall b {:trigger m[b]} | g.Home(b) && b !in Header(d[g.start]) :: m[b] == d[b]
    requires forall j {:trigger LogBlock(g, d, j)} | 0 <= j < |Header(d[g.start])| ::
               m[Header(d[g.start])[j]] == LogBlock(g, d, j)
    ensures Durable(g, d) == m
  {
    DurableAt(g, d);
    hide Durable;
    var h := Header(d[g.start]);
    forall b | g.Home(b) ensures Durable(g, d)[b] == m[b] {
      if b in h {
        var j :| 0 <= j < |h| && h[j] == b;
        assert m[h[j]] == LogBlock(g, d, j);
      }
    }
  }

  /** Two disks with the same header that agree on the log and outside it recover to the same store. */
  lemma DurableSame(g: Geometry, d: Disk, d': Disk)
    requires DiskOk(g, d) && DiskOk(g, d')
    requires Header(d[g.start]) == Header(d'[g.start])
    requires forall j | 0 <= j < |Header(d[g.start])| :: LogBlock(g, d, j) == LogBlock(g, d', j)
    requires forall b | g.Home(b) && b !in Header(d[g.start]) :: d[b] == d'[b]
    ensures Durable(g, d) == Durable(g, d')
  {
    DurableAt(g, d);
    hide Durable;
    DurableIs(g, d', Durable(g, d));
  }

  /** Clearing the header of a disk whose log is installed loses nothing. */
  lemma DurableCleared(g: Geometry, d: Disk, d': Disk)
    requires DiskOk(g, d) && DiskOk(g, d') && Header(d'[g.start]) == []
    requires forall j | 0 <= j < |Header(d[g.start])| :: d[Header(d[g.start])[j]] == LogBlock(g, d, j)
    requires forall b | g.Home(b) :: d[b] == d'[b]
    ensures Durable(g, d) == Durable(g, d') == View(g, d')
  {
    hide Durable;
    DurableIs(g, d', View(g, d'));
    DurableIs(g, d, View(g, d'));
  }

  // ---------- Every step keeps the invariant and refines the specification ----------

  ghost predicate Simulates(g: Geometry, s: State, s': State, step: Step)
    requires Inv(g, s)
  {
    Inv(g, s') && SpecNext(Abs(g, s), Abs(g, s'), Label(g, s, step))
  }

  /** Steps that leave disk, log and phase alone keep HomeOk if they keep the pinned blocks cached. */
  lemma HomeKept(g: Geometry, s: State, s': State)
    requires HomeOk(g, s)
    requires s'.disk == s.disk && s'.lh == s.lh && s'.store == s.store
    requires s'.phase == s.phase || (s.phase.Running? && s'.phase.Logging?)
    requires forall b | b in s.cache && Pinned(s, b) :: b in s'.cache
    ensures HomeOk(g, s')
  {
    forall b | g.Home(b) ensures HomeAt(s', b) {
      assert HomeAt(s, b);
    }
  }

  lemma BeginSimulates(g: Geometry, s: State, s': State, t: nat)
    requires Inv(g, s) && BeginStep(s, s', t)
    ensures Simulates(g, s, s', Begin(t))
  {
    hide Durable, Header;
    HomeKept(g, s, s');
  }

  lemma EndSimulates(g: Geometry, s: State, s': State, t: nat)
    requires Inv(g, s) && EndStep(s, s', t)
    ensures Simulates(g, s, s', End(t))
  {
    hide Durable, Header;
    HomeKept(g, s, s');
    NoneOutstanding(s'.ops);
  }

  lemma LockSimulates(g: Geometry, s: State, s': State, t: nat, b: nat)
    requires Inv(g, s) && LockStep(g, s, s', t, b)
    ensures Simulates(g, s, s', Lock(t, b))
  {
    hide Durable, Header;
    if g.Home(b) {
      assert HomeAt(s, b);
    }
    HomeKept(g, s, s');
  }

  lemma ModifySimulates(g: Geometry, s: State, s': State, t: nat, b: nat, v: Block)
    requires Inv(g, s) && ModifyStep(g, s, s', t, b, v)
    ensures Simulates(g, s, s', Modify(t, b, v))
  {
    hide Durable, Header;
    HomeKept(g, s, s');
  }

  lemma LogWriteKeepsHome(g: Geometry, s: State, s': State, t: nat, b: nat)
    requires Inv(g, s) && LogWriteStep(g, s, s', t, b)
    ensures HomeOk(g, s')
  {
    hide Durable, Header, CacheOk;
    forall c | g.Home(c) ensures HomeAt(s', c) {
      assert HomeAt(s, c);
    }
  }

  lemma LogWriteSimulates(g: Geometry, s: State, s': State, t: nat, b: nat)
    requires Inv(g, s) && LogWriteStep(g, s, s', t, b)
    ensures Simulates(g, s, s', LogWrite(t, b))
  {
    hide Durable, Header;
    LogWriteKeepsHome(g, s, s', t, b);
  }

  lemma ReleaseSimulates(g: Geometry, s: State, s': State, t: nat, b: nat)
    requires Inv(g, s) && ReleaseStep(s, s', t, b)
    ensures Simulates(g, s, s', Release(t, b))
  {
    hide Durable, Header;
    if s.phase.Running? || s.phase.Logging? || s.phase.Installing? {
      HomeKept(g, s, s');
    }
  }

  lemma EvictSimulates(g: Geometry, s: State, s': State, b: nat)
    requires Inv(g, s) && EvictStep(s, s', b)
    ensures Simulates(g, s, s', Evict(b))
  {
    hide Durable, Header;
    if s.phase.Running? || s.phase.Logging? || s.phase.Installing? {
      HomeKept(g, s, s');
    }
  }

  lemma CopyToLogKeepsDisk(g: Geometry, s: State, s': State)
    requires Inv(g, s) && CopyToLogStep(g, s, s')
    ensures DiskOk(g, s'.disk) && Durable(g, s'.disk) == Durable(g, s.disk)
    ensures Header(s'.disk[g.start]) == []
  {
    hide Durable;
    assert s'.disk[g.start] == s.disk[g.start];
    DurableSame(g, s.disk, s'.disk);
  }

  lemma CopyToLogReads(g: Geometry, s: State, s': State)
    requires Inv(g, s) && CopyToLogStep(g, s, s')
    ensures var b := s.lh[s.phase.k]; b in s.store && Read(s, b) == s.store[b]
  {
    hide Durable, Header;
    assert HomeAt(s, s.lh[s.phase.k]);
  }

  lemma CopyToLogKeepsCache(g: Geometry, s: State, s': State)
    requires Inv(g, s) && CopyToLogStep(g, s, s')
    ensures CacheOk(g, s') && LogOk(g, s', s'.phase.k)
  {
    hide Durable, Header, HomeOk;
    CopyToLogReads(g, s, s');
  }

  lemma CopyToLogKeepsHome(g: Geometry, s: State, s': State)
    requires Inv(g, s) && CopyToLogStep(g, s, s')
    ensures HomeOk(g, s')
  {
    hide Durable, Header, CacheOk;
    forall b | g.Home(b) ensures HomeAt(s', b) {
      assert HomeAt(s, b);
    }
  }

  lemma CopyToLogSimulates(g: Geometry, s: State, s': State)
    requires Inv(g, s) && CopyToLogStep(g, s, s')
    ensures Simulates(g, s, s', CopyToLog)
  {
    hide Durable, CacheOk, HomeOk, LogOk, Header;
    CopyToLogKeepsDisk(g, s, s');
    CopyToLogKeepsCache(g, s, s');
    CopyToLogKeepsHome(g, s, s');
  }

  /** The write of the header is the commit: the durable store becomes the current one. */
  lemma WriteHeadCommits(g: Geometry, s: State, s': State)
    requires Inv(g, s) && WriteHeadStep(g, s, s')
    ensures DiskOk(g, s'.disk) && Durable(g, s'.disk) == s.store
    ensures Header(s'.disk[g.start]) == s.lh
  {
    HeaderRoundTrip(Read(s, g.start), s.lh);
    hide Durable, PutHeader, CacheOk;
    forall b | g.Home(b) && b !in s.lh ensures s.store[b] == s'.disk[b] {
      assert HomeAt(s, b);
    }
    forall j | 0 <= j < |s.lh| ensures s.store[s.lh[j]] == LogBlock(g, s'.disk, j) {
      assert LogBlock(g, s'.disk, j) == LogBlock(g, s.disk, j);
    }
    DurableIs(g, s'.disk, s.store);
  }

  lemma WriteHeadKeepsCache(g: Geometry, s: State, s': State)
    requires Inv(g, s) && WriteHeadStep(g, s, s')
    ensures CacheOk(g, s') && HomeOk(g, s') && LogOk(g, s', |s.lh|)
  {
    hide Durable, Header, PutHeader;
    assert s'.lh[0..] == s.lh;
    forall b | g.Home(b) ensures HomeAt(s', b) {
      assert HomeAt(s, b);
    }
  }

  lemma WriteHeadSimulates(g: Geometry, s: State, s': State)
    requires Inv(g, s) && WriteHeadStep(g, s, s')
    ensures Simulates(g, s, s', WriteHead)
  {
    hide Durable, CacheOk, HomeOk, LogOk, Header, PutHeader;
    WriteHeadCommits(g, s, s');
    WriteHeadKeepsCache(g, s, s');
  }

  lemma InstallKeepsDisk(g: Geometry, s: State, s': State)
    requires Inv(g, s) && InstallStep(g, s, s')
    ensures DiskOk(g, s'.disk) && Durable(g, s'.disk) == Durable(g, s.disk)
    ensures Header(s'.disk[g.start]) == s.lh
  {
    hide Durable;
    assert s'.disk[g.start] == s.disk[g.start];
    DurableSame(g, s.disk, s'.disk);
  }

  lemma InstallKeepsCache(g: Geometry, s: State, s': State)
    requires Inv(g, s) && InstallStep(g, s, s')
    ensures CacheOk(g, s')
    ensures s.phase.Installing? ==> LogOk(g, s', |s.lh|)
    ensures forall j | 0 <= j <= s.phase.k && s.phase.Recovering? :: s'.disk[s.lh[j]] == LogBlock(g, s'.disk, j)
  {
    hide Durable, Header;
    assert Read(s, g.start + s.phase.k + 1) == LogBlock(g, s.disk, s.phase.k);
  }

  lemma InstallKeepsHome(g: Geometry, s: State, s': State)
    requires Inv(g, s) && InstallStep(g, s, s') && s.phase.Installing?
    ensures HomeOk(g, s')
  {
    hide Durable, Header;
    var k := s.phase.k;
    assert s.lh[k..] == [s.lh[k]] + s.lh[k + 1..];
    assert s.lh[k] !in s.lh[k + 1..];
    assert Read(s, g.start + k + 1) == LogBlock(g, s.disk, k);
    forall b | g.Home(b) ensures HomeAt(s', b) {
      assert HomeAt(s, b);
    }
  }

  lemma InstallSimulates(g: Geometry, s: State, s': State)
    requires Inv(g, s) && InstallStep(g, s, s')
    ensures Simulates(g, s, s', InstallOne)
  {
    hide Durable, CacheOk, HomeOk, LogOk, Header;
    InstallKeepsDisk(g, s, s');
    InstallKeepsCache(g, s, s');
    if s.phase.Installing? {
      InstallKeepsHome(g, s, s');
    }
  }

  lemma ClearHeadKeepsDisk(g: Geometry, s: State, s': State)
    requires Inv(g, s) && ClearHeadStep(g, s, s')
    ensures DiskOk(g, s'.disk) && Header(s'.disk[g.start]) == []
    ensures Durable(g, s'.disk) == Durable(g, s.disk) == View(g, s'.disk)
  {
    HeaderRoundTrip(Read(s, g.start), []);
    hide Durable, PutHeader, CacheOk;
    if s.phase.Installing? {
      forall j | 0 <= j < |s.lh| ensures s.disk[s.lh[j]] == LogBlock(g, s.disk, j) {
        assert HomeAt(s, s.lh[j]);
      }
    }
    DurableCleared(g, s.disk, s'.disk);
  }

  lemma ClearHeadKeepsCache(g: Geometry, s: State, s': State)
    requires Inv(g, s) && ClearHeadStep(g, s, s') && DiskOk(g, s'.disk)
    requires Durable(g, s.disk) == View(g, s'.disk)
    ensures CacheOk(g, s') && HomeOk(g, s')
  {
    hide Durable, Header, PutHeader;
    forall b | g.Home(b) ensures HomeAt(s', b) {
      assert s.phase.Installing? ==> HomeAt(s, b);
    }
  }

  lemma ClearHeadSimulates(g: Geometry, s: State, s': State)
    requires Inv(g, s) && ClearHeadStep(g, s, s')
    ensures Simulates(g, s, s', ClearHead)
  {
    hide Durable, CacheOk, HomeOk, Header, PutHeader;
    ClearHeadKeepsDisk(g, s, s');
    ClearHeadKeepsCache(g, s, s');
  }

  lemma CrashSimulates(g: Geometry, s: State, s': State)
    requires Inv(g, s) && CrashStep(g, s, s')
    ensures Simulates(g, s, s', Crash)
  {
    hide Durable, Header, CacheOk, LocksOk, HomeOk, LogOk, PhaseOk;
    BootInv(g, s');
  }

  /** The state after a crash, or at the first boot. */
  lemma BootInv(g: Geometry, s: State)
    requires DiskOk(g, s.disk) && s.store == Durable(g, s.disk)
    requires s == State(s.disk, map[], map[], {}, [], Booting, seq(|s.ops|, _ => Idle), s.store)
    ensures Inv(g, s)
  {
    DurableAt(g, s.disk);
    hide Durable, Header;
  }

  lemma ReadHeadSimulates(g: Geometry, s: State, s': State)
    requires Inv(g, s) && ReadHeadStep(g, s, s')
    ensures Simulates(g, s, s', ReadHead)
  {
    hide Durable;
  }

  /** Every step, crashes included, is the step of the atomic store that its label names. */
  lemma StepSimulates(g: Geometry, s: State, s': State, step: Step)
    requires Inv(g, s) && NextStep(g, s, s', step)
    ensures Simulates(g, s, s', step)
  {
    hide Inv, Simulates;
    match step
    case Begin(t) => BeginSimulates(g, s, s', t);
    case End(t) => EndSimulates(g, s, s', t);
    case Lock(t, b) => LockSimulates(g, s, s', t, b);
    case Modify(t, b, v) => ModifySimulates(g, s, s', t, b, v);
    case LogWrite(t, b) => LogWriteSimulates(g, s, s', t, b);
    case Release(t, b) => ReleaseSimulates(g, s, s', t, b);
    case Evict(b) => EvictSimulates(g, s, s', b);
    case CopyToLog => CopyToLogSimulates(g, s, s');
    case WriteHead => WriteHeadSimulates(g, s, s');
    case InstallOne => InstallSimulates(g, s, s');
    case ClearHead => ClearHeadSimulates(g, s, s');
    case Crash => CrashSimulates(g, s, s');
    case ReadHead => ReadHeadSimulates(g, s, s');
  }

  lemma InitInv(g: Geometry, s: State)
    requires Init(g, s)
    ensures Inv(g, s) && DiskOk(g, s.disk)
  {
    DurableAt(g, s.disk);
    hide Durable, Header;
  }

  ghost predicate Refines(g: Geometry, s: State, s': State) {
    Inv(g, s) && exists step :: NextStep(g, s, s', step) && Simulates(g, s, s', step)
  }

  lemma InvDisk(g: Geometry, s: State)
    requires Inv(g, s)
    ensures DiskOk(g, s.disk)
  {
  }

  lemma {:induction false} RunInv(g: Geometry, run: seq<State>, i: nat)
    requires IsRun(g, run) && i < |run|
    ensures Inv(g, run[i]) && DiskOk(g, run[i].disk)
    ensures i > 0 ==> Refines(g, run[i - 1], run[i])
  {
    hide Inv, DiskOk, NextStep, Init;
    if i == 0 {
      InitInv(g, run[0]);
    } else {
      RunInv(g, run, i - 1);
      assert StepAt(g, run, i - 1);
      var step :| NextStep(g, run[i - 1], run[i], step);
      StepSimulates(g, run[i - 1], run[i], step);
      InvDisk(g, run[i]);
    }
  }

  /** Every run of the kernel is, step by step, a run of the atomic store. */
  lemma RunRefinesAtomicStore(g: Geometry, run: seq<State>)
    requires IsRun(g, run)
    ensures forall i | 0 <= i < |run| :: Inv(g, run[i])
    ensures forall i | 0 <= i < |run| - 1 :: Refines(g, run[i], run[i + 1])
  {
    hide Inv, Refines, IsRun;
    forall i | 0 <= i < |run| ensures Inv(g, run[i]) {
      RunInv(g, run, i);
    }
    forall i | 0 <= i < |run| - 1 ensures Refines(g, run[i], run[i + 1]) {
      RunInv(g, run, i + 1);
    }
  }

  // ---------- What the refinement means for operations and crashes ----------

  /** A buffer that a process has just locked holds the last value logged for its block. */
  lemma ReadsLastLogged(g: Geometry, run: seq<State>, t: nat, b: nat, s': State)
    requires IsRun(g, run) && g.Home(b) && LockStep(g, run[|run| - 1], s', t, b)
    ensures b in run[|run| - 1].store && s'.cache[b] == run[|run| - 1].store[b]
  {
    var s := run[|run| - 1];
    RunInv(g, run, |run| - 1);
    LockSimulates(g, s, s', t, b);
  }

  /** A commit runs only while no operation is in progress, so an operation is never split. */
  lemma CommitsAlone(g: Geometry, run: seq<State>, i: nat)
    requires IsRun(g, run) && i < |run| && !run[i].phase.Running?
    ensures Outstanding(run[i].ops) == 0
  {
    RunInv(g, run, i);
    NoneOutstanding(run[i].ops);
  }

  /** Nothing but the write of the header changes what a crash would leave. */
  lemma OnlyCommitChangesDurable(g: Geometry, s: State, s': State, step: Step)
    requires Inv(g, s) && NextStep(g, s, s', step) && !step.WriteHead?
    ensures DiskOk(g, s'.disk) && Durable(g, s'.disk) == Durable(g, s.disk)
  {
    hide Durable, NextStep, PhaseOk, CacheOk, LocksOk;
    StepSimulates(g, s, s', step);
  }

  ghost predicate Rebooting(s: State) {
    s.phase.Booting? || s.phase.Recovering?
  }

  lemma RebootStepKeepsDurable(g: Geometry, s: State, s': State)
    requires Inv(g, s) && Next(g, s, s') && (s'.phase.Booting? || Rebooting(s))
    ensures DiskOk(g, s'.disk) && Durable(g, s'.disk) == Durable(g, s.disk)
    ensures s'.phase.Running? ==> View(g, s'.disk) == Durable(g, s'.disk)
  {
    hide Durable, Inv, NextStep, DiskOk;
    var step :| NextStep(g, s, s', step);
    RebootSteps(g, s, s', step);
    OnlyCommitChangesDurable(g, s, s', step);
    if s'.phase.Running? {
      ClearHeadKeepsDisk(g, s, s');
    }
  }

  lemma RebootSteps(g: Geometry, s: State, s': State, step: Step)
    requires NextStep(g, s, s', step) && (s'.phase.Booting? || Rebooting(s))
    ensures !step.WriteHead? && (s'.phase.Running? ==> step.ClearHead? && ClearHeadStep(g, s, s'))
  {
    hide Durable, DiskOk;
  }

  lemma {:induction false} RebootKeepsDurable(g: Geometry, run: seq<State>, i: nat, j: nat)
    requires IsRun(g, run) && i < j < |run| && run[i + 1].phase.Booting?
    requires forall k | i < k < j :: Rebooting(run[k])
    ensures DiskOk(g, run[i].disk) && DiskOk(g, run[j].disk)
    ensures Durable(g, run[j].disk) == Durable(g, run[i].disk)
    ensures run[j].phase.Running? ==> View(g, run[j].disk) == Durable(g, run[j].disk)
  {
    hide Durable, Inv, Next, DiskOk, Init;
    RunInv(g, run, i);
    RunInv(g, run, j - 1);
    assert StepAt(g, run, j - 1);
    RebootStepKeepsDurable(g, run[j - 1], run[j]);
    if j > i + 1 {
      RebootKeepsDurable(g, run, i, j - 1);
    }
  }

  /** Wherever a crash falls, and however often recovery itself is cut short by another crash, the
      home blocks end up as the store last committed before the crash: all old or all new. */
  lemma RecoveryRestoresCommitted(g: Geometry, run: seq<State>, i: nat, j: nat)
    requires IsRun(g, run) && i < j < |run|
    requires run[i + 1].phase.Booting? && run[j].phase.Running?
    requires forall k | i < k < j :: Rebooting(run[k])
    ensures DiskOk(g, run[i].disk) && |run[j].disk| == g.nblocks
    ensures View(g, run[j].disk) == Durable(g, run[i].disk)
  {
    hide Durable, IsRun;
    RebootKeepsDurable(g, run, i, j);
  }

  // ---------- Every operation is committed, and every commit can end ----------

  /** With no operation in progress and no commit running, nothing is left in the log. */
  ghost predicate Quiet(s: State) {
    s.phase.Running? && Outstanding(s.ops) == 0 ==> s.lh == []
  }

  lemma QuietStep(g: Geometry, s: State, s': State, step: Step)
    requires Quiet(s) && NextStep(g, s, s', step)
    ensures Quiet(s')
  {
    hide Durable, DiskOk, Outstanding, Header, PutHeader;
    NoneOutstanding(s'.ops);
    if step.Begin? || step.LogWrite? {
      assert IsActive(s', step.t);
    }
  }

  lemma {:induction false} RunQuiet(g: Geometry, run: seq<State>, i: nat)
    requires IsRun(g, run) && i < |run|
    ensures Quiet(run[i])
  {
    hide NextStep, DiskOk, Durable;
    if i > 0 {
      RunQuiet(g, run, i - 1);
      assert StepAt(g, run, i - 1);
      var step :| NextStep(g, run[i - 1], run[i], step);
      QuietStep(g, run[i - 1], run[i], step);
    }
  }

  /** The last operation to end has its blocks, and those of all before it, committed: when no operation is
      in progress and no commit is running, a crash loses nothing. */
  lemma QuietIsDurable(g: Geometry, run: seq<State>, i: nat)
    requires IsRun(g, run) && i < |run| && run[i].phase.Running? && Outstanding(run[i].ops) == 0
    ensures run[i].lh == [] && DiskOk(g, run[i].disk) && Durable(g, run[i].disk) == run[i].store
  {
    RunQuiet(g, run, i);
    RunInv(g, run, i);
    var s := run[i];
    hide IsRun, Durable, CacheOk, LocksOk;
    forall b | g.Home(b) ensures s.store[b] == s.disk[b] {
      assert HomeAt(s, b);
    }
    DurableIs(g, s.disk, s.store);
  }

  /** The buffers that a commit or a recovery needs are not locked. */
  ghost predicate LogUnlocked(g: Geometry, s: State) {
    forall b | b in s.holder :: g.Home(b) && b !in s.lh
  }

  /** How many steps a commit or a recovery has before it. */
  function StepsLeft(s: State): nat {
    match s.phase
    case Running => 0
    case Logging(k) => if k <= |s.lh| then 2 * |s.lh| + 2 - k else 0
    case Installing(k) => if k <= |s.lh| then |s.lh| + 1 - k else 0
    case Booting => LOGSIZE + 2
    case Recovering(k) => if k <= |s.lh| then |s.lh| + 1 - k else 0
  }

  /** A commit or a recovery has a next step, which brings it nearer to its end. */
  lemma CommitAdvances(g: Geometry, s: State) returns (s': State, step: Step)
    requires Inv(g, s) && !s.phase.Running? && LogUnlocked(g, s) && (s.phase.Booting? ==> s.holder == map[])
    ensures NextStep(g, s, s', step) && StepsLeft(s') < StepsLeft(s) && LogUnlocked(g, s') && !s'.phase.Booting?
    ensures s'.store == s.store && s'.ops == s.ops && s'.holder == s.holder
    ensures s'.phase.Running? ==> s'.lh == []
  {
    hide CacheOk, LocksOk, Durable, HomeOk, LogOk, Header, PutHeader;
    if s.phase.Booting? {
      BootingReads(g, s);
      step := ReadHead;
      s' := s.(lh := Header(Read(s, g.start)), phase := Recovering(0), cache := s.cache[g.start := Read(s, g.start)]);
      return;
    }
    var k := s.phase.k;
    assert k < |s.lh| ==> g.Home(s.lh[k]);
    if s.phase.Logging? && k < |s.lh| {
      var v := Read(s, s.lh[k]);
      step := CopyToLog;
      s' := s.(disk := s.disk[g.start + k + 1 := v], phase := Logging(k + 1),
               cache := s.cache[s.lh[k] := v][g.start + k + 1 := v]);
    } else if s.phase.Logging? {
      var v := PutHeader(Read(s, g.start), s.lh);
      step := WriteHead;
      s' := s.(disk := s.disk[g.start := v], cache := s.cache[g.start := v], phase := Installing(0));
    } else if k < |s.lh| {
      var v := Read(s, g.start + k + 1);
      step := InstallOne;
      s' := s.(disk := s.disk[s.lh[k] := v],
               phase := if s.phase.Installing? then Installing(k + 1) else Recovering(k + 1),
               cache := s.cache[g.start + k + 1 := v][s.lh[k] := v]);
    } else {
      var v := PutHeader(Read(s, g.start), []);
      step := ClearHead;
      s' := s.(disk := s.disk[g.start := v], cache := s.cache[g.start := v], lh := [], phase := Running);
    }
  }

  lemma BootingReads(g: Geometry, s: State)
    requires |s.disk| == g.nblocks && CacheOk(g, s) && s.phase.Booting? && g.start < g.nblocks
    ensures Read(s, g.start) == s.disk[g.start]
  {
  }

  ghost predicate Extends(g: Geometry, run: seq<State>, run': seq<State>) {
    IsRun(g, run) && IsRun(g, run') && |run| < |run'| && run'[..|run|] == run
  }

  lemma RunMore(g: Geometry, run: seq<State>, s': State, step: Step)
    requires IsRun(g, run) && NextStep(g, run[|run| - 1], s', step)
    ensures Extends(g, run, run + [s'])
  {
    hide NextStep, Init;
    var run' := run + [s'];
    assert Next(g, run[|run| - 1], s');
    forall i | 0 <= i < |run'| - 1 ensures StepAt(g, run', i) {
      if i < |run| - 1 {
        assert StepAt(g, run, i);
      }
    }
  }

  /** A commit or a recovery that is let run comes to an end, with the store on disk. */
  lemma {:induction false} CommitEnds(g: Geometry, run: seq<State>) returns (run': seq<State>)
    requires IsRun(g, run)
    requires var s := run[|run| - 1]; !s.phase.Running? && LogUnlocked(g, s) && (s.phase.Booting? ==> s.holder == map[])
    ensures Extends(g, run, run')
    ensures var s, s' := run[|run| - 1], run'[|run'| - 1];
            && s'.phase.Running? && s'.lh == [] && s'.store == s.store && s'.ops == s.ops && s'.holder == s.holder
            && DiskOk(g, s'.disk) && Durable(g, s'.disk) == s.store
    decreases StepsLeft(run[|run| - 1])
  {
    hide NextStep, Inv, LogUnlocked, Durable, DiskOk, Init, StepsLeft;
    var s := run[|run| - 1];
    RunInv(g, run, |run| - 1);
    var s', step := CommitAdvances(g, s);
    RunMore(g, run, s', step);
    run' := run + [s'];
    if s'.phase.Running? {
      CommitsAlone(g, run, |run| - 1);
      QuietIsDurable(g, run', |run'| - 1);
    } else {
      var more := CommitEnds(g, run');
      assert more[..|run|] == run'[..|run|] == run;
      run' := more;
    }
  }

  /** The machine is at rest. */
  ghost predicate AtRest(g: Geometry, s: State) {
    && g.Ok() && |s.disk| == g.nblocks && s.phase.Running? && s.lh == [] && s.holder == map[] && s.unlogged == {}
    && Outstanding(s.ops) == 0 && forall t | 0 <= t < |s.ops| :: s.ops[t].Idle?
  }

  /** The first half of an operation: begin_op, bread and a change of the buffer. */
  lemma FirstHalf(g: Geometry, s: State, t: nat, b: nat, v: Block) returns (s1: State, s2: State, s3: State)
    requires AtRest(g, s) && g.Home(b) && t < |s.ops|
    ensures NextStep(g, s, s1, Begin(t)) && NextStep(g, s1, s2, Lock(t, b)) && NextStep(g, s2, s3, Modify(t, b, v))
    ensures s3 == s.(ops := s.ops[t := Active([])], holder := map[b := t], cache := s.cache[b := v], unlogged := {b})
  {
    s1 := s.(ops := s.ops[t := Active([])]);
    s2 := s1.(holder := map[b := t], cache := s1.cache[b := Read(s1, b)]);
    s3 := s2.(cache := s2.cache[b := v], unlogged := {b});
    assert BeginStep(s, s1, t);
    assert LockStep(g, s1, s2, t, b);
    assert ModifyStep(g, s2, s3, t, b, v);
    assert s2.cache[b := v] == s.cache[b := v];
  }

  /** The second half: log_write, brelse and end_op. */
  lemma SecondHalf(g: Geometry, s: State, s3: State, t: nat, b: nat, v: Block) returns (s4: State, s5: State, s6: State)
    requires AtRest(g, s) && g.Home(b) && t < |s.ops| && g.size >= 2
    requires s3 == s.(ops := s.ops[t := Active([])], holder := map[b := t], cache := s.cache[b := v], unlogged := {b})
    ensures NextStep(g, s3, s4, LogWrite(t, b)) && NextStep(g, s4, s5, Release(t, b)) && NextStep(g, s5, s6, End(t))
    ensures s6 == s.(cache := s.cache[b := v], lh := [b], store := s.store[b := v], phase := Logging(0))
  {
    s4 := s3.(lh := [b], unlogged := {}, ops := s.ops[t := Active([b])], store := s3.store[b := v]);
    s5 := s4.(holder := map[]);
    s6 := s5.(ops := s.ops, phase := Logging(0));
    assert [] + [b] == [b];
    assert LogWriteStep(g, s3, s4, t, b);
    assert s4.holder - {b} == map[];
    assert ReleaseStep(s4, s5, t, b);
    assert s5.ops[t := Idle] == s.ops;
    assert EndStep(s5, s6, t);
  }

  /** One process, with the machine to itself, changes block b in an operation. */
  lemma ChangeBlock(g: Geometry, run: seq<State>, t: nat, b: nat, v: Block) returns (run': seq<State>)
    requires IsRun(g, run) && g.size >= 2 && g.Home(b) && t < |run[|run| - 1].ops| && AtRest(g, run[|run| - 1])
    ensures Extends(g, run, run')
    ensures var s, s' := run[|run| - 1], run'[|run'| - 1];
            s' == s.(cache := s.cache[b := v], lh := [b], store := s.store[b := v], phase := Logging(0))
  {
    hide AtRest, NextStep, Init, StepAt;
    var s := run[|run| - 1];
    var s1, s2, s3 := FirstHalf(g, s, t, b, v);
    var s4, s5, s6 := SecondHalf(g, s, s3, t, b, v);
    run' := Six(g, run, s1, s2, s3, s4, s5, s6, t, b, v);
  }

  lemma RestIsQuiet(g: Geometry, run: seq<State>)
    requires IsRun(g, run)
    requires var s := run[|run| - 1]; s.phase.Running? && Outstanding(s.ops) == 0 && s.holder == map[]
    ensures AtRest(g, run[|run| - 1])
  {
    RunInv(g, run, |run| - 1);
    RunQuiet(g, run, |run| - 1);
    NoneOutstanding(run[|run| - 1].ops);
    QuietUnlogged(g, run[|run| - 1]);
  }

  lemma QuietUnlogged(g: Geometry, s: State)
    requires Inv(g, s) && s.holder == map[]
    ensures s.unlogged == {}
  {
  }

  lemma Six(g: Geometry, run: seq<State>, s1: State, s2: State, s3: State, s4: State, s5: State, s6: State,
            t: nat, b: nat, v: Block)
    returns (run': seq<State>)
    requires IsRun(g, run) && NextStep(g, run[|run| - 1], s1, Begin(t)) && NextStep(g, s1, s2, Lock(t, b))
    requires NextStep(g, s2, s3, Modify(t, b, v)) && NextStep(g, s3, s4, LogWrite(t, b))
    requires NextStep(g, s4, s5, Release(t, b)) && NextStep(g, s5, s6, End(t))
    ensures Extends(g, run, run') && run'[|run'| - 1] == s6
  {
    hide NextStep, IsRun;
    RunMore(g, run, s1, Begin(t));
    RunMore(g, run + [s1], s2, Lock(t, b));
    RunMore(g, run + [s1] + [s2], s3, Modify(t, b, v));
    RunMore(g, run + [s1] + [s2] + [s3], s4, LogWrite(t, b));
    RunMore(g, run + [s1] + [s2] + [s3] + [s4], s5, Release(t, b));
    RunMore(g, run + [s1] + [s2] + [s3] + [s4] + [s5], s6, End(t));
    run' := run + [s1] + [s2] + [s3] + [s4] + [s5] + [s6];
  }

  lemma RestUnlocked(g: Geometry, s: State)
    requires AtRest(g, s)
    ensures s.holder == map[]
  {
  }

  /** Whatever has happened before, an operation can change any block to any value, and then comes a point at
      which the change, and no other, would survive a crash. */
  lemma ChangesCanLast(g: Geometry, run: seq<State>, t: nat, b: nat, v: Block) returns (run': seq<State>)
    requires IsRun(g, run) && g.size >= 2 && g.Home(b)
    requires var s := run[|run| - 1]; s.phase.Running? && Outstanding(s.ops) == 0 && s.holder == map[] && t < |s.ops|
    ensures Extends(g, run, run')
    ensures var s, s' := run[|run| - 1], run'[|run'| - 1];
            && s'.phase.Running? && s'.holder == map[] && s'.ops == s.ops
            && DiskOk(g, s.disk) && DiskOk(g, s'.disk) && Durable(g, s'.disk) == Durable(g, s.disk)[b := v]
  {
    hide Durable, DiskOk, Init, StepAt, AtRest;
    QuietIsDurable(g, run, |run| - 1);
    RestIsQuiet(g, run);
    var mid := ChangeBlock(g, run, t, b, v);
    assert LogUnlocked(g, mid[|mid| - 1]) by { RestUnlocked(g, run[|run| - 1]); }
    run' := CommitEnds(g, mid);
    assert run'[..|run|] == mid[..|run|] == run;
  }

  /** The machine may crash in every state, in the middle of a commit or of a recovery as well. */
  lemma CrashAnywhere(g: Geometry, run: seq<State>) returns (run': seq<State>)
    requires IsRun(g, run)
    ensures Extends(g, run, run') && |run'| == |run| + 1 && run'[|run|].phase.Booting?
    ensures run'[|run|].disk == run[|run| - 1].disk
  {
    RunInv(g, run, |run| - 1);
    var s := run[|run| - 1];
    var s' := State(s.disk, map[], map[], {}, [], Booting, seq(|s.ops|, _ => Idle), Durable(g, s.disk));
    assert CrashStep(g, s, s');
    RunMore(g, run, s', Crash);
    run' := run + [s'];
  }

  lemma FreeIsLogged(g: Geometry, s: State, b: nat)
    requires Inv(g, s) && b !in s.holder
    ensures b !in s.unlogged && |s.disk| == g.nblocks
  {
  }

  /** Outside of recovery any process may lock any buffer that nobody holds, within an operation or not, and
      give it back. */
  lemma AnyoneMayRead(g: Geometry, run: seq<State>, t: nat, b: nat) returns (s1: State, s2: State)
    requires IsRun(g, run) && b < g.nblocks && b !in run[|run| - 1].holder && !Rebooting(run[|run| - 1])
    ensures NextStep(g, run[|run| - 1], s1, Lock(t, b)) && NextStep(g, s1, s2, Release(t, b))
    ensures s2.holder == run[|run| - 1].holder
  {
    hide Inv, StepAt, Init;
    RunInv(g, run, |run| - 1);
    var s := run[|run| - 1];
    FreeIsLogged(g, s, b);
    s1 := s.(holder := s.holder[b := t], cache := s.cache[b := Read(s, b)]);
    s2 := s1.(holder := s1.holder - {b});
    assert s2.holder == s.holder;
    assert LockStep(g, s, s1, t, b) && ReleaseStep(s1, s2, t, b);
  }

  /** A buffer may be recycled exactly if it is neither locked nor pinned. */
  lemma MayRecycle(g: Geometry, s: State, b: nat)
    ensures (exists s' :: NextStep(g, s, s', Evict(b))) <==> b !in s.holder && !Pinned(s, b)
  {
    if b !in s.holder && !Pinned(s, b) {
      assert NextStep(g, s, s.(cache := s.cache - {b}), Evict(b));
    }
  }
}
