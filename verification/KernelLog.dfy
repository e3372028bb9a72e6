/**
 The routines of kernel/log.c over the buffer cache: log_write, write_log, write_head, install_trans,
 commit and recover_from_log, as methods that write the disk block by block.

 The cache records the disk after every write.  A commit is proved to leave, at every one of those
 points, a disk that recovers to the file system before the commit or to the one after it.
 */
module KernelLog {
  import opened Blocks
  import opened BufferCache
  import opened LogProtocol

  /** Block src has been copied over block dst, in the cache and on disk; dst has refs references. */
  ghost predicate Copied(c: Cache, c': Cache, src: nat, dst: nat, refs: int) {
    && c.Ok() && src < |c.d| && dst < |c.d|
    && c'.d == c.d[dst := c.View(src)]
    && DiffersAt(c, c', dst, refs, c.Locked(dst), c.View(src))
  }

  /** Only the references and locks of blocks x and y have changed. */
  ghost predicate PairChanged(c: Cache, c': Cache, x: nat, y: nat, more: int, locked: bool) {
    && c.Ok() && c'.Ok() && c'.d == c.d
    && (forall z | 0 <= z < |c.d| :: c'.View(z) == c.View(z))
    && (forall z :: c'.Refs(z) == c.Refs(z) + if z == x || z == y then more else 0)
    && (forall z :: c'.Locked(z) == if z == x || z == y then locked else c.Locked(z))
  }

  /** Nobody holds the lock of a block of the log or of a block in it, as the calls of bread in a commit wait
      for.  Other blocks may be locked by processes that read them. */
  ghost predicate LogFree(g: Geometry, lh: seq<Uint>, c: Cache)
    requires c.Ok()
  {
    forall b | b in lh || g.start <= b < g.start + g.size :: !c.Locked(b)
  }

  // ---------- The disk during a commit ----------

  /** At every point of the history from position from on, a crash would leave the store m. */
  ghost predicate CrashLeaves(g: Geometry, history: seq<Disk>, from: nat, m: map<nat, Block>) {
    forall i {:trigger history[i]} | from <= i < |history| :: DiskOk(g, history[i]) && Durable(g, history[i]) == m
  }

  /** The home blocks as readers see them. */
  ghost function Store(g: Geometry, c: Cache): map<nat, Block>
    requires c.Ok() && |c.d| == g.nblocks
  {
    map b | 0 <= b < g.nblocks && g.Home(b) :: c.View(b)
  }

  ghost predicate SameRefs(c: Cache, c': Cache) {
    c.Ok() && c'.Ok() && forall b :: c'.Refs(b) == c.Refs(b) && c'.Locked(b) == c.Locked(b)
  }

  /** Since c0 the first k blocks of lh have been copied to the log, and nothing else has changed. */
  ghost predicate Logged(g: Geometry, lh: seq<Uint>, c0: Cache, c: Cache, k: nat) {
    && SameRefs(c0, c) && g.Ok() && |c.d| == |c0.d| == g.nblocks && k <= |lh| < g.size
    && (forall b | 0 <= b < g.nblocks && !(g.start < b <= g.start + k) :: c.d[b] == c0.d[b] && c.View(b) == c0.View(b))
    && (forall j | 0 <= j < k && lh[j] < g.nblocks :: LogBlock(g, c.d, j) == c0.View(lh[j]))
    && (forall j | 0 <= j < k :: c.View(g.start + j + 1) == LogBlock(g, c.d, j))
  }

  lemma LoggedNext(g: Geometry, lh: seq<Uint>, c0: Cache, c: Cache, c': Cache, k: nat)
    requires Logged(g, lh, c0, c, k) && k < |lh| && g.HeaderFits(lh) && !c.Locked(g.start + k + 1)
    requires Copied(c, c', lh[k], g.start + k + 1, c.Refs(g.start + k + 1))
    ensures Logged(g, lh, c0, c', k + 1)
  {
    hide Cache.Ok, Cache.View, Cache.Refs, Cache.Locked;
    assert g.Home(lh[k]);
  }

  lemma LoggedFacts(g: Geometry, lh: seq<Uint>, c0: Cache, c: Cache)
    requires Logged(g, lh, c0, c, |lh|)
    ensures SameRefs(c0, c) && c.Locked(g.start) == c0.Locked(g.start)
  {
  }

  lemma LoggedDurable(g: Geometry, lh: seq<Uint>, c0: Cache, c: Cache, k: nat)
    requires Logged(g, lh, c0, c, k) && DiskOk(g, c0.d) && Header(c0.d[g.start]) == []
    ensures DiskOk(g, c.d) && Header(c.d[g.start]) == [] && Durable(g, c.d) == Durable(g, c0.d)
  {
    hide Cache.Ok, Cache.View, Cache.Refs, Cache.Locked, Durable;
    assert c.d[g.start] == c0.d[g.start];
    DurableSame(g, c0.d, c.d);
  }

  lemma CrashNone(g: Geometry, history: seq<Disk>, m: map<nat, Block>)
    ensures CrashLeaves(g, history, |history|, m)
  {
  }

  lemma CrashGrows(g: Geometry, history: seq<Disk>, from: nat, m: map<nat, Block>, d: Disk)
    requires CrashLeaves(g, history, from, m) && DiskOk(g, d) && Durable(g, d) == m
    ensures CrashLeaves(g, history + [d], from, m)
  {
    hide Durable, DiskOk;
  }

  lemma RoomKept(c: Cache, c': Cache, b: nat)
    requires SameRefs(c, c') && c.Spare()
    ensures c'.HasRoom(b)
  {
    forall b | b in c'.Busy() ensures b in c.Busy() {
      assert c.Refs(b) == c'.Refs(b) > 0;
    }
    SpareKept(c, c');
  }

  /** Since c0 the first k log blocks have been copied home, each taking pins off its references. */
  ghost predicate Installed(g: Geometry, lh: seq<Uint>, c0: Cache, c: Cache, k: nat, pins: nat) {
    && c0.Ok() && c.Ok() && g.Ok() && |c.d| == |c0.d| == g.nblocks && k <= |lh| && g.HeaderFits(lh)
    && (forall b | 0 <= b < g.nblocks && b !in lh[..k] :: c.d[b] == c0.d[b] && c.View(b) == c0.View(b))
    && (forall j | 0 <= j < k :: c.d[lh[j]] == c.View(lh[j]) == LogBlock(g, c0.d, j))
    && (forall b :: c.Refs(b) == c0.Refs(b) - if b in lh[..k] then pins else 0)
    && (forall b :: c.Locked(b) == c0.Locked(b))
  }

  lemma InstalledNext(g: Geometry, lh: seq<Uint>, c0: Cache, c: Cache, c': Cache, k: nat, pins: nat)
    requires Installed(g, lh, c0, c, k, pins) && k < |lh| && !c0.Locked(lh[k])
    requires c0.View(g.start + k + 1) == LogBlock(g, c0.d, k)
    requires Copied(c, c', g.start + k + 1, lh[k], c.Refs(lh[k]) - pins)
    ensures Installed(g, lh, c0, c', k + 1, pins)
  {
    hide Cache.Ok, Cache.View, Cache.Refs, Cache.Locked;
    assert lh[..k + 1] == lh[..k] + [lh[k]];
    assert g.Home(lh[k]) && lh[k] !in lh[..k];
    assert g.start + k + 1 !in lh[..k] by { assert forall j | 0 <= j < k :: g.Home(lh[j]); }
  }

  lemma InstalledDurable(g: Geometry, lh: seq<Uint>, c0: Cache, c: Cache, k: nat, pins: nat)
    requires Installed(g, lh, c0, c, k, pins) && DiskOk(g, c0.d) && Header(c0.d[g.start]) == lh
    ensures DiskOk(g, c.d) && Header(c.d[g.start]) == lh && Durable(g, c.d) == Durable(g, c0.d)
  {
    hide Cache.Ok, Cache.View, Cache.Refs, Cache.Locked, Durable;
    assert forall j | 0 <= j < k :: g.Home(lh[j]);
    assert c.d[g.start] == c0.d[g.start];
    forall j | 0 <= j < |lh| ensures LogBlock(g, c0.d, j) == LogBlock(g, c.d, j) {
      assert g.start + j + 1 !in lh[..k];
    }
    DurableSame(g, c0.d, c.d);
  }

  lemma InstalledNone(g: Geometry, lh: seq<Uint>, c: Cache, pins: nat)
    requires c.Ok() && g.Ok() && |c.d| == g.nblocks && g.HeaderFits(lh)
    ensures Installed(g, lh, c, c, 0, pins)
  {
  }

  /** The next block to install, and its log block, are as they were. */
  lemma StillToInstall(g: Geometry, lh: seq<Uint>, c0: Cache, c: Cache, k: nat, pins: nat)
    requires Installed(g, lh, c0, c, k, pins) && k < |lh|
    ensures var l := g.start + k + 1;
            && l < g.nblocks && l != lh[k] && lh[k] < g.nblocks
            && c.d[l] == c0.d[l] && c.View(l) == c0.View(l) && c.Refs(lh[k]) == c0.Refs(lh[k])
            && c.Locked(l) == c0.Locked(l) && c.Locked(lh[k]) == c0.Locked(lh[k])
  {
    hide Cache.Ok, Cache.View, Cache.Refs, Cache.Locked;
    assert g.Home(lh[k]) && lh[k] !in lh[..k];
    assert g.start + k + 1 !in lh[..k] by { assert forall j | 0 <= j < k :: g.Home(lh[j]); }
  }

  lemma InstalledFacts(g: Geometry, lh: seq<Uint>, c0: Cache, c: Cache, pins: nat)
    requires Installed(g, lh, c0, c, |lh|, pins)
    ensures c.Ok() && c.Locked(g.start) == c0.Locked(g.start)
  {
  }

  lemma FinishedViews(g: Geometry, lh: seq<Uint>, c0: Cache, c1: Cache, c2: Cache, pins: nat)
    requires Installed(g, lh, c0, c1, |lh|, pins) && HeadWritten(g, [], c1, c2)
    requires forall b | 0 <= b < g.nblocks && b !in lh :: c0.View(b) == c0.d[b]
    ensures forall b | 0 <= b < g.nblocks :: c2.View(b) == c2.d[b]
    ensures forall b :: c2.Refs(b) == c0.Refs(b) - if b in lh then pins else 0
    ensures forall b :: c2.Locked(b) ==> c0.Locked(b)
  {
    hide Cache.Ok, Cache.View, Cache.Refs, Cache.Locked, PutHeader, Geometry.HeaderFits;
    assert lh[..|lh|] == lh;
    forall b | 0 <= b < g.nblocks ensures c2.View(b) == c2.d[b] {
      if b in lh {
        var j :| 0 <= j < |lh| && lh[j] == b;
      }
    }
  }

  lemma HeadRoom(g: Geometry, lh: seq<Uint>, c0: Cache, c: Cache, recovering: bool)
    requires Installed(g, lh, c0, c, |lh|, if recovering then 0 else 1) && Roomy(c0, recovering)
    ensures c.HasRoom(g.start)
  {
    if recovering {
      InstallRoom(g, lh, c0, c, |lh|, recovering, g.start, g.start);
    } else {
      forall b | b in c.Busy() ensures b in c0.Busy() {
        assert c0.Refs(b) >= c.Refs(b) > 0;
      }
      SpareKept(c0, c);
    }
  }

  /** The crash points of a history that extends h0: old before position k, new from it on. */
  ghost predicate CommitsAt(g: Geometry, h0: seq<Disk>, h: seq<Disk>, m0: map<nat, Block>, m1: map<nat, Block>, k: nat)
    {
    |h0| <= k <= |h| && CrashLeaves(g, h[..k], |h0|, m0) && CrashLeaves(g, h, k, m1)
  }

  ghost predicate CommitPoint(g: Geometry, h0: seq<Disk>, h: seq<Disk>, m0: map<nat, Block>, m1: map<nat, Block>,
                              done: bool) {
    h0 <= h && exists k: nat :: CommitsAt(g, h0, h, m0, m1, k) && (done ==> k < |h|)
  }

  lemma FromCommitOn(g: Geometry, h0: seq<Disk>, h1: seq<Disk>, h: seq<Disk>, m0: map<nat, Block>, m1: map<nat, Block>)
    requires h0 <= h1 <= h && |h0| < |h1| && CrashLeaves(g, h1[..|h1| - 1], |h0|, m0)
    requires DiskOk(g, h1[|h1| - 1]) && Durable(g, h1[|h1| - 1]) == m1 && CrashLeaves(g, h, |h1|, m1)
    ensures CommitPoint(g, h0, h, m0, m1, true)
  {
    hide Durable, DiskOk;
    var k := |h1| - 1;
    assert h[..k] == h1[..k];
    assert CommitsAt(g, h0, h, m0, m1, k);
  }

  lemma StillSpare(c: Cache, c': Cache)
    requires SameRefs(c, c') && c.Spare()
    ensures c'.Spare()
  {
    forall b | b in c'.Busy() ensures b in c.Busy() {
      assert c.Refs(b) == c'.Refs(b) > 0;
    }
    SpareKept(c, c');
  }

  lemma StoreSameRefs(c: Cache, c': Cache)
    requires SameRefs(c, c')
    ensures forall b :: c'.Refs(b) == c.Refs(b) && c'.Locked(b) == c.Locked(b)
  {
  }

  /** Nothing is logged, so nothing is to be committed. */
  lemma EmptyCommit(g: Geometry, c: Cache)
    requires c.Ok() && |c.d| == g.nblocks && forall b | 0 <= b < g.nblocks :: c.View(b) == c.d[b]
    ensures View(g, c.d) == Store(g, c)
  {
  }

  lemma AllFree(c: Cache, b: nat)
    requires c.Ok() && forall b :: c.Refs(b) == 0
    ensures c.HasRoom(b)
  {
    assert c.BufOk(0);
    assert c.a[0].dev == ROOTDEV ==> c.Refs(c.a[0].blockno) == 0;
    assert c.Unreferenced(0);
  }

  /** After the header has been read the cache is ready for install_trans. */
  lemma BootReady(g: Geometry, c0: Cache, c1: Cache, lh: seq<Uint>)
    requires g.Ok() && c0.Ok() && |c0.d| == g.nblocks && DiskOk(g, c0.d) && c1.d == c0.d && lh == Header(c0.d[g.start])
    requires forall b :: c0.Refs(b) == 0 && !c0.Locked(b)
    requires forall b | 0 <= b < g.nblocks :: c0.View(b) == c0.d[b]
    requires DiffersAt(c0, c1, g.start, 0, false, c0.View(g.start))
    ensures g.HeaderFits(lh) && Roomy(c1, true)
    ensures forall b :: c1.Refs(b) == 0 && !c1.Locked(b)
    ensures forall b | 0 <= b < g.nblocks :: c1.View(b) == c1.d[b]
    ensures forall j | 0 <= j < |lh| :: c1.View(g.start + j + 1) == LogBlock(g, c1.d, j)
  {
    hide Cache.Ok, Cache.View, Cache.Refs, Cache.Locked, Header;
  }

  // ---------- Operations between commits ----------

  lemma AbsorbedAt(lh: seq<Uint>, b: Uint, k: nat)
    requires k <= |lh| && (forall j | 0 <= j < k :: lh[j] != b) && (k < |lh| ==> lh[k] == b)
    ensures (b in lh) == (k < |lh|)
  {
  }

  lemma AbsorbFits(g: Geometry, lh: seq<Uint>, b: Uint)
    requires g.HeaderFits(lh) && !TooBig(g, lh) && g.Home(b)
    ensures g.HeaderFits(Absorb(lh, b))
  {
  }

  /** Every reference is a process's or a pin, blocks being changed are locked, and all others hold
      their last logged value, on disk too unless they are in the log. */
  ghost predicate Accounted(g: Geometry, lh: seq<Uint>, users: multiset<nat>, dirty: set<nat>, store: map<nat, Block>,
                            c: Cache) {
    && c.Ok() && |c.d| == g.nblocks
    && (forall b: nat :: c.Refs(b) == users[b] + if b in lh then 1 else 0)
    && (forall b: nat :: c.Locked(b) ==> users[b] > 0)
    && (forall b | b in dirty :: g.Home(b) && c.Locked(b))
    && (forall b | 0 <= b < g.nblocks && b !in lh && b !in dirty :: c.View(b) == c.d[b])
    && (forall b | g.Home(b) :: b in store && (b in dirty || c.View(b) == store[b]))
  }

  lemma AccountedBoot(g: Geometry, c: Cache)
    requires c.Ok() && |c.d| == g.nblocks
    requires forall b :: c.Refs(b) == 0 && !c.Locked(b)
    requires forall b | 0 <= b < g.nblocks :: c.View(b) == c.d[b]
    ensures Accounted(g, [], multiset{}, {}, View(g, c.d), c)
  {
    hide Cache.Ok, Cache.View, Cache.Refs, Cache.Locked;
  }

  lemma AccountedRead(g: Geometry, lh: seq<Uint>, users: multiset<nat>, dirty: set<nat>, store: map<nat, Block>,
                      c: Cache, c': Cache, b: nat)
    requires Accounted(g, lh, users, dirty, store, c) && b < |c.d| && c'.d == c.d && !c.Locked(b)
    requires DiffersAt(c, c', b, c.Refs(b) + 1, true, c.View(b))
    ensures Accounted(g, lh, users + multiset{b}, dirty, store, c')
  {
    hide Cache.Ok, Cache.View, Cache.Refs, Cache.Locked;
  }

  lemma AccountedChange(g: Geometry, lh: seq<Uint>, users: multiset<nat>, dirty: set<nat>, store: map<nat, Block>,
                        c: Cache, c': Cache, b: nat, v: Block)
    requires Accounted(g, lh, users, dirty, store, c) && g.Home(b) && c'.d == c.d && c.Locked(b)
    requires DiffersAt(c, c', b, c.Refs(b), true, v)
    ensures Accounted(g, lh, users, dirty + {b}, store, c')
  {
    hide Cache.Ok, Cache.View, Cache.Refs, Cache.Locked;
  }

  lemma AccountedRelease(g: Geometry, lh: seq<Uint>, users: multiset<nat>, dirty: set<nat>, store: map<nat, Block>,
                         c: Cache, c': Cache, b: nat)
    requires Accounted(g, lh, users, dirty, store, c) && b < |c.d| && c'.d == c.d && c.Locked(b) && b !in dirty
    requires DiffersAt(c, c', b, c.Refs(b) - 1, false, c.View(b))
    ensures Accounted(g, lh, users - multiset{b}, dirty, store, c')
  {
    hide Cache.Ok, Cache.View, Cache.Refs, Cache.Locked;
  }

  /** A block logged again keeps its slot and its pin; a new one is appended and pinned. */
  lemma AccountedLog(g: Geometry, lh: seq<Uint>, users: multiset<nat>, dirty: set<nat>, store: map<nat, Block>,
                     c: Cache, c': Cache, b: Uint)
    requires Accounted(g, lh, users, dirty, store, c) && g.Home(b) && c'.d == c.d && c.Locked(b)
    requires if b in lh then c' == c else DiffersAt(c, c', b, c.Refs(b) + 1, true, c.View(b))
    ensures Accounted(g, Absorb(lh, b), users, dirty - {b}, store[b := c.View(b)], c')
  {
    hide Cache.Ok, Cache.View, Cache.Refs, Cache.Locked;
  }

  lemma AccountedQuiet(g: Geometry, lh: seq<Uint>, users: multiset<nat>, store: map<nat, Block>, c: Cache)
    requires Accounted(g, lh, users, {}, store, c) && store.Keys == View(g, c.d).Keys
    ensures forall j | 0 <= j < |lh| :: c.Refs(lh[j]) > 0
    ensures forall b | 0 <= b < g.nblocks && b !in lh :: c.View(b) == c.d[b]
    ensures Store(g, c) == store
  {
    hide Cache.Ok, Cache.View, Cache.Refs, Cache.Locked;
  }

  lemma AccountedCommitted(g: Geometry, lh: seq<Uint>, users: multiset<nat>, store: map<nat, Block>, c: Cache,
                           c': Cache)
    requires Accounted(g, lh, users, {}, store, c) && c'.Ok() && |c'.d| == g.nblocks && View(g, c'.d) == store
    requires forall b :: c'.Refs(b) == c.Refs(b) - if b in lh then 1 else 0
    requires forall b :: c'.Locked(b) ==> c.Locked(b)
    requires forall b | 0 <= b < g.nblocks :: c'.View(b) == c'.d[b]
    ensures Accounted(g, [], users, {}, store, c')
  {
    hide Cache.Ok, Cache.View, Cache.Refs, Cache.Locked;
    forall b | g.Home(b) ensures b in store && c'.View(b) == store[b] {
      assert View(g, c'.d)[b] == c'.d[b];
    }
  }

  /** Enough buffers for install_trans: at recovery nobody else uses the cache. */
  ghost predicate Roomy(c: Cache, recovering: bool)
    requires c.Ok()
  {
    if recovering then forall b :: c.Refs(b) == 0 else c.Spare()
  }

  lemma InstallRoom(g: Geometry, lh: seq<Uint>, c0: Cache, c: Cache, k: nat, recovering: bool, x: nat, y: nat)
    requires Installed(g, lh, c0, c, k, if recovering then 0 else 1) && Roomy(c0, recovering)
    requires !recovering ==> c.Refs(y) > 0
    ensures c.HasRoom(x) && RoomForTwo(c, x, y)
  {
    if recovering {
      forall j | 0 <= j < NBUF ensures c.Unreferenced(j) {
        assert c.BufOk(j);
        assert c.a[j].dev == ROOTDEV ==> c.Refs(c.a[j].blockno) == 0;
      }
      assert c.Unreferenced(0);
    } else {
      forall b | b in c.Busy() ensures b in c0.Busy() {
        assert c0.Refs(b) >= c.Refs(b) > 0;
      }
      SpareKept(c0, c);
    }
  }

  /** The header block of c has been written with header h, and nothing else has changed. */
  ghost predicate HeadWritten(g: Geometry, h: seq<Uint>, c: Cache, c': Cache) {
    && g.Ok() && c.Ok() && |c.d| == g.nblocks && |h| <= LOGSIZE && !c.Locked(g.start)
    && var v := PutHeader(c.View(g.start), h);
    && c'.d == c.d[g.start := v]
    && DiffersAt(c, c', g.start, c.Refs(g.start), false, v)
  }

  /** Writing the header after the log makes the cached store the durable one. */
  lemma HeadCommits(g: Geometry, lh: seq<Uint>, c0: Cache, c1: Cache, c2: Cache)
    requires Logged(g, lh, c0, c1, |lh|) && g.HeaderFits(lh) && HeadWritten(g, lh, c1, c2)
    requires forall b | g.Home(b) && b !in lh :: c0.View(b) == c0.d[b]
    ensures DiskOk(g, c2.d) && Header(c2.d[g.start]) == lh && Durable(g, c2.d) == Store(g, c0)
  {
    HeaderRoundTrip(c1.View(g.start), lh);
    hide Cache.Ok, Cache.View, Cache.Refs, Cache.Locked, Durable, PutHeader, Header, SameRefs, DiffersAt;
    forall j | 0 <= j < |lh| ensures LogBlock(g, c2.d, j) == c0.View(lh[j]) {
      assert g.Home(lh[j]);
      assert LogBlock(g, c2.d, j) == LogBlock(g, c1.d, j);
    }
    DurableIs(g, c2.d, Store(g, c0));
  }

  lemma HeadKeepsViews(g: Geometry, lh: seq<Uint>, c0: Cache, c1: Cache, c2: Cache)
    requires Logged(g, lh, c0, c1, |lh|) && g.HeaderFits(lh) && HeadWritten(g, lh, c1, c2)
    requires forall b | 0 <= b < g.nblocks && b !in lh :: c0.View(b) == c0.d[b]
    ensures SameRefs(c0, c2) && |c2.d| == g.nblocks
    ensures forall j | 0 <= j < |lh| :: c2.View(g.start + j + 1) == LogBlock(g, c2.d, j)
    ensures forall b | 0 <= b < g.nblocks && b !in lh :: c2.View(b) == c2.d[b]
  {
    hide Cache.Ok, Cache.View, Cache.Refs, Cache.Locked, PutHeader;
    forall j | 0 <= j < |lh| ensures c2.View(g.start + j + 1) == LogBlock(g, c2.d, j) {
      assert c1.View(g.start + j + 1) == LogBlock(g, c1.d, j);
    }
    forall b | 0 <= b < g.nblocks && b !in lh ensures c2.View(b) == c2.d[b] {
      if g.start < b <= g.start + |lh| {
        assert c2.View(b) == LogBlock(g, c2.d, b - g.start - 1);
      }
    }
  }

  /** Clearing the header after installing leaves the same durable store, now at home. */
  lemma HeadClears(g: Geometry, lh: seq<Uint>, c0: Cache, c1: Cache, c2: Cache, pins: nat)
    requires Installed(g, lh, c0, c1, |lh|, pins) && DiskOk(g, c0.d) && Header(c0.d[g.start]) == lh
    requires HeadWritten(g, [], c1, c2)
    ensures DiskOk(g, c2.d) && Header(c2.d[g.start]) == []
    ensures Durable(g, c2.d) == Durable(g, c0.d) == View(g, c2.d)
  {
    HeaderRoundTrip(c1.View(g.start), []);
    hide Cache.Ok, Cache.View, Cache.Refs, Cache.Locked, Durable, PutHeader;
    InstalledDurable(g, lh, c0, c1, |lh|, pins);
    assert lh[..|lh|] == lh;
    forall j | 0 <= j < |lh| ensures c1.d[lh[j]] == LogBlock(g, c1.d, j) {
      assert g.start + j + 1 !in lh by { assert forall i | 0 <= i < |lh| :: g.Home(lh[i]); }
    }
    DurableCleared(g, c1.d, c2.d);
  }

  class Log {
    const bc: Bcache
    const g: Geometry
    const block: array<Uint>       // lh.block
    var n: nat                     // lh.n
    var outstanding: nat
    var committing: bool
    ghost var users: multiset<nat> // references held by processes
    ghost var dirty: set<nat>      // blocks a process has changed and not yet logged
    ghost var store: map<nat, Block>  // the last value logged for every home block

    ghost predicate Valid()
      reads this, block, bc, bc.buf, bc.disk
    {
      && bc.Valid() && g.Ok() && g.nblocks == bc.disk.Length
      && block.Length == LOGSIZE && n <= LOGSIZE && g.HeaderFits(LH())
      && DiskOk(g, bc.disk[..]) && Header(bc.disk[g.start]) == []
      && Accounted(g, LH(), users, dirty, store, bc.Snap()) && store.Keys == View(g, bc.disk[..]).Keys
    }

    /** initlog, before recovery. */
    constructor (bc: Bcache, g: Geometry)
      ensures this.bc == bc && this.g == g && block.Length == LOGSIZE && fresh(block)
      ensures outstanding == 0 && !committing && users == multiset{} && dirty == {}
    {
      this.bc, this.g := bc, g;
      block := new Uint[LOGSIZE](_ => 0);
      n, outstanding, committing, users, dirty, store := 0, 0, false, multiset{}, {}, map[];
    }

    /** Read two blocks, one after the other; bget panics when it finds no buffer. */
    method ReadPair(x: nat, y: nat) returns (ok: bool, i: nat, j: nat)
      requires bc.Valid() && x < bc.disk.Length && y < bc.disk.Length && x != y
      requires !bc.Snap().Locked(x) && !bc.Snap().Locked(y)
      modifies bc`where, bc.buf
      ensures ok ==> i < NBUF && j < NBUF && bc.Valid() && bc.Snap().HeldAt(i, x) && bc.Snap().HeldAt(j, y)
                     && bc.buf[i].data == bc.Snap().View(x) && bc.buf[j].data == bc.Snap().View(y)
                     && PairChanged(old(bc.Snap()), bc.Snap(), x, y, 1, true)
      ensures old(bc.Snap().HasRoom(x)) && RoomForTwo(old(bc.Snap()), x, y) ==> ok
    {
      hide Cache.Ok, Cache.View, Cache.Refs, Cache.Locked, Cache.HeldAt, Cache.HasRoom, Bcache.ListOk, Stays,
           RoomForTwo;
      ghost var c0 := bc.Snap();
      j := 0;
      i := bc.Bread(ROOTDEV, x);
      if i == NBUF {
        return false, i, j;
      }
      ghost var c1 := bc.Snap();
      if RoomForTwo(c0, x, y) {
        RoomLeft(c0, c1, x, y);
      }
      j := bc.Bread(ROOTDEV, y);
      if j == NBUF {
        return false, i, j;
      }
      StaysHeld(c1, bc.Snap(), i, x, y, c1.Refs(y) + 1, true, c1.View(y));
      HeldData(bc.Snap(), i, x);
      return true, i, j;
    }

    /** Give the holder's buffer of block b new contents and write it to disk. */
    method Overwrite(i: nat, ghost b: nat, data: Block)
      requires bc.Valid() && bc.Snap().HeldAt(i, b)
      modifies bc`history, bc.buf, bc.disk
      ensures bc.Valid() && bc.Snap().HeldAt(i, b)
      ensures Differs(old(bc.Snap()), bc.Snap(), b, old(bc.Snap().Refs(b)), true, data)
      ensures bc.Snap().d == old(bc.Snap().d)[b := data]
      ensures bc.history == old(bc.history) + [bc.disk[..]]
    {
      hide Cache.Ok, Cache.View, Cache.Locked, Cache.HeldAt, Bcache.ListOk;
      ghost var c0 := bc.Snap();
      bc.Change(i, b, data);
      ghost var c1 := bc.Snap();
      bc.Bwrite(i, b);
      HeldRefs(c0, i, b);
      StaysTrans(c0, c1, bc.Snap(), b, data);
    }

    /** Release two blocks; y is clean or pinned, and so is x. */
    method ReleasePair(i: nat, ghost x: nat, j: nat, ghost y: nat)
      requires bc.Valid() && x != y && bc.Snap().HeldAt(i, x) && bc.Snap().HeldAt(j, y)
      requires bc.Snap().Refs(x) == 1 ==> bc.Snap().View(x) == bc.Snap().d[x]
      requires bc.Snap().Refs(y) == 1 ==> bc.Snap().View(y) == bc.Snap().d[y]
      modifies bc`order, bc`uses, bc.buf
      ensures bc.Valid() && PairChanged(old(bc.Snap()), bc.Snap(), x, y, -1, false)
    {
      hide Cache.Ok, Cache.View, Cache.Refs, Cache.Locked, Stays, Bcache.ListOk;
      ghost var c0 := bc.Snap();
      bc.Brelse(i, x);
      StaysHeld(c0, bc.Snap(), j, y, x, c0.Refs(x) - 1, false, c0.View(x));
      bc.Brelse(j, y);
    }

    /** One round of write_log: block from is copied to the log block to. */
    method LogOne(to: nat, from: nat) returns (ok: bool)
      requires bc.Valid() && to < bc.disk.Length && from < bc.disk.Length && to != from
      requires !bc.Snap().Locked(to) && !bc.Snap().Locked(from) && bc.Snap().Refs(from) > 0
      modifies bc`where, bc`order, bc`uses, bc`history, bc.buf, bc.disk
      ensures old(bc.Snap().HasRoom(to)) ==> ok
      ensures ok ==> bc.Valid() && Copied(old(bc.Snap()), bc.Snap(), from, to, old(bc.Snap().Refs(to)))
                     && bc.history == old(bc.history) + [bc.disk[..]]
      ensures !ok ==> bc.history == old(bc.history)
    {
      hide Cache.Ok, Cache.View, Cache.Refs, Cache.Locked, Cache.HeldAt, Cache.HasRoom, Stays, Bcache.ListOk;
      ghost var c0 := bc.Snap();
      var t, f;
      ok, t, f := ReadPair(to, from);
      if ok {
        ghost var c1 := bc.Snap();
        Overwrite(t, to, bc.buf[f].data);
        StaysHeld(c1, bc.Snap(), f, from, to, c1.Refs(to), true, c1.View(from));
        ReleasePair(f, from, t, to);
      }
    }

    /** One round of install_trans: the log block src is copied to its home dst. */
    method InstallOne(src: nat, dst: nat, recovering: bool) returns (ok: bool)
      requires bc.Valid() && src < bc.disk.Length && dst < bc.disk.Length && src != dst
      requires !bc.Snap().Locked(src) && !bc.Snap().Locked(dst)
      requires bc.Snap().View(src) == bc.Snap().d[src] && (!recovering ==> bc.Snap().Refs(dst) > 0)
      modifies bc`where, bc`order, bc`uses, bc`history, bc.buf, bc.disk
      ensures old(bc.Snap().HasRoom(src)) && RoomForTwo(old(bc.Snap()), src, dst) ==> ok
      ensures ok ==> bc.Valid() && bc.history == old(bc.history) + [bc.disk[..]]
                     && Copied(old(bc.Snap()), bc.Snap(), src, dst,
                               old(bc.Snap().Refs(dst)) - if recovering then 0 else 1)
      ensures !ok ==> bc.history == old(bc.history)
    {
      hide Cache.Ok, Cache.View, Cache.Refs, Cache.Locked, Cache.HeldAt, Cache.HasRoom, RoomForTwo, Stays,
           Bcache.ListOk;
      ghost var c0 := bc.Snap();
      var l, d;
      ok, l, d := ReadPair(src, dst);
      if ok {
        ghost var c1 := bc.Snap();
        Overwrite(d, dst, bc.buf[l].data);
        ghost var c2 := bc.Snap();
        StaysHeld(c1, c2, l, src, dst, c1.Refs(dst), true, c1.View(src));
        if !recovering {
          bc.Bunpin(d, dst);
          StaysHeld(c2, bc.Snap(), l, src, dst, c2.Refs(dst) - 1, true, c2.View(dst));
        }
        ReleasePair(l, src, d, dst);
      }
    }

    /** write_head: the in-memory header goes into the header block, which goes to disk. */
    method WriteHead() returns (ok: bool)
      requires bc.Valid() && g.Ok() && g.nblocks == bc.disk.Length && block.Length == LOGSIZE && n <= LOGSIZE
      requires !bc.Snap().Locked(g.start)
      modifies bc`where, bc`order, bc`uses, bc`history, bc.buf, bc.disk
      ensures old(bc.Snap().HasRoom(g.start)) ==> ok
      ensures ok ==> bc.Valid() && bc.history == old(bc.history) + [bc.disk[..]]
                     && HeadWritten(g, LH(), old(bc.Snap()), bc.Snap())
      ensures !ok ==> bc.history == old(bc.history)
    {
      hide Cache.Ok, Cache.View, Cache.Refs, Cache.Locked, Cache.HeldAt, Cache.HasRoom, Stays, Bcache.ListOk, SetWord;
      var b := bc.Bread(ROOTDEV, g.start);
      if b == NBUF {
        return false;
      }
      var data := SetWord(bc.buf[b].data, 0, n);
      var i := 0;
      while i < n
        invariant 0 <= i <= n && data == PutEntries(SetWord(bc.buf[b].data, 0, n), LH(), i)
      {
        data := SetWord(data, i + 1, block[i]);
        i := i + 1;
      }
      Overwrite(b, g.start, data);
      bc.Brelse(b, g.start);
      return true;
    }

    ghost function LH(): seq<Uint>
      reads this, block
      requires n <= block.Length
    {
      block[..n]
    }

    /** The log is set up, its header on disk is empty, and nobody holds a lock that a commit takes. */
    ghost predicate Ready()
      reads this, block, bc, bc.buf, bc.disk
    {
      && bc.Valid() && g.Ok() && g.nblocks == bc.disk.Length
      && block.Length == LOGSIZE && n <= LOGSIZE && g.HeaderFits(LH())
      && DiskOk(g, bc.disk[..]) && Header(bc.disk[g.start]) == []
      && LogFree(g, LH(), bc.Snap())
      && (forall j | 0 <= j < n :: bc.Snap().Refs(block[j]) > 0)
    }

    method WriteLog() returns (ok: bool)
      requires Ready()
      modifies bc`where, bc`order, bc`uses, bc`history, bc.buf, bc.disk
      ensures ok ==> bc.Valid() && Logged(g, LH(), old(bc.Snap()), bc.Snap(), n)
      ensures old(bc.Snap().Spare()) ==> ok
      ensures old(bc.history) <= bc.history
      ensures CrashLeaves(g, bc.history, |old(bc.history)|, Durable(g, old(bc.disk[..])))
    {
      hide Cache.Ok, Cache.View, Cache.Refs, Cache.Locked, Cache.HasRoom, Cache.Spare, Copied, Durable, Bcache.ListOk,
           Header, DiskOk;
      ghost var c0, lh := bc.Snap(), LH();
      var tail := 0;
      while tail < n
        invariant 0 <= tail <= n && LH() == lh && bc.Valid() && Logged(g, lh, c0, bc.Snap(), tail)
        invariant old(bc.history) <= bc.history
        invariant CrashLeaves(g, bc.history, |old(bc.history)|, Durable(g, c0.d))
      {
        ghost var c, c_history := bc.Snap(), bc.history;
        assert g.Home(lh[tail]);
        if c0.Spare() {
          RoomKept(c0, c, g.start + tail + 1);
        }
        ok := LogOne(g.start + tail + 1, block[tail]);
        if !ok {
          return;
        }
        LoggedNext(g, lh, c0, c, bc.Snap(), tail);
        LoggedDurable(g, lh, c0, bc.Snap(), tail + 1);
        CrashGrows(g, c_history, |old(bc.history)|, Durable(g, c0.d), bc.disk[..]);
        tail := tail + 1;
      }
      return true;
    }

    method InstallTrans(recovering: bool) returns (ok: bool)
      requires bc.Valid() && g.Ok() && g.nblocks == bc.disk.Length && block.Length == LOGSIZE && n <= LOGSIZE
      requires DiskOk(g, bc.disk[..]) && g.HeaderFits(LH()) && Header(bc.disk[g.start]) == LH()
      requires LogFree(g, LH(), bc.Snap())
      requires forall j | 0 <= j < n :: bc.Snap().View(g.start + j + 1) == LogBlock(g, bc.disk[..], j)
      requires !recovering ==> forall j | 0 <= j < n :: bc.Snap().Refs(block[j]) > 0
      modifies bc`where, bc`order, bc`uses, bc`history, bc.buf, bc.disk
      ensures ok ==> bc.Valid() && Installed(g, LH(), old(bc.Snap()), bc.Snap(), n, if recovering then 0 else 1)
      ensures Roomy(old(bc.Snap()), recovering) ==> ok
      ensures old(bc.history) <= bc.history
      ensures CrashLeaves(g, bc.history, |old(bc.history)|, Durable(g, old(bc.disk[..])))
    {
      hide Cache.Ok, Cache.View, Cache.Refs, Cache.Locked, Cache.HasRoom, RoomForTwo, Roomy, Copied, Durable,
           Bcache.ListOk,
           Header, DiskOk, Installed, CrashLeaves;
      ghost var c0, lh, pins := bc.Snap(), LH(), if recovering then 0 else 1;
      InstalledNone(g, lh, c0, pins);
      CrashNone(g, bc.history, Durable(g, c0.d));
      var tail := 0;
      while tail < n
        invariant 0 <= tail <= n && LH() == lh && bc.Valid() && Installed(g, lh, c0, bc.Snap(), tail, pins)
        invariant old(bc.history) <= bc.history
        invariant CrashLeaves(g, bc.history, |old(bc.history)|, Durable(g, c0.d))
      {
        ghost var c, before := bc.Snap(), bc.history;
        StillToInstall(g, lh, c0, c, tail, pins);
        assert c0.View(g.start + tail + 1) == LogBlock(g, c0.d, tail);
        if Roomy(c0, recovering) {
          InstallRoom(g, lh, c0, c, tail, recovering, g.start + tail + 1, lh[tail]);
        }
        ok := InstallOne(g.start + tail + 1, block[tail], recovering);
        if !ok {
          return;
        }
        InstalledNext(g, lh, c0, c, bc.Snap(), tail, pins);
        InstalledDurable(g, lh, c0, bc.Snap(), tail + 1, pins);
        CrashGrows(g, before, |old(bc.history)|, Durable(g, c0.d), bc.disk[..]);
        tail := tail + 1;
      }
      return true;
    }

    /** The blocks outside lh are on disk as readers see them. */
    ghost predicate CleanBut(lh: seq<Uint>)
      reads this, bc, bc.buf, bc.disk
    {
      bc.Snap().Ok() && g.nblocks == bc.disk.Length
      && forall b | 0 <= b < g.nblocks && b !in lh :: bc.Snap().View(b) == bc.disk[b]
    }

    /** The first half of commit, up to the write of the header. */
    method CommitLog() returns (ok: bool)
      requires Ready() && CleanBut(LH())
      modifies bc`where, bc`order, bc`uses, bc`history, bc.buf, bc.disk
      ensures old(bc.Snap().Spare()) ==> ok
      ensures old(bc.history) <= bc.history
      ensures var h, m := bc.history, Durable(g, old(bc.disk[..]));
              if ok then
                && |h| > |old(bc.history)| && CrashLeaves(g, h[..|h| - 1], |old(bc.history)|, m)
                && h[|h| - 1] == bc.disk[..]
              else CrashLeaves(g, h, |old(bc.history)|, m)
      ensures ok ==> bc.Valid() && SameRefs(old(bc.Snap()), bc.Snap())
      ensures ok ==> DiskOk(g, bc.disk[..]) && Header(bc.disk[g.start]) == LH()
      ensures ok ==> Durable(g, bc.disk[..]) == Store(g, old(bc.Snap()))
      ensures ok ==>
                && CleanBut(LH())
                && forall j | 0 <= j < n :: bc.Snap().View(g.start + j + 1) == LogBlock(g, bc.disk[..], j)
    {
      hide Cache.Ok, Cache.View, Cache.Refs, Cache.Locked, Cache.HasRoom, Cache.Spare, Durable, Bcache.ListOk,
           Header, DiskOk, CrashLeaves, Logged, HeadWritten;
      ghost var c0, lh := bc.Snap(), LH();
      ok := WriteLog();
      if !ok {
        return;
      }
      ghost var c1, h := bc.Snap(), bc.history;
      LoggedFacts(g, lh, c0, c1);
      if c0.Spare() {
        RoomKept(c0, c1, g.start);
      }
      ok := WriteHead();
      if ok {
        HeadCommits(g, lh, c0, c1, bc.Snap());
        HeadKeepsViews(g, lh, c0, c1, bc.Snap());
        assert bc.history[..|bc.history| - 1] == h;
      }
    }

    /** The second half of commit, and of recovery: install the log and clear the header. */
    method Finish(recovering: bool) returns (ok: bool)
      requires bc.Valid() && g.Ok() && g.nblocks == bc.disk.Length && block.Length == LOGSIZE && n <= LOGSIZE
      requires DiskOk(g, bc.disk[..]) && g.HeaderFits(LH()) && Header(bc.disk[g.start]) == LH()
      requires LogFree(g, LH(), bc.Snap())
      requires CleanBut(LH()) && forall j | 0 <= j < n :: bc.Snap().View(g.start + j + 1) == LogBlock(g, bc.disk[..], j)
      requires !recovering ==> forall j | 0 <= j < n :: bc.Snap().Refs(block[j]) > 0
      modifies this`n, bc`where, bc`order, bc`uses, bc`history, bc.buf, bc.disk
      ensures Roomy(old(bc.Snap()), recovering) ==> ok
      ensures old(bc.history) <= bc.history
      ensures CrashLeaves(g, bc.history, |old(bc.history)|, Durable(g, old(bc.disk[..])))
      ensures ok ==> Ready() && LH() == [] && CleanBut([]) && View(g, bc.disk[..]) == Durable(g, old(bc.disk[..]))
      ensures ok ==> forall b :: bc.Snap().Refs(b)
                                 == old(bc.Snap().Refs(b)) - if !recovering && b in old(LH()) then 1 else 0
      ensures ok ==> forall b :: bc.Snap().Locked(b) ==> old(bc.Snap().Locked(b))
    {
      hide Cache.Ok, Cache.View, Cache.Refs, Cache.Locked, Cache.HasRoom, Roomy, RoomForTwo, Durable, Bcache.ListOk,
           Header, DiskOk, CrashLeaves, Installed, HeadWritten;
      ghost var c0, lh, pins := bc.Snap(), LH(), if recovering then 0 else 1;
      ok := InstallTrans(recovering);
      if !ok {
        return;
      }
      ghost var c1, h := bc.Snap(), bc.history;
      InstalledFacts(g, lh, c0, c1, pins);
      if Roomy(c0, recovering) {
        HeadRoom(g, lh, c0, c1, recovering);
      }
      n := 0;
      ok := WriteHead();
      if ok {
        HeadClears(g, lh, c0, c1, bc.Snap(), pins);
        FinishedViews(g, lh, c0, c1, bc.Snap(), pins);
        CrashGrows(g, h, |old(bc.history)|, Durable(g, c0.d), bc.disk[..]);
      }
    }

    /** At every point during a commit a crash leaves the old store or the new one, and the new one
        from the point on at which the header has been written.  A commit that does not run out of
        buffers leaves the new store at home, the log empty and its blocks unpinned. */
    method Commit() returns (ok: bool)
      requires Ready() && CleanBut(LH())
      modifies this`n, bc`where, bc`order, bc`uses, bc`history, bc.buf, bc.disk
      ensures old(bc.Snap().Spare()) ==> ok
      ensures CommitPoint(g, old(bc.history), bc.history, Durable(g, old(bc.disk[..])), Store(g, old(bc.Snap())),
                          ok && old(n) > 0)
      ensures old(n) == 0 ==> ok && bc.history == old(bc.history)
      ensures ok ==> Ready() && LH() == [] && CleanBut([]) && View(g, bc.disk[..]) == Store(g, old(bc.Snap()))
      ensures ok ==> forall b :: bc.Snap().Refs(b) == old(bc.Snap().Refs(b)) - if b in old(LH()) then 1 else 0
      ensures ok ==> forall b :: bc.Snap().Locked(b) ==> old(bc.Snap().Locked(b))
    {
      hide Cache.Ok, Cache.View, Cache.Refs, Cache.Locked, Cache.HasRoom, Cache.Spare, Durable, Bcache.ListOk,
           Header, DiskOk, CrashLeaves;
      ghost var c0, h0 := bc.Snap(), bc.history;
      if n > 0 {
        ok := CommitLog();
        if !ok {
          CrashNone(g, bc.history, Store(g, c0));
          assert CommitsAt(g, h0, bc.history, Durable(g, c0.d), Store(g, c0), |bc.history|) by {
            assert bc.history[..|bc.history|] == bc.history;
          }
          return;
        }
        ghost var c1, h1 := bc.Snap(), bc.history;
        if c0.Spare() {
          StillSpare(c0, c1);
        }
        ok := Finish(false);
        FromCommitOn(g, h0, h1, bc.history, Durable(g, c0.d), Store(g, c0));
        StoreSameRefs(c0, c1);
      } else {
        CrashNone(g, h0, Store(g, c0));
        CrashNone(g, h0, Durable(g, c0.d));
        assert CommitsAt(g, h0, h0, Durable(g, c0.d), Store(g, c0), |h0|) by { assert h0[..|h0|] == h0; }
        EmptyCommit(g, c0);
        ok := true;
      }
    }

    /** read_head: the header on disk becomes the one in memory. */
    method ReadHead() returns (ok: bool)
      requires bc.Valid() && g.Ok() && g.nblocks == bc.disk.Length && block.Length == LOGSIZE
      requires !bc.Snap().Locked(g.start) && HeaderOk(bc.Snap().View(g.start))
      requires bc.Snap().Refs(g.start) == 0 && bc.Snap().View(g.start) == bc.Snap().d[g.start]
      modifies this`n, block, bc`where, bc`order, bc`uses, bc.buf
      ensures old(bc.Snap().HasRoom(g.start)) ==> ok
      ensures ok ==> bc.Valid() && n <= LOGSIZE && LH() == Header(old(bc.Snap().View(g.start)))
      ensures ok ==> DiffersAt(old(bc.Snap()), bc.Snap(), g.start, 0, false, old(bc.Snap().View(g.start)))
    {
      hide Cache.Ok, Cache.View, Cache.Refs, Cache.Locked, Cache.HeldAt, Cache.HasRoom, Stays, Bcache.ListOk, Word;
      var b := bc.Bread(ROOTDEV, g.start);
      if b == NBUF {
        return false;
      }
      var data := bc.buf[b].data;
      n := Word(data, 0);
      var i := 0;
      while i < n
        modifies block
        invariant 0 <= i <= n == Word(data, 0) <= LOGSIZE && block[..i] == Header(data)[..i]
      {
        block[i] := Word(data, i + 1);
        i := i + 1;
      }
      bc.Brelse(b, g.start);
      return true;
    }

    /** Recovery leaves the durable store at home and an empty log, and so does every later recovery
        if a crash cuts it short: no write changes what the disk recovers to. */
    method RecoverFromLog() returns (ok: bool)
      requires bc.Valid() && g.Ok() && g.nblocks == bc.disk.Length && block.Length == LOGSIZE
      requires DiskOk(g, bc.disk[..]) && CleanBut([])
      requires forall b :: bc.Snap().Refs(b) == 0 && !bc.Snap().Locked(b)
      requires users == multiset{} && dirty == {}
      modifies this`n, this`store, block, bc`where, bc`order, bc`uses, bc`history, bc.buf, bc.disk
      ensures ok && Valid() && LH() == []
      ensures View(g, bc.disk[..]) == Durable(g, old(bc.disk[..])) == store
      ensures old(bc.history) <= bc.history
      ensures CrashLeaves(g, bc.history, |old(bc.history)|, Durable(g, old(bc.disk[..])))
      ensures forall b :: bc.Snap().Refs(b) == 0
    {
      hide Cache.View, Cache.Refs, Cache.Locked, Cache.HasRoom, Durable, Bcache.ListOk, Header, CrashLeaves, Roomy,
           Cache.Ok;
      ghost var c0 := bc.Snap();
      AllFree(c0, g.start);
      ok := ReadHead();
      ghost var c1 := bc.Snap();
      BootReady(g, c0, c1, LH());
      ok := Finish(true);
      store := View(g, bc.disk[..]);
      AccountedBoot(g, bc.Snap());
    }

    /** bread, by a process: the buffer holds the last value logged for the block. */
    method Read(b: nat) returns (i: nat)
      requires Valid() && b < g.nblocks && !bc.Snap().Locked(b)
      modifies this`users, bc`where, bc.buf
      ensures i == NBUF <==> !old(bc.Snap().HasRoom(b))
      ensures i < NBUF ==> Valid() && bc.Snap().HeldAt(i, b) && users == old(users) + multiset{b}
      ensures i < NBUF && g.Home(b) ==> b in store && bc.buf[i].data == store[b]
    {
      hide Cache.Ok, Cache.View, Cache.Refs, Cache.Locked, Cache.HasRoom, Stays, Bcache.ListOk, Header, DiskOk;
      ghost var c := bc.Snap();
      i := bc.Bread(ROOTDEV, b);
      if i < NBUF {
        AccountedRead(g, LH(), users, dirty, store, c, bc.Snap(), b);
        users := users + multiset{b};
      }
    }

    /** A process inside an operation changes a block that it holds. */
    method Modify(i: nat, ghost b: nat, data: Block)
      requires Valid() && g.Home(b) && bc.Snap().HeldAt(i, b) && outstanding > 0
      modifies this`dirty, bc.buf
      ensures Valid() && bc.Snap().HeldAt(i, b) && bc.Snap().View(b) == data && dirty == old(dirty) + {b}
    {
      hide Cache.Ok, Cache.View, Cache.Refs, Cache.HeldAt, Cache.Locked, Stays, Bcache.ListOk, Header, DiskOk,
           Accounted;
      ghost var c := bc.Snap();
      HeldRefs(c, i, b);
      bc.Change(i, b, data);
      AccountedChange(g, LH(), users, dirty, store, c, bc.Snap(), b, data);
      dirty := dirty + {b};
    }

    method Release(i: nat, ghost b: nat)
      requires Valid() && bc.Snap().HeldAt(i, b) && b !in dirty
      modifies this`users, bc`order, bc`uses, bc.buf
      ensures Valid() && users == old(users) - multiset{b} && !bc.Snap().Locked(b)
    {
      hide Cache.Ok, Cache.View, Cache.Refs, Cache.HeldAt, Cache.Locked, Stays, Bcache.ListOk, Header, DiskOk;
      ghost var c := bc.Snap();
      HeldRefs(c, i, b);
      bc.Brelse(i, b);
      AccountedRelease(g, LH(), users, dirty, store, c, bc.Snap(), b);
      users := users - multiset{b};
    }

    /** The search of log_write: b goes to the slot that holds it already, or to the first free one. */
    method RecordBlock(b: Uint) returns (k: nat)
      requires n < block.Length
      modifies block
      ensures k <= n && (k < n <==> b in old(LH())) && block[..k + 1] == old(LH())[..k] + [b]
      ensures block[..n] == old(LH())
      ensures k == n ==> block[..n + 1] == old(LH()) + [b]
    {
      k := 0;
      while k < n && block[k] != b
        invariant 0 <= k <= n && forall j | 0 <= j < k :: block[j] != b
      {
        k := k + 1;
      }
      AbsorbedAt(LH(), b, k);
      block[k] := b;
    }

    /** Enter block b in the header, and pin its buffer if it was not there. */
    method Absorbed(i: nat, b: Uint)
      requires bc.Valid() && block.Length == LOGSIZE && n < LOGSIZE && bc.Snap().HeldAt(i, b)
      modifies this`n, block, bc.buf
      ensures n <= LOGSIZE && LH() == Absorb(old(LH()), b)
      ensures bc.Valid() && bc.Snap().HeldAt(i, b) && bc.Snap().View(b) == old(bc.Snap().View(b))
      ensures if b in old(LH()) then bc.Snap() == old(bc.Snap())
              else DiffersAt(old(bc.Snap()), bc.Snap(), b, old(bc.Snap().Refs(b)) + 1, true, old(bc.Snap().View(b)))
    {
      hide Cache.Ok, Cache.View, Cache.Refs, Cache.HeldAt, Cache.Locked, Stays, Bcache.ListOk;
      HeldRefs(bc.Snap(), i, b);
      var k := RecordBlock(b);
      if k == n {
        bc.Bpin(i, b);
        n := n + 1;
      }
    }

    /** log_write; both panics are a false result. */
    method LogWrite(i: nat, b: Uint) returns (ok: bool)
      requires Valid() && g.Home(b) && bc.Snap().HeldAt(i, b)
      modifies this`n, this`dirty, this`store, block, bc.buf
      ensures n <= block.Length && (ok <==> !TooBig(g, old(LH())) && outstanding >= 1)
      ensures !ok ==> bc.Snap() == old(bc.Snap()) && LH() == old(LH())
      ensures ok ==> Valid() && LH() == Absorb(old(LH()), b)
      ensures ok ==> bc.Snap().HeldAt(i, b) && bc.Snap().View(b) == old(bc.Snap().View(b))
      ensures ok ==> store == old(store)[b := bc.Snap().View(b)] && dirty == old(dirty) - {b}
    {
      hide Cache.Ok, Cache.View, Cache.Refs, Cache.HeldAt, Cache.Locked, Stays, Bcache.ListOk, Header, DiskOk,
           Accounted,
           Geometry.HeaderFits, Absorb, Differs, DiffersAt;
      if n >= LOGSIZE || n >= g.size - 1 || outstanding < 1 {
        return false;
      }
      ghost var c, lh := bc.Snap(), LH();
      HeldRefs(c, i, b);
      AbsorbFits(g, lh, b);
      Absorbed(i, b);
      AccountedLog(g, lh, users, dirty, store, c, bc.Snap(), b);
      store, dirty := store[b := c.View(b)], dirty - {b};
      return true;
    }

    /** One pass of the loop in begin_op; a caller that is not admitted sleeps and tries again. */
    method BeginOp() returns (admitted: bool)
      requires Valid()
      modifies this`outstanding
      ensures Valid() && admitted == (!committing && |LH()| + (old(outstanding) + 1) * MAXOPBLOCKS <= LOGSIZE)
      ensures outstanding == old(outstanding) + if admitted then 1 else 0
    {
      admitted := !committing && n + (outstanding + 1) * MAXOPBLOCKS <= LOGSIZE;
      if admitted {
        outstanding := outstanding + 1;
      }
    }

    /** The first critical section of end_op: the last operation to leave announces the commit, and
        from here on begin_op admits nobody. */
    method Leave() returns (doCommit: bool)
      requires Valid() && outstanding >= 1 && !committing
      modifies this`outstanding, this`committing
      ensures Valid() && outstanding == old(outstanding) - 1
      ensures doCommit == committing == (outstanding == 0)
    {
      outstanding := outstanding - 1;
      doCommit := outstanding == 0;
      if doCommit {
        committing := true;
      }
    }

    /** end_op; the last operation commits, while no process holds a block of the log or a block in it. */
    method EndOp() returns (ok: bool)
      requires Valid() && outstanding >= 1 && !committing
      requires outstanding == 1 ==> dirty == {} && LogFree(g, LH(), bc.Snap())
      modifies this`n, this`outstanding, this`committing, bc`where, bc`order, bc`uses, bc`history, bc.buf, bc.disk
      ensures outstanding == old(outstanding) - 1
      ensures outstanding > 0 ==> ok && Valid() && LH() == old(LH()) && bc.history == old(bc.history)
      ensures outstanding == 0 ==>
                CommitPoint(g, old(bc.history), bc.history, Durable(g, old(bc.disk[..])), store, ok && old(n) > 0)
      ensures old(n) == 0 ==> ok && bc.history == old(bc.history)
      ensures ok ==> !committing
      ensures ok && outstanding == 0 ==> Valid() && LH() == [] && View(g, bc.disk[..]) == store
      ensures old(bc.Snap().Spare()) ==> ok
    {
      hide Cache.Ok, Cache.View, Cache.Refs, Cache.Locked, Cache.HasRoom, Cache.Spare, Durable, Bcache.ListOk,
           Header, DiskOk, CommitPoint, Accounted;
      var doCommit := Leave();
      ok := true;
      if doCommit {
        ghost var c, lh := bc.Snap(), LH();
        AccountedQuiet(g, lh, users, store, c);
        ok := Commit();
        if ok {
          AccountedCommitted(g, lh, users, store, c, bc.Snap());
          committing := false;
        }
      }
    }
  }

  /** After a buffer for x has been taken there is one for y. */
  ghost predicate RoomForTwo(c: Cache, x: nat, y: nat)
    requires c.Ok()
  {
    c.Refs(y) > 0 || forall j | 0 <= j < NBUF :: c.Unreferenced(j)
  }

  lemma RoomLeft(c: Cache, c': Cache, x: nat, y: nat)
    requires c.Ok() && RoomForTwo(c, x, y) && x != y && x < |c.d|
    requires Differs(c, c', x, c.Refs(x) + 1, true, c.View(x))
    ensures c'.HasRoom(y)
  {
    if c.Refs(y) > 0 {
      ReferencedHasRoom(c', y);
    } else {
      var j := if c'.where[x] == 0 then 1 else 0;
      assert c'.BufOk(j);
      var z := c'.a[j].blockno;
      if c'.a[j].dev == ROOTDEV {
        assert z in c.where ==> c.Unreferenced(c.where[z]);
        assert c'.Refs(z) == c.Refs(z) == 0;
      }
      assert c'.Unreferenced(j);
    }
  }

  lemma HeldData(c: Cache, i: nat, b: nat)
    requires c.HeldAt(i, b)
    ensures i < NBUF < |c.a| && c.a[i].data == c.View(b)
  {
  }

  lemma HeldRefs(c: Cache, i: nat, b: nat)
    requires c.HeldAt(i, b)
    ensures c.Ok() && b < |c.d| && c.Locked(b) && c.Refs(b) > 0
  {
    assert c.BufOk(i);
  }

  lemma StaysTrans(c: Cache, c1: Cache, c2: Cache, b: nat, data: Block)
    requires c.Ok() && c1.Ok() && b < |c.d| && c.Refs(b) > 0
    requires Differs(c, c1, b, c.Refs(b), true, data) && Differs(c1, c2, b, c1.Refs(b), true, data)
    ensures Differs(c, c2, b, c.Refs(b), true, data)
  {
    forall x | x in c.where && c.Refs(x) > 0 ensures Stays(c, c2, x) {
      assert Stays(c, c1, x);
      assert Stays(c1, c2, x);
    }
  }
}
