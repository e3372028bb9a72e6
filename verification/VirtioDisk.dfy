/**
 The virtio disk driver (kernel/virtio_disk.c) and the device it shares memory with (section 2.6 of
 virtio v1.1: descriptors, the available ring and the used ring).

 The driver and the device take turns in any order.  A method is what one of them does without being
 seen halfway by the other: the device reads nothing but published ring entries and the chains they
 name, and the driver reads nothing but published used entries.
 */
module VirtioDisk {
  import opened Blocks

  const NUM := 8
  const WRAP := 0x1_0000  // ring indices are 16-bit numbers
  const F_NEXT := 1
  const F_WRITE := 2

  type Index = x: nat | x < WRAP

  /** Where a descriptor points: a request header, the data of a buffer, or a status byte. */
  datatype Addr = Nowhere | OpAt(i: nat) | DataOf(b: nat) | StatusAt(i: nat)

  datatype Desc = Desc(addr: Addr, len: nat, flags: nat, next: nat)
  datatype Req = Req(write: bool, sector: nat)
  datatype Info = Info(b: int, status: nat)
  datatype Buf = Buf(blockno: nat, disk: bool, data: Block)

  /** How far a request has come; a ring entry is named by its number since the start. */
  datatype Phase = Made | Posted(k: nat) | Taken | Done(k: nat) | Seen

  /** A request in flight, named by the first of its three descriptors. */
  datatype Chain = Chain(i1: nat, i2: nat, b: nat, write: bool, id: nat, phase: Phase)

  /** The place of entry k in a ring. */
  function Slot(k: nat): (i: nat)
    ensures i < NUM
  {
    k % NUM
  }

  const BLANK := Desc(Nowhere, 0, 0, 0)
  const FREE := -1
  const LOOSE := -2  // allocated, and not in a chain

  datatype Queue = Queue(free: seq<bool>, desc: seq<Desc>, info: seq<Info>, ops: seq<Req>, bufs: seq<Buf>,
                         media: seq<Block>, avail: seq<nat>, used: seq<nat>,
                         posted: nat, taken: nat, done: nat, seen: nat,
                         owner: seq<int>, chains: map<nat, Chain>, pending: set<nat>, finished: set<nat>,
                         results: map<nat, Block>, nextId: nat)
  {
    ghost predicate Shaped() {
      && |free| == |desc| == |info| == |ops| == |avail| == |used| == |owner| == NUM
      && taken <= posted && seen <= done && |pending| == posted - taken && |finished| == done - seen
    }

    /** A descriptor is free, or in one chain, or in the hands of the driver. */
    ghost predicate DescOk(i: nat)
      requires Shaped()
    {
      i < NUM ==>
        && (free[i] <==> owner[i] == FREE) && (free[i] ==> desc[i] == BLANK)
        && (owner[i] == FREE || owner[i] == LOOSE || (owner[i] in chains && Member(owner[i], i)))
    }

    ghost predicate Member(h: int, i: nat)
      requires h in chains
    {
      i == h || i == chains[h].i1 || i == chains[h].i2
    }

    ghost predicate ChainOk(h: nat)
      requires Shaped()
    {
      h in chains ==> h < NUM && OwnsThree(h) && Formatted(h) && PhaseOk(h) && ResultOk(h)
    }

    ghost predicate OwnsThree(h: nat)
      requires Shaped() && h in chains && h < NUM
    {
      var c := chains[h];
      && c.i1 < NUM && c.i2 < NUM && h != c.i1 && h != c.i2 && c.i1 != c.i2
      && owner[h] == owner[c.i1] == owner[c.i2] == h
    }

    /** The chain says what its request is. */
    ghost predicate Formatted(h: nat)
      requires Shaped() && h in chains && h < NUM && OwnsThree(h)
    {
      var c := chains[h];
      && c.b < |bufs| && bufs[c.b].blockno < |media| && info[h].b == c.b && bufs[c.b].disk == !c.phase.Seen?
      && ops[h] == Req(c.write, bufs[c.b].blockno * 2)
      && desc[h] == Desc(OpAt(h), 16, F_NEXT, c.i1)
      && desc[c.i1] == Desc(DataOf(c.b), BSIZE, (if c.write then 0 else F_WRITE) + F_NEXT, c.i2)
      && desc[c.i2] == Desc(StatusAt(h), 1, F_WRITE, 0)
    }

    ghost predicate PhaseOk(h: nat)
      requires Shaped() && h in chains
    {
      && (h in pending <==> chains[h].phase.Posted?) && (h in finished <==> chains[h].phase.Done?)
      && match chains[h].phase
         case Posted(k) => taken <= k < posted && avail[Slot(k)] == h
         case Done(k) => seen <= k < done && used[Slot(k)] == h
         case Seen => h < NUM && info[h].status == 0
         case _ => true
    }

    /** Once the device is done, the block that was transferred is the one in the buffer. */
    ghost predicate ResultOk(h: nat)
      requires h in chains
    {
      var c := chains[h];
      && c.id < nextId && (c.id in results <==> c.phase.Done? || c.phase.Seen?)
      && (c.id in results ==> c.b < |bufs| && results[c.id] == bufs[c.b].data)
    }

    /** Requests in flight have buffers of their own. */
    ghost predicate Apart(h: nat, g: nat) {
      h in chains && g in chains && h != g ==> chains[h].b != chains[g].b && chains[h].id != chains[g].id
    }

    ghost predicate AvailOk(k: nat)
      requires Shaped()
    {
      taken <= k < posted ==> avail[Slot(k)] in chains && chains[avail[Slot(k)]].phase == Posted(k)
    }

    ghost predicate UsedOk(k: nat)
      requires Shaped()
    {
      seen <= k < done ==> used[Slot(k)] in chains && chains[used[Slot(k)]].phase == Done(k)
    }

    ghost predicate Inv() {
      && Shaped() && pending <= chains.Keys && finished <= chains.Keys
      && (forall i {:trigger DescOk(i)} :: DescOk(i))
      && (forall h {:trigger ChainOk(h)} :: ChainOk(h))
      && (forall h, g {:trigger Apart(h, g)} :: Apart(h, g))
      && (forall k {:trigger AvailOk(k)} :: AvailOk(k))
      && (forall k {:trigger UsedOk(k)} :: UsedOk(k))
      && (forall id | id in results :: id < nextId)
    }
  }

  /** Ring positions less than NUM apart are different. */
  lemma RingApart(j: nat, k: nat)
    requires j < k < j + NUM
    ensures Slot(j) != Slot(k)
  {
  }

  /** The 16-bit index and the entry number select the same slot, since NUM divides WRAP. */
  lemma WrapSlot(k: nat)
    ensures k % WRAP % NUM == Slot(k)
  {
    var q := k / WRAP;
    assert k == NUM * (8192 * q) + k % WRAP;
    ModShift(8192 * q, k % WRAP);
  }

  lemma ModShift(q: nat, x: nat)
    ensures (NUM * q + x) % NUM == x % NUM
  {
  }

  lemma WrapStep(k: nat)
    ensures (k % WRAP + 1) % WRAP == (k + 1) % WRAP
  {
  }

  /** Indices less than WRAP apart are equal exactly if their 16-bit forms are. */
  lemma WrapEqual(j: nat, k: nat)
    requires j <= k < j + WRAP
    ensures j % WRAP == k % WRAP <==> j == k
  {
  }

  /** Few requests are in flight: a ring never fills up. */
  lemma RoomInRings(q: Queue, h: nat)
    requires q.Inv() && h < NUM
    ensures q.posted - q.taken <= NUM && (h !in q.pending ==> q.posted - q.taken < NUM)
    ensures q.done - q.seen <= NUM && (h !in q.finished ==> q.done - q.seen < NUM)
  {
    hide Queue.DescOk, Queue.Apart, Queue.AvailOk, Queue.UsedOk;
    forall g | g in q.chains ensures g < NUM {
      assert q.ChainOk(g);
    }
    AtMostNum(q.pending, h);
    AtMostNum(q.finished, h);
  }

  lemma AtMostNum(s: set<nat>, h: nat)
    requires h < NUM && forall i | i in s :: i < NUM
    ensures |s| <= NUM && (h !in s ==> |s| < NUM)
  {
    var all: set<nat> := {0, 1, 2, 3, 4, 5, 6, 7};
    assert |all| == NUM;
    SubsetSize(s, all);
    if h !in s {
      SubsetSize(s, all - {h});
    }
  }

  // ---------- What each action does ----------

  /** The descriptors in s are taken out of the free ones. */
  ghost function Grabbed(q: Queue, s: set<nat>): Queue
    requires q.Shaped()
  {
    q.(free := seq(NUM, i requires 0 <= i < NUM => q.free[i] && i !in s),
       owner := seq(NUM, i requires 0 <= i < NUM => if i in s then LOOSE else q.owner[i]))
  }

  ghost predicate AllFree(q: Queue, s: set<nat>)
    requires q.Shaped()
  {
    forall i | i in s :: i < NUM && q.free[i]
  }

  lemma GrabKeeps(q: Queue, s: set<nat>)
    requires q.Inv() && AllFree(q, s)
    ensures Grabbed(q, s).Inv()
  {
    hide Slot;
    var q' := Grabbed(q, s);
    forall j: nat ensures q'.DescOk(j) { assert q.DescOk(j); }
    forall h: nat ensures q'.ChainOk(h) {
      assert q.ChainOk(h);
      if h in q.chains {
        assert q.DescOk(h) && q.DescOk(q.chains[h].i1) && q.DescOk(q.chains[h].i2);
      }
    }
    forall h: nat, g: nat ensures q'.Apart(h, g) { assert q.Apart(h, g); }
    forall k: nat ensures q'.AvailOk(k) { assert q.AvailOk(k); }
    forall k: nat ensures q'.UsedOk(k) { assert q.UsedOk(k); }
  }

  lemma GrabNone(q: Queue)
    requires q.Shaped()
    ensures Grabbed(q, {}) == q
  {
    assert Grabbed(q, {}).free == q.free && Grabbed(q, {}).owner == q.owner;
  }

  lemma GrabOne(q: Queue, s: set<nat>, i: nat)
    requires q.Shaped() && i < NUM
    ensures Grabbed(q, s).(free := Grabbed(q, s).free[i := false], owner := Grabbed(q, s).owner[i := LOOSE])
            == Grabbed(q, s + {i})
  {
    assert Grabbed(q, s).free[i := false] == Grabbed(q, s + {i}).free;
    assert Grabbed(q, s).owner[i := LOOSE] == Grabbed(q, s + {i}).owner;
  }

  /** Giving back what was taken leaves no trace. */
  lemma DropGrabbed(q: Queue, s: set<nat>, i: nat)
    requires q.Inv() && AllFree(q, s) && i in s
    ensures Dropped(Grabbed(q, s), i) == Grabbed(q, s - {i})
  {
    assert q.DescOk(i);
    assert Grabbed(q, s).free[i := true] == Grabbed(q, s - {i}).free;
    assert Grabbed(q, s).owner[i := FREE] == Grabbed(q, s - {i}).owner;
  }

  ghost function Dropped(q: Queue, i: nat): Queue
    requires q.Shaped() && i < NUM
  {
    q.(free := q.free[i := true], owner := q.owner[i := FREE], desc := q.desc[i := BLANK])
  }

  lemma DropKeeps(q: Queue, i: nat)
    requires q.Inv() && i < NUM && q.owner[i] == LOOSE
    ensures Dropped(q, i).Inv()
  {
    hide Slot;
    var q' := Dropped(q, i);
    forall j: nat ensures q'.DescOk(j) { assert q.DescOk(j); }
    forall h: nat ensures q'.ChainOk(h) { assert q.ChainOk(h); }
    forall h: nat, g: nat ensures q'.Apart(h, g) { assert q.Apart(h, g); }
    forall k: nat ensures q'.AvailOk(k) { assert q.AvailOk(k); }
    forall k: nat ensures q'.UsedOk(k) { assert q.UsedOk(k); }
  }

  /** The buffer takes part in no request. */
  ghost predicate Idle(q: Queue, b: nat) {
    b < |q.bufs| && q.bufs[b].blockno < |q.media| && forall h | h in q.chains :: q.chains[h].b != b
  }

  /** The three descriptors become a chain for a request on buffer b. */
  ghost function Chained(q: Queue, h: nat, i1: nat, i2: nat, b: nat, write: bool): Queue
    requires q.Shaped() && h < NUM && i1 < NUM && i2 < NUM && b < |q.bufs|
  {
    q.(desc := q.desc[h := Desc(OpAt(h), 16, F_NEXT, i1)]
                     [i1 := Desc(DataOf(b), BSIZE, (if write then 0 else F_WRITE) + F_NEXT, i2)]
                     [i2 := Desc(StatusAt(h), 1, F_WRITE, 0)],
       ops := q.ops[h := Req(write, q.bufs[b].blockno * 2)], info := q.info[h := Info(b, 0xff)],
       bufs := q.bufs[b := q.bufs[b].(disk := true)],
       owner := q.owner[h := h][i1 := h][i2 := h], chains := q.chains[h := Chain(i1, i2, b, write, q.nextId, Made)],
       nextId := q.nextId + 1)
  }

  ghost predicate ThreeLoose(q: Queue, h: nat, i1: nat, i2: nat) {
    && q.Shaped() && h < NUM && i1 < NUM && i2 < NUM && h != i1 && h != i2 && i1 != i2
    && q.owner[h] == q.owner[i1] == q.owner[i2] == LOOSE
  }

  lemma ChainKeeps(q: Queue, h: nat, i1: nat, i2: nat, b: nat, write: bool)
    requires q.Inv() && ThreeLoose(q, h, i1, i2) && Idle(q, b)
    ensures h !in q.chains && Chained(q, h, i1, i2, b, write).Inv()
  {
    hide Slot, Queue.ChainOk;
    var q' := Chained(q, h, i1, i2, b, write);
    ChainedChain(q, h, i1, i2, b, write, h);
    forall j: nat ensures q'.DescOk(j) { assert q.DescOk(j); }
    forall g: nat ensures q'.ChainOk(g) { ChainedChain(q, h, i1, i2, b, write, g); }
    forall h: nat, g: nat ensures q'.Apart(h, g) { assert q.Apart(h, g); IdBound(q, h); IdBound(q, g); }
    forall k: nat ensures q'.AvailOk(k) { assert q.AvailOk(k); }
    forall k: nat ensures q'.UsedOk(k) { assert q.UsedOk(k); }
  }

  lemma IdBound(q: Queue, h: nat)
    requires q.Inv()
    ensures h in q.chains ==> q.chains[h].id < q.nextId
  {
    assert q.ChainOk(h);
  }

  lemma ChainedChain(q: Queue, h: nat, i1: nat, i2: nat, b: nat, write: bool, g: nat)
    requires q.Inv() && ThreeLoose(q, h, i1, i2) && Idle(q, b)
    ensures h !in q.chains && Chained(q, h, i1, i2, b, write).ChainOk(g)
  {
    hide Slot, Queue.DescOk, Queue.Apart, Queue.AvailOk, Queue.UsedOk;
    assert q.ChainOk(h) && q.ChainOk(g);
  }

  ghost function SetPhase(q: Queue, h: nat, p: Phase): map<nat, Chain>
    requires h in q.chains
  {
    q.chains[h := q.chains[h].(phase := p)]
  }

  /** The chain is entered in the available ring, and the index moves past it. */
  ghost function Published(q: Queue, h: nat): Queue
    requires q.Shaped() && h in q.chains
  {
    q.(avail := q.avail[Slot(q.posted) := h], posted := q.posted + 1, pending := q.pending + {h},
       chains := SetPhase(q, h, Posted(q.posted)))
  }

  lemma PublishKeeps(q: Queue, h: nat)
    requires q.Inv() && h in q.chains && q.chains[h].phase.Made?
    ensures Published(q, h).Inv()
  {
    hide Slot, Queue.ChainOk;
    var q' := Published(q, h);
    PublishedChain(q, h, h);
    forall j: nat ensures q'.DescOk(j) { assert q.DescOk(j); }
    forall g: nat ensures q'.ChainOk(g) { PublishedChain(q, h, g); }
    forall h: nat, g: nat ensures q'.Apart(h, g) { assert q.Apart(h, g); }
    forall k: nat ensures q'.AvailOk(k) {
      assert q.AvailOk(k);
      if q.taken <= k < q.posted {
        RingApart(k, q.posted);
      }
    }
    forall k: nat ensures q'.UsedOk(k) { assert q.UsedOk(k); }
  }

  lemma PublishedChain(q: Queue, h: nat, g: nat)
    requires q.Inv() && h in q.chains && q.chains[h].phase.Made?
    ensures h !in q.pending && q.posted - q.taken < NUM && |Published(q, h).pending| == |q.pending| + 1
            && Published(q, h).ChainOk(g)
  {
    hide Slot, Queue.DescOk, Queue.AvailOk, Queue.UsedOk;
    assert q.ChainOk(h) && q.ChainOk(g);
    RoomInRings(q, h);
    if g in q.chains && q.chains[g].phase.Posted? {
      RingApart(q.chains[g].phase.k, q.posted);
    }
  }

  /** The device takes the oldest entry of the available ring. */
  ghost function TakenOff(q: Queue): Queue
    requires q.Shaped() && q.avail[Slot(q.taken)] in q.chains
  {
    var h := q.avail[Slot(q.taken)];
    q.(taken := q.taken + 1, pending := q.pending - {h}, chains := SetPhase(q, h, Taken))
  }

  lemma TakeKeeps(q: Queue)
    requires q.Inv() && q.taken < q.posted
    ensures q.avail[Slot(q.taken)] in q.chains && q.chains[q.avail[Slot(q.taken)]].phase == Posted(q.taken)
            && TakenOff(q).Inv()
  {
    hide Slot;
    var h := q.avail[Slot(q.taken)];
    assert q.AvailOk(q.taken) && q.ChainOk(h);
    var q' := TakenOff(q);
    forall j: nat ensures q'.DescOk(j) { assert q.DescOk(j); }
    forall g: nat ensures q'.ChainOk(g) { assert q.ChainOk(g); }
    forall h: nat, g: nat ensures q'.Apart(h, g) { assert q.Apart(h, g); }
    forall k: nat ensures q'.AvailOk(k) { assert q.AvailOk(k); }
    forall k: nat ensures q'.UsedOk(k) { assert q.UsedOk(k); }
  }

  ghost predicate CanServe(q: Queue, h: nat) {
    && h in q.chains && q.chains[h].phase.Taken? && h < NUM && q.chains[h].b < |q.bufs|
    && q.bufs[q.chains[h].b].blockno < |q.media|
  }

  /** The device carries out the request of chain h, or fails to and says so in the status byte, and enters
      it in the used ring. */
  ghost function Served(q: Queue, h: nat, status: nat): Queue
    requires q.Shaped() && h in q.chains && h < NUM && q.chains[h].b < |q.bufs|
             && q.bufs[q.chains[h].b].blockno < |q.media|
  {
    var c := q.chains[h];
    var b := q.bufs[c.b];
    var block := if c.write || status != 0 then b.data else q.media[b.blockno];
    q.(media := if status == 0 then q.media[b.blockno := block] else q.media, bufs := q.bufs[c.b := b.(data := block)],
       info := q.info[h := q.info[h].(status := status)],
       used := q.used[Slot(q.done) := h], done := q.done + 1, finished := q.finished + {h},
       chains := SetPhase(q, h, Done(q.done)), results := q.results[c.id := block])
  }

  lemma ServeKeeps(q: Queue, h: nat, status: nat)
    requires q.Inv() && h in q.chains && q.chains[h].phase.Taken?
    ensures CanServe(q, h) && q.chains[h].id !in q.results && Served(q, h, status).Inv()
  {
    assert q.ChainOk(h);
    var q' := Served(q, h, status);
    ServedChain(q, h, status, h);
    hide Slot, Queue.ChainOk, Queue.DescOk, Queue.Apart, Queue.AvailOk, Queue.UsedOk;
    forall j: nat ensures q'.DescOk(j) { ServedDesc(q, h, status, j); }
    forall g: nat ensures q'.ChainOk(g) { ServedChain(q, h, status, g); }
    forall g: nat, g': nat ensures q'.Apart(g, g') { ServedApart(q, h, status, g, g'); }
    forall k: nat ensures q'.AvailOk(k) { ServedRings(q, h, status, k); }
    forall k: nat ensures q'.UsedOk(k) { ServedRings(q, h, status, k); }
  }

  lemma ServedDesc(q: Queue, h: nat, status: nat, j: nat)
    requires q.Inv() && CanServe(q, h)
    ensures |Served(q, h, status).finished| == |q.finished| + 1 && Served(q, h, status).DescOk(j)
  {
    ServedChain(q, h, status, h);
    assert q.DescOk(j);
  }

  lemma ServedApart(q: Queue, h: nat, status: nat, g: nat, g': nat)
    requires q.Inv() && CanServe(q, h)
    ensures Served(q, h, status).Apart(g, g')
  {
    assert q.Apart(g, g');
  }

  lemma ServedRings(q: Queue, h: nat, status: nat, k: nat)
    requires q.Inv() && CanServe(q, h)
    ensures |Served(q, h, status).finished| == |q.finished| + 1 && Served(q, h, status).AvailOk(k)
            && Served(q, h, status).UsedOk(k)
  {
    ServedChain(q, h, status, h);
    RoomInRings(q, h);
    assert q.ChainOk(h) && q.AvailOk(k) && q.UsedOk(k);
    hide Slot, Queue.Inv;
    if q.seen <= k < q.done {
      RingApart(k, q.done);
    }
  }

  lemma ServedChain(q: Queue, h: nat, status: nat, g: nat)
    requires q.Inv() && CanServe(q, h)
    ensures |Served(q, h, status).finished| == |q.finished| + 1 && Served(q, h, status).ChainOk(g)
  {
    assert q.ChainOk(h) && q.ChainOk(g) && q.Apart(h, g);
    RoomInRings(q, h);
    assert h !in q.finished;
    hide Queue.Inv;
    if g == h {
      ServedOwn(q, h, status);
    } else {
      ServedOther(q, h, status, g);
    }
  }

  lemma ServedOwn(q: Queue, h: nat, status: nat)
    requires q.Shaped() && CanServe(q, h) && q.ChainOk(h) && h !in q.finished
    ensures Served(q, h, status).Shaped() && Served(q, h, status).ChainOk(h)
  {
  }

  lemma ServedOther(q: Queue, h: nat, status: nat, g: nat)
    requires q.Shaped() && CanServe(q, h) && q.ChainOk(g) && q.Apart(h, g) && g != h && h !in q.finished
    requires q.done - q.seen < NUM
    ensures Served(q, h, status).Shaped() && Served(q, h, status).ChainOk(g)
  {
    hide Slot;
    var q' := Served(q, h, status);
    assert q'.Shaped();
    if g in q.chains {
      var c := q.chains[g];
      if c.phase.Done? {
        RingApart(c.phase.k, q.done);
        assert q'.used[Slot(c.phase.k)] == q.used[Slot(c.phase.k)];
      }
      assert q'.chains[g] == c && q'.bufs[c.b] == q.bufs[c.b] && q'.info[g] == q.info[g];
      assert q'.owner == q.owner && q'.desc == q.desc && q'.ops == q.ops && |q'.media| == |q.media|;
      assert q'.OwnsThree(g);
      assert q'.Formatted(g);
      assert q'.PhaseOk(g);
      assert q'.ResultOk(g);
    }
  }

  /** The driver looks at the oldest entry of the used ring. */
  ghost function SeenOff(q: Queue): Queue
    requires q.Shaped() && q.used[Slot(q.seen)] in q.chains && q.chains[q.used[Slot(q.seen)]].b < |q.bufs|
  {
    var h := q.used[Slot(q.seen)];
    q.(seen := q.seen + 1, finished := q.finished - {h}, chains := SetPhase(q, h, Seen),
       bufs := q.bufs[q.chains[h].b := q.bufs[q.chains[h].b].(disk := false)])
  }

  lemma SeeKeeps(q: Queue)
    requires q.Inv() && q.seen < q.done
    ensures var h := q.used[Slot(q.seen)];
            && h in q.chains && h < NUM && q.chains[h].phase == Done(q.seen) && q.chains[h].b < |q.bufs|
            && q.info[h].b == q.chains[h].b && (q.info[h].status == 0 ==> SeenOff(q).Inv())
  {
    hide Slot;
    var h := q.used[Slot(q.seen)];
    assert q.UsedOk(q.seen) && q.ChainOk(h);
    var q' := SeenOff(q);
    forall j: nat ensures q'.DescOk(j) { assert q.DescOk(j); }
    forall g: nat ensures q.info[h].status == 0 ==> q'.ChainOk(g) { assert q.ChainOk(g) && q.Apart(h, g); }
    forall h: nat, g: nat ensures q'.Apart(h, g) { assert q.Apart(h, g); }
    forall k: nat ensures q'.AvailOk(k) { assert q.AvailOk(k); }
    forall k: nat ensures q'.UsedOk(k) { assert q.UsedOk(k); }
  }

  /** A finished request gives its descriptors back to the driver. */
  ghost function Unchained(q: Queue, h: nat): Queue
    requires q.Shaped() && h in q.chains && h < NUM && q.chains[h].i1 < NUM && q.chains[h].i2 < NUM
  {
    q.(info := q.info[h := q.info[h].(b := 0)], chains := q.chains - {h},
       owner := q.owner[h := LOOSE][q.chains[h].i1 := LOOSE][q.chains[h].i2 := LOOSE])
  }

  lemma UnchainKeeps(q: Queue, h: nat)
    requires q.Inv() && h in q.chains && q.chains[h].phase.Seen?
    ensures h < NUM && q.chains[h].i1 < NUM && q.chains[h].i2 < NUM && Unchained(q, h).Inv()
    ensures ThreeLoose(Unchained(q, h), h, q.chains[h].i1, q.chains[h].i2)
  {
    hide Slot;
    assert q.ChainOk(h);
    var q' := Unchained(q, h);
    forall j: nat ensures q'.DescOk(j) { assert q.DescOk(j); }
    forall g: nat ensures q'.ChainOk(g) { assert q.ChainOk(g); }
    forall h: nat, g: nat ensures q'.Apart(h, g) { assert q.Apart(h, g); }
    forall k: nat ensures q'.AvailOk(k) { assert q.AvailOk(k); }
    forall k: nat ensures q'.UsedOk(k) { assert q.UsedOk(k); }
  }

  /** A buffer that is in no request gets other contents, or is given to another block. */
  ghost function Filled(q: Queue, b: nat, blockno: nat, data: Block): Queue
    requires b < |q.bufs|
  {
    q.(bufs := q.bufs[b := q.bufs[b].(blockno := blockno, data := data)])
  }

  lemma FillKeeps(q: Queue, b: nat, blockno: nat, data: Block)
    requires q.Inv() && Idle(q, b)
    ensures Filled(q, b, blockno, data).Inv()
  {
    hide Slot;
    var q' := Filled(q, b, blockno, data);
    forall j: nat ensures q'.DescOk(j) { assert q.DescOk(j); }
    forall g: nat ensures q'.ChainOk(g) { assert q.ChainOk(g); }
    forall h: nat, g: nat ensures q'.Apart(h, g) { assert q.Apart(h, g); }
    forall k: nat ensures q'.AvailOk(k) { assert q.AvailOk(k); }
    forall k: nat ensures q'.UsedOk(k) { assert q.UsedOk(k); }
  }

  // ---------- All runs ----------

  datatype Act =
    | Grab(s: set<nat>) | Drop(i: nat) | Chain3(h: nat, i1: nat, i2: nat, b: nat, write: bool) | Publish(h: nat)
    | Take | Serve(h: nat, status: nat) | See | Unchain(h: nat) | Fill(b: nat, blockno: nat, data: Block)

  /** One action of the driver or of the device, or of whoever owns a buffer that is not in a request. */
  ghost predicate Step(q: Queue, q': Queue, act: Act) {
    && q.Shaped()
    && match act
       case Grab(s) => AllFree(q, s) && q' == Grabbed(q, s)
       case Drop(i) => i < NUM && q.owner[i] == LOOSE && q' == Dropped(q, i)
       case Chain3(h, i1, i2, b, write) =>
         ThreeLoose(q, h, i1, i2) && Idle(q, b) && q' == Chained(q, h, i1, i2, b, write)
       case Publish(h) => h in q.chains && q.chains[h].phase.Made? && q' == Published(q, h)
       case Take => q.taken < q.posted && q.avail[Slot(q.taken)] in q.chains && q' == TakenOff(q)
       case Serve(h, status) => CanServe(q, h) && q' == Served(q, h, status)
       case See => q.seen < q.done && CanSee(q) && q' == SeenOff(q)
       case Unchain(h) => CanUnchain(q, h) && q' == Unchained(q, h)
       case Fill(b, blockno, data) => Idle(q, b) && q' == Filled(q, b, blockno, data)
  }

  ghost predicate CanSee(q: Queue)
    requires q.Shaped()
  {
    var h := q.used[Slot(q.seen)];
    h in q.chains && q.chains[h].b < |q.bufs| && h < NUM && q.info[h].status == 0
  }

  ghost predicate CanUnchain(q: Queue, h: nat) {
    h in q.chains && q.chains[h].phase.Seen? && h < NUM && q.chains[h].i1 < NUM && q.chains[h].i2 < NUM
  }

  lemma StepKeeps(q: Queue, q': Queue, act: Act)
    requires q.Inv() && Step(q, q', act)
    ensures q'.Inv() && q.results.Keys <= q'.results.Keys
    ensures act.Serve? ==> q.chains[act.h].id !in q.results && q.chains[act.h].id in q'.results
  {
    hide Queue.Inv;
    match act {
      case Grab(s) => GrabKeeps(q, s);
      case Drop(i) => DropKeeps(q, i);
      case Chain3(h, i1, i2, b, write) => ChainKeeps(q, h, i1, i2, b, write);
      case Publish(h) => PublishKeeps(q, h);
      case Take => TakeKeeps(q);
      case Serve(h, status) => ServeKeeps(q, h, status);
      case See => SeeKeeps(q);
      case Unchain(h) => UnchainKeeps(q, h);
      case Fill(b, blockno, data) => FillKeeps(q, b, blockno, data);
    }
  }

  ghost predicate StepAt(run: seq<Queue>, acts: seq<Act>, i: nat) {
    i + 1 < |run| && i < |acts| && Step(run[i], run[i + 1], acts[i])
  }

  /** At the start every descriptor is free and blank, and the rings are empty. */
  ghost predicate Init(q: Queue) {
    && q.Shaped() && q.posted == q.taken == q.done == q.seen == 0 && q.chains == map[] && q.pending == {} == q.finished
    && q.results == map[]
    && forall i | 0 <= i < NUM :: q.free[i] && q.owner[i] == FREE && q.desc[i] == BLANK
  }

  ghost predicate IsRun(run: seq<Queue>, acts: seq<Act>) {
    && |run| == |acts| + 1 && Init(run[0])
    && forall i {:trigger StepAt(run, acts, i)} | 0 <= i < |acts| :: StepAt(run, acts, i)
  }

  lemma InitInv(q: Queue)
    requires Init(q)
    ensures q.Inv()
  {
    forall j: nat ensures q.DescOk(j) { }
    forall h: nat ensures q.ChainOk(h) { }
    forall h: nat, g: nat ensures q.Apart(h, g) { }
    forall k: nat ensures q.AvailOk(k) { }
    forall k: nat ensures q.UsedOk(k) { }
  }

  lemma {:induction false} RunInv(run: seq<Queue>, acts: seq<Act>, i: nat, j: nat)
    requires IsRun(run, acts) && i <= j < |run|
    ensures run[j].Inv() && run[i].results.Keys <= run[j].results.Keys
  {
    hide Queue.Inv, Step, Init;
    if j == 0 {
      InitInv(run[0]);
    } else {
      RunInv(run, acts, if i < j then i else j - 1, j - 1);
      assert StepAt(run, acts, j - 1);
      StepKeeps(run[j - 1], run[j], acts[j - 1]);
    }
  }

  /** At all times the descriptors are divided among the free ones, those in the driver's hands, and the
      chains of requests in flight, three each. */
  lemma Partition(run: seq<Queue>, acts: seq<Act>, j: nat, i: nat)
    requires IsRun(run, acts) && j < |run| && i < NUM
    ensures run[j].Shaped()
    ensures run[j].free[i] <==> run[j].owner[i] == FREE
    ensures run[j].owner[i] != FREE && run[j].owner[i] != LOOSE ==>
              run[j].owner[i] in run[j].chains && run[j].Member(run[j].owner[i], i)
    ensures forall h | h in run[j].chains && run[j].Member(h, i) :: run[j].owner[i] == h
  {
    RunInv(run, acts, j, j);
    assert run[j].DescOk(i);
    forall h | h in run[j].chains && run[j].Member(h, i) ensures run[j].owner[i] == h {
      assert run[j].ChainOk(h);
    }
  }

  /** The device carries out every request at most once. */
  lemma ServedOnce(run: seq<Queue>, acts: seq<Act>, i: nat, j: nat)
    requires IsRun(run, acts) && i < j < |acts| && acts[i].Serve? && acts[j].Serve?
    requires acts[i].h in run[i].chains && acts[j].h in run[j].chains
    ensures run[i].chains[acts[i].h].id != run[j].chains[acts[j].h].id
  {
    hide Queue.Inv, Step, Init;
    RunInv(run, acts, i, i);
    RunInv(run, acts, i + 1, j);
    assert StepAt(run, acts, i) && StepAt(run, acts, j);
    StepKeeps(run[i], run[i + 1], acts[i]);
    StepKeeps(run[j], run[j + 1], acts[j]);
  }

  /** A request whose buffer is released has been carried out, with that buffer: the block that went to
      or came from the disk is the one the buffer holds. */
  lemma FinishedWasServed(run: seq<Queue>, acts: seq<Act>, j: nat, h: nat)
    requires IsRun(run, acts) && j < |run| && h in run[j].chains
    requires run[j].chains[h].b < |run[j].bufs| && !run[j].bufs[run[j].chains[h].b].disk
    ensures var c := run[j].chains[h];
            && c.phase.Seen? && c.id in run[j].results && run[j].results[c.id] == run[j].bufs[c.b].data
            && run[j].Shaped() && h < NUM && run[j].info[h].status == 0
  {
    RunInv(run, acts, j, j);
    assert run[j].ChainOk(h);
  }

  // ---------- The driver and the device ----------

  class Disk {
    const free: array<bool>
    const desc: array<Desc>
    const info: array<Info>
    const ops: array<Req>
    const bufs: array<Buf>
    const media: array<Block>
    const avail: array<nat>
    const used: array<nat>
    var availIdx: Index   // avail->idx
    var takenIdx: Index   // how far the device has read the available ring
    var usedIdx: Index    // used->idx
    var seenIdx: Index    // used_idx
    ghost var q: Queue

    ghost predicate Valid()
      reads this, free, desc, info, ops, bufs, media, avail, used
    {
      && avail != used && q.Inv()
      && free[..] == q.free && desc[..] == q.desc && info[..] == q.info && ops[..] == q.ops && bufs[..] == q.bufs
      && media[..] == q.media
      && avail[..] == q.avail && used[..] == q.used
      && availIdx == q.posted % WRAP && takenIdx == q.taken % WRAP && usedIdx == q.done % WRAP
      && seenIdx == q.seen % WRAP
    }

    /** The end of virtio_disk_init: all descriptors are unused. */
    constructor (bufs: array<Buf>, media: array<Block>)
      ensures Valid() && Init(q) && this.bufs == bufs && this.media == media
    {
      this.bufs, this.media := bufs, media;
      free := new bool[NUM](_ => true);
      desc := new Desc[NUM](_ => BLANK);
      info := new Info[NUM](_ => Info(0, 0));
      ops := new Req[NUM](_ => Req(false, 0));
      avail := new nat[NUM](_ => 0);
      used := new nat[NUM](_ => 0);
      availIdx, takenIdx, usedIdx, seenIdx := 0, 0, 0, 0;
      new;
      q := Queue(free[..], desc[..], info[..], ops[..], bufs[..], media[..], avail[..], used[..], 0, 0, 0, 0,
                 seq(NUM, _ => FREE), map[], {}, {}, map[], 0);
      InitInv(q);
    }

    /** alloc_desc: the first free descriptor, or -1. */
    method AllocDesc(ghost q0: Queue, ghost s: set<nat>) returns (i: int)
      requires Valid() && q0.Inv() && AllFree(q0, s) && q == Grabbed(q0, s)
      modifies this`q, free
      ensures Valid() && -1 <= i < NUM
      ensures i >= 0 ==>
                q0.free[i] && i !in s && q == Grabbed(q0, s + {i}) && forall k | 0 <= k < i && k !in s :: !q0.free[k]
      ensures i < 0 ==> q == old(q) && forall k | 0 <= k < NUM && k !in s :: !q0.free[k]
    {
      hide Queue.Inv;
      i := 0;
      assert q.Shaped() && q0.Shaped() by { InvShaped(q); InvShaped(q0); }
      while i < NUM
        invariant 0 <= i <= NUM && Valid() && q == old(q) && forall k | 0 <= k < i && k !in s :: !q0.free[k]
      {
        if free[i] {
          GrabOne(q0, s, i);
          GrabKeeps(q0, s + {i});
          free[i] := false;
          q := Grabbed(q0, s + {i});
          return;
        }
        i := i + 1;
      }
      return -1;
    }

    /** free_desc; neither of its panics can happen to a descriptor in the driver's hands. */
    method FreeDesc(i: nat)
      requires Valid() && i < NUM && q.owner[i] == LOOSE
      modifies this`q, free, desc
      ensures Valid() && q == Dropped(old(q), i) && Step(old(q), q, Drop(i))
    {
      hide Queue.Inv;
      InvShaped(q);
      LooseNotFree(q, i);
      if i >= NUM || free[i] {
        assert false;  // panic
      }
      DropKeeps(q, i);
      desc[i] := BLANK;
      free[i] := true;
      q := Dropped(q, i);
    }

    /** alloc3_desc: three descriptors, or nothing has changed and there are fewer than three to be had. */
    method Alloc3() returns (ok: bool, idx: seq<nat>)
      requires Valid()
      modifies this`q, free, desc
      ensures Valid()
              && (ok ==> |idx| == 3 && ThreeLoose(q, idx[0], idx[1], idx[2]) && q == Grabbed(old(q), Elems(idx)))
      ensures ok ==> AllFree(old(q), Elems(idx)) && Step(old(q), q, Grab(Elems(idx)))
      ensures !ok ==> q == old(q) && |idx| < 3 && forall k | 0 <= k < NUM && q.free[k] :: k in idx
    {
      hide Queue.Inv, Grabbed, Dropped, Elems;
      ghost var q0 := q;
      InvShaped(q);
      idx := [];
      ElemsNone();
      GrabNone(q);
      while |idx| < 3
        invariant Valid() && |idx| <= 3 && AllFree(q0, Elems(idx)) && q == Grabbed(q0, Elems(idx)) && NoRepeats(idx)
        decreases 3 - |idx|
      {
        var i := AllocDesc(q0, Elems(idx));
        ElemsIn(idx);
        if i < 0 {
          Undo(idx, q0);
          return false, idx;
        }
        ElemsMore(idx, i);
        idx := idx + [i];
      }
      ElemsIn(idx);
      GrabbedThree(q0, idx);
      return true, idx;
    }

    /** The inner loop of alloc3_desc gives back the descriptors that were found. */
    method Undo(idx: seq<nat>, ghost q0: Queue)
      requires Valid() && q0.Inv() && AllFree(q0, Elems(idx)) && q == Grabbed(q0, Elems(idx)) && NoRepeats(idx)
      modifies this`q, free, desc
      ensures Valid() && q == q0
    {
      hide Queue.Inv, Grabbed, Dropped, Elems;
      InvShaped(q0);
      assert idx[0..] == idx;
      for j := 0 to |idx|
        invariant Valid() && AllFree(q0, Elems(idx[j..])) && q == Grabbed(q0, Elems(idx[j..]))
      {
        ElemsIn(idx[j..]);
        ElemsFirst(idx[j..]);
        assert idx[j..][0] == idx[j] && idx[j..][1..] == idx[j + 1..];
        DropGrabbed(q0, Elems(idx[j..]), idx[j]);
        GrabbedLoose(q0, Elems(idx[j..]), idx[j]);
        FreeDesc(idx[j]);
      }
      assert idx[|idx|..] == [];
      ElemsNone();
      GrabNone(q0);
    }

    /** The part of virtio_disk_rw that fills in the three descriptors. */
    method FormatDescs(h: nat, i1: nat, i2: nat, b: nat, write: bool)
      requires desc.Length == NUM && h < NUM && i1 < NUM && i2 < NUM && h != i1 && h != i2 && i1 != i2
      modifies desc
      ensures desc[..] == old(desc[..])[h := Desc(OpAt(h), 16, F_NEXT, i1)]
                                       [i1 := Desc(DataOf(b), BSIZE, (if write then 0 else F_WRITE) + F_NEXT, i2)]
                                       [i2 := Desc(StatusAt(h), 1, F_WRITE, 0)]
    {
      desc[h] := Desc(OpAt(h), 16, F_NEXT, i1);
      desc[i1] := Desc(DataOf(b), BSIZE, if write then 0 else F_WRITE, i2);
      desc[i1] := desc[i1].(flags := desc[i1].flags + F_NEXT);
      desc[i2] := Desc(StatusAt(h), 1, F_WRITE, 0);
    }

    /** The request header, the descriptors, and the record of the buffer for the interrupt handler. */
    method Format(h: nat, i1: nat, i2: nat, b: nat, write: bool)
      requires Valid() && ThreeLoose(q, h, i1, i2) && Idle(q, b)
      modifies this`q, desc, ops, info, bufs
      ensures Valid() && q == Chained(old(q), h, i1, i2, b, write) && Step(old(q), q, Chain3(h, i1, i2, b, write))
    {
      hide Queue.Inv;
      InvShaped(q);
      ChainKeeps(q, h, i1, i2, b, write);
      ops[h] := Req(write, bufs[b].blockno * 2);
      FormatDescs(h, i1, i2, b, write);
      bufs[b] := bufs[b].(disk := true);
      info[h] := Info(b, 0xff);
      q := Chained(q, h, i1, i2, b, write);
    }

    /** The ring entry is written, and then the index: the device may look in between. */
    method PublishChain(h: nat)
      requires Valid() && h in q.chains && q.chains[h].phase.Made?
      modifies this`q, this`availIdx, avail
      ensures Valid() && q == Published(old(q), h) && Step(old(q), q, Publish(h))
    {
      hide Queue.Inv;
      InvShaped(q);
      PublishKeeps(q, h);
      WrapSlot(q.posted);
      WrapStep(q.posted);
      avail[availIdx % NUM] := h;
      availIdx := (availIdx + 1) % WRAP;
      q := Published(q, h);
    }

    /** virtio_disk_rw up to the wait for the device; without descriptors the caller sleeps and tries
        again. */
    method Submit(b: nat, write: bool) returns (ok: bool, h: nat)
      requires Valid() && Idle(q, b)
      modifies this`q, this`availIdx, free, desc, ops, info, bufs, avail
      ensures Valid() && (!ok ==> q == old(q)) && (ok <==> ThreeFree(old(q)))
      ensures ok ==> h in q.chains && h !in old(q).chains && q.chains[h].b == b && q.chains[h].write == write
      ensures ok ==> q.chains[h].phase == Posted(old(q).posted) && q.chains[h].id == old(q).nextId
      ensures ok ==> q.chains - {h} == old(q).chains && q.bufs == old(q).bufs[b := old(q).bufs[b].(disk := true)]
    {
      hide Queue.Inv;
      InvShaped(q);
      var idx;
      ok, idx := Alloc3();
      if !ok {
        NotThree(q, idx);
        return false, 0;
      }
      ThreeOf(old(q), idx);
      h := idx[0];
      ChainKeeps(q, h, idx[1], idx[2], b, write);
      Format(h, idx[1], idx[2], b, write);
      PublishChain(h);
      assert q.chains - {h} == old(q).chains;
    }

    /** The device takes the next entry of the available ring, if there is one: the oldest that it has
        not taken yet. */
    method DeviceTake() returns (some: bool, h: nat)
      requires Valid()
      modifies this`q, this`takenIdx
      ensures Valid() && (some <==> old(q).taken < old(q).posted) && (!some ==> q == old(q))
      ensures some ==>
                && h == old(q).avail[Slot(old(q).taken)] && h in old(q).chains
                && old(q).chains[h].phase == Posted(old(q).taken)
      ensures some ==> q == TakenOff(old(q)) && Step(old(q), q, Take)
    {
      hide Queue.Inv;
      InvShaped(q);
      RoomInRings(q, 0);
      WrapEqual(q.taken, q.posted);
      if takenIdx == availIdx {
        return false, 0;
      }
      TakeKeeps(q);
      WrapSlot(q.taken);
      WrapStep(q.taken);
      h := avail[takenIdx % NUM];
      takenIdx := (takenIdx + 1) % WRAP;
      q := TakenOff(q);
      return true, h;
    }

    /** The device follows a chain to the request header, the buffer and the status byte: those that the
        driver had in mind. */
    method Follow(h: nat) returns (req: Req, b: nat, st: nat)
      requires Valid() && h in q.chains
      ensures h < NUM && q.chains[h].b < |q.bufs| && st == h && b == q.chains[h].b
      ensures req == Req(q.chains[h].write, q.bufs[b].blockno * 2)
    {
      hide Queue.Inv;
      ChainShape(q, h);
      var d0 := desc[h];
      var d1 := desc[d0.next];
      var d2 := desc[d1.next];
      return ops[d0.addr.i], d1.addr.b, d2.addr.i;
    }

    /** One block moves between the disk and a buffer. */
    method Transfer(req: Req, b: nat)
      requires b < bufs.Length && req.sector / 2 < media.Length
      modifies bufs, media
      ensures var block := if req.write then old(bufs[b].data) else old(media[req.sector / 2]);
              && media[..] == old(media[..])[req.sector / 2 := block]
              && bufs[..] == old(bufs[..])[b := old(bufs[b]).(data := block)]
    {
      if req.write {
        media[req.sector / 2] := bufs[b].data;
      } else {
        bufs[b] := bufs[b].(data := media[req.sector / 2]);
      }
    }

    /** The next entry of the used ring is written, and then the index. */
    method EnterUsed(h: nat, ghost k: nat)
      requires used.Length == NUM && usedIdx == k % WRAP
      modifies this`usedIdx, used
      ensures used[..] == old(used[..])[Slot(k) := h] && usedIdx == (k + 1) % WRAP
    {
      WrapSlot(k);
      WrapStep(k);
      used[usedIdx % NUM] := h;
      usedIdx := (usedIdx + 1) % WRAP;
    }

    /** The device moves the block, if it can, and writes the status byte. */
    method Answer(h: nat, status: nat)
      requires Valid() && CanServe(q, h)
      modifies bufs, media, info
      ensures q.Shaped() && bufs[..] == Served(q, h, status).bufs && media[..] == Served(q, h, status).media
      ensures info[..] == Served(q, h, status).info
    {
      hide Queue.Inv;
      InvShaped(q);
      var req, b, st := Follow(h);
      assert req.sector / 2 == q.bufs[b].blockno;
      if status == 0 {
        Transfer(req, b);
      }
      info[st] := info[st].(status := status);
    }

    /** The device carries out a request that it has taken, in any order, or fails to; and it enters the head
        of its chain in the used ring. */
    method DeviceServe(h: nat, status: nat)
      requires Valid() && h in q.chains && q.chains[h].phase.Taken?
      modifies this`q, this`usedIdx, bufs, media, info, used
      ensures Valid() && CanServe(old(q), h) && old(q).chains[h].id !in old(q).results && q == Served(old(q), h, status)
      ensures Step(old(q), q, Serve(h, status))
    {
      hide Queue.Inv;
      InvShaped(q);
      ServeKeeps(q, h, status);
      Answer(h, status);
      EnterUsed(h, q.done);
      q := Served(q, h, status);
    }

    /** One round of virtio_disk_intr: the request's own buffer is released, unless the device has failed,
        which is a panic. */
    method IntrOne() returns (ok: bool, h: nat)
      requires Valid() && q.seen < q.done
      modifies this`q, this`seenIdx, bufs
      ensures Valid() && h == old(q).used[Slot(old(q).seen)] && h in old(q).chains
              && old(q).chains[h].phase == Done(old(q).seen)
      ensures h < NUM && ok == (old(q).info[h].status == 0)
      ensures if ok then CanSee(old(q)) && q == SeenOff(old(q)) && Step(old(q), q, See) else q == old(q)
    {
      hide Queue.Inv;
      InvShaped(q);
      SeeKeeps(q);
      WrapSlot(q.seen);
      WrapStep(q.seen);
      h := used[seenIdx % NUM];
      if info[h].status != 0 {
        return false, h;
      }
      var b := info[h].b;
      bufs[b] := bufs[b].(disk := false);
      seenIdx := (seenIdx + 1) % WRAP;
      q := SeenOff(q);
      return true, h;
    }

    /** virtio_disk_intr: all that the device has finished is seen, unless it has failed at some of it. */
    method Intr() returns (ok: bool)
      requires Valid()
      modifies this`q, this`seenIdx, bufs
      ensures Valid() && q.chains.Keys == old(q).chains.Keys
      ensures ok <==>
                forall h | h in old(q).chains && old(q).chains[h].phase.Done? :: h < NUM && old(q).info[h].status == 0
      ensures ok ==> q.seen == q.done == old(q).done
      ensures ok ==> forall h | h in q.chains ::
                q.chains[h]
                  == old(q).chains[h].(phase := if old(q).chains[h].phase.Done? then Seen else old(q).chains[h].phase)
    {
      hide Queue.Inv;
      InvShaped(q);
      while seenIdx != usedIdx
        invariant Valid() && q.done == old(q).done && q.seen <= q.done && q.chains.Keys == old(q).chains.Keys
                  && q.info == old(q).info
        invariant forall h | h in q.chains ::
                    || q.chains[h] == old(q).chains[h]
                    || (old(q).chains[h].phase.Done? && q.chains[h] == old(q).chains[h].(phase := Seen) && h < NUM
                        && q.info[h].status == 0)
        decreases q.done - q.seen
      {
        ghost var q1 := q;
        InvShaped(q1);
        RoomInRings(q1, 0);
        WrapEqual(q1.seen, q1.done);
        var h;
        ok, h := IntrOne();
        if !ok {
          return;
        }
        assert q.chains == SetPhase(q1, h, Seen);
      }
      RoomInRings(q, 0);
      WrapEqual(q.seen, q.done);
      NoneDone(q);
      return true;
    }

    /** free_chain follows the links of the chain and frees its three descriptors. */
    method FreeChain(h: nat, ghost i1: nat, ghost i2: nat)
      requires Valid() && ThreeLoose(q, h, i1, i2) && q.desc[h].flags % 2 == 1 && q.desc[h].next == i1
      requires q.desc[i1].flags % 2 == 1 && q.desc[i1].next == i2 && q.desc[i2].flags % 2 == 0
      modifies this`q, free, desc
      ensures Valid() && q == Dropped(Dropped(Dropped(old(q), h), i1), i2)
    {
      hide Queue.Inv;
      var i, more := h, true;
      ghost var n := 0;
      while more
        invariant Valid() && 0 <= n <= 3 && (more <==> n < 3)
        invariant n == 0 ==> i == h && q == old(q)
        invariant n == 1 ==> i == i1 && q == Dropped(old(q), h)
        invariant n == 2 ==> i == i2 && q == Dropped(Dropped(old(q), h), i1)
        invariant n == 3 ==> q == Dropped(Dropped(Dropped(old(q), h), i1), i2)
        decreases 3 - n
      {
        var flag, nxt := desc[i].flags, desc[i].next;
        FreeDesc(i);
        if flag % 2 == 1 {
          i := nxt;
        } else {
          more := false;
        }
        n := n + 1;
      }
    }

    /** The request is over: its record no longer names the buffer. */
    method Detach(h: nat)
      requires Valid() && CanUnchain(q, h)
      modifies this`q, info
      ensures Valid() && q == Unchained(old(q), h) && Step(old(q), q, Unchain(h))
    {
      hide Queue.Inv;
      InvShaped(q);
      UnchainKeeps(q, h);
      info[h] := info[h].(b := 0);
      q := Unchained(q, h);
    }

    /** The owner of a buffer that is in no request changes its contents, or gives it to another block. */
    method FillBuffer(b: nat, blockno: nat, data: Block)
      requires Valid() && Idle(q, b)
      modifies this`q, bufs
      ensures Valid() && q == Filled(old(q), b, blockno, data) && Step(old(q), q, Fill(b, blockno, data))
    {
      hide Queue.Inv;
      InvShaped(q);
      FillKeeps(q, b, blockno, data);
      bufs[b] := bufs[b].(blockno := blockno, data := data);
      q := Filled(q, b, blockno, data);
    }

    /** The end of virtio_disk_rw, once the interrupt handler has released the buffer: the request has been
        carried out with this buffer, and its descriptors are free again. */
    method Finish(h: nat)
      requires Valid() && h in q.chains && q.chains[h].b < |q.bufs| && !q.bufs[q.chains[h].b].disk
      modifies this`q, free, desc, info
      ensures Valid() && q.chains == old(q).chains - {h} && q.bufs == old(q).bufs && q.media == old(q).media
      ensures var c := old(q).chains[h];
              && c.id in q.results && q.results[c.id] == q.bufs[c.b].data
              && h < NUM && c.i1 < NUM && c.i2 < NUM && q.free == old(q).free[h := true][c.i1 := true][c.i2 := true]
    {
      hide Queue.Inv;
      InvShaped(q);
      ChainShape(q, h);
      UnchainKeeps(q, h);
      ghost var c := q.chains[h];
      Detach(h);
      FreeChain(h, c.i1, c.i2);
    }
  }

  /** There are three free descriptors. */
  ghost predicate ThreeFree(q: Queue) {
    q.Shaped() && exists i: nat, j: nat, k: nat :: IsFree(q, i) && IsFree(q, j) && IsFree(q, k) && i < j < k
  }

  ghost predicate IsFree(q: Queue, i: nat)
    requires q.Shaped()
  {
    i < NUM && q.free[i]
  }

  lemma NotThree(q: Queue, idx: seq<nat>)
    requires q.Shaped() && |idx| < 3 && forall k | 0 <= k < NUM && q.free[k] :: k in idx
    ensures !ThreeFree(q)
  {
  }

  lemma ThreeOf(q: Queue, idx: seq<nat>)
    requires q.Shaped() && |idx| == 3 && AllFree(q, Elems(idx)) && idx[0] != idx[1] && idx[0] != idx[2]
             && idx[1] != idx[2]
    ensures ThreeFree(q)
  {
    var a, b, c := idx[0], idx[1], idx[2];
    assert a in Elems(idx) && b in Elems(idx) && c in Elems(idx);
    assert IsFree(q, a) && IsFree(q, b) && IsFree(q, c);
  }

  lemma LooseNotFree(q: Queue, i: nat)
    requires q.Inv() && i < NUM && q.owner[i] == LOOSE
    ensures !q.free[i]
  {
    assert q.DescOk(i);
  }

  ghost function Elems(s: seq<nat>): set<nat> { set x | x in s }

  predicate NoRepeats(s: seq<nat>) { forall j, k | 0 <= j < k < |s| :: s[j] != s[k] }

  lemma ElemsIn(s: seq<nat>)
    ensures forall x :: x in Elems(s) <==> x in s
  {
  }

  lemma ElemsNone()
    ensures Elems([]) == {}
  {
  }

  lemma ElemsMore(s: seq<nat>, x: nat)
    ensures Elems(s + [x]) == Elems(s) + {x}
  {
  }

  lemma ElemsFirst(s: seq<nat>)
    requires s != [] && NoRepeats(s)
    ensures s[0] in Elems(s) && Elems(s[1..]) == Elems(s) - {s[0]}
  {
    assert s == [s[0]] + s[1..];
  }

  lemma GrabbedThree(q: Queue, idx: seq<nat>)
    requires q.Shaped() && |idx| == 3 && NoRepeats(idx) && AllFree(q, Elems(idx))
    ensures ThreeLoose(Grabbed(q, Elems(idx)), idx[0], idx[1], idx[2])
  {
    assert idx[0] in Elems(idx) && idx[1] in Elems(idx) && idx[2] in Elems(idx);
  }

  lemma GrabbedLoose(q: Queue, s: set<nat>, i: nat)
    requires q.Shaped() && i in s && i < NUM
    ensures Grabbed(q, s).owner[i] == LOOSE
  {
  }

  lemma ChainShape(q: Queue, h: nat)
    requires q.Inv() && h in q.chains
    ensures q.Shaped() && h < NUM && q.OwnsThree(h) && q.Formatted(h) && q.ResultOk(h)
  {
    assert q.ChainOk(h);
  }

  lemma NoneDone(q: Queue)
    requires q.Inv() && q.seen == q.done
    ensures forall h | h in q.chains :: !q.chains[h].phase.Done?
  {
    forall h | h in q.chains ensures !q.chains[h].phase.Done? {
      assert q.ChainOk(h);
    }
  }

  lemma InvShaped(q: Queue)
    requires q.Inv()
    ensures q.Shaped()
  {
  }
}
