/**
 What the disk driver and its device do to the data (kernel/virtio_disk.c): in every run the disk holds the
 blocks that were written to it, in the order in which the device served the requests, and a read delivers
 the block that the disk held when it was served.
 */
module DiskLaws {
  import opened Blocks
  import opened VirtioDisk

  /** What virtio_disk_rw was called for. */
  datatype Ask = Ask(b: nat, write: bool, blockno: nat, data: Block)

  /** The requests in flight, what those that were served have coming, and the disk as it ought to be. */
  datatype History = History(asked: map<nat, Ask>, answers: map<nat, Block>, media: seq<Block>)

  /** The history goes by the calls and by the order in which requests are served, and looks at a buffer only
      at the time of the call. */
  ghost function After(hist: History, q: Queue, act: Act): History {
    match act
    case Chain3(h, _, _, b, write) =>
      if b < |q.bufs| then
        hist.(asked := hist.asked[h := Ask(b, write, q.bufs[b].blockno, q.bufs[b].data)], answers := hist.answers - {h})
      else hist
    case Serve(h, status) =>
      if status == 0 && h in hist.asked && hist.asked[h].blockno < |hist.media| then
        var r := hist.asked[h];
        if r.write then hist.(media := hist.media[r.blockno := r.data], answers := hist.answers[h := r.data])
        else hist.(answers := hist.answers[h := hist.media[r.blockno]])
      else hist
    case Unchain(h) => hist.(asked := hist.asked - {h}, answers := hist.answers - {h})
    case _ => hist
  }

  ghost function HistoryOf(run: seq<Queue>, acts: seq<Act>, j: nat): History
    requires j < |run| && j <= |acts|
  {
    if j == 0 then History(map[], map[], run[0].media)
    else After(HistoryOf(run, acts, j - 1), run[j - 1], acts[j - 1])
  }

  ghost predicate AgreesAt(q: Queue, hist: History, h: nat)
    requires q.Shaped()
  {
    && (h in q.chains <==> h in hist.asked)
    && (h in q.chains ==>
        var c, r := q.chains[h], hist.asked[h];
        && h < NUM && c.b == r.b < |q.bufs| && c.write == r.write && q.bufs[c.b].blockno == r.blockno < |q.media|
        && (c.phase.Made? || c.phase.Posted? || c.phase.Taken? ==> q.bufs[c.b].data == r.data)
        && ((c.phase.Done? || c.phase.Seen?) && q.info[h].status == 0 ==>
            h in hist.answers && q.bufs[c.b].data == hist.answers[h]))
  }

  ghost predicate Agrees(q: Queue, hist: History) {
    && q.Shaped() && hist.media == q.media
    && forall h {:trigger AgreesAt(q, hist, h)} :: AgreesAt(q, hist, h)
  }

  lemma AgreesKept(q: Queue, q': Queue, act: Act, hist: History)
    requires q.Inv() && Step(q, q', act) && Agrees(q, hist)
    ensures Agrees(q', After(hist, q, act))
  {
    StepKeeps(q, q', act);
    InvShaped(q');
    hide Queue.Inv, Agrees, Step;
    match act {
      case Serve(h, status) => ServeAgrees(q, q', h, status, hist);
      case Chain3(h, i1, i2, b, write) => ChainAgrees(q, q', h, i1, i2, b, write, hist);
      case Fill(b, blockno, data) => FillAgrees(q, q', b, blockno, data, hist);
      case See => SeeAgrees(q, q', hist);
      case Take => TakeAgrees(q, q', hist);
      case Unchain(h) => UnchainAgrees(q, q', h, hist);
      case Publish(h) => PublishAgrees(q, q', h, hist);
      case _ => OtherAgrees(q, q', act, hist);
    }
  }

  lemma ServeAgrees(q: Queue, q': Queue, h: nat, status: nat, hist: History)
    requires q.Inv() && q'.Shaped() && Step(q, q', Serve(h, status)) && Agrees(q, hist)
    ensures Agrees(q', After(hist, q, Serve(h, status)))
  {
    var hist' := After(hist, q, Serve(h, status));
    assert AgreesAt(q, hist, h);
    assert hist'.media == q'.media;
    forall g: nat ensures AgreesAt(q', hist', g) {
      assert AgreesAt(q, hist, g) && q.Apart(h, g);
      hide Queue.Inv, Agrees;
      ServeAgreesAt(q, q', h, status, hist, g);
    }
  }

  lemma ServeAgreesAt(q: Queue, q': Queue, h: nat, status: nat, hist: History, g: nat)
    requires q'.Shaped() && Step(q, q', Serve(h, status)) && hist.media == q.media
    requires AgreesAt(q, hist, h) && AgreesAt(q, hist, g) && q.Apart(h, g)
    ensures AgreesAt(q', After(hist, q, Serve(h, status)), g)
  {
  }

  lemma ChainAgrees(q: Queue, q': Queue, h: nat, i1: nat, i2: nat, b: nat, write: bool, hist: History)
    requires q.Inv() && q'.Shaped() && Step(q, q', Chain3(h, i1, i2, b, write)) && Agrees(q, hist)
    ensures Agrees(q', After(hist, q, Chain3(h, i1, i2, b, write)))
  {
    hide Queue.AvailOk, Queue.UsedOk, Slot;
    var hist' := After(hist, q, Chain3(h, i1, i2, b, write));
    forall g: nat ensures AgreesAt(q', hist', g) {
      assert AgreesAt(q, hist, g) && q.ChainOk(g);
    }
  }

  lemma FillAgrees(q: Queue, q': Queue, b: nat, blockno: nat, data: Block, hist: History)
    requires q.Inv() && Step(q, q', Fill(b, blockno, data)) && Agrees(q, hist)
    ensures Agrees(q', hist)
  {
    hide Queue.Inv;
    forall g: nat ensures AgreesAt(q', hist, g) {
      assert AgreesAt(q, hist, g);
    }
  }

  lemma SeeAgrees(q: Queue, q': Queue, hist: History)
    requires q.Inv() && Step(q, q', See) && Agrees(q, hist)
    ensures Agrees(q', hist)
  {
    hide Queue.DescOk, Queue.AvailOk, Slot;
    var h := q.used[Slot(q.seen)];
    assert q.UsedOk(q.seen) && AgreesAt(q, hist, h) && q.ChainOk(h);
    forall g: nat ensures AgreesAt(q', hist, g) {
      assert AgreesAt(q, hist, g) && q.Apart(h, g);
    }
  }

  lemma TakeAgrees(q: Queue, q': Queue, hist: History)
    requires q.Inv() && q'.Shaped() && Step(q, q', Take) && Agrees(q, hist)
    ensures Agrees(q', hist)
  {
    assert q.AvailOk(q.taken);
    hide Queue.Inv, Slot;
    forall g: nat ensures AgreesAt(q', hist, g) {
      assert AgreesAt(q, hist, g);
    }
  }

  lemma UnchainAgrees(q: Queue, q': Queue, h: nat, hist: History)
    requires q'.Shaped() && Step(q, q', Unchain(h)) && Agrees(q, hist)
    ensures Agrees(q', After(hist, q, Unchain(h)))
  {
    var hist' := After(hist, q, Unchain(h));
    forall g: nat ensures AgreesAt(q', hist', g) {
      assert AgreesAt(q, hist, g);
    }
  }

  lemma PublishAgrees(q: Queue, q': Queue, h: nat, hist: History)
    requires q'.Shaped() && Step(q, q', Publish(h)) && Agrees(q, hist)
    ensures Agrees(q', hist)
  {
    forall g: nat ensures AgreesAt(q', hist, g) {
      assert AgreesAt(q, hist, g);
    }
  }

  /** Descriptors that change hands do not matter. */
  lemma OtherAgrees(q: Queue, q': Queue, act: Act, hist: History)
    requires q'.Shaped() && Step(q, q', act) && Agrees(q, hist) && (act.Grab? || act.Drop?)
    ensures Agrees(q', hist)
  {
    assert q'.chains == q.chains && q'.bufs == q.bufs && q'.media == q.media && q'.info == q.info;
    hide Step, Queue.Shaped;
    forall g: nat ensures AgreesAt(q', hist, g) {
      assert AgreesAt(q, hist, g);
    }
  }

  lemma {:induction false} RunAgrees(run: seq<Queue>, acts: seq<Act>, j: nat)
    requires IsRun(run, acts) && j < |run|
    ensures Agrees(run[j], HistoryOf(run, acts, j))
  {
    hide Queue.Inv, Step, Agrees;
    if j == 0 {
      InitAgrees(run[0]);
    } else {
      RunAgrees(run, acts, j - 1);
      RunInv(run, acts, j - 1, j - 1);
      assert StepAt(run, acts, j - 1);
      AgreesKept(run[j - 1], run[j], acts[j - 1], HistoryOf(run, acts, j - 1));
    }
  }

  lemma InitAgrees(q: Queue)
    requires Init(q)
    ensures Agrees(q, History(map[], map[], q.media))
  {
  }

  /** At all times the disk is the one that the writes served so far have made of the first, each with the
      data that its buffer held when it was asked for; no read changes it. */
  lemma DiskHoldsWrites(run: seq<Queue>, acts: seq<Act>, j: nat)
    requires IsRun(run, acts) && j < |run|
    ensures run[j].media == HistoryOf(run, acts, j).media
  {
    hide IsRun;
    RunAgrees(run, acts, j);
  }

  /** A request that is over has its answer in its buffer: a read the block that the disk held when it was
      served, and a write what it was asked to write. */
  lemma BufferHoldsAnswer(run: seq<Queue>, acts: seq<Act>, j: nat, h: nat)
    requires IsRun(run, acts) && j < |run| && h in run[j].chains && run[j].chains[h].phase.Seen?
    ensures var c, hist := run[j].chains[h], HistoryOf(run, acts, j);
            && c.b < |run[j].bufs| && h in hist.asked && hist.asked[h].b == c.b && hist.asked[h].write == c.write
            && h in hist.answers && run[j].bufs[c.b].data == hist.answers[h]
  {
    RunAgrees(run, acts, j);
    RunInv(run, acts, j, j);
    hide IsRun;
    assert AgreesAt(run[j], HistoryOf(run, acts, j), h) && run[j].ChainOk(h);
  }
}
