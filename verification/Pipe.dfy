/**
 Pipes (kernel/pipe.c).

 A method is what one process does while it holds the pipe's lock: a call of pipewrite or piperead up to
 the point where it returns or goes to sleep.  A process that is woken starts its next section with a
 new call.  The sets readers and writers hold the processes asleep on the addresses of nread and nwrite.
 */
module Pipe {
  import opened Blocks

  const PIPESIZE := 512

  datatype Outcome = Returned | Failed | Slept

  lemma ModAt(q: nat, y: nat)
    requires y < UINT_LIMIT
    ensures (UINT_LIMIT * q + y) % UINT_LIMIT == y
  {
  }

  /** A 32-bit counter d steps further on. */
  lemma CounterAdd(x: nat, d: nat)
    requires d <= PIPESIZE
    ensures var r := x % UINT_LIMIT; (x + d) % UINT_LIMIT == if r + d < UINT_LIMIT then r + d else r + d - UINT_LIMIT
  {
    var q, r := x / UINT_LIMIT, x % UINT_LIMIT;
    assert x == UINT_LIMIT * q + r;
    if r + d < UINT_LIMIT {
      ModAt(q, r + d);
    } else {
      ModAt(q + 1, r + d - UINT_LIMIT);
    }
  }

  /** The counters are 32-bit, and their difference is the number of bytes in the pipe. */
  lemma CounterTests(nread: nat, nwrite: nat)
    requires nread <= nwrite <= nread + PIPESIZE
    ensures nwrite % UINT_LIMIT == (nread % UINT_LIMIT + PIPESIZE) % UINT_LIMIT <==> nwrite == nread + PIPESIZE
    ensures nread % UINT_LIMIT == nwrite % UINT_LIMIT <==> nread == nwrite
    ensures (nread % UINT_LIMIT + 1) % UINT_LIMIT == (nread + 1) % UINT_LIMIT
    ensures (nwrite % UINT_LIMIT + 1) % UINT_LIMIT == (nwrite + 1) % UINT_LIMIT
  {
    CounterAdd(nread, nwrite - nread);
    CounterAdd(nread, 1);
    CounterAdd(nwrite, 1);
    CounterSum(nread % UINT_LIMIT, PIPESIZE);
    CounterSum(nread % UINT_LIMIT, 1);
    CounterSum(nwrite % UINT_LIMIT, 1);
  }

  lemma CounterSum(r: nat, d: nat)
    requires r < UINT_LIMIT && d <= PIPESIZE
    ensures (r + d) % UINT_LIMIT == if r + d < UINT_LIMIT then r + d else r + d - UINT_LIMIT
  {
    if r + d < UINT_LIMIT {
      ModAt(0, r + d);
    } else {
      ModAt(1, r + d - UINT_LIMIT);
    }
  }

  /** A counter selects the same byte whether or not it has wrapped, since PIPESIZE divides its range. */
  lemma CounterSlot(k: nat)
    ensures k % UINT_LIMIT % PIPESIZE == k % PIPESIZE
  {
    var q, r := k / UINT_LIMIT, k % UINT_LIMIT;
    assert k == PIPESIZE * (8388608 * q) + r;
    SlotShift(8388608 * q, r);
  }

  lemma SlotShift(q: nat, x: nat)
    ensures (PIPESIZE * q + x) % PIPESIZE == x % PIPESIZE
  {
  }

  lemma SlotsApart(j: nat, k: nat)
    requires j < k < j + PIPESIZE
    ensures j % PIPESIZE != k % PIPESIZE
  {
  }

  function Least(a: nat, b: nat): nat { if a < b then a else b }

  class Pipe {
    const data: array<Byte>
    var nread: Uint
    var nwrite: Uint
    var readopen: bool
    var writeopen: bool
    ghost var written: seq<Byte>  // all bytes ever stored
    ghost var taken: nat          // how many of them have been removed
    ghost var readers: set<nat>
    ghost var writers: set<nat>

    /** The bytes in the pipe are those written and not removed yet, at most PIPESIZE of them. */
    ghost predicate Valid()
      reads this, data
    {
      && data.Length == PIPESIZE && taken <= |written| <= taken + PIPESIZE
      && nread == taken % UINT_LIMIT && nwrite == |written| % UINT_LIMIT
      && forall k {:trigger written[k]} | taken <= k < |written| :: data[k % PIPESIZE] == written[k]
    }

    /** Nobody sleeps who could go on: a sleeping writer has a full pipe with readers, and a sleeping reader
        an empty pipe with writers. */
    ghost predicate SleepOk()
      reads this
    {
      && (writers != {} ==> |written| == taken + PIPESIZE && readopen)
      && (readers != {} ==> |written| == taken && writeopen)
    }

    /** The pipe made by pipealloc. */
    constructor ()
      ensures Valid() && SleepOk() && fresh(data) && written == [] && taken == 0 && readers == {} && writers == {}
      ensures readopen && writeopen
    {
      data := new Byte[PIPESIZE](_ => 0);
      nread, nwrite, readopen, writeopen := 0, 0, true, true;
      written, taken, readers, writers := [], 0, {}, {};
    }

    method Store(ch: Byte)
      requires Valid() && |written| < taken + PIPESIZE
      modifies this`nwrite, this`written, data
      ensures Valid() && written == old(written) + [ch]
    {
      CounterSlot(|written|);
      CounterTests(taken, |written|);
      forall k | taken <= k < |written| ensures k % PIPESIZE != |written| % PIPESIZE {
        SlotsApart(k, |written|);
      }
      data[nwrite % PIPESIZE] := ch;
      nwrite := (nwrite + 1) % UINT_LIMIT;
      written := written + [ch];
    }

    method Fetch() returns (ch: Byte)
      requires Valid() && taken < |written|
      modifies this`nread, this`taken
      ensures Valid() && ch == written[old(taken)] && taken == old(taken) + 1
    {
      CounterSlot(taken);
      CounterTests(taken, |written|);
      ch := data[nread % PIPESIZE];
      nread := (nread + 1) % UINT_LIMIT;
      taken := taken + 1;
    }

    /** pipewrite from byte i of src on.  The writer finds itself killed after seeing that it is not for
        `checks` times, and copyin fails after `copies` bytes.  Bytes go in in order; and everybody who
        sleeps has a reason to, unless a reader was asleep and the writer is killed after it has stored a
        byte, but before it has come to the end, to a byte it cannot copy or to a full pipe. */
    method Write(me: nat, src: seq<Byte>, start: nat, checks: nat, copies: nat) returns (o: Outcome, i: nat)
      requires Valid() && start <= |src|
      modifies this`nwrite, this`written, this`readers, this`writers, data
      ensures Valid() && start <= i <= |src| && i - start <= checks && i - start <= copies
              && written == old(written) + src[start..i]
      ensures !readopen && start < |src| ==> o == Failed && i == start
      ensures readopen ==>
                var n, room := |src| - start, taken + PIPESIZE - |old(written)|;
                && i - start == Least(Least(n, checks), Least(room, copies))
                && o == if i == |src| then Returned else if i - start == checks then Failed
                        else if i - start == room then Slept else Returned
      ensures o == Slept ==>
                i < |src| && |written| == taken + PIPESIZE && readers == {} && writers == old(writers) + {me}
      ensures o == Returned ==> (i == |src| || i - start == copies) && readers == {} && writers == old(writers)
      ensures o == Failed ==> (!readopen || i - start == checks) && readers == old(readers) && writers == old(writers)
      ensures old(SleepOk()) ==>
                (SleepOk() <==> !(old(readers) != {} && readopen
                                  && 0 < checks < |src| - start && checks <= copies && checks <= PIPESIZE))
    {
      i := start;
      while i < |src|
        invariant start <= i <= |src| && Valid() && written == old(written) + src[start..i] && i - start <= checks
                  && i - start <= copies
        invariant readers == old(readers) && writers == old(writers) && (i > start ==> readopen)
      {
        if !readopen || i - start == checks {
          return Failed, i;
        }
        CounterTests(taken, |written|);
        if nwrite == (nread + PIPESIZE) % UINT_LIMIT {
          readers := {};
          writers := writers + {me};
          return Slept, i;
        }
        if i - start == copies {
          break;
        }
        Store(src[i]);
        i := i + 1;
      }
      readers := {};
      return Returned, i;
    }

    /** piperead: up to n bytes, the oldest first.  copyout fails after `copies` bytes; the byte that could
        not be copied is gone. */
    method Read(me: nat, n: nat, killed: bool, copies: nat) returns (o: Outcome, bytes: seq<Byte>)
      requires Valid()
      modifies this`nread, this`taken, this`readers, this`writers
      ensures Valid() && |bytes| <= n && old(taken) + |bytes| <= taken
              && bytes == written[old(taken)..old(taken) + |bytes|]
      ensures o == Slept || o == Failed <==> old(taken) == |written| && writeopen
      ensures o == Failed <==> old(taken) == |written| && writeopen && killed
      ensures o != Returned ==> taken == old(taken) && bytes == [] && writers == old(writers)
      ensures o != Returned ==> readers == old(readers) + (if o == Slept then {me} else {})
      ensures o == Returned ==> writers == {} && readers == old(readers)
      ensures o == Returned ==>
                taken == old(taken) + |bytes| + (if |bytes| < n && old(taken) + |bytes| < |written| then 1 else 0)
      ensures o == Returned ==> |bytes| == Least(Least(n, copies), |written| - old(taken))
      ensures old(SleepOk()) ==> SleepOk()
    {
      bytes := [];
      CounterTests(taken, |written|);
      if nread == nwrite && writeopen {
        if killed {
          return Failed, [];
        }
        readers := readers + {me};
        return Slept, [];
      }
      var i := 0;
      while i < n
        invariant 0 <= i <= n && Valid() && |bytes| == i <= copies && taken == old(taken) + i && readers == old(readers)
                  && writers == old(writers)
        invariant bytes == written[old(taken)..old(taken) + i]
      {
        CounterTests(taken, |written|);
        if nread == nwrite {
          break;
        }
        var ch := Fetch();
        if i == copies {
          break;
        }
        bytes := bytes + [ch];
        i := i + 1;
      }
      writers := {};
      return Returned, bytes;
    }

    /** pipeclose.  The last reference to one side goes, so nobody sleeps there. */
    method Close(writable: bool) returns (freed: bool)
      requires Valid() && (if writable then writers == {} else readers == {})
      modifies this`readopen, this`writeopen, this`readers, this`writers
      ensures Valid() && writeopen == (old(writeopen) && !writable) && readopen == (old(readopen) && writable)
      ensures readers == {} && writers == {}
      ensures freed == (!readopen && !writeopen)
      ensures old(SleepOk()) ==> SleepOk()
    {
      if writable {
        writeopen := false;
        readers := {};
      } else {
        readopen := false;
        writers := {};
      }
      freed := !readopen && !writeopen;
    }

    /** kill makes a sleeper runnable. */
    ghost method Rouse(p: nat)
      requires Valid()
      modifies this`readers, this`writers
      ensures Valid() && readers == old(readers) - {p} && writers == old(writers) - {p}
      ensures old(SleepOk()) ==> SleepOk()
    {
      readers, writers := readers - {p}, writers - {p};
    }
  }

  /** A reader sleeps, a writer stores one byte and is killed: the reader sleeps on although there is a
      byte for it. */
  method LostWakeup() returns (pipe: Pipe)
    ensures fresh(pipe) && pipe.Valid() && pipe.readers != {} && |pipe.written| == pipe.taken + 1
  {
    pipe := new Pipe();
    var o, bytes := pipe.Read(1, 1, false, 1);
    var o', i := pipe.Write(2, [65, 66], 0, 1, 2);
    assert i == 1;
  }
}
