/**
 Laws of the process table over all runs of Processes.dfy: the life of a process, who its parent is, what
 wait and kill do, mutual exclusion of sleep locks, and freedom from deadlock.
 */
module ProcessLaws {
  import opened Processes

  // ---------- What a step can change ----------

  /** A step of thread t moves no other thread, but a fork starts the thread of the child. */
  lemma OtherThreads(s: State, s': State, t: nat, step: Step, u: nat)
    requires Inv(s) && NextStep(s, s', t, step) && u < NPROC && u != t
    ensures Shape(s')
            && (s'.pc[u] == s.pc[u] || (step == Launch && s.pc[t] == Fork3(u) && s.pc[u] == Off && s'.pc[u] == Ready))
  {
    Fits(s, t);
    hide Inv, StateFits, NextStep;
    if Scheduling(step) {
      OtherThreads1(s, s', t, step, u);
    } else {
      OtherThreads2(s, s', t, step, u);
    }
  }

  /** The steps of the scheduler, of sleep and of wakeup. */
  predicate Scheduling(step: Step) {
    || step.Dispatch? || step.Switch? || step.Resume? || step.Yield? || step.SleepLock? || step.SleepUnguard?
    || step.Sleep? || step.Woken? || step.Rejoin? || step.Wake? || step.WakeEnd? || step.Take? || step.Acquire?
    || step.Release? || step.Kill?
  }

  lemma OtherThreads1(s: State, s': State, t: nat, step: Step, u: nat)
    requires Shape(s) && NextStep(s, s', t, step) && u < NPROC && u != t && Scheduling(step)
    ensures Shape(s') && s'.pc[u] == s.pc[u]
  {
  }

  lemma OtherThreads2(s: State, s': State, t: nat, step: Step, u: nat)
    requires Shape(s) && NextStep(s, s', t, step) && u < NPROC && u != t && !Scheduling(step)
    requires t < NPROC ==> ForkOk(s, t)
    ensures Shape(s')
            && (s'.pc[u] == s.pc[u] || (step == Launch && s.pc[t] == Fork3(u) && s.pc[u] == Off && s'.pc[u] == Ready))
  {
  }

  /** How the state of slot i may change in a step of thread t. */
  ghost predicate MayBecome(s: State, s': State, t: nat, step: Step, i: nat)
    requires Shape(s) && Shape(s') && i < NPROC && t < NPROC
  {
    var x, y := s.proc[i].state, s'.proc[i].state;
    || x == y
    || (x == UNUSED && y == USED && step == Alloc(i) && s'.proc[i].pid == s.nextpid)
    || (x == USED && y == UNUSED && step == ForkFail && s.pc[t] == Fork1(i))
    || (x == USED && y == RUNNABLE && step == Launch && s.pc[t] == Fork3(i) && s.proc[i].parent == t)
    || (x == RUNNABLE && y == RUNNING && step == Dispatch && i == t)
    || (x == RUNNING && y == RUNNABLE && step == Yield && i == t)
    || (x == RUNNING && y == SLEEPING && step == Sleep && i == t)
    || (x == SLEEPING && y == RUNNABLE && step == Kill(i))
    || (x == SLEEPING && y == RUNNABLE && step == Wake && s.pc[t].Waking? && s.proc[i].chan == WakeChan(s, t))
    || (x == RUNNING && y == ZOMBIE && step == Die && i == t)
    || (x == ZOMBIE && y == UNUSED && step == Reap && s.proc[i].parent == t && s.proc[i].pid in s'.reaped)
  }

  /** The life of a process: made by fork, run by the scheduler, asleep by its own doing and awake by
      somebody else's, a zombie by exit, and gone when its parent has waited for it. */
  lemma LifeCycle(s: State, s': State, t: nat, step: Step, i: nat)
    requires Inv(s) && NextStep(s, s', t, step) && i < NPROC
    ensures Shape(s') && t < NPROC && MayBecome(s, s', t, step, i)
  {
    Fits(s, t);
    hide Inv, StateFits;
    if step.Alloc? || step.ForkFail? || step.Launch? || step.Kill? || step.Wake? || step.Reap? {
      LifeOfOthers(s, s', t, step, i);
    } else if step.Dispatch? || step.Yield? || step.Sleep? || step.Die? {
      LifeOfOwn(s, s', t, step, i);
    } else {
      StatesKept(s, s', t, step, i);
    }
  }

  lemma Fits(s: State, t: nat)
    requires Inv(s)
    ensures Shape(s) && (t < NPROC ==> StateFits(s.proc[t], s.pc[t], t) && ForkOk(s, t))
    ensures t < NPROC && HoldsWait(s.pc[t]) ==> s.waitLock == t
  {
    assert ThreadOk(s, t);
  }

  lemma LifeOfOthers(s: State, s': State, t: nat, step: Step, i: nat)
    requires Shape(s) && NextStep(s, s', t, step) && i < NPROC && (t < NPROC ==> ForkOk(s, t))
    requires step.Alloc? || step.ForkFail? || step.Launch? || step.Kill? || step.Wake? || step.Reap?
    ensures Shape(s') && t < NPROC && MayBecome(s, s', t, step, i)
  {
  }

  lemma LifeOfOwn(s: State, s': State, t: nat, step: Step, i: nat)
    requires Shape(s) && NextStep(s, s', t, step) && i < NPROC && (t < NPROC ==> StateFits(s.proc[t], s.pc[t], t))
    requires step.Dispatch? || step.Yield? || step.Sleep? || step.Die?
    ensures Shape(s') && t < NPROC && MayBecome(s, s', t, step, i)
  {
  }

  lemma StatesKept(s: State, s': State, t: nat, step: Step, i: nat)
    requires Shape(s) && NextStep(s, s', t, step) && i < NPROC
    requires !(step.Alloc? || step.ForkFail? || step.Launch? || step.Kill? || step.Wake? || step.Reap?)
    requires !(step.Dispatch? || step.Yield? || step.Sleep? || step.Die?)
    ensures Shape(s') && t < NPROC && s'.proc[i].state == s.proc[i].state
  {
  }

  /** A process gets its forker as parent, init when that exits, and none when it is gone; only under
      wait_lock. */
  lemma ParentChanges(s: State, s': State, t: nat, step: Step, c: nat)
    requires Inv(s) && NextStep(s, s', t, step) && c < NPROC
    ensures Shape(s') && t < NPROC && (s.waitLock == FREE || s.waitLock == t || s'.proc[c].parent == s.proc[c].parent)
    ensures s'.proc[c].parent != s.proc[c].parent ==>
              || (step == Adopt && s.pc[t] == Fork2(c) && s.maker[c] == t && s'.proc[c].parent == t)
              || (step == Reparent && s.pc[t].Reparenting? && s.proc[c].parent == t && s'.proc[c].parent == INIT)
              || (step == Reap && s.proc[c].parent == t && s.proc[c].state == ZOMBIE && s'.proc[c].state == UNUSED)
  {
    Fits(s, t);
    hide Inv, StateFits, NextStep;
    if Scheduling(step) {
      ParentsKept(s, s', t, step, c);
    } else {
      ParentsMoved(s, s', t, step, c);
    }
  }

  lemma ParentsKept(s: State, s': State, t: nat, step: Step, c: nat)
    requires Shape(s) && NextStep(s, s', t, step) && c < NPROC && Scheduling(step)
    ensures Shape(s') && t < NPROC && s'.proc[c].parent == s.proc[c].parent
  {
  }

  lemma ParentsMoved(s: State, s': State, t: nat, step: Step, c: nat)
    requires Shape(s) && NextStep(s, s', t, step) && c < NPROC && !Scheduling(step)
    requires t < NPROC ==> ForkOk(s, t) && (HoldsWait(s.pc[t]) ==> s.waitLock == t)
    ensures Shape(s') && t < NPROC && (s.waitLock == FREE || s.waitLock == t || s'.proc[c].parent == s.proc[c].parent)
    ensures s'.proc[c].parent != s.proc[c].parent ==>
              || (step == Adopt && s.pc[t] == Fork2(c) && s.maker[c] == t && s'.proc[c].parent == t)
              || (step == Reparent && s.pc[t].Reparenting? && s.proc[c].parent == t && s'.proc[c].parent == INIT)
              || (step == Reap && s.proc[c].parent == t && s.proc[c].state == ZOMBIE && s'.proc[c].state == UNUSED)
  {
  }

  // ---------- wait ----------

  ghost predicate IsKid(s: State, c: nat, t: nat)
  {
    c < |s.proc| && s.proc[c].parent == t
  }

  ghost predicate HasKid(s: State, t: nat, j: nat) {
    exists c: nat :: c < j && IsKid(s, c, t)
  }

  /** The scan of wait knows whether it has met a child. */
  ghost predicate KidsOk(s: State, t: nat)
    requires Shape(s)
  {
    t < NPROC && s.pc[t].Scanning? ==> s.pc[t].j <= NPROC && (s.pc[t].havekids <==> HasKid(s, t, s.pc[t].j))
  }

  lemma KidsKept(s: State, s': State, t: nat, step: Step, u: nat)
    requires Inv(s) && KidsOk(s, u) && NextStep(s, s', t, step)
    ensures Shape(s') && KidsOk(s', u)
  {
    assert ThreadOk(s, t) && ThreadOk(s, u);
    if u == t {
      ScanKept(s, s', t, step);
    } else if u < NPROC {
      OtherThreads(s, s', t, step, u);
      hide Inv, ThreadOk, NextStep;
      if s.pc[u].Scanning? {
        forall c: nat ensures IsKid(s', c, u) <==> IsKid(s, c, u) {
          if c < NPROC {
            ParentChanges(s, s', t, step, c);
          }
        }
      }
    } else {
      OtherThreads(s, s', t, step, if t == 0 then 1 else 0);
    }
  }

  lemma ScanKept(s: State, s': State, t: nat, step: Step)
    requires Shape(s) && KidsOk(s, t) && NextStep(s, s', t, step)
    ensures Shape(s') && KidsOk(s', t)
  {
    hide Inv;
    if step == Scan {
      var j := s.pc[t].j;
      assert s'.proc == s.proc;
      assert forall c: nat :: IsKid(s', c, t) <==> IsKid(s, c, t);
      assert HasKid(s', t, j + 1) <==> HasKid(s, t, j) || IsKid(s, j, t);
    }
  }

  lemma {:induction false} RunKids(run: seq<State>, i: nat, t: nat)
    requires IsRun(run) && i < |run|
    ensures Shape(run[i]) && KidsOk(run[i], t)
  {
    hide Inv, NextStep, KidsOk;
    RunInv(run, i);
    if i > 0 {
      RunKids(run, i - 1, t);
      RunInv(run, i - 1);
      assert StepAt(run, i - 1);
      var u, step :| NextStep(run[i - 1], run[i], u, step);
      KidsKept(run[i - 1], run[i], u, step, t);
    } else {
      InitKids(run[0], t);
    }
  }

  lemma InitKids(s: State, t: nat)
    requires Init(s)
    ensures Shape(s) && KidsOk(s, t)
  {
  }

  /** wait gives up for want of children exactly if there are none: a process that is not killed returns -1
      only if no process has it as parent, or for a zombie child whose status cannot be copied out; and it
      sleeps only if it has a child, and no zombie. */
  lemma WaitNeedsChild(run: seq<State>, i: nat, t: nat)
    requires IsRun(run) && i + 1 < |run| && t < NPROC && Shape(run[i]) && run[i].pc[t].Scanning?
    ensures WaitFailStep(run[i], run[i + 1], t) && !run[i].proc[t].killed ==>
              var s, j := run[i], run[i].pc[t].j;
              if j < NPROC then s.proc[j].parent == t && s.proc[j].state == ZOMBIE && s.plock[j] == FREE
              else forall c: nat | c < NPROC :: s.proc[c].parent != t
    ensures WaitSleepStep(run[i], run[i + 1], t) ==>
              && !run[i].proc[t].killed && (exists c: nat :: c < NPROC && IsKid(run[i], c, t))
              && forall c: nat | c < NPROC && IsKid(run[i], c, t) :: run[i].proc[c].state != ZOMBIE
  {
    RunKids(run, i, t);
    RunInv(run, i);
    var s := run[i];
    hide IsRun, GuardOk;
    if s.pc[t].j == NPROC {
      forall c: nat | c < NPROC && IsKid(s, c, t) ensures HasKid(s, t, NPROC) && s.proc[c].state != ZOMBIE {
        assert PairOk(s, t, c);
      }
    }
  }

  // ---------- kill ----------

  /** kill marks its target and rouses it; the mark stays until the slot is freed. */
  lemma KillMarks(s: State, s': State, t: nat, step: Step, j: nat)
    requires Inv(s) && NextStep(s, s', t, step) && j < NPROC
    ensures Shape(s')
    ensures step == Kill(j) ==> s'.proc[j].killed && s'.proc[j].state != SLEEPING
    ensures s.proc[j].killed ==> s'.proc[j].killed || s'.proc[j].state == UNUSED
    ensures s'.proc[j].killed && !s.proc[j].killed ==> step == Kill(j)
  {
    Fits(s, t);
    hide Inv, StateFits, NextStep;
    if Scheduling(step) {
      KillMarks1(s, s', t, step, j);
    } else {
      KillMarks2(s, s', t, step, j);
    }
  }

  lemma KillMarks1(s: State, s': State, t: nat, step: Step, j: nat)
    requires Shape(s) && NextStep(s, s', t, step) && j < NPROC && Scheduling(step)
    ensures Shape(s') && (step == Kill(j) ==> s'.proc[j].killed && s'.proc[j].state != SLEEPING)
    ensures step == Kill(j) || s'.proc[j].killed == s.proc[j].killed
  {
  }

  lemma KillMarks2(s: State, s': State, t: nat, step: Step, j: nat)
    requires Shape(s) && NextStep(s, s', t, step) && j < NPROC && !Scheduling(step)
    ensures Shape(s') && (s'.proc[j].killed == s.proc[j].killed || (!s'.proc[j].killed && s'.proc[j].state == UNUSED))
  {
  }

  lemma {:induction false} KilledStays(run: seq<State>, i: nat, k: nat, j: nat)
    requires IsRun(run) && i <= k < |run| && j < NPROC && Shape(run[i]) && run[i].proc[j].killed
    requires forall x | i <= x <= k :: Shape(run[x]) && run[x].proc[j].state != UNUSED
    ensures Shape(run[k]) && run[k].proc[j].killed
  {
    hide Inv, NextStep, Init;
    if i < k {
      KilledStays(run, i, k - 1, j);
      RunInv(run, k - 1);
      assert StepAt(run, k - 1);
      var t, step :| NextStep(run[k - 1], run[k], t, step);
      KillMarks(run[k - 1], run[k], t, step, j);
    }
  }

  // ---------- Sleep locks ----------

  ghost predicate HasOk(s: State, t: nat, l: nat)
    requires Shape(s)
  {
    t < NPROC ==> (l in s.has[t] <==> l < |s.holder| && s.holder[l] == t)
  }

  lemma HasKept(s: State, s': State, t: nat, step: Step, u: nat, l: nat)
    requires Shape(s) && NextStep(s, s', t, step) && HasOk(s, u, l) && HasOk(s, t, l)
    ensures Shape(s') && HasOk(s', u, l)
  {
    if step.Take? || step.Release? {
      assert Shape(s');
    } else {
      LocksKept(s, s', t, step);
    }
  }

  lemma LocksKept(s: State, s': State, t: nat, step: Step)
    requires Shape(s) && NextStep(s, s', t, step) && !step.Take? && !step.Release?
    ensures Shape(s') && s'.has == s.has && s'.holder == s.holder
  {
  }

  lemma {:induction false} RunHas(run: seq<State>, i: nat, t: nat, l: nat)
    requires IsRun(run) && i < |run|
    ensures Shape(run[i]) && HasOk(run[i], t, l)
  {
    hide Inv, NextStep;
    RunInv(run, i);
    if i > 0 {
      RunInv(run, i - 1);
      assert StepAt(run, i - 1);
      var u, step :| NextStep(run[i - 1], run[i], u, step);
      RunHas(run, i - 1, t, l);
      RunHas(run, i - 1, u, l);
      HasKept(run[i - 1], run[i], u, step, t, l);
    }
  }

  /** No two threads are between acquiresleep and releasesleep of the same lock. */
  lemma MutualExclusion(run: seq<State>, i: nat, t: nat, u: nat, l: nat)
    requires IsRun(run) && i < |run| && t < NPROC && u < NPROC
    ensures Shape(run[i]) && (l in run[i].has[t] && l in run[i].has[u] ==> t == u)
  {
    hide IsRun;
    RunHas(run, i, t, l);
    RunHas(run, i, u, l);
  }

  // ---------- No deadlock ----------

  /** The loops of wakeup, wait and exit stay within the table. */
  ghost predicate InTable(s: State, t: nat)
    requires Shape(s)
  {
    t < NPROC ==>
      && (s.pc[t].Waking? ==> s.pc[t].j <= NPROC && (s.pc[t].next.ThenReparent? ==> s.pc[t].next.k <= NPROC))
      && (s.pc[t].Scanning? ==> s.pc[t].j <= NPROC) && (s.pc[t].Reparenting? ==> s.pc[t].k <= NPROC)
  }

  lemma InTableKept(s: State, s': State, t: nat, step: Step, u: nat)
    requires Inv(s) && NextStep(s, s', t, step) && InTable(s, u)
    ensures Shape(s') && InTable(s', u)
  {
    Fits(s, t);
    hide Inv, NextStep;
    if u < NPROC && u != t {
      OtherThreads(s, s', t, step, u);
    } else if Scheduling(step) {
      InTable1(s, s', t, step, u);
    } else {
      InTable2(s, s', t, step, u);
    }
  }

  lemma InTable1(s: State, s': State, t: nat, step: Step, u: nat)
    requires Shape(s) && NextStep(s, s', t, step) && InTable(s, u) && (u == t || u >= NPROC) && Scheduling(step)
    ensures Shape(s') && InTable(s', u)
  {
  }

  lemma InTable2(s: State, s': State, t: nat, step: Step, u: nat)
    requires Shape(s) && NextStep(s, s', t, step) && InTable(s, u) && (u == t || u >= NPROC) && !Scheduling(step)
    ensures Shape(s') && InTable(s', u)
  {
  }

  lemma {:induction false} RunInTable(run: seq<State>, i: nat, t: nat)
    requires IsRun(run) && i < |run|
    ensures Shape(run[i]) && InTable(run[i], t)
  {
    hide Inv, NextStep;
    RunInv(run, i);
    if i > 0 {
      RunInTable(run, i - 1, t);
      RunInv(run, i - 1);
      assert StepAt(run, i - 1);
      var u, step :| NextStep(run[i - 1], run[i], u, step);
      InTableKept(run[i - 1], run[i], u, step, t);
    }
  }

  ghost predicate CanStep(s: State, t: nat) {
    exists s', step :: NextStep(s, s', t, step)
  }

  /** Nothing is to be done for slot t: it has no thread, or its thread sleeps. */
  ghost predicate Resting(s: State, t: nat)
    requires At(s, t)
  {
    s.pc[t].Off? || (s.pc[t].Away? && s.proc[t].state == SLEEPING)
  }

  datatype Lock = OfSlot(i: nat) | WaitLock | Guard(l: nat)

  /** Who holds a spinlock. */
  function Owner(s: State, lock: Lock): int {
    match lock
    case OfSlot(i) => if i < |s.plock| then s.plock[i] else FREE
    case WaitLock => s.waitLock
    case Guard(l) => if l < |s.guard| then s.guard[l] else FREE
  }

  /** The spinlock that thread t is to take next. */
  function Wanted(s: State, t: nat): Lock
    requires At(s, t)
  {
    match s.pc[t]
    case Rejoining(ForChild) => WaitLock
    case Rejoining(ForLock(l)) => Guard(l)
    case Fork2(_) => WaitLock
    case Fork3(c) => OfSlot(c)
    case Waking(j, _) => OfSlot(j)
    case Scanning(j, _) => OfSlot(j)
    case _ => OfSlot(t)
  }

  ghost predicate CanDo(s: State, t: nat, step: Step) {
    exists s' :: NextStep(s, s', t, step)
  }

  /** What a process can do when it is in none of the modelled calls, by the locks that are free: it can be
      preempted, wait, and exit unless it is init; */
  lemma CanWaitAndExit(s: State, t: nat)
    requires At(s, t) && s.pc[t].Run?
    ensures s.plock[t] == FREE ==> CanDo(s, t, Yield)
    ensures s.waitLock == FREE ==> CanDo(s, t, Wait) && (t != INIT ==> CanDo(s, t, Exit))
  {
    if s.plock[t] == FREE {
      assert NextStep(s, SetPc(SetState(SetPlock(s, t, t), t, RUNNABLE), t, Yielding), t, Yield);
    }
    if s.waitLock == FREE {
      assert NextStep(s, SetPc(s.(waitLock := t), t, Scanning(0, false)), t, Wait);
      assert t != INIT ==> NextStep(s, SetPc(s.(waitLock := t), t, Reparenting(0)), t, Exit);
    }
  }

  /** it can kill any process; */
  lemma CanKill(s: State, t: nat, j: nat)
    requires At(s, t) && s.pc[t].Run? && j < NPROC && s.plock[j] == FREE
    ensures CanDo(s, t, Kill(j))
  {
    var p := s.proc[j].(killed := true);
    var s' := s.(proc := s.proc[j := if p.state == SLEEPING then p.(state := RUNNABLE) else p]);
    assert NextStep(s, s', t, Kill(j));
  }

  /** it can fork into any unused slot; */
  lemma CanFork(s: State, t: nat, c: nat)
    requires At(s, t) && s.pc[t].Run? && c < NPROC && s.plock[c] == FREE && s.proc[c].state == UNUSED
    ensures CanDo(s, t, Alloc(c))
  {
    var s' := SetPc(SetPlock(s, c, t).(proc := s.proc[c := s.proc[c].(state := USED, pid := s.nextpid)],
                                       maker := s.maker[c := t], nextpid := s.nextpid + 1), t, Fork1(c));
    assert NextStep(s, s', t, Alloc(c));
  }

  /** which may fail for want of memory; */
  lemma CanFailToFork(s: State, t: nat)
    requires At(s, t) && s.pc[t].Fork1? && s.pc[t].c < NPROC
    ensures CanDo(s, t, ForkFail)
  {
    var c := s.pc[t].c;
    var s' := SetPlock(s, c, FREE).(proc := s.proc[c := Proc(UNUSED, NoChan, NOBODY, 0, false)]);
    assert NextStep(s, SetPc(s', t, Run), t, ForkFail);
  }

  /** and it can ask for any sleep lock, and release those that it has. */
  lemma CanLock(s: State, t: nat, l: nat)
    requires At(s, t) && s.pc[t].Run? && l < |s.guard| && s.guard[l] == FREE
    ensures CanDo(s, t, Acquire(l)) && (s.holder[l] == t ==> CanDo(s, t, Release(l)))
  {
    assert NextStep(s, SetPc(SetGuard(s, l, t), t, Acquiring(l)), t, Acquire(l));
    if s.holder[l] == t {
      var s' := SetPc(SetGuard(s.(holder := s.holder[l := NOBODY], has := s.has[t := s.has[t] - {l}]), l, t), t,
                      Waking(0, ThenUnguard(l)));
      assert NextStep(s, s', t, Release(l));
    }
  }

  /** A thread that holds the lock of a slot never waits for another lock. */
  lemma SlotHolderSteps(s: State, u: nat, i: nat)
    requires Inv(s) && u < NPROC && i < NPROC && HoldsProc(s.pc[u], u, i)
    ensures CanStep(s, u)
  {
    hide PairOk, GuardOk, ExitOk, PidOk, ParentOk;
    assert ThreadOk(s, u);
    var pc := s.pc[u];
    if pc.Resumed? {
      assert NextStep(s, SetPc(SetPlock(s, u, FREE), u, Run), u, Resume);
    } else if pc.Sleep2? {
      var s' := if pc.w.ForChild? then s.(waitLock := FREE) else SetGuard(s, pc.w.l, FREE);
      assert NextStep(s, SetPc(s', u, Sleep3(pc.w)), u, SleepUnguard);
    } else if pc.Sleep3? {
      var s' := s.(proc := s.proc[u := s.proc[u].(state := SLEEPING, chan := ChanOf(pc.w, u))]);
      assert NextStep(s, SetPc(s', u, Sleep4(pc.w)), u, Sleep);
    } else if pc.Awake? {
      var s' := SetPlock(s.(proc := s.proc[u := s.proc[u].(chan := NoChan)]), u, FREE);
      assert NextStep(s, SetPc(s', u, Rejoining(pc.w)), u, Woken);
    } else if pc.Fork1? {
      assert NextStep(s, SetPc(SetPlock(s, pc.c, FREE), u, Fork2(pc.c)), u, Copied);
    } else {
      var pc' := if pc.Yielding? then Ready else if pc.Gone? then Off else Away(pc.w);
      assert NextStep(s, SetPc(SetPlock(s, u, FREE), u, pc'), u, Switch);
    }
  }

  /** A thread that has work to do can go on unless the lock that it wants is held. */
  lemma StepsIfFree(s: State, t: nat)
    requires Inv(s) && InTable(s, t) && At(s, t) && !Resting(s, t) && Owner(s, Wanted(s, t)) == FREE
    ensures CanStep(s, t)
  {
    assert ThreadOk(s, t);
    var pc := s.pc[t];
    if HoldsProc(pc, t, if pc.Fork1? then pc.c else t) {
      SlotHolderSteps(s, t, if pc.Fork1? then pc.c else t);
    } else if pc.Scanning? {
      WaitersStep(s, t);
    } else if pc.Reparenting? || pc.Dying? {
      ExitersStep(s, t);
    } else if pc.Waking? {
      WakersStep(s, t);
    } else {
      OthersStep(s, t);
    }
  }

  lemma ExitersStep(s: State, t: nat)
    requires At(s, t) && InTable(s, t) && Owner(s, Wanted(s, t)) == FREE && (s.pc[t].Reparenting? || s.pc[t].Dying?)
    ensures CanStep(s, t)
  {
    var pc := s.pc[t];
    if pc.Dying? {
      assert NextStep(s, SetPc(SetState(SetPlock(s, t, t).(waitLock := FREE), t, ZOMBIE), t, Gone), t, Die);
    } else if pc.k == NPROC {
      assert NextStep(s, SetPc(s, t, Waking(0, ThenDie)), t, Orphaned);
    } else if s.proc[pc.k].parent != t {
      assert NextStep(s, SetPc(s, t, Reparenting(pc.k + 1)), t, Reparent);
    } else {
      var s' := s.(proc := s.proc[pc.k := s.proc[pc.k].(parent := INIT)]);
      assert NextStep(s, SetPc(s', t, Waking(0, ThenReparent(pc.k + 1))), t, Reparent);
    }
  }

  lemma WaitersStep(s: State, t: nat)
    requires At(s, t) && InTable(s, t) && Owner(s, Wanted(s, t)) == FREE && s.pc[t].Scanning?
    ensures CanStep(s, t)
  {
    var pc := s.pc[t];
    if pc.j == NPROC && pc.havekids && !s.proc[t].killed {
      assert NextStep(s, SetPc(s, t, Sleep1(ForChild)), t, WaitSleep);
    } else if pc.j == NPROC {
      assert NextStep(s, SetPc(s.(waitLock := FREE), t, Run), t, WaitFail);
    } else if s.proc[pc.j].parent != t {
      assert NextStep(s, SetPc(s, t, Scanning(pc.j + 1, pc.havekids)), t, Scan);
    } else if s.proc[pc.j].state != ZOMBIE {
      assert NextStep(s, SetPc(s, t, Scanning(pc.j + 1, true)), t, Scan);
    } else {
      var s' := s.(proc := s.proc[pc.j := Proc(UNUSED, NoChan, NOBODY, 0, false)], waitLock := FREE,
                   reaped := s.reaped + {s.proc[pc.j].pid});
      assert NextStep(s, SetPc(s', t, Run), t, Reap);
    }
  }

  lemma WakersStep(s: State, t: nat)
    requires Inv(s) && InTable(s, t) && At(s, t) && s.pc[t].Waking?
    requires s.pc[t].j == t || Owner(s, OfSlot(s.pc[t].j)) == FREE
    ensures CanStep(s, t)
  {
    assert ThreadOk(s, t);
    hide PairOk, GuardOk;
    var pc := s.pc[t];
    if pc.j == NPROC {
      var s' := match pc.next
        case ThenUnguard(l) => SetPc(SetGuard(s, l, FREE), t, Run)
        case ThenReparent(k) => SetPc(s, t, Reparenting(k))
        case ThenDie => SetPc(s, t, Dying);
      assert NextStep(s, s', t, WakeEnd);
    } else {
      var s' := if pc.j == t then s else WokenUp(s, pc.j, WakeChan(s, t));
      assert NextStep(s, SetPc(s', t, Waking(pc.j + 1, pc.next)), t, Wake);
    }
  }

  lemma TakersStep(s: State, t: nat)
    requires At(s, t) && s.pc[t].Acquiring? && s.pc[t].l < |s.guard|
    ensures CanStep(s, t)
  {
    var l := s.pc[t].l;
    if s.holder[l] != NOBODY {
      assert NextStep(s, SetPc(s, t, Sleep1(ForLock(l))), t, Take);
    } else {
      var s' := s.(holder := s.holder[l := t], has := s.has[t := s.has[t] + {l}]);
      assert NextStep(s, SetPc(SetGuard(s', l, FREE), t, Run), t, Take);
    }
  }

  lemma OthersStep(s: State, t: nat)
    requires Inv(s) && At(s, t) && !Resting(s, t) && Owner(s, Wanted(s, t)) == FREE
    requires var pc := s.pc[t]; !pc.Scanning? && !pc.Reparenting? && !pc.Dying? && !pc.Waking?
    requires !HoldsProc(s.pc[t], t, t) && !s.pc[t].Fork1?
    ensures CanStep(s, t)
  {
    assert ThreadOk(s, t);
    hide PairOk, GuardOk;
    var pc := s.pc[t];
    if pc.Ready? || pc.Away? {
      var pc' := if pc.Ready? then Resumed else Awake(pc.w);
      assert NextStep(s, SetPc(SetState(SetPlock(s, t, t), t, RUNNING), t, pc'), t, Dispatch);
    } else if pc.Run? {
      assert NextStep(s, SetPc(SetState(SetPlock(s, t, t), t, RUNNABLE), t, Yielding), t, Yield);
    } else if pc.Sleep1? {
      assert NextStep(s, SetPc(SetPlock(s, t, t), t, Sleep2(pc.w)), t, SleepLock);
    } else if pc == Rejoining(ForChild) {
      assert NextStep(s, SetPc(s.(waitLock := t), t, Scanning(0, false)), t, Rejoin);
    } else if pc.Rejoining? {
      assert NextStep(s, SetPc(SetGuard(s, pc.w.l, t), t, Acquiring(pc.w.l)), t, Rejoin);
    } else if pc.Acquiring? {
      TakersStep(s, t);
    } else if pc.Fork2? {
      var s' := s.(proc := s.proc[pc.c := s.proc[pc.c].(parent := t)]);
      assert NextStep(s, SetPc(s', t, Fork3(pc.c)), t, Adopt);
    } else {
      assert NextStep(s, SetPc(SetPc(SetState(s, pc.c, RUNNABLE), pc.c, Ready), t, Run), t, Launch);
    }
  }

  /** A thread that holds wait_lock or a guard wants no lock but that of a slot. */
  lemma OuterHolder(s: State, u: nat)
    requires At(s, u) && (HoldsWait(s.pc[u]) || exists l :: HoldsGuard(s.pc[u], l))
    ensures Wanted(s, u).OfSlot? && !Resting(s, u)
  {
  }

  lemma HeldByThread(s: State, lock: Lock)
    requires Inv(s) && Owner(s, lock) != FREE
    ensures 0 <= Owner(s, lock) < NPROC
    ensures lock.OfSlot? ==> lock.i < NPROC && HoldsProc(s.pc[Owner(s, lock)], Owner(s, lock), lock.i)
    ensures !lock.OfSlot? ==>
              HoldsWait(s.pc[Owner(s, lock)]) || exists l :: HoldsGuard(s.pc[Owner(s, lock)], l)
  {
    match lock
    case OfSlot(i) => assert ThreadOk(s, i);
    case WaitLock =>
    case Guard(l) => assert GuardOk(s, l);
  }

  /** The spinlocks never deadlock: if a thread has work to do, then it can take a step, or the holder of the
      lock that it waits for can, or the holder of the lock that this one waits for. */
  lemma NoDeadlock(run: seq<State>, i: nat, t: nat)
    requires IsRun(run) && i < |run| && t < NPROC && Shape(run[i]) && !Resting(run[i], t)
    ensures var s := run[i];
            || CanStep(s, t)
            || var u := Owner(s, Wanted(s, t));
               0 <= u < NPROC && (CanStep(s, u) || var v := Owner(s, Wanted(s, u)); 0 <= v < NPROC && CanStep(s, v))
  {
    var s := run[i];
    RunInv(run, i);
    RunInTable(run, i, t);
    hide IsRun, Inv, CanStep, Wanted, Owner, Resting, InTable;
    var lock := Wanted(s, t);
    if Owner(s, lock) == FREE {
      StepsIfFree(s, t);
    } else {
      HeldByThread(s, lock);
      var u := Owner(s, lock);
      if lock.OfSlot? {
        SlotHolderSteps(s, u, lock.i);
      } else {
        OuterHolder(s, u);
        RunInTable(run, i, u);
        var lock' := Wanted(s, u);
        if Owner(s, lock') == FREE {
          StepsIfFree(s, u);
        } else {
          HeldByThread(s, lock');
          SlotHolderSteps(s, Owner(s, lock'), lock'.i);
        }
      }
    }
  }
}
