/**
 Processes, their kernel threads, and the spinlocks that serialise them (kernel/proc.c,
 kernel/sleeplock.c).

 The machine takes one step at a time: a step is a lock acquisition, a release, or a section that one
 lock protects.  Any thread that is able to may take the next step.  A thread is named by the table
 slot of its process, and a lock by the thread that holds it, or FREE.
 */
module Processes {

  const NPROC := 64
  const INIT := 0
  const FREE := -1
  const NOBODY := -1

  datatype PState = UNUSED | USED | SLEEPING | RUNNABLE | RUNNING | ZOMBIE

  /** What a process can sleep for. */
  datatype Reason = ForChild | ForLock(l: nat)

  datatype Chan = NoChan | OnProc(p: int) | OnLock(l: nat)

  /** The argument of sleep: the process itself in wait, the lock in acquiresleep. */
  function ChanOf(w: Reason, me: nat): Chan {
    match w
    case ForChild => OnProc(me)
    case ForLock(l) => OnLock(l)
  }

  datatype Proc = Proc(state: PState, chan: Chan, parent: int, pid: nat, killed: bool)

  /** What follows a call of wakeup. */
  datatype Then = ThenUnguard(l: nat) | ThenReparent(k: nat) | ThenDie

  /** Where a kernel thread is. */
  datatype Pc =
    | Off                              // no thread
    | Ready                            // switched out, and not asleep
    | Resumed                          // switched in; holds its own lock
    | Run                              // in none of the modelled sections
    | Yielding                         // holds its own lock
    | Sleep1(w: Reason)                // in sleep: holds the guard
    | Sleep2(w: Reason)                // holds the guard and its own lock
    | Sleep3(w: Reason)                // holds its own lock
    | Sleep4(w: Reason)                // the same, in state SLEEPING
    | Away(w: Reason)                  // switched out
    | Awake(w: Reason)                 // switched in; holds its own lock
    | Rejoining(w: Reason)             // on the way to the guard
    | Acquiring(l: nat)                // in acquiresleep: holds the guard
    | Waking(j: nat, next: Then)       // in wakeup, at slot j
    | Scanning(j: nat, havekids: bool) // in wait: holds wait_lock
    | Reparenting(k: nat)              // in exit: holds wait_lock
    | Dying                            // all children given away, the parent woken
    | Gone                             // zombie; holds its own lock
    | Fork1(c: nat)                    // in fork: holds the lock of the new slot
    | Fork2(c: nat)                    // holds no lock, the child has no parent
    | Fork3(c: nat)                    // the child has a parent

  /** The kernel: process table and locks, and per sleep lock its guard and its holder.  The other fields
      only record history: the thread that made a slot's process, the pids handed out and reaped, and the
      sleep locks that a thread has come out of acquiresleep with and not given to releasesleep. */
  datatype State = State(proc: seq<Proc>, pc: seq<Pc>, plock: seq<int>, waitLock: int, guard: seq<int>,
                         holder: seq<int>, maker: seq<int>, nextpid: nat, reaped: set<nat>, has: seq<set<nat>>)

  ghost predicate Shape(s: State) {
    && |s.proc| == |s.pc| == |s.plock| == |s.maker| == |s.has| == NPROC && |s.guard| == |s.holder|
  }

  ghost predicate At(s: State, t: nat) { Shape(s) && t < NPROC }

  function SetPc(s: State, t: nat, pc: Pc): State
    requires t < |s.pc|
  {
    s.(pc := s.pc[t := pc])
  }

  function SetState(s: State, t: nat, x: PState): State
    requires t < |s.proc|
  {
    s.(proc := s.proc[t := s.proc[t].(state := x)])
  }

  function SetPlock(s: State, i: nat, o: int): State
    requires i < |s.plock|
  {
    s.(plock := s.plock[i := o])
  }

  function SetGuard(s: State, l: nat, o: int): State
    requires l < |s.guard|
  {
    s.(guard := s.guard[l := o])
  }

  // ---------- The scheduler ----------

  /** The scheduler takes the lock of a runnable process and switches to its thread. */
  ghost predicate DispatchStep(s: State, s': State, t: nat) {
    && At(s, t) && s.plock[t] == FREE && s.proc[t].state == RUNNABLE && (s.pc[t].Ready? || s.pc[t].Away?)
    && s' == SetPc(SetState(SetPlock(s, t, t), t, RUNNING), t, if s.pc[t].Ready? then Resumed else Awake(s.pc[t].w))
  }

  /** A thread in sched switches to the scheduler, which releases the thread's lock. */
  ghost predicate SwitchStep(s: State, s': State, t: nat) {
    && At(s, t) && (s.pc[t].Yielding? || s.pc[t].Sleep4? || s.pc[t].Gone?)
    && s' == SetPc(SetPlock(s, t, FREE), t,
                   if s.pc[t].Yielding? then Ready else if s.pc[t].Gone? then Off else Away(s.pc[t].w))
  }

  /** The end of sched for a thread that was not asleep: yield, or the first run of a child in forkret. */
  ghost predicate ResumeStep(s: State, s': State, t: nat) {
    At(s, t) && s.pc[t].Resumed? && s' == SetPc(SetPlock(s, t, FREE), t, Run)
  }

  ghost predicate YieldStep(s: State, s': State, t: nat) {
    && At(s, t) && s.pc[t].Run? && s.plock[t] == FREE
    && s' == SetPc(SetState(SetPlock(s, t, t), t, RUNNABLE), t, Yielding)
  }

  // ---------- sleep and wakeup ----------

  ghost predicate SleepLockStep(s: State, s': State, t: nat) {
    && At(s, t) && s.pc[t].Sleep1? && s.plock[t] == FREE
    && s' == SetPc(SetPlock(s, t, t), t, Sleep2(s.pc[t].w))
  }

  ghost predicate SleepUnguardStep(s: State, s': State, t: nat) {
    && At(s, t) && s.pc[t].Sleep2?
    && match s.pc[t].w {
         case ForChild => s' == SetPc(s.(waitLock := FREE), t, Sleep3(ForChild))
         case ForLock(l) => l < |s.guard| && s' == SetPc(SetGuard(s, l, FREE), t, Sleep3(ForLock(l)))
       }
  }

  ghost predicate SleepStep(s: State, s': State, t: nat) {
    && At(s, t) && s.pc[t].Sleep3?
    && s' == SetPc(s.(proc := s.proc[t := s.proc[t].(state := SLEEPING, chan := ChanOf(s.pc[t].w, t))]), t,
                   Sleep4(s.pc[t].w))
  }

  ghost predicate WokenStep(s: State, s': State, t: nat) {
    && At(s, t) && s.pc[t].Awake?
    && s' == SetPc(SetPlock(s.(proc := s.proc[t := s.proc[t].(chan := NoChan)]), t, FREE), t, Rejoining(s.pc[t].w))
  }

  /** The guard is taken again, and the caller's loop starts over. */
  ghost predicate RejoinStep(s: State, s': State, t: nat) {
    && At(s, t) && s.pc[t].Rejoining?
    && match s.pc[t].w {
         case ForChild => s.waitLock == FREE && s' == SetPc(s.(waitLock := t), t, Scanning(0, false))
         case ForLock(l) => l < |s.guard| && s.guard[l] == FREE && s' == SetPc(SetGuard(s, l, t), t, Acquiring(l))
       }
  }

  /** The channel of the wakeup that thread t is in. */
  function WakeChan(s: State, t: nat): Chan
    requires t < |s.pc| && t < |s.proc| && s.pc[t].Waking?
  {
    match s.pc[t].next
    case ThenUnguard(l) => OnLock(l)
    case ThenReparent(_) => OnProc(INIT)
    case ThenDie => OnProc(s.proc[t].parent)
  }

  function WokenUp(s: State, j: nat, chan: Chan): State
    requires j < |s.proc|
  {
    if s.proc[j].state == SLEEPING && s.proc[j].chan == chan then SetState(s, j, RUNNABLE) else s
  }

  /** One round of wakeup; the lock of the slot is taken and released. */
  ghost predicate WakeStep(s: State, s': State, t: nat) {
    && At(s, t) && s.pc[t].Waking? && s.pc[t].j < NPROC
    && var j := s.pc[t].j;
       if j == t then s' == SetPc(s, t, Waking(j + 1, s.pc[t].next))
       else s.plock[j] == FREE && s' == SetPc(WokenUp(s, j, WakeChan(s, t)), t, Waking(j + 1, s.pc[t].next))
  }

  ghost predicate WakeEndStep(s: State, s': State, t: nat) {
    && At(s, t) && s.pc[t].Waking? && s.pc[t].j == NPROC
    && match s.pc[t].next {
         case ThenUnguard(l) => l < |s.guard| && s' == SetPc(SetGuard(s, l, FREE), t, Run)
         case ThenReparent(k) => s' == SetPc(s, t, Reparenting(k))
         case ThenDie => s' == SetPc(s, t, Dying)
       }
  }

  /** kill: the slot's lock is taken and released. */
  ghost predicate KillStep(s: State, s': State, t: nat, j: nat) {
    && At(s, t) && s.pc[t].Run? && j < NPROC && s.plock[j] == FREE
    && var p := s.proc[j].(killed := true);
       s' == s.(proc := s.proc[j := if p.state == SLEEPING then p.(state := RUNNABLE) else p])
  }

  // ---------- acquiresleep and releasesleep ----------

  ghost predicate AcquireStep(s: State, s': State, t: nat, l: nat) {
    && At(s, t) && s.pc[t].Run? && l < |s.guard| && s.guard[l] == FREE
    && s' == SetPc(SetGuard(s, l, t), t, Acquiring(l))
  }

  /** The test of the loop in acquiresleep: sleep, or take the lock and leave. */
  ghost predicate TakeStep(s: State, s': State, t: nat) {
    && At(s, t) && s.pc[t].Acquiring? && s.pc[t].l < |s.holder|
    && var l := s.pc[t].l;
       if s.holder[l] != NOBODY then s' == SetPc(s, t, Sleep1(ForLock(l)))
       else s' == SetPc(SetGuard(s.(holder := s.holder[l := t], has := s.has[t := s.has[t] + {l}]), l, FREE), t, Run)
  }

  /** releasesleep up to the call of wakeup. */
  ghost predicate ReleaseStep(s: State, s': State, t: nat, l: nat) {
    && At(s, t) && s.pc[t].Run? && l < |s.guard| && s.guard[l] == FREE && s.holder[l] == t
    && s' == SetPc(SetGuard(s.(holder := s.holder[l := NOBODY], has := s.has[t := s.has[t] - {l}]), l, t), t,
                   Waking(0, ThenUnguard(l)))
  }

  // ---------- wait ----------

  ghost predicate WaitStep(s: State, s': State, t: nat) {
    At(s, t) && s.pc[t].Run? && s.waitLock == FREE && s' == SetPc(s.(waitLock := t), t, Scanning(0, false))
  }

  /** A slot that is not a zombie child. */
  ghost predicate ScanStep(s: State, s': State, t: nat) {
    && At(s, t) && s.pc[t].Scanning? && s.pc[t].j < NPROC
    && var j := s.pc[t].j;
       if s.proc[j].parent != t then s' == SetPc(s, t, Scanning(j + 1, s.pc[t].havekids))
       else s.plock[j] == FREE && s.proc[j].state != ZOMBIE && s' == SetPc(s, t, Scanning(j + 1, true))
  }

  /** A zombie child is freed. */
  ghost predicate ReapStep(s: State, s': State, t: nat) {
    && At(s, t) && s.pc[t].Scanning? && s.pc[t].j < NPROC
    && var j := s.pc[t].j;
       && s.proc[j].parent == t && s.plock[j] == FREE && s.proc[j].state == ZOMBIE
       && s' == SetPc(s.(proc := s.proc[j := Proc(UNUSED, NoChan, NOBODY, 0, false)], waitLock := FREE,
                         reaped := s.reaped + {s.proc[j].pid}), t, Run)
  }

  /** The other ways out of wait: the status cannot be copied out, or there is nothing to wait for. */
  ghost predicate WaitFailStep(s: State, s': State, t: nat) {
    && At(s, t) && s.pc[t].Scanning? && s.pc[t].j <= NPROC
    && (if s.pc[t].j < NPROC then
          && s.proc[s.pc[t].j].parent == t && s.plock[s.pc[t].j] == FREE
          && s.proc[s.pc[t].j].state == ZOMBIE
        else !s.pc[t].havekids || s.proc[t].killed)
    && s' == SetPc(s.(waitLock := FREE), t, Run)
  }

  ghost predicate WaitSleepStep(s: State, s': State, t: nat) {
    && At(s, t) && s.pc[t].Scanning? && s.pc[t].j == NPROC && s.pc[t].havekids && !s.proc[t].killed
    && s' == SetPc(s, t, Sleep1(ForChild))
  }

  // ---------- exit ----------

  /** init may not exit. */
  ghost predicate ExitStep(s: State, s': State, t: nat) {
    At(s, t) && t != INIT && s.pc[t].Run? && s.waitLock == FREE && s' == SetPc(s.(waitLock := t), t, Reparenting(0))
  }

  ghost predicate ReparentStep(s: State, s': State, t: nat) {
    && At(s, t) && s.pc[t].Reparenting? && s.pc[t].k < NPROC
    && var k := s.pc[t].k;
       if s.proc[k].parent != t then s' == SetPc(s, t, Reparenting(k + 1))
       else s' == SetPc(s.(proc := s.proc[k := s.proc[k].(parent := INIT)]), t, Waking(0, ThenReparent(k + 1)))
  }

  ghost predicate OrphanedStep(s: State, s': State, t: nat) {
    At(s, t) && s.pc[t].Reparenting? && s.pc[t].k == NPROC && s' == SetPc(s, t, Waking(0, ThenDie))
  }

  ghost predicate DieStep(s: State, s': State, t: nat) {
    && At(s, t) && s.pc[t].Dying? && s.plock[t] == FREE
    && s' == SetPc(SetState(SetPlock(s, t, t).(waitLock := FREE), t, ZOMBIE), t, Gone)
  }

  // ---------- fork ----------

  /** allocproc finds slot c. */
  ghost predicate AllocStep(s: State, s': State, t: nat, c: nat) {
    && At(s, t) && s.pc[t].Run? && c < NPROC && s.plock[c] == FREE && s.proc[c].state == UNUSED
    && s' == SetPc(SetPlock(s, c, t).(proc := s.proc[c := s.proc[c].(state := USED, pid := s.nextpid)],
                                      maker := s.maker[c := t], nextpid := s.nextpid + 1), t, Fork1(c))
  }

  /** freeproc after a failure. */
  ghost predicate ForkFailStep(s: State, s': State, t: nat) {
    && At(s, t) && s.pc[t].Fork1? && s.pc[t].c < NPROC
    && s' == SetPc(SetPlock(s, s.pc[t].c, FREE).(proc := s.proc[s.pc[t].c := Proc(UNUSED, NoChan, NOBODY, 0, false)]),
                   t, Run)
  }

  ghost predicate CopiedStep(s: State, s': State, t: nat) {
    && At(s, t) && s.pc[t].Fork1? && s.pc[t].c < NPROC
    && s' == SetPc(SetPlock(s, s.pc[t].c, FREE), t, Fork2(s.pc[t].c))
  }

  /** wait_lock is taken and released. */
  ghost predicate AdoptStep(s: State, s': State, t: nat) {
    && At(s, t) && s.pc[t].Fork2? && s.pc[t].c < NPROC && s.waitLock == FREE
    && s' == SetPc(s.(proc := s.proc[s.pc[t].c := s.proc[s.pc[t].c].(parent := t)]), t, Fork3(s.pc[t].c))
  }

  ghost predicate LaunchStep(s: State, s': State, t: nat) {
    && At(s, t) && s.pc[t].Fork3? && s.pc[t].c < NPROC && s.plock[s.pc[t].c] == FREE
    && s' == SetPc(SetPc(SetState(s, s.pc[t].c, RUNNABLE), s.pc[t].c, Ready), t, Run)
  }

  datatype Step =
    Dispatch | Switch | Resume | Yield | SleepLock | SleepUnguard | Sleep | Woken | Rejoin | Wake | WakeEnd |
    Take | Wait | Scan | Reap | WaitFail | WaitSleep | Exit | Reparent | Orphaned | Die | ForkFail | Copied |
    Adopt | Launch | Kill(j: nat) | Acquire(l: nat) | Release(l: nat) | Alloc(c: nat)

  /** Thread t, or the scheduler for it, takes a step. */
  ghost predicate NextStep(s: State, s': State, t: nat, step: Step) {
    match step
    case Dispatch => DispatchStep(s, s', t)
    case Switch => SwitchStep(s, s', t)
    case Resume => ResumeStep(s, s', t)
    case Yield => YieldStep(s, s', t)
    case SleepLock => SleepLockStep(s, s', t)
    case SleepUnguard => SleepUnguardStep(s, s', t)
    case Sleep => SleepStep(s, s', t)
    case Woken => WokenStep(s, s', t)
    case Rejoin => RejoinStep(s, s', t)
    case Wake => WakeStep(s, s', t)
    case WakeEnd => WakeEndStep(s, s', t)
    case Take => TakeStep(s, s', t)
    case Wait => WaitStep(s, s', t)
    case Scan => ScanStep(s, s', t)
    case Reap => ReapStep(s, s', t)
    case WaitFail => WaitFailStep(s, s', t)
    case WaitSleep => WaitSleepStep(s, s', t)
    case Exit => ExitStep(s, s', t)
    case Reparent => ReparentStep(s, s', t)
    case Orphaned => OrphanedStep(s, s', t)
    case Die => DieStep(s, s', t)
    case ForkFail => ForkFailStep(s, s', t)
    case Copied => CopiedStep(s, s', t)
    case Adopt => AdoptStep(s, s', t)
    case Launch => LaunchStep(s, s', t)
    case Kill(j) => KillStep(s, s', t, j)
    case Acquire(l) => AcquireStep(s, s', t, l)
    case Release(l) => ReleaseStep(s, s', t, l)
    case Alloc(c) => AllocStep(s, s', t, c)
  }

  ghost predicate Next(s: State, s': State) {
    exists t, step :: NextStep(s, s', t, step)
  }

  ghost predicate StepAt(run: seq<State>, i: nat) {
    i + 1 < |run| && Next(run[i], run[i + 1])
  }

  /** At boot there is the first process and nothing else. */
  ghost predicate Init(s: State) {
    && Shape(s) && s.waitLock == FREE && s.nextpid == 2 && s.reaped == {}
    && s.proc[INIT] == Proc(RUNNABLE, NoChan, NOBODY, 1, false) && s.pc[INIT] == Ready
    && (forall i | 0 <= i < NPROC && i != INIT :: s.proc[i] == Proc(UNUSED, NoChan, NOBODY, 0, false) && s.pc[i] == Off)
    && (forall i | 0 <= i < NPROC :: s.plock[i] == FREE && s.has[i] == {})
    && (forall l | 0 <= l < |s.guard| :: s.guard[l] == FREE && s.holder[l] == NOBODY)
  }

  ghost predicate IsRun(run: seq<State>) {
    run != [] && Init(run[0]) && forall i {:trigger StepAt(run, i)} | 0 <= i < |run| - 1 :: StepAt(run, i)
  }

  // ---------- The invariant ----------

  /** Whether a thread at pc holds the lock of slot i, wait_lock, or the guard of sleep lock l. */
  predicate HoldsProc(pc: Pc, t: nat, i: nat) {
    || (i == t && (pc.Resumed? || pc.Yielding? || pc.Sleep2? || pc.Sleep3? || pc.Sleep4? || pc.Awake? || pc.Gone?))
    || pc == Fork1(i)
  }

  predicate HoldsWait(pc: Pc) {
    || pc == Sleep1(ForChild) || pc == Sleep2(ForChild) || pc.Scanning? || pc.Reparenting? || pc.Dying?
    || (pc.Waking? && !pc.next.ThenUnguard?)
  }

  predicate HoldsGuard(pc: Pc, l: nat) {
    || pc == Sleep1(ForLock(l)) || pc == Sleep2(ForLock(l)) || pc == Acquiring(l)
    || (pc.Waking? && pc.next == ThenUnguard(l))
  }

  /** The state of a process is the one its thread is to have at pc. */
  predicate StateFits(p: Proc, pc: Pc, t: nat) {
    match pc
    case Off => p.state.UNUSED? || p.state.USED? || p.state.ZOMBIE?
    case Gone => p.state.ZOMBIE?
    case Sleep4(w) => p.state.SLEEPING? && p.chan == ChanOf(w, t)
    case Away(w) => p.state.RUNNABLE? || (p.state.SLEEPING? && p.chan == ChanOf(w, t))
    case Ready => p.state.RUNNABLE?
    case Yielding => p.state.RUNNABLE?
    case _ => p.state.RUNNING?
  }

  predicate Alive(x: PState) { x.SLEEPING? || x.RUNNABLE? || x.RUNNING? }

  /** Thread q has given up the guard and needs a wakeup to go on. */
  predicate Sleeper(s: State, q: nat, w: Reason)
    requires q < |s.pc| && q < |s.proc|
  {
    s.pc[q] == Sleep3(w) || s.pc[q] == Sleep4(w) || (s.pc[q] == Away(w) && s.proc[q].state.SLEEPING?)
  }

  /** Thread t is in a wakeup on chan that has not come to slot q yet. */
  predicate WillWake(s: State, t: int, chan: Chan, q: nat)
    requires |s.pc| == |s.proc| == NPROC
  {
    0 <= t < NPROC && s.pc[t].Waking? && WakeChan(s, t) == chan && s.pc[t].j <= q
  }

  ghost predicate ThreadOk(s: State, t: nat)
    requires Shape(s)
  {
    t < NPROC ==>
      && StateFits(s.proc[t], s.pc[t], t)
      && (s.plock[t] != FREE ==> 0 <= s.plock[t] < NPROC && HoldsProc(s.pc[s.plock[t]], s.plock[t], t))
      && (HoldsWait(s.pc[t]) ==> s.waitLock == t)
      && ParentOk(s, t) && ForkOk(s, t) && PidOk(s, t) && SleepOk(s, t) && ExitOk(s, t)
  }

  ghost predicate ParentOk(s: State, c: nat)
    requires Shape(s) && c < NPROC
  {
    var p := s.proc[c].parent;
    && (p == NOBODY || (0 <= p < NPROC && Alive(s.proc[p].state)))
    && (p == NOBODY ==> s.proc[c].state.UNUSED? || s.proc[c].state.USED? || c == INIT)
    && (s.proc[c].state.UNUSED? ==> p == NOBODY)
  }

  ghost predicate ForkOk(s: State, t: nat)
    requires Shape(s) && t < NPROC
  {
    s.pc[t].Fork1? || s.pc[t].Fork2? || s.pc[t].Fork3? ==>
      var c := s.pc[t].c;
      && c < NPROC && c != t && s.proc[c].state.USED? && s.pc[c] == Off && s.maker[c] == t
      && s.proc[c].parent == if s.pc[t].Fork3? then t else NOBODY
  }

  ghost predicate PidOk(s: State, i: nat)
    requires Shape(s) && i < NPROC
  {
    && (!s.proc[i].state.UNUSED? ==> s.proc[i].pid < s.nextpid && s.proc[i].pid !in s.reaped)
    && (i == INIT ==> Alive(s.proc[i].state))
  }

  /** A sleeper for a lock can count on its release or on a wakeup that is under way. */
  ghost predicate SleepOk(s: State, q: nat)
    requires Shape(s) && q < NPROC
  {
    && (forall l: nat | Sleeper(s, q, ForLock(l)) ::
        l < |s.guard| && (s.holder[l] != NOBODY || WillWake(s, s.guard[l], OnLock(l), q)))
    && ((s.pc[q].Sleep1? || s.pc[q].Sleep2?) && s.pc[q].w.ForLock? ==>
        s.pc[q].w.l < |s.guard| && s.holder[s.pc[q].w.l] != NOBODY)
    && ((s.pc[q].Away? || s.pc[q].Awake? || s.pc[q].Rejoining?) && s.pc[q].w.ForLock? ==> s.pc[q].w.l < |s.guard|)
    && (s.pc[q].Acquiring? ==> s.pc[q].l < |s.guard|)
    && (s.pc[q].Waking? && s.pc[q].next.ThenUnguard? ==> s.pc[q].next.l < |s.guard|)
  }

  /** A process about to die has a parent, who is not asleep in wait once it has been woken. */
  ghost predicate ExitOk(s: State, t: nat)
    requires Shape(s) && t < NPROC
  {
    && (s.pc[t].Reparenting? || s.pc[t].Dying? || (s.pc[t].Waking? && !s.pc[t].next.ThenUnguard?) ==> t != INIT)
    && (s.pc[t].Waking? && s.pc[t].next.ThenDie? ==>
          var q := s.proc[t].parent; 0 <= q < NPROC && (Sleeper(s, q, ForChild) ==> s.pc[t].j <= q))
    && (s.pc[t].Dying? ==> var q := s.proc[t].parent; 0 <= q < NPROC && !Sleeper(s, q, ForChild))
  }

  ghost predicate PairOk(s: State, t: nat, c: nat)
    requires Shape(s)
  {
    t < NPROC && c < NPROC ==>
      && (HoldsProc(s.pc[t], t, c) ==> s.plock[c] == t)
      && (c != t && !s.proc[t].state.UNUSED? && !s.proc[c].state.UNUSED? ==> s.proc[t].pid != s.proc[c].pid)
      && ChildOk(s, t, c)
  }

  /** Of thread t and a child c: no zombie waits for a sleeping parent, unless a wakeup is under way;
      and an exiting process gives all children away. */
  ghost predicate ChildOk(s: State, t: nat, c: nat)
    requires Shape(s) && t < NPROC && c < NPROC
  {
    s.proc[c].parent == t ==>
      && (s.proc[c].state.ZOMBIE? ==>
            && (Sleeper(s, t, ForChild) ==> WillWake(s, s.waitLock, OnProc(t), t))
            && !(s.pc[t] == Sleep1(ForChild) || s.pc[t] == Sleep2(ForChild) || (s.pc[t].Scanning? && c < s.pc[t].j)))
      && (s.pc[t].Reparenting? ==> s.pc[t].k <= c)
      && (s.pc[t].Waking? && s.pc[t].next.ThenReparent? ==> s.pc[t].next.k <= c)
      && !(s.pc[t].Dying? || (s.pc[t].Waking? && s.pc[t].next.ThenDie?))
  }

  ghost predicate GuardOk(s: State, l: nat)
    requires Shape(s)
  {
    l < |s.guard| ==>
      && (s.guard[l] != FREE ==> 0 <= s.guard[l] < NPROC && HoldsGuard(s.pc[s.guard[l]], l))
      && (forall t {:trigger GuardHeld(s, t, l)} :: GuardHeld(s, t, l))
  }

  ghost predicate GuardHeld(s: State, t: nat, l: nat)
    requires Shape(s) && l < |s.guard|
  {
    t < NPROC && HoldsGuard(s.pc[t], l) ==> s.guard[l] == t
  }

  ghost predicate Inv(s: State) {
    && Shape(s) && (s.waitLock != FREE ==> 0 <= s.waitLock < NPROC && HoldsWait(s.pc[s.waitLock]))
    && (forall t {:trigger ThreadOk(s, t)} :: ThreadOk(s, t))
    && (forall t, c {:trigger PairOk(s, t, c)} :: PairOk(s, t, c))
    && (forall l {:trigger GuardOk(s, l)} :: GuardOk(s, l))
    && (forall pid | pid in s.reaped :: pid < s.nextpid)
  }

  lemma InitInv(s: State)
    requires Init(s)
    ensures Inv(s)
  {
    forall t: nat ensures ThreadOk(s, t) {
    }
    forall t: nat, c: nat ensures PairOk(s, t, c) {
    }
    forall l: nat ensures GuardOk(s, l) {
    }
  }

  // ---------- Steps that change one thread ----------

  /** Who holds a lock that t acquires, releases or leaves alone. */
  ghost predicate LockMoves(o: int, o': int, had: bool, has: bool, t: nat) {
    o' == (if has then t else if had then FREE else o) && (has && !had ==> o == FREE)
  }

  /** Only thread t, its slot and the locks it moves are changed; and no wakeup is cut short. */
  ghost predicate Local(s: State, s': State, t: nat) {
    && At(s, t) && Shape(s') && |s'.guard| == |s.guard| && s'.maker == s.maker && s'.nextpid == s.nextpid
    && s'.reaped == s.reaped
    && s'.pc == s.pc[t := s'.pc[t]] && s'.proc == s.proc[t := s'.proc[t]] && s'.plock == s.plock[t := s'.plock[t]]
    && s'.proc[t].parent == s.proc[t].parent && s'.proc[t].pid == s.proc[t].pid
    && !s.pc[t].Off? && !IsFork(s.pc[t]) && !IsFork(s'.pc[t]) && (s.pc[t].Waking? ==> s.pc[t].j == NPROC)
    && (if s.proc[t].state.ZOMBIE? then s'.proc[t].state.ZOMBIE? else Alive(s.proc[t].state) && Alive(s'.proc[t].state))
    && LockMoves(s.plock[t], s'.plock[t], HoldsProc(s.pc[t], t, t), HoldsProc(s'.pc[t], t, t), t)
    && LockMoves(s.waitLock, s'.waitLock, HoldsWait(s.pc[t]), HoldsWait(s'.pc[t]), t)
    && (forall l {:trigger GuardMoves(s, s', t, l)} :: GuardMoves(s, s', t, l))
    && (Sleeper(s', t, ForChild) ==> Sleeper(s, t, ForChild) || HoldsWait(s.pc[t]))
  }

  predicate IsFork(pc: Pc) { pc.Fork1? || pc.Fork2? || pc.Fork3? }

  /** The holder changes under the guard, and is gone only when a wakeup begins. */
  ghost predicate GuardMoves(s: State, s': State, t: nat, l: nat)
    requires At(s, t) && Shape(s') && |s'.guard| == |s.guard|
  {
    l < |s.guard| ==>
      && LockMoves(s.guard[l], s'.guard[l], HoldsGuard(s.pc[t], l), HoldsGuard(s'.pc[t], l), t)
      && (s'.holder[l] != s.holder[l] ==> s.guard[l] == FREE || s.guard[l] == t)
      && (s'.holder[l] == NOBODY && s.holder[l] != NOBODY ==> s'.pc[t] == Waking(0, ThenUnguard(l)))
  }

  /** What is left to show about t itself. */
  ghost predicate OwnOk(s: State, t: nat)
    requires At(s, t)
  {
    StateFits(s.proc[t], s.pc[t], t) && SleepOk(s, t) && ExitOk(s, t)
  }

  lemma LocalKeeps(s: State, s': State, t: nat)
    requires Inv(s) && Local(s, s', t) && OwnOk(s', t)
    requires forall c {:trigger ChildOk(s', t, c)} | 0 <= c < NPROC :: ChildOk(s', t, c)
    ensures Inv(s')
  {
    hide ThreadOk, PairOk, GuardOk, Local, OwnOk;
    LocalShape(s, s', t);
    LocalWaitLock(s, s', t);
    forall u: nat ensures ThreadOk(s', u) {
      LocalThread(s, s', t, u);
    }
    forall u: nat, c: nat ensures PairOk(s', u, c) {
      LocalPair(s, s', t, u, c);
    }
    forall l: nat ensures GuardOk(s', l) {
      LocalGuard(s, s', t, l);
    }
  }

  lemma LocalShape(s: State, s': State, t: nat)
    requires Local(s, s', t)
    ensures Shape(s') && s'.reaped == s.reaped && s'.nextpid == s.nextpid
  {
  }

  lemma LocalWaitLock(s: State, s': State, t: nat)
    requires Inv(s) && Local(s, s', t)
    ensures Shape(s') && (s'.waitLock != FREE ==> 0 <= s'.waitLock < NPROC && HoldsWait(s'.pc[s'.waitLock]))
  {
    hide PairOk, GuardOk, HoldsWait;
    assert ThreadOk(s, t);
  }

  lemma LocalGuard(s: State, s': State, t: nat, l: nat)
    requires Inv(s) && Local(s, s', t)
    ensures Shape(s') && GuardOk(s', l)
  {
    hide PairOk, ThreadOk, HoldsWait, HoldsGuard, HoldsProc;
    assert GuardOk(s, l) && GuardMoves(s, s', t, l);
    if l < |s.guard| {
      forall u: nat ensures GuardHeld(s', u, l) {
        assert GuardHeld(s, u, l) && GuardHeld(s, t, l);
      }
    }
  }

  lemma LocalThread(s: State, s': State, t: nat, u: nat)
    requires Inv(s) && Local(s, s', t) && OwnOk(s', t)
    ensures Shape(s') && ThreadOk(s', u)
  {
    hide PairOk, GuardOk, StateFits, HoldsGuard;
    assert ThreadOk(s, u) && ThreadOk(s, t);
    if u < NPROC {
      LocalOwner(s, s', t, u);
      if u != t {
        LocalSleep(s, s', t, u);
      }
    }
  }

  lemma LocalOwner(s: State, s': State, t: nat, u: nat)
    requires Inv(s) && Local(s, s', t) && u < NPROC
    ensures Shape(s')
            && (s'.plock[u] != FREE ==> 0 <= s'.plock[u] < NPROC && HoldsProc(s'.pc[s'.plock[u]], s'.plock[u], u))
  {
    hide GuardOk, StateFits, HoldsGuard, SleepOk, ExitOk, ParentOk, PidOk, HoldsWait;
    assert ThreadOk(s, u) && PairOk(s, t, t);
  }

  lemma LocalSleep(s: State, s': State, t: nat, q: nat)
    requires Inv(s) && Local(s, s', t) && q < NPROC && q != t
    ensures Shape(s') && SleepOk(s', q)
  {
    hide PairOk, StateFits, HoldsWait, HoldsProc, ParentOk, ForkOk, PidOk, ExitOk;
    assert ThreadOk(s, q);
    forall l: nat | l < |s.guard| ensures
      && (s.holder[l] != NOBODY || WillWake(s, s.guard[l], OnLock(l), q) ==>
          s'.holder[l] != NOBODY || WillWake(s', s'.guard[l], OnLock(l), q))
      && (HoldsGuard(s.pc[q], l) ==> s'.holder[l] == s.holder[l])
    {
      assert GuardMoves(s, s', t, l) && GuardOk(s, l) && GuardHeld(s, q, l) && GuardHeld(s, t, l);
    }
  }

  lemma LocalPair(s: State, s': State, t: nat, u: nat, c: nat)
    requires Inv(s) && Local(s, s', t) && (u == t && c < NPROC ==> ChildOk(s', t, c))
    ensures Shape(s') && PairOk(s', u, c)
  {
    hide GuardOk, StateFits, ParentOk, ForkOk, PidOk, SleepOk, ExitOk, HoldsGuard;
    assert PairOk(s, u, c) && PairOk(s, t, t) && ThreadOk(s, t) && ThreadOk(s, u);
  }

  lemma SwitchLocal(s: State, s': State, t: nat)
    requires Inv(s) && (DispatchStep(s, s', t) || SwitchStep(s, s', t))
    ensures Local(s, s', t)
  {
    hide ParentOk, PidOk, ForkOk, ChildOk, ExitOk, SleepOk;
    assert ThreadOk(s, t) && PairOk(s, t, t);
    forall l: nat ensures GuardMoves(s, s', t, l) {
      assert GuardOk(s, l) && (l < |s.guard| ==> GuardHeld(s, t, l));
    }
  }

  lemma SwitchKeeps(s: State, s': State, t: nat)
    requires Inv(s) && (DispatchStep(s, s', t) || SwitchStep(s, s', t))
    ensures Inv(s')
  {
    hide PidOk, ForkOk, Local, HoldsProc, HoldsGuard;
    assert ThreadOk(s, t);
    forall c: nat | c < NPROC ensures ChildOk(s', t, c) {
      assert PairOk(s, t, c);
    }
    SwitchLocal(s, s', t);
    LocalKeeps(s, s', t);
  }

  lemma ResumeLocal(s: State, s': State, t: nat)
    requires Inv(s) && (ResumeStep(s, s', t) || YieldStep(s, s', t))
    ensures Local(s, s', t)
  {
    hide ParentOk, PidOk, ForkOk, ChildOk, ExitOk, SleepOk;
    assert ThreadOk(s, t) && PairOk(s, t, t);
    forall l: nat ensures GuardMoves(s, s', t, l) {
      assert GuardOk(s, l) && (l < |s.guard| ==> GuardHeld(s, t, l));
    }
  }

  lemma ResumeKeeps(s: State, s': State, t: nat)
    requires Inv(s) && (ResumeStep(s, s', t) || YieldStep(s, s', t))
    ensures Inv(s')
  {
    hide PidOk, ForkOk, Local, HoldsProc, HoldsGuard;
    assert ThreadOk(s, t);
    forall c: nat | c < NPROC ensures ChildOk(s', t, c) {
      assert PairOk(s, t, c);
    }
    ResumeLocal(s, s', t);
    LocalKeeps(s, s', t);
  }

  lemma AsleepLocal(s: State, s': State, t: nat)
    requires Inv(s) && (SleepLockStep(s, s', t) || SleepUnguardStep(s, s', t) || SleepStep(s, s', t))
    ensures Local(s, s', t)
  {
    hide ParentOk, PidOk, ForkOk, ChildOk, ExitOk, SleepOk;
    assert ThreadOk(s, t) && PairOk(s, t, t);
    forall l: nat ensures GuardMoves(s, s', t, l) {
      assert GuardOk(s, l) && (l < |s.guard| ==> GuardHeld(s, t, l));
    }
  }

  lemma AsleepKeeps(s: State, s': State, t: nat)
    requires Inv(s) && (SleepLockStep(s, s', t) || SleepUnguardStep(s, s', t) || SleepStep(s, s', t))
    ensures Inv(s')
  {
    hide PidOk, ForkOk, Local, HoldsProc, HoldsGuard;
    assert ThreadOk(s, t);
    forall c: nat | c < NPROC ensures ChildOk(s', t, c) {
      assert PairOk(s, t, c);
    }
    AsleepLocal(s, s', t);
    LocalKeeps(s, s', t);
  }

  lemma AwakeLocal(s: State, s': State, t: nat)
    requires Inv(s) && (WokenStep(s, s', t) || RejoinStep(s, s', t))
    ensures Local(s, s', t)
  {
    hide ParentOk, PidOk, ForkOk, ChildOk, ExitOk, SleepOk;
    assert ThreadOk(s, t) && PairOk(s, t, t);
    forall l: nat ensures GuardMoves(s, s', t, l) {
      assert GuardOk(s, l) && (l < |s.guard| ==> GuardHeld(s, t, l));
    }
  }

  lemma AwakeKeeps(s: State, s': State, t: nat)
    requires Inv(s) && (WokenStep(s, s', t) || RejoinStep(s, s', t))
    ensures Inv(s')
  {
    hide PidOk, ForkOk, Local, HoldsProc, HoldsGuard;
    assert ThreadOk(s, t);
    forall c: nat | c < NPROC ensures ChildOk(s', t, c) {
      assert PairOk(s, t, c);
    }
    AwakeLocal(s, s', t);
    LocalKeeps(s, s', t);
  }

  lemma TakeLocal(s: State, s': State, t: nat, l: nat)
    requires Inv(s) && (AcquireStep(s, s', t, l) || TakeStep(s, s', t))
    ensures Local(s, s', t)
  {
    hide ParentOk, PidOk, ForkOk, ChildOk, ExitOk, SleepOk;
    assert ThreadOk(s, t) && PairOk(s, t, t);
    forall k: nat ensures GuardMoves(s, s', t, k) {
      assert GuardOk(s, k) && (k < |s.guard| ==> GuardHeld(s, t, k));
    }
  }

  lemma TakeKeeps(s: State, s': State, t: nat, l: nat)
    requires Inv(s) && (AcquireStep(s, s', t, l) || TakeStep(s, s', t))
    ensures Inv(s')
  {
    hide PidOk, ForkOk, Local, HoldsProc, HoldsGuard;
    assert ThreadOk(s, t);
    forall c: nat | c < NPROC ensures ChildOk(s', t, c) {
      assert PairOk(s, t, c);
    }
    TakeLocal(s, s', t, l);
    LocalKeeps(s, s', t);
  }

  lemma ReleaseLocal(s: State, s': State, t: nat, l: nat)
    requires Inv(s) && (ReleaseStep(s, s', t, l) || WakeEndStep(s, s', t))
    ensures Local(s, s', t)
  {
    hide ParentOk, PidOk, ForkOk, ChildOk, ExitOk, SleepOk;
    assert ThreadOk(s, t) && PairOk(s, t, t);
    forall k: nat ensures GuardMoves(s, s', t, k) {
      assert GuardOk(s, k) && (k < |s.guard| ==> GuardHeld(s, t, k));
    }
  }

  lemma ReleaseKeeps(s: State, s': State, t: nat, l: nat)
    requires Inv(s) && (ReleaseStep(s, s', t, l) || WakeEndStep(s, s', t))
    ensures Inv(s')
  {
    hide PidOk, ForkOk, Local, HoldsProc, HoldsGuard;
    assert ThreadOk(s, t);
    forall c: nat | c < NPROC ensures ChildOk(s', t, c) {
      assert PairOk(s, t, c);
    }
    ReleaseLocal(s, s', t, l);
    LocalKeeps(s, s', t);
  }

  lemma WaitLocal(s: State, s': State, t: nat)
    requires Inv(s) && (WaitStep(s, s', t) || ScanStep(s, s', t) || WaitFailStep(s, s', t) || WaitSleepStep(s, s', t))
    ensures Local(s, s', t)
  {
    hide ParentOk, PidOk, ForkOk, ChildOk, ExitOk, SleepOk;
    assert ThreadOk(s, t) && PairOk(s, t, t);
    forall l: nat ensures GuardMoves(s, s', t, l) {
      assert GuardOk(s, l) && (l < |s.guard| ==> GuardHeld(s, t, l));
    }
  }

  lemma WaitKeeps(s: State, s': State, t: nat)
    requires Inv(s) && (WaitStep(s, s', t) || ScanStep(s, s', t) || WaitFailStep(s, s', t) || WaitSleepStep(s, s', t))
    ensures Inv(s')
  {
    hide PidOk, ForkOk, Local, HoldsProc, HoldsGuard;
    assert ThreadOk(s, t);
    forall c: nat | c < NPROC ensures ChildOk(s', t, c) {
      assert PairOk(s, t, c);
    }
    WaitLocal(s, s', t);
    LocalKeeps(s, s', t);
  }

  lemma ExitLocal(s: State, s': State, t: nat)
    requires Inv(s) && (ExitStep(s, s', t) || OrphanedStep(s, s', t))
    ensures Local(s, s', t)
  {
    hide ParentOk, PidOk, ForkOk, ChildOk, ExitOk, SleepOk;
    assert ThreadOk(s, t) && PairOk(s, t, t);
    forall l: nat ensures GuardMoves(s, s', t, l) {
      assert GuardOk(s, l) && (l < |s.guard| ==> GuardHeld(s, t, l));
    }
  }

  lemma ExitKeeps(s: State, s': State, t: nat)
    requires Inv(s) && (ExitStep(s, s', t) || OrphanedStep(s, s', t))
    ensures Inv(s')
  {
    hide PidOk, ForkOk, Local, HoldsProc, HoldsGuard;
    assert ThreadOk(s, t);
    forall c: nat | c < NPROC ensures ChildOk(s', t, c) {
      assert PairOk(s, t, c);
    }
    ExitLocal(s, s', t);
    LocalKeeps(s, s', t);
  }

  // ---------- Steps that change another slot ----------

  /** A slot whose lock is free is marked killed, or its sleeper is made runnable, or both. */
  ghost predicate Roused(s: State, s': State, j: nat) {
    && At(s, j) && Shape(s') && s.plock[j] == FREE && s' == s.(proc := s.proc[j := s'.proc[j]])
    && s'.proc[j] == s.proc[j].(state := s'.proc[j].state, killed := s'.proc[j].killed)
    && (s'.proc[j].state == s.proc[j].state || (s.proc[j].state == SLEEPING && s'.proc[j].state == RUNNABLE))
  }

  lemma RousedKeeps(s: State, s': State, j: nat)
    requires Inv(s) && Roused(s, s', j)
    ensures Inv(s')
  {
    hide HoldsProc, HoldsWait, HoldsGuard, GuardOk;
    assert ThreadOk(s, j);
    assert !s.pc[j].Sleep3? && !s.pc[j].Sleep4? by { OwnLock(s, j); }
    forall u: nat ensures ThreadOk(s', u) {
      assert ThreadOk(s, u);
    }
    forall u: nat, c: nat ensures PairOk(s', u, c) {
      assert PairOk(s, u, c);
    }
    SameGuards(s, s');
  }

  lemma OwnLock(s: State, t: nat)
    requires Inv(s) && t < NPROC && s.plock[t] == FREE
    ensures !HoldsProc(s.pc[t], t, t) && !s.pc[t].Sleep3? && !s.pc[t].Sleep4? && !s.pc[t].Gone?
  {
    assert PairOk(s, t, t);
  }

  lemma SameGuards(s: State, s': State)
    requires Inv(s) && Shape(s') && s'.guard == s.guard && s'.holder == s.holder && s'.pc == s.pc
    ensures forall l {:trigger GuardOk(s', l)} :: GuardOk(s', l)
  {
    forall l: nat ensures GuardOk(s', l) {
      assert GuardOk(s, l);
      if l < |s.guard| {
        forall t: nat ensures GuardHeld(s', t, l) {
          assert GuardHeld(s, t, l);
        }
      }
    }
  }

  lemma KillKeeps(s: State, s': State, t: nat, j: nat)
    requires Inv(s) && KillStep(s, s', t, j)
    ensures Inv(s')
  {
    hide Inv;
    RousedKeeps(s, s', j);
  }

  lemma WakeKeeps(s: State, s': State, t: nat)
    requires Inv(s) && WakeStep(s, s', t)
    ensures Inv(s')
  {
    var j := s.pc[t].j;
    if j == t {
      WakePassed(s, s', t);
    } else {
      var s1 := WokenUp(s, j, WakeChan(s, t));
      RousedKeeps(s, s1, j);
      OwnLock(s, j);
      assert ThreadOk(s, j);
      hide Inv;
      WakePassed(s1, s', t);
    }
  }

  /** The wakeup goes on to the next slot: no thread at this one sleeps on its channel. */
  ghost predicate Passed(s: State, s': State, t: nat) {
    && At(s, t) && s.pc[t].Waking? && s.pc[t].j < NPROC && s' == SetPc(s, t, Waking(s.pc[t].j + 1, s.pc[t].next))
    && forall w | Sleeper(s, s.pc[t].j, w) :: ChanOf(w, s.pc[t].j) != WakeChan(s, t)
  }

  lemma WakePassed(s: State, s': State, t: nat)
    requires Inv(s) && Passed(s, s', t)
    ensures Inv(s')
  {
    hide SleepOk, ExitOk, ChildOk, HoldsProc, HoldsWait;
    assert ThreadOk(s, t);
    PassedHolds(s.pc[t], t);
    forall u: nat ensures ThreadOk(s', u) {
      assert ThreadOk(s, u);
      PassedThread(s, s', t, u);
    }
    forall u: nat, c: nat ensures PairOk(s', u, c) {
      assert PairOk(s, u, c);
      PassedChild(s, s', t, u, c);
    }
    forall l: nat ensures GuardOk(s', l) {
      assert GuardOk(s, l);
      if l < |s.guard| {
        forall u: nat ensures GuardHeld(s', u, l) {
          assert GuardHeld(s, u, l);
        }
      }
    }
  }

  lemma PassedHolds(pc: Pc, t: nat)
    requires pc.Waking?
    ensures HoldsWait(Waking(pc.j + 1, pc.next)) == HoldsWait(pc)
    ensures forall i: nat {:trigger HoldsProc(pc, t, i)} :: !HoldsProc(pc, t, i)
    ensures forall i: nat {:trigger HoldsProc(Waking(pc.j + 1, pc.next), t, i)} ::
              !HoldsProc(Waking(pc.j + 1, pc.next), t, i)
  {
  }

  lemma PassedThread(s: State, s': State, t: nat, u: nat)
    requires Inv(s) && Passed(s, s', t)
    ensures u < NPROC ==> SleepOk(s', u) && ExitOk(s', u)
  {
    hide ParentOk, PidOk, ForkOk, HoldsProc, HoldsWait, GuardOk, StateFits;
    assert ThreadOk(s, u);
    if u < NPROC {
      assert forall w :: Sleeper(s', u, w) == Sleeper(s, u, w);
      assert u == s.pc[t].j ==> !(WakeChan(s, t).OnLock? && Sleeper(s, u, ForLock(WakeChan(s, t).l)));
      PassedExit(s, s', t, u);
    }
  }

  lemma PassedExit(s: State, s': State, t: nat, u: nat)
    requires Inv(s) && Passed(s, s', t) && u < NPROC
    ensures ExitOk(s', u)
  {
    hide ParentOk, PidOk, ForkOk, HoldsProc, HoldsWait, GuardOk, StateFits, SleepOk;
    assert ThreadOk(s, u);
    assert forall q, w | 0 <= q < NPROC :: Sleeper(s', q, w) == Sleeper(s, q, w);
    assert Sleeper(s, s.pc[t].j, ForChild) ==> WakeChan(s, t) != OnProc(s.pc[t].j);
  }

  lemma PassedChild(s: State, s': State, t: nat, u: nat, c: nat)
    requires Inv(s) && Passed(s, s', t)
    ensures u < NPROC && c < NPROC ==> ChildOk(s', u, c)
  {
    hide HoldsProc, HoldsWait, GuardOk, StateFits, ThreadOk;
    assert PairOk(s, u, c);
    assert Sleeper(s, s.pc[t].j, ForChild) ==> WakeChan(s, t) != OnProc(s.pc[t].j);
  }
  // ---------- Slots that come and go ----------

  /** freeproc, of a zombie or of a process that never ran. */
  ghost predicate FreedSlot(s: State, s': State, j: nat) {
    && At(s, j) && s.pc[j] == Off && (s.proc[j].state.ZOMBIE? || s.proc[j].state.USED?)
    && (forall t {:trigger s.pc[t]} | 0 <= t < NPROC && IsFork(s.pc[t]) :: s.pc[t].c != j)
    && s' == s.(proc := s.proc[j := Proc(UNUSED, NoChan, NOBODY, 0, false)],
                reaped := if s.proc[j].state.ZOMBIE? then s.reaped + {s.proc[j].pid} else s.reaped)
  }

  lemma FreedSlotThreads(s: State, s': State, j: nat, u: nat)
    requires Inv(s) && FreedSlot(s, s', j)
    ensures Shape(s') && ThreadOk(s', u)
  {
    hide GuardOk, HoldsGuard, HoldsProc, HoldsWait;
    assert ThreadOk(s, j) && (u < NPROC && u != j ==> PairOk(s, u, j));
    assert ThreadOk(s, u);
  }

  lemma FreedSlotPairs(s: State, s': State, j: nat, u: nat, c: nat)
    requires Inv(s) && FreedSlot(s, s', j)
    ensures Shape(s') && PairOk(s', u, c)
  {
    hide GuardOk, HoldsGuard, HoldsProc, HoldsWait, ForkOk, SleepOk, ExitOk, PidOk, StateFits;
    assert ThreadOk(s, j) && (u < NPROC && u != j ==> PairOk(s, u, j));
    assert PairOk(s, u, c);
  }

  lemma FreedSlotKeeps(s: State, s': State, j: nat)
    requires Inv(s) && FreedSlot(s, s', j)
    ensures Inv(s')
  {
    hide ThreadOk, PairOk;
    assert Shape(s') by { FreedSlotThreads(s, s', j, 0); }
    forall u: nat ensures ThreadOk(s', u) {
      FreedSlotThreads(s, s', j, u);
    }
    forall u: nat, c: nat ensures PairOk(s', u, c) {
      FreedSlotPairs(s, s', j, u, c);
    }
    PidBound(s, j);
    SameGuards(s, s');
  }

  lemma PidBound(s: State, i: nat)
    requires Inv(s) && i < NPROC && !s.proc[i].state.UNUSED?
    ensures s.proc[i].pid < s.nextpid && s.proc[i].pid !in s.reaped
  {
    assert ThreadOk(s, i);
  }

  lemma ReapKeeps(s: State, s': State, t: nat)
    requires Inv(s) && ReapStep(s, s', t)
    ensures Inv(s')
  {
    var j := s.pc[t].j;
    assert ThreadOk(s, t) && ThreadOk(s, j);
    OwnLock(s, j);
    forall u: nat | u < NPROC && IsFork(s.pc[u]) ensures s.pc[u].c != j {
      assert ThreadOk(s, u);
    }
    var s1 := s.(proc := s.proc[j := Proc(UNUSED, NoChan, NOBODY, 0, false)], reaped := s.reaped + {s.proc[j].pid});
    hide Inv;
    FreedSlotKeeps(s, s1, j);
    ScanEndKeeps(s1, s', t);
  }

  lemma ScanEndKeeps(s: State, s': State, t: nat)
    requires Inv(s) && At(s, t) && s.pc[t].Scanning? && s' == SetPc(s.(waitLock := FREE), t, Run)
    ensures Inv(s')
  {
    hide ParentOk, PidOk, ForkOk;
    assert ThreadOk(s, t) && PairOk(s, t, t);
    forall l: nat ensures GuardMoves(s, s', t, l) {
    }
    forall c: nat | c < NPROC ensures ChildOk(s', t, c) {
    }
    LocalKeeps(s, s', t);
  }

  /** allocproc, but for the lock. */
  ghost predicate MadeSlot(s: State, s': State, j: nat, t: nat) {
    && At(s, j) && s.proc[j].state.UNUSED?
    && s' == s.(proc := s.proc[j := s.proc[j].(state := USED, pid := s.nextpid)], maker := s.maker[j := t],
                nextpid := s.nextpid + 1)
  }

  lemma MadeSlotThreads(s: State, s': State, j: nat, t: nat, u: nat)
    requires Inv(s) && MadeSlot(s, s', j, t)
    ensures Shape(s') && ThreadOk(s', u)
  {
    hide GuardOk, HoldsGuard, HoldsProc, HoldsWait;
    assert ThreadOk(s, j) && ThreadOk(s, u);
  }

  lemma MadeSlotPairs(s: State, s': State, j: nat, t: nat, u: nat, c: nat)
    requires Inv(s) && MadeSlot(s, s', j, t)
    ensures Shape(s') && PairOk(s', u, c)
  {
    hide GuardOk, HoldsGuard, HoldsProc, HoldsWait, ForkOk, SleepOk, ExitOk, StateFits, ParentOk;
    assert ThreadOk(s, u) && ThreadOk(s, c);
    assert PairOk(s, u, c);
  }

  lemma MadeSlotKeeps(s: State, s': State, j: nat, t: nat)
    requires Inv(s) && MadeSlot(s, s', j, t)
    ensures Inv(s')
  {
    hide ThreadOk, PairOk;
    assert Shape(s') by { MadeSlotThreads(s, s', j, t, 0); }
    forall u: nat ensures ThreadOk(s', u) {
      MadeSlotThreads(s, s', j, t, u);
    }
    forall u: nat, c: nat ensures PairOk(s', u, c) {
      MadeSlotPairs(s, s', j, t, u, c);
    }
    SameGuards(s, s');
  }

  /** Threads outside of the sections of sleep, wakeup, wait and exit matter to no other. */
  predicate Plain(pc: Pc) { pc.Run? || IsFork(pc) }

  lemma QuietThread(s: State, s': State, t: nat, u: nat)
    requires Inv(s) && At(s, t) && Shape(s') && s' == SetPc(s.(plock := s'.plock), t, s'.pc[t]) && Plain(s.pc[t])
             && Plain(s'.pc[t])
    ensures u < NPROC ==> SleepOk(s', u) && ExitOk(s', u)
  {
    hide ParentOk, PidOk, ForkOk, HoldsProc, HoldsWait, GuardOk, StateFits, PairOk;
    assert ThreadOk(s, u);
  }

  /** A thread in fork takes or releases the lock of the new slot. */
  ghost predicate ForkMove(s: State, s': State, t: nat, c: nat) {
    && At(s, t) && c < NPROC && Shape(s') && s' == SetPc(SetPlock(s, c, s'.plock[c]), t, s'.pc[t])
    && (s.pc[t] == Run || s.pc[t] == Fork1(c)) && (s'.pc[t] == Run || s'.pc[t] == Fork1(c) || s'.pc[t] == Fork2(c))
    && LockMoves(s.plock[c], s'.plock[c], s.pc[t] == Fork1(c), s'.pc[t] == Fork1(c), t)
    && ForkOk(s', t)
  }

  lemma ForkMoveThreads(s: State, s': State, t: nat, k: nat, u: nat)
    requires Inv(s) && ForkMove(s, s', t, k)
    ensures Shape(s') && ThreadOk(s', u)
  {
    hide GuardOk, HoldsGuard, SleepOk, ExitOk;
    assert ThreadOk(s, t) && PairOk(s, t, k);
    assert ThreadOk(s, u);
    QuietThread(s, s', t, u);
  }

  lemma ForkMovePairs(s: State, s': State, t: nat, k: nat, u: nat, c: nat)
    requires Inv(s) && ForkMove(s, s', t, k)
    ensures Shape(s') && PairOk(s', u, c)
  {
    hide GuardOk, HoldsGuard, ForkOk, ExitOk, PidOk, ParentOk;
    assert ThreadOk(s, t) && PairOk(s, t, k);
    assert PairOk(s, u, c);
  }

  lemma ForkMoveKeeps(s: State, s': State, t: nat, k: nat)
    requires Inv(s) && ForkMove(s, s', t, k)
    ensures Inv(s')
  {
    hide ThreadOk, PairOk;
    assert Shape(s') by { ForkMoveThreads(s, s', t, k, 0); }
    forall u: nat ensures ThreadOk(s', u) {
      ForkMoveThreads(s, s', t, k, u);
    }
    forall u: nat, c: nat ensures PairOk(s', u, c) {
      ForkMovePairs(s, s', t, k, u, c);
    }
    forall l: nat ensures GuardOk(s', l) {
      assert GuardOk(s, l);
      if l < |s.guard| {
        forall u: nat ensures GuardHeld(s', u, l) {
          assert GuardHeld(s, u, l);
        }
      }
    }
  }

  lemma AllocKeeps(s: State, s': State, t: nat, c: nat)
    requires Inv(s) && AllocStep(s, s', t, c)
    ensures Inv(s')
  {
    assert ThreadOk(s, t) && ThreadOk(s, c);
    hide Inv;
    var s1 := s.(proc := s.proc[c := s.proc[c].(state := USED, pid := s.nextpid)], maker := s.maker[c := t],
                 nextpid := s.nextpid + 1);
    MadeSlotKeeps(s, s1, c, t);
    ForkMoveKeeps(s1, s', t, c);
  }

  lemma ForkFailKeeps(s: State, s': State, t: nat)
    requires Inv(s) && ForkFailStep(s, s', t)
    ensures Inv(s')
  {
    var c := s.pc[t].c;
    assert ThreadOk(s, t);
    forall u: nat | u < NPROC && u != t && IsFork(s.pc[u]) ensures s.pc[u].c != c {
      assert ThreadOk(s, u);
    }
    hide Inv;
    var s1 := SetPc(SetPlock(s, c, FREE), t, Run);
    ForkMoveKeeps(s, s1, t, c);
    FreedSlotKeeps(s1, s', c);
  }

  lemma CopiedKeeps(s: State, s': State, t: nat)
    requires Inv(s) && CopiedStep(s, s', t)
    ensures Inv(s')
  {
    assert ThreadOk(s, t);
    hide Inv;
    ForkMoveKeeps(s, s', t, s.pc[t].c);
  }

  lemma AdoptThreads(s: State, s': State, t: nat, u: nat)
    requires Inv(s) && AdoptStep(s, s', t)
    ensures Shape(s') && ThreadOk(s', u)
  {
    hide GuardOk, HoldsGuard;
    assert ThreadOk(s, t);
    assert ThreadOk(s, u);
  }

  lemma AdoptPairs(s: State, s': State, t: nat, u: nat, c: nat)
    requires Inv(s) && AdoptStep(s, s', t)
    ensures Shape(s') && PairOk(s', u, c)
  {
    hide GuardOk, HoldsGuard;
    assert ThreadOk(s, t);
    assert PairOk(s, u, c);
  }

  lemma AdoptKeeps(s: State, s': State, t: nat)
    requires Inv(s) && AdoptStep(s, s', t)
    ensures Inv(s')
  {
    hide ThreadOk, PairOk;
    assert Shape(s') by { AdoptThreads(s, s', t, 0); }
    forall u: nat ensures ThreadOk(s', u) {
      AdoptThreads(s, s', t, u);
    }
    forall u: nat, c: nat ensures PairOk(s', u, c) {
      AdoptPairs(s, s', t, u, c);
    }
    forall l: nat ensures GuardOk(s', l) {
      assert GuardOk(s, l);
      if l < |s.guard| {
        forall u: nat ensures GuardHeld(s', u, l) {
          assert GuardHeld(s, u, l);
        }
      }
    }
  }

  lemma LaunchSleep(s: State, s': State, t: nat, u: nat)
    requires Inv(s) && LaunchStep(s, s', t) && u < NPROC
    ensures Shape(s') && SleepOk(s', u) && ExitOk(s', u)
  {
    hide ParentOk, PidOk, HoldsProc, HoldsWait, GuardOk, StateFits, PairOk;
    assert ThreadOk(s, t) && ThreadOk(s, u);
  }

  lemma LaunchThreads(s: State, s': State, t: nat, u: nat)
    requires Inv(s) && LaunchStep(s, s', t)
    ensures Shape(s') && ThreadOk(s', u)
  {
    hide GuardOk, HoldsGuard, SleepOk, ExitOk;
    assert ThreadOk(s, t) && ThreadOk(s, u);
    if u < NPROC {
      LaunchSleep(s, s', t, u);
    }
  }

  lemma LaunchPairs(s: State, s': State, t: nat, u: nat, c: nat)
    requires Inv(s) && LaunchStep(s, s', t)
    ensures Shape(s') && PairOk(s', u, c)
  {
    hide GuardOk, HoldsGuard;
    assert ThreadOk(s, t);
    assert PairOk(s, u, c);
  }

  lemma LaunchKeeps(s: State, s': State, t: nat)
    requires Inv(s) && LaunchStep(s, s', t)
    ensures Inv(s')
  {
    hide ThreadOk, PairOk;
    assert Shape(s') by { LaunchThreads(s, s', t, 0); }
    forall u: nat ensures ThreadOk(s', u) {
      LaunchThreads(s, s', t, u);
    }
    forall u: nat, c: nat ensures PairOk(s', u, c) {
      LaunchPairs(s, s', t, u, c);
    }
    ChildSlot(s, t);
    forall l: nat ensures GuardOk(s', l) {
      assert GuardOk(s, l);
      if l < |s.guard| {
        forall u: nat ensures GuardHeld(s', u, l) {
          assert GuardHeld(s, u, l);
        }
      }
    }
  }

  lemma ChildSlot(s: State, t: nat)
    requires Inv(s) && t < NPROC && IsFork(s.pc[t])
    ensures s.pc[t].c < NPROC && s.pc[t].c != t && s.pc[s.pc[t].c] == Off
  {
    assert ThreadOk(s, t);
  }

  lemma ReparentSleep(s: State, s': State, t: nat, u: nat)
    requires Inv(s) && ReparentStep(s, s', t) && u < NPROC
    ensures Shape(s') && SleepOk(s', u)
  {
    hide ParentOk, PidOk, ForkOk, ExitOk, HoldsProc, HoldsWait, GuardOk, StateFits, PairOk;
    assert ThreadOk(s, u);
  }

  lemma ReparentThreads(s: State, s': State, t: nat, u: nat)
    requires Inv(s) && ReparentStep(s, s', t)
    ensures Shape(s') && ThreadOk(s', u)
  {
    hide GuardOk, HoldsGuard, SleepOk;
    assert ThreadOk(s, t) && ThreadOk(s, INIT) && ThreadOk(s, u);
    if u < NPROC {
      ReparentSleep(s, s', t, u);
    }
  }

  lemma ReparentPairs(s: State, s': State, t: nat, u: nat, c: nat)
    requires Inv(s) && ReparentStep(s, s', t)
    ensures Shape(s') && PairOk(s', u, c)
  {
    hide GuardOk, HoldsGuard;
    assert ThreadOk(s, t) && ThreadOk(s, INIT) && ThreadOk(s, u);
    assert PairOk(s, u, c);
  }

  lemma ReparentKeeps(s: State, s': State, t: nat)
    requires Inv(s) && ReparentStep(s, s', t)
    ensures Inv(s')
  {
    hide ThreadOk, PairOk;
    assert Shape(s') by { ReparentThreads(s, s', t, 0); }
    forall u: nat ensures ThreadOk(s', u) {
      ReparentThreads(s, s', t, u);
    }
    forall u: nat, c: nat ensures PairOk(s', u, c) {
      ReparentPairs(s, s', t, u, c);
    }
    forall l: nat ensures GuardOk(s', l) {
      assert GuardOk(s, l);
      if l < |s.guard| {
        forall u: nat ensures GuardHeld(s', u, l) {
          assert GuardHeld(s, u, l);
        }
      }
    }
  }

  lemma DieThreads(s: State, s': State, t: nat, u: nat)
    requires Inv(s) && DieStep(s, s', t)
    ensures Shape(s') && ThreadOk(s', u)
  {
    hide GuardOk, HoldsGuard;
    assert ThreadOk(s, t) && ThreadOk(s, u) && PairOk(s, t, u) && PairOk(s, t, t);
  }

  lemma DiePairs(s: State, s': State, t: nat, u: nat, c: nat)
    requires Inv(s) && DieStep(s, s', t)
    ensures Shape(s') && PairOk(s', u, c)
  {
    hide GuardOk, HoldsGuard;
    assert ThreadOk(s, t) && ThreadOk(s, u) && PairOk(s, t, u) && PairOk(s, t, t);
    assert PairOk(s, u, c);
  }

  lemma DieKeeps(s: State, s': State, t: nat)
    requires Inv(s) && DieStep(s, s', t)
    ensures Inv(s')
  {
    hide ThreadOk, PairOk;
    assert Shape(s') by { DieThreads(s, s', t, 0); }
    forall u: nat ensures ThreadOk(s', u) {
      DieThreads(s, s', t, u);
    }
    forall u: nat, c: nat ensures PairOk(s', u, c) {
      DiePairs(s, s', t, u, c);
    }
    forall l: nat ensures GuardOk(s', l) {
      assert GuardOk(s, l);
      if l < |s.guard| {
        forall u: nat ensures GuardHeld(s', u, l) {
          assert GuardHeld(s, u, l);
        }
      }
    }
  }


  // ---------- All runs ----------

  lemma StepKeeps(s: State, s': State, t: nat, step: Step)
    requires Inv(s) && NextStep(s, s', t, step)
    ensures Inv(s')
  {
    hide Inv;
    match step {
      case Dispatch => SwitchKeeps(s, s', t);
      case Switch => SwitchKeeps(s, s', t);
      case Resume => ResumeKeeps(s, s', t);
      case Yield => ResumeKeeps(s, s', t);
      case SleepLock => AsleepKeeps(s, s', t);
      case SleepUnguard => AsleepKeeps(s, s', t);
      case Sleep => AsleepKeeps(s, s', t);
      case Woken => AwakeKeeps(s, s', t);
      case Rejoin => AwakeKeeps(s, s', t);
      case Wake => WakeKeeps(s, s', t);
      case WakeEnd => ReleaseKeeps(s, s', t, 0);
      case Take => TakeKeeps(s, s', t, 0);
      case Wait => WaitKeeps(s, s', t);
      case Scan => WaitKeeps(s, s', t);
      case Reap => ReapKeeps(s, s', t);
      case WaitFail => WaitKeeps(s, s', t);
      case WaitSleep => WaitKeeps(s, s', t);
      case Exit => ExitKeeps(s, s', t);
      case Reparent => ReparentKeeps(s, s', t);
      case Orphaned => ExitKeeps(s, s', t);
      case Die => DieKeeps(s, s', t);
      case ForkFail => ForkFailKeeps(s, s', t);
      case Copied => CopiedKeeps(s, s', t);
      case Adopt => AdoptKeeps(s, s', t);
      case Launch => LaunchKeeps(s, s', t);
      case Kill(j) => KillKeeps(s, s', t, j);
      case Acquire(l) => TakeKeeps(s, s', t, l);
      case Release(l) => ReleaseKeeps(s, s', t, l);
      case Alloc(c) => AllocKeeps(s, s', t, c);
    }
  }

  lemma {:induction false} RunInv(run: seq<State>, i: nat)
    requires IsRun(run) && i < |run|
    ensures Inv(run[i])
  {
    hide Inv, Init, NextStep;
    if i == 0 {
      InitInv(run[0]);
    } else {
      RunInv(run, i - 1);
      assert StepAt(run, i - 1);
      var t, step :| NextStep(run[i - 1], run[i], t, step);
      StepKeeps(run[i - 1], run[i], t, step);
    }
  }

  /** No lost wakeup: while the guard is free, a process asleep on a sleep lock has someone to wait for. */
  lemma SleepersHaveHolder(run: seq<State>, i: nat, q: nat, l: nat)
    requires IsRun(run) && i < |run|
    ensures Shape(run[i])
    ensures var s := run[i];
            && q < NPROC && l < |s.guard| && s.guard[l] == FREE && s.proc[q].state == SLEEPING
            && s.proc[q].chan == OnLock(l)
            ==> s.holder[l] != NOBODY
  {
    RunInv(run, i);
    assert ThreadOk(run[i], q);
  }

  /** While wait_lock is free, a parent asleep in wait has no zombie child. */
  lemma SleepingParentsHaveNoZombie(run: seq<State>, i: nat, q: nat, c: nat)
    requires IsRun(run) && i < |run|
    ensures Shape(run[i])
    ensures var s := run[i];
            q < NPROC && c < NPROC && s.waitLock == FREE && s.proc[q].state == SLEEPING && s.proc[q].chan == OnProc(q)
            ==> !(s.proc[c].parent == q && s.proc[c].state == ZOMBIE)
  {
    RunInv(run, i);
    assert ThreadOk(run[i], q) && PairOk(run[i], q, c);
  }

  /** Nobody's parent is a zombie or an unused slot, and everybody who has run has a parent but init. */
  lemma ParentsAlive(run: seq<State>, i: nat, c: nat)
    requires IsRun(run) && i < |run| && c < NPROC
    ensures Shape(run[i])
    ensures var p := run[i].proc[c].parent; p != NOBODY ==> 0 <= p < NPROC && Alive(run[i].proc[p].state)
    ensures Alive(run[i].proc[c].state) || run[i].proc[c].state == ZOMBIE ==>
              run[i].proc[c].parent != NOBODY || c == INIT
  {
    RunInv(run, i);
    assert ThreadOk(run[i], c);
  }

  /** A thread that calls sched holds its own lock and no other, and is not marked as running. */
  lemma SchedNeverPanics(run: seq<State>, i: nat, t: nat)
    requires IsRun(run) && i < |run| && t < NPROC
    ensures Shape(run[i])
    ensures var s := run[i];
            s.pc[t].Yielding? || s.pc[t].Sleep4? || s.pc[t].Gone? ==>
              && s.plock[t] == t && s.proc[t].state != RUNNING && s.waitLock != t
              && (forall j | 0 <= j < NPROC && j != t :: s.plock[j] != t)
              && (forall l | 0 <= l < |s.guard| :: s.guard[l] != t)
  {
    RunInv(run, i);
    var s := run[i];
    assert ThreadOk(s, t) && PairOk(s, t, t);
    forall j | 0 <= j < NPROC && j != t && s.plock[j] == t ensures s.pc[t].Fork1? {
      assert ThreadOk(s, j);
    }
    forall l | 0 <= l < |s.guard| && s.guard[l] == t ensures HoldsGuard(s.pc[t], l) {
      assert GuardOk(s, l);
    }
  }

  lemma {:induction false} ReapedGrows(run: seq<State>, i: nat, j: nat)
    requires IsRun(run) && i <= j < |run|
    ensures run[i].reaped <= run[j].reaped
  {
    hide Init;
    if i < j {
      ReapedGrows(run, i, j - 1);
      assert StepAt(run, j - 1);
    }
  }

  /** Every zombie is reaped at most once: two calls of wait never return the same pid. */
  lemma ReapedOnce(run: seq<State>, i: nat, j: nat, t: nat, u: nat)
    requires IsRun(run) && i < j && j + 1 < |run|
    requires ReapStep(run[i], run[i + 1], t) && ReapStep(run[j], run[j + 1], u)
    ensures run[i].proc[run[i].pc[t].j].pid != run[j].proc[run[j].pc[u].j].pid
  {
    RunInv(run, j);
    PidBound(run[j], run[j].pc[u].j);
    ReapedGrows(run, i + 1, j);
  }
}
