/**
 What a thread gets done by itself: a free mutex is taken, a held one is queued for, a timed lock
 past its deadline gives up, and no call goes on for ever without sleeping. Each within a fixed
 number of the thread's own actions.
 */
module MutexProgress {
  import opened Common
  import opened MutexWord
  import opened FutexMachine
  import opened MutexOwnership
  import opened MutexLedger

  /** What thread `t` does, or has done to it by its own futex wait's end. */
  predicate OwnAction(a: Action, t: Tid) {
    (a.Go? || a.Leave?) && a.t == t
  }

  /** A way for it to go on that needs no luck: a spurious wake-up does not count. */
  predicate CanAct(c: Config, s: State, a: Action, t: Tid) {
    OwnAction(a, t) && Enabled(c, s, a) && (a.Leave? ==> a.timeout)
  }

  /** `th` is the thread when it starts. */
  datatype Goal = Take(th: T, late: bool) | GiveUp(th: T) | Queue | Finish

  predicate Took(th: T, th': T) {
    && th'.pc.Idle? && th'.depth == th.depth + 1
    && th'.last.Some? && th'.last.value.call == th.call && th'.last.value.entry == th.entry
    && (th.call.OnMutex? ==> th'.last.value.error == OK)
  }

  predicate GaveUp(th: T, th': T) {
    th'.pc.Idle? && th'.depth == th.depth && th'.last == Some(Outcome(th.call, EBUSY, th.entry))
  }

  predicate MetBy(goal: Goal, th': T) {
    match goal
    case Take(th, late) => Took(th, th') || (late && GaveUp(th, th'))
    case GiveUp(th) => GaveUp(th, th')
    case Queue => OnMutexQueue(th')
    case Finish => th'.pc.Idle? || Asleep(th')
  }

  /** Within `n` of its own actions, whichever it is given and whomever its wakes take, `t` meets the goal. */
  ghost predicate Leads(c: Config, s: State, t: Tid, n: nat, goal: Goal)
    decreases n
  {
    && t in s.threads
    && (MetBy(goal, s.threads[t]) ||
        (&& n > 0
         && (exists a: Action :: CanAct(c, s, a, t))
         && (forall a: Action :: OwnAction(a, t) && Enabled(c, s, a) ==> Leads(c, Next(c, s, a), t, n - 1, goal))))
  }

  /** Inside a lock, a trylock, a timed lock, or the lock at the end of a condition wait. */
  predicate InLock(th: T) {
    !th.pc.Idle? && ((th.call.OnMutex? && !th.call.op.Unlock?) || th.frame.Relocking?)
  }

  /** A timed lock past its deadline. */
  predicate IsLate(th: T, now: int) {
    th.call.OnMutex? && th.call.op.TimedLock? && now > th.call.op.deadline
  }

  // ----- one thread and the word -----

  /** The thread as it goes on inside the same operation. */
  predicate SameCall(th: T, th': T) {
    th'.call == th.call && th'.frame == th.frame && th'.depth == th.depth && th'.entry == th.entry
  }

  /** Somebody holds the mutex, other than `t` unless it relocks its own normal mutex. */
  predicate Taken(c: Config, w: Word, t: Tid) {
    w.state != UNLOCKED && (c.mtype != NORMAL ==> w.owner != t)
  }

  /** Where a thread can start towards a goal, apart from the invariants. */
  predicate Starts(c: Config, w: Word, now: int, t: Tid, th: T, goal: Goal) {
    match goal
    case Take(th0, late) =>
      InLock(th) && !Asleep(th) && SameCall(th0, th) && late == IsLate(th, now) && w == Free(c.mtype, c.shared)
    case GiveUp(th0) =>
      && InLock(th) && SameCall(th0, th) && Taken(c, w, t)
      && (IsLate(th, now) || (th.call == OnMutex(TryLock) && !Asleep(th)))
    case Queue =>
      InLock(th) && !Asleep(th) && !IsLate(th, now) && th.call != OnMutex(TryLock) && Taken(c, w, t)
    case Finish => !th.pc.Idle? && !Asleep(th)
  }

  lemma GettingPhase(c: Config, w: Word, t: Tid, th: T)
    requires Known(c, w, t, th) && InLock(th)
    ensures PhaseOf(th.pc).Getting? && GettingFrame(th, PhaseOf(th.pc).op)
  {
  }

  // ----- how many own actions are left -----

  /** To take a free mutex. */
  function RankFree(th: T): nat {
    match th.pc
    case Load(_) => 2
    case NTry(_) => 1
    case NSwap(_) => 1
    case NWait(_) => 2
    case NCheck(_) => 3
    case Fast(_) => 1
    case Acq(_) => 1
    case Reload(_) => 2
    case AcqCheck(_) => 3
    case FlipReload(_) => 3
    case Wait(_) => 3
    case Flip(op) => if op.TimedLock? then 4 else 3
    case Check(_) => if th.mvalue == th.kind then 2 else if th.mvalue.state == CONTENDED then 4 else 5
    case _ => 0
  }

  /** To queue for a mutex somebody else holds; what was read last may be out of date. */
  function RankHeld(w: Word, th: T): nat {
    match th.pc
    case Load(_) => 6
    case NTry(_) => 4
    case NSwap(_) => 3
    case NCheck(_) => if w.state == CONTENDED then 2 else 5
    case NWait(_) => if w.state == CONTENDED then 1 else 4
    case Fast(_) => 5
    case Reload(_) => 4
    case Acq(_) => 6
    case AcqCheck(_) => 5
    case FlipReload(_) => 5
    case Flip(_) => if th.mvalue == w then 3 else 6
    case Wait(_) => if th.mvalue == w then 1 else 5
    case Check(_) => if th.mvalue != w then 7 else if w.state == CONTENDED then 2 else 4
    case _ => 0
  }

  /** To give up on one. */
  function RankLate(th: T): nat {
    match th.pc
    case Load(_) => 4
    case NTry(_) => 3
    case NSwap(_) => 2
    case NCheck(_) => 1
    case NWait(_) => 4
    case NSleep(_) => 3
    case Fast(op) => if op.TryLock? then 1 else 5
    case Reload(_) => 4
    case Acq(_) => 2
    case AcqCheck(_) => 1
    case FlipReload(_) => 2
    case Flip(_) => 3
    case Check(_) => 1
    case Wait(_) => 6
    case Sleep(_) => 5
    case _ => 0
  }

  const LOCK_STEPS := 7

  /** To the end of the call, or to sleep. */
  function RankCall(c: Config, w: Word, cond: CondWord, t: Tid, th: T): nat {
    match PhaseOf(th.pc)
    case Resting => 0
    case Getting(_) =>
      if w.state == UNLOCKED then RankFree(th) else if Taken(c, w, t) then RankHeld(w, th) else RankOwn(w, th)
    case Dropping => RankDrop(w, th) + AfterUnlock(th)
    case Dropped => 1 + AfterUnlock(th)
    case Parked => LOCK_STEPS + 1
    case Opening => if th.pc.CCheck? then LOCK_STEPS + 7 else LOCK_STEPS + 6
    case Pulsing =>
      match th.pc
      case PFlags => 4
      case PLoad(_) => 3
      case PCas(_) => if th.seen == cond then 2 else 4
      case _ => 1
  }

  function RankOwn(w: Word, th: T): nat {
    match th.pc
    case Inc(_) => if th.mvalue == w then 1 else 3
    case IncReload(_) => 2
    case _ => 2
  }

  function RankDrop(w: Word, th: T): nat {
    match th.pc
    case NDec => 3
    case NStore => 2
    case USwap => 2
    case Dec(_) => if th.mvalue == w then 1 else 3
    case DecReload(_) => 2
    case _ => 4
  }

  function AfterUnlock(th: T): nat { if th.frame.Waiting? then LOCK_STEPS + 1 else 0 }

  function Rank(c: Config, w: Word, cond: CondWord, t: Tid, th: T, goal: Goal): nat {
    match goal
    case Take(_, _) => RankFree(th)
    case GiveUp(_) => RankLate(th)
    case Queue => RankHeld(w, th)
    case Finish => RankCall(c, w, cond, t, th)
  }

  // ----- one own action -----

  /** It meets the goal, or is one closer to it. */
  predicate Closer(
    c: Config, w: Word, cond: CondWord, now: int, t: Tid, th: T, w': Word, cond': CondWord, th': T, goal: Goal)
  {
    && Rank(c, w, cond, t, th, goal) > 0
    && (MetBy(goal, th') ||
        (Starts(c, w', now, t, th', goal) && Rank(c, w', cond', t, th', goal) < Rank(c, w, cond, t, th, goal)))
  }

  predicate GoCloser(c: Config, s: State, t: Tid, th: T, e: Effect, goal: Goal) {
    Closer(c, s.word, s.cond, s.now, t, th, e.word, e.cond, e.th, goal)
  }

  lemma LoadCloser(c: Config, s: State, t: Tid, th: T, goal: Goal)
    requires Known(c, s.word, t, th) && Starts(c, s.word, s.now, t, th, goal) && !goal.Finish? && th.pc.Load?
    ensures GoCloser(c, s, t, th, Quiet(s, s.word, AfterLoad(s.word, t, th)), goal)
  {
    GettingPhase(c, s.word, t, th);
  }

  lemma TryCloser(c: Config, s: State, t: Tid, th: T, goal: Goal)
    requires Known(c, s.word, t, th) && Starts(c, s.word, s.now, t, th, goal) && !goal.Finish?
    requires th.pc.NTry? || th.pc.NSwap?
    ensures GoCloser(c, s, t, th, NormalStep(s, th), goal)
  {
    GettingPhase(c, s.word, t, th);
  }

  lemma SleepCloser(c: Config, s: State, t: Tid, th: T, goal: Goal)
    requires Known(c, s.word, t, th) && Starts(c, s.word, s.now, t, th, goal) && !goal.Finish?
    requires th.pc.NCheck? || th.pc.NWait?
    ensures GoCloser(c, s, t, th, NormalStep(s, th), goal)
  {
    GettingPhase(c, s.word, t, th);
  }

  lemma GrabCloser(c: Config, s: State, t: Tid, th: T, goal: Goal)
    requires Known(c, s.word, t, th) && Starts(c, s.word, s.now, t, th, goal) && !goal.Finish? && IsGrabPc(th.pc)
    ensures GoCloser(c, s, t, th, GrabStep(s, t, th), goal)
  {
    GettingPhase(c, s.word, t, th);
  }

  lemma FlipCloser(c: Config, s: State, t: Tid, th: T, goal: Goal)
    requires Known(c, s.word, t, th) && Starts(c, s.word, s.now, t, th, goal) && !goal.Finish?
    requires th.pc.Flip? || th.pc.FlipReload?
    ensures GoCloser(c, s, t, th, ParkStep(s, th), goal)
  {
    GettingPhase(c, s.word, t, th);
  }

  lemma CheckCloser(c: Config, s: State, t: Tid, th: T, goal: Goal)
    requires Known(c, s.word, t, th) && Starts(c, s.word, s.now, t, th, goal) && !goal.Finish?
    requires th.pc.Check? || th.pc.Wait?
    ensures GoCloser(c, s, t, th, ParkStep(s, th), goal)
  {
    GettingPhase(c, s.word, t, th);
  }

  /** Taking, giving up and queueing. */
  lemma LockCloser(c: Config, s: State, t: Tid, th: T, goal: Goal)
    requires Known(c, s.word, t, th) && Starts(c, s.word, s.now, t, th, goal) && !goal.Finish? && !Asleep(th)
    ensures GoCloser(c, s, t, th, StepOf(s, t, th), goal) && StepOf(s, t, th).wakes == Nobody
  {
    hide Known, Starts, MetBy, Rank, AfterLoad, NormalStep, GrabStep, ParkStep;
    LockPc(c, s.word, s.now, t, th, goal);
    if th.pc.Load? {
      LoadCloser(c, s, t, th, goal);
    } else if th.pc.NTry? || th.pc.NSwap? {
      TryCloser(c, s, t, th, goal);
    } else if th.pc.NCheck? || th.pc.NWait? {
      SleepCloser(c, s, t, th, goal);
    } else if IsGrabPc(th.pc) {
      GrabCloser(c, s, t, th, goal);
    } else if th.pc.Flip? || th.pc.FlipReload? {
      FlipCloser(c, s, t, th, goal);
    } else {
      CheckCloser(c, s, t, th, goal);
    }
    LockStepsAreQuiet(s, t, th);
  }

  lemma LockPc(c: Config, w: Word, now: int, t: Tid, th: T, goal: Goal)
    requires Known(c, w, t, th) && Starts(c, w, now, t, th, goal) && !goal.Finish? && !Asleep(th)
    ensures !th.pc.Idle? && (th.pc.Load? || IsNormalPc(th.pc) || IsGrabPc(th.pc) || IsParkPc(th.pc))
    ensures !th.pc.NDec? && !th.pc.NStore?
  {
    GettingPhase(c, w, t, th);
  }

  lemma LockStepsAreQuiet(s: State, t: Tid, th: T)
    requires th.pc.Load? || IsNormalPc(th.pc) || IsGrabPc(th.pc) || IsParkPc(th.pc)
    ensures StepOf(s, t, th).wakes == Nobody
  {
  }

  /** Out of a futex wait, however it ends. */
  lemma LeaveCloser(c: Config, s: State, t: Tid, th: T, goal: Goal, timeout: bool)
    requires Known(c, s.word, t, th) && Starts(c, s.word, s.now, t, th, goal) && Asleep(th)
    requires timeout ==> CanTimeOut(s, th)
    ensures CanTimeOut(s, th)
    ensures Closer(c, s.word, s.cond, s.now, t, th, s.word, s.cond, if timeout then TimedOut(th) else Woken(th), goal)
  {
    GettingPhase(c, s.word, t, th);
  }

  // ----- to the end of any call -----

  predicate EndCloser(c: Config, s: State, t: Tid, th: T, e: Effect) {
    GoCloser(c, s, t, th, e, Finish)
  }

  lemma LoadEnds(c: Config, s: State, t: Tid, th: T)
    requires Known(c, s.word, t, th) && th.pc.Load?
    ensures EndCloser(c, s, t, th, Quiet(s, s.word, AfterLoad(s.word, t, th)))
  {
  }

  lemma NormalEnds(c: Config, s: State, t: Tid, th: T)
    requires Known(c, s.word, t, th) && IsNormalPc(th.pc)
    ensures EndCloser(c, s, t, th, NormalStep(s, th))
  {
  }

  lemma OwnerEnds(c: Config, s: State, t: Tid, th: T)
    requires Known(c, s.word, t, th) && IsOwnerPc(th.pc)
    ensures EndCloser(c, s, t, th, OwnerStep(s, th))
  {
  }

  lemma GrabEnds(c: Config, s: State, t: Tid, th: T)
    requires Known(c, s.word, t, th) && IsGrabPc(th.pc)
    ensures EndCloser(c, s, t, th, GrabStep(s, t, th))
  {
  }

  lemma FlipEnds(c: Config, s: State, t: Tid, th: T)
    requires Known(c, s.word, t, th) && (th.pc.Flip? || th.pc.FlipReload?)
    ensures EndCloser(c, s, t, th, ParkStep(s, th))
  {
  }

  lemma CheckEnds(c: Config, s: State, t: Tid, th: T)
    requires Known(c, s.word, t, th) && (th.pc.Check? || th.pc.Wait?)
    ensures EndCloser(c, s, t, th, ParkStep(s, th))
  {
  }

  lemma WaitEnds(c: Config, s: State, t: Tid, th: T)
    requires Known(c, s.word, t, th) && IsWaitPc(th.pc)
    ensures EndCloser(c, s, t, th, WaitStep(s, th))
  {
  }

  lemma PulseEnds(c: Config, s: State, t: Tid, th: T)
    requires Known(c, s.word, t, th) && IsPulsePc(th.pc)
    ensures EndCloser(c, s, t, th, PulseStep(s, th))
  {
    hide Local, Shape, Settled;
    assert PhaseOf(th.pc) == Pulsing;
    assert !th.pc.PWake? ==> PhaseOf(PulseStep(s, th).th.pc) == Pulsing;
  }

  lemma WakeEnds(c: Config, s: State, t: Tid, th: T)
    requires Known(c, s.word, t, th) && th.pc.WakeOne?
    ensures EndCloser(c, s, t, th, Effect(s.word, s.cond, false, Return(th, OK), OneOnMutex))
  {
  }

  lemma StepEnds(c: Config, s: State, t: Tid, th: T)
    requires Known(c, s.word, t, th) && !th.pc.Idle? && !Asleep(th)
    ensures EndCloser(c, s, t, th, StepOf(s, t, th))
  {
    hide Known, Closer, EndCloser, AfterLoad, NormalStep, OwnerStep, GrabStep, ParkStep, WaitStep, PulseStep, Return;
    if th.pc.Load? {
      LoadEnds(c, s, t, th);
    } else if IsNormalPc(th.pc) {
      NormalEnds(c, s, t, th);
    } else if IsOwnerPc(th.pc) {
      OwnerEnds(c, s, t, th);
    } else if IsGrabPc(th.pc) {
      GrabEnds(c, s, t, th);
    } else if th.pc.Flip? || th.pc.FlipReload? {
      FlipEnds(c, s, t, th);
    } else if th.pc.Check? || th.pc.Wait? {
      CheckEnds(c, s, t, th);
    } else if th.pc.WakeOne? {
      WakeEnds(c, s, t, th);
    } else if IsWaitPc(th.pc) {
      WaitEnds(c, s, t, th);
    } else {
      PulseEnds(c, s, t, th);
    }
  }

  // ----- the thread among the others -----

  /** Whatever a wake is to find, there is something it can find. */
  lemma SomePick(s: State, wakes: Wakes) returns (pick: Option<Tid>)
    ensures PickOk(s.threads, wakes, pick)
  {
    pick := None;
    if wakes == OneOnMutex {
      if u :| u in s.threads && OnMutexQueue(s.threads[u]) {
        pick := Some(u);
      }
    } else if wakes == OneOnCond {
      if u :| u in s.threads && OnCondQueue(s.threads[u]) {
        pick := Some(u);
      }
    }
  }

  lemma SomeAction(c: Config, s: State, t: Tid)
    requires t in s.threads && !s.threads[t].pc.Idle?
    requires Asleep(s.threads[t]) ==> CanTimeOut(s, s.threads[t])
    ensures exists a: Action :: CanAct(c, s, a, t)
  {
    if Asleep(s.threads[t]) {
      assert CanAct(c, s, Leave(t, true), t);
    } else {
      var pick := SomePick(s, StepOf(s, t, s.threads[t]).wakes);
      assert CanAct(c, s, Go(t, pick), t);
    }
  }

  /** The invariants, and a start towards the goal. */
  ghost predicate Ready(c: Config, s: State, t: Tid, goal: Goal) {
    Inv(c, s) && t in s.threads && Ledger(c, s.threads[t]) && Starts(c, s.word, s.now, t, s.threads[t], goal)
  }

  lemma ReadyKnows(c: Config, s: State, t: Tid, goal: Goal)
    requires Ready(c, s, t, goal)
    ensures Known(c, s.word, t, s.threads[t])
  {
    DepthMatchesState(c, s, t);
  }

  lemma GoChanges(c: Config, s: State, a: Action)
    requires Enabled(c, s, a) && a.Go?
    ensures var s' := Next(c, s, a); var e := StepOf(s, a.t, s.threads[a.t]);
            s'.word == e.word && s'.cond == e.cond && s'.now == s.now && a.t in s'.threads && s'.threads[a.t] == e.th
  {
  }

  lemma ActionCloser(c: Config, s: State, t: Tid, goal: Goal, a: Action)
    requires Ready(c, s, t, goal) && OwnAction(a, t) && Enabled(c, s, a)
    ensures var s' := Next(c, s, a);
            t in s'.threads &&
            Closer(c, s.word, s.cond, s.now, t, s.threads[t], s'.word, s'.cond, s'.threads[t], goal)
  {
    hide Closer, Starts, Inv, Ledger, StepOf, Woken, TimedOut, CanTimeOut, Known;
    var th := s.threads[t];
    ReadyKnows(c, s, t, goal);
    if a.Leave? {
      LeaveCloser(c, s, t, th, goal, a.timeout);
    } else {
      GoChanges(c, s, a);
      if goal.Finish? {
        StepEnds(c, s, t, th);
      } else {
        LockCloser(c, s, t, th, goal);
      }
    }
  }

  lemma ReadyCanAct(c: Config, s: State, t: Tid, goal: Goal)
    requires Ready(c, s, t, goal)
    ensures exists a: Action :: CanAct(c, s, a, t)
  {
    ReadyKnows(c, s, t, goal);
    if Asleep(s.threads[t]) {
      LeaveCloser(c, s, t, s.threads[t], goal, false);
    }
    SomeAction(c, s, t);
  }

  lemma {:induction false} ReadyLeads(c: Config, s: State, t: Tid, n: nat, goal: Goal)
    requires Ready(c, s, t, goal) && Rank(c, s.word, s.cond, t, s.threads[t], goal) <= n
    ensures Leads(c, s, t, n, goal)
    decreases n
  {
    hide Inv, Ledger, Starts, MetBy, Rank, Enabled, Next;
    ReadyCanAct(c, s, t, goal);
    forall a: Action | OwnAction(a, t) && Enabled(c, s, a)
      ensures n > 0 && Leads(c, Next(c, s, a), t, n - 1, goal)
    {
      ActionCloser(c, s, t, goal, a);
      NextKeepsInv(c, s, a);
      NextLedger(c, s, a, t);
      var s' := Next(c, s, a);
      if !MetBy(goal, s'.threads[t]) {
        NowStays(c, s, a, t);
        ReadyLeads(c, s', t, n - 1, goal);
      }
    }
    var a: Action :| CanAct(c, s, a, t);
  }

  lemma NowStays(c: Config, s: State, a: Action, t: Tid)
    requires Enabled(c, s, a) && OwnAction(a, t)
    ensures Next(c, s, a).now == s.now
  {
  }

  lemma RankBounds(c: Config, w: Word, cond: CondWord, t: Tid, th: T, goal: Goal)
    ensures Rank(c, w, cond, t, th, goal) <=
            match goal case Take(_, _) => 5 case GiveUp(_) => 6 case Queue => 7 case Finish => 14
  {
  }

  // ----- the results -----

  lemma ReachableKnows(c: Config, s: State, t: Tid)
    requires Reachable(c, s) && t in s.threads
    ensures Inv(c, s) && Ledger(c, s.threads[t])
  {
    var ss: seq<State>, acts: seq<Action> :| IsRun(c, ss, acts) && ss[|acts|] == s;
    RunLedger(c, ss, acts, |acts|, t);
  }

  /**
   On a mutex of any type: a thread awake inside a lock, trylock or timed lock, or relocking after a
   condition wait, takes a free mutex within five of its own actions, one level deep. A timed lock past its
   deadline may give up instead.
   */
  lemma FreeMutexIsTaken(c: Config, s: State, t: Tid)
    requires Reachable(c, s) && t in s.threads && s.word == Free(c.mtype, c.shared)
    requires InLock(s.threads[t]) && !Asleep(s.threads[t])
    ensures Leads(c, s, t, 5, Take(s.threads[t], IsLate(s.threads[t], s.now)))
  {
    var goal := Take(s.threads[t], IsLate(s.threads[t], s.now));
    ReachableKnows(c, s, t);
    RankBounds(c, s.word, s.cond, t, s.threads[t], goal);
    ReadyLeads(c, s, t, 5, goal);
  }

  /** Another thread holds it; or the thread itself, which locks its own normal mutex again. */
  ghost predicate HeldAgainst(c: Config, s: State, t: Tid) {
    exists h <- s.threads :: s.threads[h].depth > 0 && (c.mtype == NORMAL || h != t)
  }

  lemma HeldIsTaken(c: Config, s: State, t: Tid)
    requires Inv(c, s) && t in s.threads
    ensures HeldAgainst(c, s, t) ==> Taken(c, s.word, t)
  {
    if h :| h in s.threads && s.threads[h].depth > 0 && (c.mtype == NORMAL || h != t) {
      assert Local(c, s.word, h, s.threads[h]);
    }
  }

  /** If it is held, a lock, or a timed lock before its deadline, is on the mutex's queue within seven. */
  lemma HeldMutexIsQueuedFor(c: Config, s: State, t: Tid)
    requires Reachable(c, s) && t in s.threads && HeldAgainst(c, s, t)
    requires InLock(s.threads[t]) && !Asleep(s.threads[t])
    requires !IsLate(s.threads[t], s.now) && s.threads[t].call != OnMutex(TryLock)
    ensures Leads(c, s, t, 7, Queue)
  {
    ReachableKnows(c, s, t);
    HeldIsTaken(c, s, t);
    RankBounds(c, s.word, s.cond, t, s.threads[t], Queue);
    ReadyLeads(c, s, t, 7, Queue);
  }

  /** A trylock, or a timed lock past its deadline and even asleep, has given up within six. */
  lemma HeldMutexIsGivenUp(c: Config, s: State, t: Tid)
    requires Reachable(c, s) && t in s.threads && HeldAgainst(c, s, t) && !s.threads[t].pc.Idle?
    requires s.threads[t].call == OnMutex(TryLock) || IsLate(s.threads[t], s.now)
    ensures Leads(c, s, t, 6, GiveUp(s.threads[t]))
  {
    ReachableKnows(c, s, t);
    HeldIsTaken(c, s, t);
    DepthMatchesState(c, s, t);
    if s.threads[t].call == OnMutex(TryLock) {
      NoTryLockSleeps(c, s, t);
    }
    RankBounds(c, s.word, s.cond, t, s.threads[t], GiveUp(s.threads[t]));
    ReadyLeads(c, s, t, 6, GiveUp(s.threads[t]));
  }

  lemma NoTryLockSleeps(c: Config, s: State, t: Tid)
    requires Inv(c, s) && t in s.threads && Ledger(c, s.threads[t]) && s.threads[t].call == OnMutex(TryLock)
    ensures !Asleep(s.threads[t])
  {
    assert Local(c, s.word, t, s.threads[t]);
  }

  /** Any call at all, by itself, is over or asleep within fourteen: no loop spins. */
  lemma EveryCallEndsOrSleeps(c: Config, s: State, t: Tid)
    requires Reachable(c, s) && t in s.threads && !s.threads[t].pc.Idle? && !Asleep(s.threads[t])
    ensures Leads(c, s, t, 14, Finish)
  {
    ReachableKnows(c, s, t);
    RankBounds(c, s.word, s.cond, t, s.threads[t], Finish);
    ReadyLeads(c, s, t, 14, Finish);
  }
}
