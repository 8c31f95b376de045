/**
 What the return codes mean: for every call, how deep the caller held the mutex before and
 after, and which errors it can get. Depth is only counted inside the machine; here it is tied
 to what the client sees.
 */
module MutexLedger {
  import opened Common
  import opened MutexWord
  import opened FutexMachine
  import opened MutexOwnership

  const DEEPEST := MAX_COUNTER + 1

  predicate DepthFits(c: Config, depth: int) {
    0 <= depth <= DEEPEST && (c.mtype != RECURSIVE ==> depth <= 1)
  }

  /** What a finished call did to the caller's depth, and what its error code says. */
  predicate Settled(c: Config, o: Outcome, depth: int) {
    DepthFits(c, o.entry) && DepthFits(c, depth) && match o.call
    case OnMutex(Unlock) =>
      if o.error == OK then o.entry >= 1 && depth == o.entry - 1
      else o.error == EPERM && c.mtype != NORMAL && o.entry == 0 && depth == 0
    case OnMutex(op) =>
      && (o.error == OK <==> depth == o.entry + 1)
      && (o.error != OK ==> depth == o.entry)
      && (o.error == EAGAIN <==> c.mtype == RECURSIVE && o.entry == DEEPEST)
      && (o.error == EDEADLK <==> c.mtype == ERRORCHECK && o.entry == 1)
      && (o.error == EBUSY ==> !op.Lock? && (c.mtype != NORMAL ==> o.entry == 0))
      && o.error in {OK, EAGAIN, EDEADLK, EBUSY}
    case CondWait(_, _) =>
      && o.error in {OK, ETIMEDOUT}
      && (o.entry > 0 ==> depth == o.entry)
      && (o.entry == 0 ==> depth == 1 || (depth == 0 && o.error == ETIMEDOUT))
    case CondPulse(_) => o.error == OK && depth == o.entry
  }

  /** What a thread is busy with. */
  datatype Phase = Resting | Getting(op: Option<Op>) | Dropping | Dropped | Opening | Parked | Pulsing

  function PhaseOf(pc: Pc): Phase {
    match pc
    case Idle => Resting
    case Load(op) => if op.Unlock? then Dropping else Getting(Some(op))
    case NTry(op) => Getting(Some(op))
    case NSwap(op) => Getting(Some(op))
    case NCheck(op) => Getting(Some(op))
    case NWait(op) => Getting(Some(op))
    case NSleep(op) => Getting(Some(op))
    case Fast(op) => Getting(Some(op))
    case Reload(op) => Getting(Some(op))
    case Acq(op) => Getting(Some(op))
    case AcqCheck(op) => Getting(Some(op))
    case Flip(op) => Getting(Some(op))
    case FlipReload(op) => Getting(Some(op))
    case Check(op) => Getting(Some(op))
    case Wait(op) => Getting(Some(op))
    case Sleep(op) => Getting(Some(op))
    case Inc(_) => Getting(None)
    case IncReload(_) => Getting(None)
    case NDec => Dropping
    case NStore => Dropping
    case Dec(_) => Dropping
    case DecReload(_) => Dropping
    case USwap => Dropping
    case WakeOne => Dropped
    case CCheck => Opening
    case CSnap => Opening
    case CFutex => Parked
    case CSleep => Parked
    case PFlags => Pulsing
    case PLoad(_) => Pulsing
    case PCas(_) => Pulsing
    case PWake(_) => Pulsing
  }

  /** The depth a condition wait sleeps at. */
  function Left(entry: int): int { if entry > 0 then entry - 1 else 0 }

  /** The books of a thread at any point of a call. */
  predicate Ledger(c: Config, th: T) {
    && DepthFits(c, th.entry)
    && match PhaseOf(th.pc)
       case Resting => th.last.Some? ==> Settled(c, th.last.value, th.depth)
       case Getting(op) => th.depth == th.base && GettingFrame(th, op)
       case Dropping => th.depth == th.base == th.entry && UnlockFrame(th)
       case Dropped => th.base == th.entry >= 1 && th.depth == th.base - 1 && UnlockFrame(th)
       case Opening => th.frame.Client? && th.call.CondWait? && th.depth == th.entry
       case Parked => th.frame.Waiting? && th.call.CondWait? && th.depth == Left(th.entry)
       case Pulsing => th.frame.Client? && th.call.CondPulse? && th.depth == th.entry
  }

  predicate GettingFrame(th: T, op: Option<Op>) {
    if th.frame.Client? then
      th.base == th.entry && th.call.OnMutex? && !th.call.op.Unlock? && (op.Some? ==> op.value == th.call.op)
    else
      th.frame.Relocking? && th.call.CondWait? && th.base == Left(th.entry) && (op.Some? ==> op.value == Lock)
  }

  predicate UnlockFrame(th: T) {
    (th.frame.Client? && th.call == OnMutex(Unlock)) || (th.frame.Waiting? && th.call.CondWait?)
  }

  predicate Known(c: Config, w: Word, t: Tid, th: T) {
    && ValidConfig(c) && Shape(c, w) && Local(c, w, t, th) && Ledger(c, th)
    && (w.state == UNLOCKED ==> th.depth == 0)
  }

  lemma LoadLedger(c: Config, s: State, t: Tid, th: T)
    requires Known(c, s.word, t, th) && th.pc.Load?
    ensures Ledger(c, AfterLoad(s.word, t, th))
  {
    var op, th' := th.pc.op, AfterLoad(s.word, t, th);
    if s.word.mtype == NORMAL {
      assert PhaseOf(th'.pc) == PhaseOf(th.pc);
    } else if op.Unlock? {
      assert s.word.owner == t ==> PhaseOf(th'.pc) == Dropping;
    } else if s.word.owner != t {
      assert PhaseOf(th'.pc) == Getting(Some(op));
    }
  }

  /** Taking the mutex, from any point of a lock that may. */
  lemma AcquiredLedger(c: Config, th: T)
    requires Ledger(c, th) && PhaseOf(th.pc).Getting? && DepthFits(c, th.depth + 1)
    ensures Ledger(c, Acquired(th))
  {
    if th.frame.Client? {
      assert Settled(c, Outcome(th.call, OK, th.entry), th.depth + 1);
    }
  }

  /** Giving up. */
  lemma BusyLedger(c: Config, th: T)
    requires Ledger(c, th) && PhaseOf(th.pc).Getting? && PhaseOf(th.pc).op.Some? && !PhaseOf(th.pc).op.value.Lock?
    requires c.mtype != NORMAL ==> th.depth == 0
    ensures Ledger(c, Return(th, EBUSY))
  {
    assert Settled(c, Outcome(th.call, EBUSY, th.entry), th.depth);
  }

  /** Letting go, with a wake still to make or none. */
  lemma ReleasedLedger(c: Config, th: T)
    requires Ledger(c, th) && PhaseOf(th.pc) == Dropping && th.depth >= 1
    ensures Ledger(c, Return(Released(th), OK)) && Ledger(c, Released(th).(pc := WakeOne))
  {
    if th.frame.Client? {
      assert Settled(c, Outcome(th.call, OK, th.entry), th.depth - 1);
    }
  }

  /** Steps that stay in the same phase and keep the books. */
  predicate SameBooks(th: T, th': T) {
    && PhaseOf(th'.pc) == PhaseOf(th.pc) && th'.frame == th.frame && th'.call == th.call
    && th'.depth == th.depth && th'.base == th.base && th'.entry == th.entry && th'.last == th.last
  }

  lemma SameLedger(c: Config, th: T, th': T)
    requires Ledger(c, th) && SameBooks(th, th')
    ensures Ledger(c, th')
  {
  }

  lemma NormalLedger(c: Config, s: State, t: Tid, th: T)
    requires Known(c, s.word, t, th) && IsNormalPc(th.pc)
    ensures Ledger(c, NormalStep(s, th).th)
  {
    hide Settled, Return;
    var th' := NormalStep(s, th).th;
    if SameBooks(th, th') {
      SameLedger(c, th, th');
    } else if th.pc.NDec? || th.pc.NStore? {
      ReleasedLedger(c, th);
    } else if s.word == th.kind && !th.pc.NCheck? {
      AcquiredLedger(c, th);
    } else {
      BusyLedger(c, th);
    }
  }

  lemma OwnerLedger(c: Config, s: State, t: Tid, th: T)
    requires Known(c, s.word, t, th) && IsOwnerPc(th.pc)
    ensures Ledger(c, OwnerStep(s, th).th)
  {
    hide Settled, Return;
    var th' := OwnerStep(s, th).th;
    if SameBooks(th, th') {
      SameLedger(c, th, th');
    } else if th.pc.Inc? {
      AcquiredLedger(c, th);
    } else if th.pc.Dec? {
      ReleasedLedger(c, th);
    } else {
      ReleasedLedger(c, th.(mvalue := s.word));
    }
  }

  lemma GrabLedger(c: Config, s: State, t: Tid, th: T)
    requires Known(c, s.word, t, th) && IsGrabPc(th.pc)
    ensures Ledger(c, GrabStep(s, t, th).th)
  {
    hide Settled, Return;
    var th' := GrabStep(s, t, th).th;
    if SameBooks(th, th') {
      SameLedger(c, th, th');
    } else if s.word == th.kind && (th.pc.Fast? || th.pc.Acq?) {
      AcquiredLedger(c, th);
    } else {
      BusyLedger(c, th);
    }
  }

  lemma ParkLedger(c: Config, s: State, t: Tid, th: T)
    requires Known(c, s.word, t, th) && IsParkPc(th.pc)
    ensures Ledger(c, ParkStep(s, th).th)
  {
  }

  lemma WaitLedger(c: Config, s: State, th: T)
    requires Ledger(c, th) && IsWaitPc(th.pc)
    ensures Ledger(c, WaitStep(s, th).th)
  {
    var th' := WaitStep(s, th).th;
    if th.pc.CFutex? {
      assert PhaseOf(th'.pc) == Parked || PhaseOf(th'.pc) == Getting(Some(Lock));
    } else if th'.pc.Idle? {
      assert Settled(c, Outcome(th.call, ETIMEDOUT, th.entry), th.depth);
    }
  }

  lemma PulseLedger(c: Config, s: State, th: T)
    requires Ledger(c, th) && IsPulsePc(th.pc)
    ensures Ledger(c, PulseStep(s, th).th)
  {
    assert PhaseOf(th.pc) == Pulsing;
    if th.pc.PWake? {
      assert Settled(c, Outcome(th.call, OK, th.entry), th.depth);
    } else {
      assert PhaseOf(PulseStep(s, th).th.pc) == Pulsing;
    }
  }

  lemma StepLedger(c: Config, s: State, t: Tid, th: T)
    requires Known(c, s.word, t, th) && !th.pc.Idle? && !Asleep(th)
    ensures Ledger(c, StepOf(s, t, th).th)
  {
    hide Local, Settled, AfterLoad, NormalStep, OwnerStep, GrabStep, ParkStep, WaitStep, PulseStep;
    if th.pc.Load? {
      LoadLedger(c, s, t, th);
    } else if IsNormalPc(th.pc) {
      NormalLedger(c, s, t, th);
    } else if IsOwnerPc(th.pc) {
      OwnerLedger(c, s, t, th);
    } else if IsGrabPc(th.pc) {
      GrabLedger(c, s, t, th);
    } else if IsParkPc(th.pc) {
      ParkLedger(c, s, t, th);
    } else if IsWaitPc(th.pc) {
      WaitLedger(c, s, th);
    } else if IsPulsePc(th.pc) {
      PulseLedger(c, s, th);
    } else {
      WakeLedger(c, th);
    }
  }

  lemma WakeLedger(c: Config, th: T)
    requires Ledger(c, th) && th.pc.WakeOne?
    ensures Ledger(c, Return(th, OK))
  {
    if th.frame.Client? {
      assert Settled(c, Outcome(th.call, OK, th.entry), th.depth);
    }
  }

  lemma WokenLedger(c: Config, th: T)
    requires Ledger(c, th) && Asleep(th)
    ensures Ledger(c, Woken(th))
    ensures (th.pc.Sleep? ==> th.depth == 0 && th.pc.op.TimedLock?) ==> Ledger(c, TimedOut(th))
  {
  }

  lemma BeginLedger(c: Config, w: Word, t: Tid, th: T, call: Call)
    requires Known(c, w, t, th) && th.pc.Idle? && MayCall(c, th, call)
    ensures Ledger(c, Begin(th, call))
  {
  }

  lemma NextLedger(c: Config, s: State, a: Action, u: Tid)
    requires Inv(c, s) && Enabled(c, s, a) && u in s.threads && Ledger(c, s.threads[u])
    ensures u in Next(c, s, a).threads && Ledger(c, Next(c, s, a).threads[u])
  {
    var th := s.threads[u];
    assert Known(c, s.word, u, th);
    if !ActsFor(a, u) {
      OthersStandBy(c, s, a, u);
    }
    if Asleep(th) {
      WokenLedger(c, th);
    }
    if a.Go? && a.t == u {
      StepLedger(c, s, u, th);
    } else if a.Start? && a.t == u {
      BeginLedger(c, s.word, u, th, a.call);
    }
  }

  lemma FirstLedger(c: Config, s: State, u: Tid)
    requires Init(c, s) && u in s.threads
    ensures Ledger(c, s.threads[u])
  {
  }

  lemma {:induction false} RunLedger(c: Config, ss: seq<State>, acts: seq<Action>, i: nat, u: Tid)
    requires IsRun(c, ss, acts) && i < |ss| && u in ss[i].threads
    ensures Inv(c, ss[i]) && Ledger(c, ss[i].threads[u])
  {
    hide Inv, Ledger, Next, Enabled, Init;
    RunInv(c, ss, acts, i);
    if i == 0 {
      FirstLedger(c, ss[0], u);
    } else {
      SameThreads(c, ss[i - 1], acts[i - 1]);
      RunLedger(c, ss, acts, i - 1, u);
      NextLedger(c, ss[i - 1], acts[i - 1], u);
    }
  }

  // ----- the results -----

  /**
   A call that returned 0 from a lock took the mutex one level deeper, one that failed left it
   alone; EAGAIN means exactly "recursive and 2048 deep", EDEADLK exactly "errorcheck and already
   held", EPERM exactly "not the holder".
   */
  lemma ReturnCodesTellTheTruth(c: Config, ss: seq<State>, acts: seq<Action>, i: nat, t: Tid, o: Outcome)
    requires IsRun(c, ss, acts) && i < |ss| && t in ss[i].threads
    requires ss[i].threads[t].pc.Idle? && ss[i].threads[t].last == Some(o)
    ensures Settled(c, o, ss[i].threads[t].depth)
    ensures o.call.OnMutex? && !o.call.op.Unlock? && o.error == OK ==> View(ss[i]) == HeldBy(t, o.entry + 1)
    ensures o.call == OnMutex(Unlock) ==> (o.error == EPERM <==> o.entry == 0)
    ensures o.call.OnMutex? && !o.call.op.Unlock? ==>
              && (o.error == EAGAIN <==> c.mtype == 1 && o.entry == 2048)
              && (o.error == EDEADLK <==> c.mtype == 2 && o.entry == 1)
    ensures 0 <= ss[i].threads[t].depth <= DEEPEST
  {
    RunLedger(c, ss, acts, i, t);
    assert Settled(c, o, ss[i].threads[t].depth);
    if ss[i].threads[t].depth > 0 {
      ViewOfHolder(c, ss[i], t);
    }
  }

  /**
   A condition wait entered by a holder, at any depth and with any deadline, ends with the caller
   holding the mutex at that depth. Entered by a thread that does not hold it (the code ignores the
   EPERM of its unlock) it ends holding the mutex once, unless the deadline had passed on entry.
   */
  lemma WaitingPreservesOwnership(c: Config, ss: seq<State>, acts: seq<Action>, i: nat, t: Tid, o: Outcome)
    requires IsRun(c, ss, acts) && i < |ss| && t in ss[i].threads
    requires ss[i].threads[t].pc.Idle? && ss[i].threads[t].last == Some(o) && o.call.CondWait?
    ensures o.entry > 0 ==> View(ss[i]) == HeldBy(t, o.entry)
    ensures o.error == OK ==> (ss[i].threads[t].depth == o.entry <==> o.entry > 0)
    ensures o.entry == 0 && ss[i].threads[t].depth > 0 ==> View(ss[i]) == HeldBy(t, 1)
  {
    RunLedger(c, ss, acts, i, t);
    assert Settled(c, o, ss[i].threads[t].depth);
    if ss[i].threads[t].depth > 0 {
      ViewOfHolder(c, ss[i], t);
    }
  }

  predicate TimedOutLock(th: T) {
    && th.pc.Idle? && th.last.Some? && th.last.value.error == EBUSY
    && th.last.value.call.OnMutex? && th.last.value.call.op.TimedLock?
  }

  lemma NormalBusyIsLate(c: Config, s: State, t: Tid, th: T)
    requires Known(c, s.word, t, th) && IsNormalPc(th.pc) && TimedOutLock(NormalStep(s, th).th)
    ensures Expired(s, th.call.op)
  {
  }

  lemma GrabBusyIsLate(c: Config, s: State, t: Tid, th: T)
    requires Known(c, s.word, t, th) && IsGrabPc(th.pc) && TimedOutLock(GrabStep(s, t, th).th)
    ensures Expired(s, th.call.op)
  {
  }

  lemma ParkBusyIsLate(c: Config, s: State, t: Tid, th: T)
    requires Known(c, s.word, t, th) && IsParkPc(th.pc) && TimedOutLock(ParkStep(s, th).th)
    ensures Expired(s, th.call.op)
  {
  }

  lemma StepBusyIsLate(c: Config, s: State, t: Tid, th: T)
    requires Known(c, s.word, t, th) && !th.pc.Idle? && !Asleep(th) && TimedOutLock(StepOf(s, t, th).th)
    ensures th.call.OnMutex? && Expired(s, th.call.op)
  {
    hide Settled;
    if IsNormalPc(th.pc) {
      NormalBusyIsLate(c, s, t, th);
    } else if IsGrabPc(th.pc) {
      GrabBusyIsLate(c, s, t, th);
    } else if IsParkPc(th.pc) {
      ParkBusyIsLate(c, s, t, th);
    } else if IsOwnerPc(th.pc) {
    }
  }

  lemma LeaveBusyIsLate(c: Config, s: State, t: Tid, th: T)
    requires Ledger(c, th) && Asleep(th) && CanTimeOut(s, th) && TimedOutLock(TimedOut(th))
    ensures th.call.OnMutex? && th.call.op.TimedLock? && s.now >= th.call.op.deadline && th.pc.Sleep?
  {
  }

  /** A timed lock gives up only once its deadline is reached; on a normal mutex only once it is past. */
  lemma TimedLockGivesUpLate(c: Config, ss: seq<State>, acts: seq<Action>, i: nat, t: Tid)
    requires IsRun(c, ss, acts) && i < |acts| && t in ss[i].threads && !ss[i].threads[t].pc.Idle?
    requires t in ss[i + 1].threads && TimedOutLock(ss[i + 1].threads[t])
    ensures var dl := ss[i + 1].threads[t].last.value.call.op.deadline;
            ss[i].now >= dl && (c.mtype == NORMAL ==> ss[i].now > dl)
  {
    RunLedger(c, ss, acts, i, t);
    var s, a := ss[i], acts[i];
    if ActsFor(a, t) {
      assert Known(c, s.word, t, s.threads[t]);
      AnswerIsLate(c, s, a);
    } else {
      OthersStandBy(c, s, a, t);
    }
  }

  lemma AnswerIsLate(c: Config, s: State, a: Action)
    requires Enabled(c, s, a) && !a.Tick? && Known(c, s.word, a.t, s.threads[a.t]) && !s.threads[a.t].pc.Idle?
    requires TimedOutLock(Next(c, s, a).threads[a.t])
    ensures var dl := Next(c, s, a).threads[a.t].last.value.call.op.deadline;
            s.now >= dl && (c.mtype == NORMAL ==> s.now > dl)
  {
    var th := s.threads[a.t];
    if a.Go? {
      StepBusyIsLate(c, s, a.t, th);
      AnswerKeepsCall(s, a.t, th);
    } else if a.timeout {
      LeaveBusyIsLate(c, s, a.t, th);
    }
  }

  lemma AnswerKeepsCall(s: State, t: Tid, th: T)
    requires !th.pc.Idle? && !Asleep(th)
    ensures var th' := StepOf(s, t, th).th;
            th'.call == th.call && (th'.pc.Idle? ==> th'.last.Some? && th'.last.value.call == th.call)
  {
  }

  predicate FailedTry(th: T) {
    th.pc.Idle? && th.last.Some? && th.last.value.call == OnMutex(TryLock) && th.last.value.error == EBUSY
  }

  /** The step by which a trylock fails finds the mutex held; on a recursive or errorcheck mutex, by another thread. */
  lemma TryLockFailsOnHeld(c: Config, ss: seq<State>, acts: seq<Action>, i: nat, t: Tid)
    requires IsRun(c, ss, acts) && i < |acts| && t in ss[i].threads && !ss[i].threads[t].pc.Idle?
    requires t in ss[i + 1].threads && FailedTry(ss[i + 1].threads[t])
    ensures View(ss[i]).HeldBy? && View(ss[i + 1]) == View(ss[i])
    ensures c.mtype != NORMAL ==> View(ss[i]).owner != t
  {
    hide Ledger, Local, Shape, StepOf, Next, Held;
    var s, a := ss[i], acts[i];
    RunLedger(c, ss, acts, i, t);
    RunInv(c, ss, acts, i + 1);
    if ActsFor(a, t) {
      DepthMatchesState(c, s, t);
      TryLockSees(c, s, a);
      SameDepthSameView(c, s, a);
    } else {
      BystanderStaysBusy(c, s, a, t);
    }
  }

  lemma BystanderStaysBusy(c: Config, s: State, a: Action, t: Tid)
    requires Enabled(c, s, a) && t in s.threads && !ActsFor(a, t) && !s.threads[t].pc.Idle?
    ensures t in Next(c, s, a).threads && !Next(c, s, a).threads[t].pc.Idle?
  {
    OthersStandBy(c, s, a, t);
  }

  /** An action that leaves its thread's depth as it was leaves the holder, too. */
  lemma SameDepthSameView(c: Config, s: State, a: Action)
    requires Inv(c, s) && Enabled(c, s, a) && !a.Tick? && Inv(c, Next(c, s, a)) && s.word.state != UNLOCKED
    requires Next(c, s, a).threads[a.t].depth == s.threads[a.t].depth
    ensures View(s).HeldBy? && View(Next(c, s, a)) == View(s)
    ensures View(s).owner in s.threads && s.threads[View(s).owner].depth > 0
  {
    hide Local, StepOf, Next, Enabled;
    DepthsAfter(c, s, a);
    var h :| h in s.threads && s.threads[h].depth > 0;
    ViewOfHolder(c, s, h);
    ViewOfHolder(c, Next(c, s, a), h);
  }

  lemma TryLockSees(c: Config, s: State, a: Action)
    requires Enabled(c, s, a) && !a.Tick? && Known(c, s.word, a.t, s.threads[a.t]) && !s.threads[a.t].pc.Idle?
    requires FailedTry(Next(c, s, a).threads[a.t])
    ensures s.word.state != UNLOCKED && Next(c, s, a).word == s.word
    ensures Next(c, s, a).threads[a.t].depth == s.threads[a.t].depth
    ensures c.mtype != NORMAL ==> s.threads[a.t].depth == 0
  {
    LeavingIsNoFailedTry(c, s, s.threads[a.t]);
    if a.Go? {
      TryLockStep(c, s, a.t, s.threads[a.t]);
    }
  }

  lemma LeavingIsNoFailedTry(c: Config, s: State, th: T)
    ensures Asleep(th) ==> !FailedTry(Woken(th))
    ensures Ledger(c, th) && Asleep(th) && CanTimeOut(s, th) ==> !FailedTry(TimedOut(th))
  {
  }

  lemma TryLockStep(c: Config, s: State, t: Tid, th: T)
    requires Known(c, s.word, t, th) && !th.pc.Idle? && !Asleep(th)
    requires FailedTry(StepOf(s, t, th).th)
    ensures s.word.state != UNLOCKED && StepOf(s, t, th).word == s.word
    ensures StepOf(s, t, th).th.depth == th.depth
    ensures c.mtype != NORMAL ==> th.depth == 0
  {
    hide Settled;
    AnswerKeepsCall(s, t, th);
  }
}
