/**
 Who holds the mutex. An inductive invariant over every interleaving of every entry
 point, proved rely-guarantee style: what one thread's step may do to the word, and
 that no such step disturbs what another thread knows about it.
 */
module MutexOwnership {
  import opened Common
  import opened MutexWord
  import opened FutexMachine

  // ----- the invariant -----

  /** Every value the word ever has. */
  predicate Shape(c: Config, w: Word) {
    && w.mtype == c.mtype && w.shared == c.shared
    && UNLOCKED <= w.state <= CONTENDED
    && 0 <= w.owner <= 0xffff && 0 <= w.counter <= MAX_COUNTER
    && (c.mtype == NORMAL || w.state == UNLOCKED ==> w.owner == 0 && w.counter == 0)
    && (c.mtype != NORMAL && w.state != UNLOCKED ==> w.owner != 0)
    && (c.mtype == ERRORCHECK ==> w.counter == 0)
  }

  predicate Mine(w: Word, t: Tid) { w.state != UNLOCKED && w.owner == t }

  /** The word a thread read is still the word, but for one promotion from 1 to 2. */
  predicate FreshCopy(v: Word, w: Word, tries: nat) {
    || v == w
    || (tries == 0 && v.state == UNCONTENDED && w == v.(state := CONTENDED))
  }

  predicate OwnerKnows(c: Config, w: Word, v: Word, pc: Pc)
    requires IsOwnerPc(pc)
  {
    match pc
    case Inc(n) =>
      && c.mtype == RECURSIVE && FreshCopy(v, w, n) && v.counter < MAX_COUNTER
      && (n == 0 || (n == 1 && w.state == CONTENDED))
    case IncReload(n) => c.mtype == RECURSIVE && n == 0 && w.state == CONTENDED && w.counter < MAX_COUNTER
    case Dec(n) => FreshCopy(v, w, n) && v.counter > 0 && (n == 0 || (n == 1 && w.state == CONTENDED))
    case DecReload(n) => n == 0 && w.state == CONTENDED && w.counter > 0
    case USwap => w.counter == 0
  }

  predicate SlowKnows(c: Config, t: Tid, v: Word, pc: Pc)
    requires IsSlowPc(pc) || pc.Sleep?
  {
    && !pc.op.Unlock?
    && (!pc.Fast? ==> !pc.op.TryLock?)
    && (pc.op.TimedLock? ==> c.timed)
    && (pc.AcqCheck? || pc.FlipReload? || pc.Check? ==> pc.op.TimedLock?)
    && (pc.Flip? || pc.Check? || pc.Wait? ==> Shape(c, v) && v.owner != t)
    && (pc.Flip? ==> v.state == UNCONTENDED)
    && (pc.Wait? ==> v.state == CONTENDED)
  }

  /** What is true of one thread and the word, whatever the others do. */
  predicate Local(c: Config, w: Word, t: Tid, th: T) {
    && (c.mtype == NORMAL ==> 0 <= th.depth <= 1)
    && (c.mtype != NORMAL ==> th.depth == if Mine(w, t) then w.counter + 1 else 0)
    && (IsNormalPc(th.pc) || th.pc.NSleep? ==> c.mtype == NORMAL)
    && (IsOwnerPc(th.pc) || IsSlowPc(th.pc) || th.pc.Sleep? ==> c.mtype != NORMAL)
    && (IsNormalPc(th.pc) || IsOwnerPc(th.pc) || IsSlowPc(th.pc) || OnMutexQueue(th) ==>
          th.kind == Free(c.mtype, c.shared))
    && (th.pc.NSwap? || th.pc.NCheck? || th.pc.NWait? || th.pc.NSleep? ==> !th.pc.op.TryLock?)
    && (c.mtype == NORMAL && NeedsHold(th.pc) ==> th.depth == 1)
    && (c.mtype != NORMAL && th.pc.Load? && th.pc.op.TimedLock? ==> c.timed)
    && (IsOwnerPc(th.pc) ==> Mine(w, t) && OwnerKnows(c, w, th.mvalue, th.pc))
    && (IsSlowPc(th.pc) || th.pc.Sleep? ==> !Mine(w, t) && SlowKnows(c, t, th.mvalue, th.pc))
  }

  predicate NeedsHold(pc: Pc) {
    pc.NDec? || pc.NStore? || pc.CCheck? || pc.CSnap? || (pc.Load? && pc.op.Unlock?)
  }

  /** The word says "locked" exactly when one thread holds the mutex. */
  ghost predicate Held(c: Config, s: State) {
    && (s.word.state == UNLOCKED ==> forall t <- s.threads :: s.threads[t].depth == 0)
    && (s.word.state != UNLOCKED ==> exists t <- s.threads :: s.threads[t].depth > 0)
    && (forall t <- s.threads, u <- s.threads :: s.threads[t].depth > 0 && s.threads[u].depth > 0 ==> t == u)
  }

  ghost predicate Inv(c: Config, s: State) {
    && ValidConfig(c)
    && Shape(c, s.word)
    && Held(c, s)
    && forall t <- s.threads :: Local(c, s.word, t, s.threads[t])
  }

  // ----- rely and guarantee -----

  /** What the others may do to the word, as `u` sees it. */
  predicate Rely(c: Config, u: Tid, w: Word, w': Word) {
    c.mtype != NORMAL ==>
      && (Mine(w, u) ==> w' == w || (w.state == UNCONTENDED && w' == w.(state := CONTENDED)))
      && (!Mine(w, u) ==> !Mine(w', u))
  }

  /** What one step does to the lock: nothing, take it, nest, un-nest, or let go. */
  predicate LockStep(w: Word, w': Word, d: int, d': int) {
    || (d' == d && (w.state == UNLOCKED <==> w'.state == UNLOCKED))
    || (d == 0 && d' == 1 && w.state == UNLOCKED && w'.state != UNLOCKED)
    || (d >= 1 && d' >= 1 && (d' == d + 1 || d' == d - 1) && w.state != UNLOCKED && w'.state != UNLOCKED)
    || (d == 1 && d' == 0 && w.state != UNLOCKED && w'.state == UNLOCKED)
  }

  ghost predicate Guarantee(c: Config, w: Word, w': Word, t: Tid, d: int, d': int) {
    && Shape(c, w')
    && LockStep(w, w', d, d')
    && forall u: Tid :: u != t ==> Rely(c, u, w, w')
  }

  /** No other thread's step can spoil what a thread knows. */
  lemma Stable(c: Config, w: Word, w': Word, u: Tid, th: T)
    requires Local(c, w, u, th) && Rely(c, u, w, w')
    ensures Local(c, w', u, th)
  {
  }

  lemma WokenLocal(c: Config, w: Word, t: Tid, th: T)
    requires ValidConfig(c) && Local(c, w, t, th) && Asleep(th)
    ensures Local(c, w, t, Woken(th)) && Local(c, w, t, TimedOut(th))
    ensures Woken(th).depth == th.depth == TimedOut(th).depth
  {
  }

  /** The facts about the lock that the acting thread needs from the others. */
  predicate LockedIff(w: Word, d: int) { d > 0 ==> w.state != UNLOCKED }

  lemma LoadToUnlock(c: Config, s: State, t: Tid, th: T)
    requires ValidConfig(c) && Shape(c, s.word) && Local(c, s.word, t, th) && th.pc.Load? && th.pc.op.Unlock?
    ensures var th' := AfterLoad(s.word, t, th);
            Local(c, s.word, t, th') && th'.depth == th.depth
  {
  }

  lemma LoadToLock(c: Config, s: State, t: Tid, th: T)
    requires ValidConfig(c) && Shape(c, s.word) && Local(c, s.word, t, th) && th.pc.Load? && !th.pc.op.Unlock?
    ensures var th' := AfterLoad(s.word, t, th);
            Local(c, s.word, t, th') && th'.depth == th.depth
  {
  }

  lemma LoadStep(c: Config, s: State, t: Tid, th: T)
    requires ValidConfig(c) && Shape(c, s.word) && Local(c, s.word, t, th) && th.pc.Load?
    ensures var th' := AfterLoad(s.word, t, th);
            Local(c, s.word, t, th') && th'.depth == th.depth
  {
    hide Local, Shape, AfterLoad;
    if th.pc.op.Unlock? {
      LoadToUnlock(c, s, t, th);
    } else {
      LoadToLock(c, s, t, th);
    }
  }

  lemma NormalStepGuarantees(c: Config, s: State, t: Tid, th: T)
    requires ValidConfig(c) && Shape(c, s.word) && Local(c, s.word, t, th) && IsNormalPc(th.pc)
    requires LockedIff(s.word, th.depth) && (s.word.state == UNLOCKED ==> th.depth == 0)
    ensures var e := NormalStep(s, th);
            Local(c, e.word, t, e.th) && Guarantee(c, s.word, e.word, t, th.depth, e.th.depth)
  {
  }

  lemma OwnerStepGuarantees(c: Config, s: State, t: Tid, th: T)
    requires ValidConfig(c) && Shape(c, s.word) && Local(c, s.word, t, th) && IsOwnerPc(th.pc)
    ensures var e := OwnerStep(s, th);
            Local(c, e.word, t, e.th) && Guarantee(c, s.word, e.word, t, th.depth, e.th.depth)
  {
  }

  lemma GrabStepGuarantees(c: Config, s: State, t: Tid, th: T)
    requires ValidConfig(c) && Shape(c, s.word) && Local(c, s.word, t, th) && IsGrabPc(th.pc)
    ensures var e := GrabStep(s, t, th);
            Local(c, e.word, t, e.th) && Guarantee(c, s.word, e.word, t, th.depth, e.th.depth)
  {
  }

  lemma ParkStepGuarantees(c: Config, s: State, t: Tid, th: T)
    requires ValidConfig(c) && Shape(c, s.word) && Local(c, s.word, t, th) && IsParkPc(th.pc)
    ensures var e := ParkStep(s, th);
            Local(c, e.word, t, e.th) && Guarantee(c, s.word, e.word, t, th.depth, e.th.depth)
  {
  }

  lemma CondStepLocal(c: Config, s: State, t: Tid, th: T)
    requires ValidConfig(c) && Local(c, s.word, t, th) && IsCondPc(th.pc)
    ensures var e := if IsWaitPc(th.pc) then WaitStep(s, th) else PulseStep(s, th);
            e.word == s.word && Local(c, s.word, t, e.th) && e.th.depth == th.depth
  {
  }

  lemma WakeStepLocal(c: Config, s: State, t: Tid, th: T)
    requires Local(c, s.word, t, th) && th.pc.WakeOne?
    ensures Local(c, s.word, t, Return(th, OK)) && Return(th, OK).depth == th.depth
  {
  }

  lemma StutterGuarantees(c: Config, w: Word, t: Tid, d: int)
    requires Shape(c, w)
    ensures Guarantee(c, w, w, t, d, d)
  {
  }

  lemma DepthMatchesState(c: Config, s: State, t: Tid)
    requires Inv(c, s) && t in s.threads
    ensures s.threads[t].depth > 0 ==> s.word.state != UNLOCKED
    ensures s.word.state == UNLOCKED ==> s.threads[t].depth == 0
  {
  }

  /** Every atomic step of the code keeps to the guarantee. */
  lemma StepGuarantees(c: Config, s: State, t: Tid)
    requires Inv(c, s) && t in s.threads && !s.threads[t].pc.Idle? && !Asleep(s.threads[t])
    ensures var th := s.threads[t]; var e := StepOf(s, t, th);
            Local(c, e.word, t, e.th) && Guarantee(c, s.word, e.word, t, th.depth, e.th.depth)
  {
    hide Local, Guarantee, Shape, Held, AfterLoad, NormalStep, OwnerStep, GrabStep, ParkStep, WaitStep, PulseStep,
         Return;
    var th := s.threads[t];
    DepthMatchesState(c, s, t);
    StutterGuarantees(c, s.word, t, th.depth);
    if th.pc.Load? {
      LoadStep(c, s, t, th);
    } else if IsNormalPc(th.pc) {
      NormalStepGuarantees(c, s, t, th);
    } else if IsOwnerPc(th.pc) {
      OwnerStepGuarantees(c, s, t, th);
    } else if IsGrabPc(th.pc) {
      GrabStepGuarantees(c, s, t, th);
    } else if IsParkPc(th.pc) {
      ParkStepGuarantees(c, s, t, th);
    } else if th.pc.WakeOne? {
      WakeStepLocal(c, s, t, th);
    } else {
      CondStepLocal(c, s, t, th);
    }
  }

  lemma HeldAfterStep(c: Config, s: State, s': State, t: Tid)
    requires Inv(c, s) && t in s.threads && s'.threads.Keys == s.threads.Keys
    requires LockStep(s.word, s'.word, s.threads[t].depth, s'.threads[t].depth)
    requires forall u <- s.threads :: u != t ==> s'.threads[u].depth == s.threads[u].depth
    ensures Held(c, s')
  {
    var d, d' := s.threads[t].depth, s'.threads[t].depth;
    if d' == d && s'.word.state != UNLOCKED {
      var h :| h in s.threads && s.threads[h].depth > 0;
      assert s'.threads[h].depth > 0;
    } else if d' != d && s'.word.state != UNLOCKED {
      assert s'.threads[t].depth > 0;
    }
  }

  /** Every action of every run keeps the invariant. */
  lemma NextKeepsInv(c: Config, s: State, a: Action)
    requires Inv(c, s) && Enabled(c, s, a)
    ensures Inv(c, Next(c, s, a))
  {
    var s' := Next(c, s, a);
    SameThreads(c, s, a);
    if a.Go? {
      StepGuarantees(c, s, a.t);
    }
    forall u <- s.threads
      ensures Local(c, s'.word, u, s'.threads[u])
    {
      LocalAfter(c, s, a, u);
    }
    if !a.Tick? {
      DepthsAfter(c, s, a);
      HeldAfterStep(c, s, s', a.t);
    }
  }

  lemma LocalAfter(c: Config, s: State, a: Action, u: Tid)
    requires Inv(c, s) && Enabled(c, s, a) && u in s.threads
    ensures u in Next(c, s, a).threads
    ensures Local(c, Next(c, s, a).word, u, Next(c, s, a).threads[u])
    ensures !(a.Go? && a.t == u) ==> Next(c, s, a).threads[u].depth == s.threads[u].depth
  {
    if a.Go? {
      StepGuarantees(c, s, a.t);
      if u != a.t {
        BystanderLocal(c, s, a, u);
      }
    } else {
      QuietLocal(c, s, a, u);
    }
  }

  lemma BystanderLocal(c: Config, s: State, a: Action, u: Tid)
    requires Inv(c, s) && Enabled(c, s, a) && u in s.threads && a.Go? && u != a.t
    ensures u in Next(c, s, a).threads
    ensures Local(c, Next(c, s, a).word, u, Next(c, s, a).threads[u])
    ensures Next(c, s, a).threads[u].depth == s.threads[u].depth
  {
    hide Local, StepOf, Rouse, Rely, Shape, Held, Woken;
    var s' := Next(c, s, a);
    StepGuarantees(c, s, a.t);
    OthersStandBy(c, s, a, u);
    Stable(c, s.word, s'.word, u, s.threads[u]);
    if Asleep(s.threads[u]) {
      WokenLocal(c, s'.word, u, s.threads[u]);
    }
  }

  lemma QuietLocal(c: Config, s: State, a: Action, u: Tid)
    requires Inv(c, s) && Enabled(c, s, a) && u in s.threads && !a.Go?
    ensures u in Next(c, s, a).threads
    ensures Local(c, Next(c, s, a).word, u, Next(c, s, a).threads[u])
    ensures Next(c, s, a).threads[u].depth == s.threads[u].depth
  {
    hide StepOf, Rouse, Held, Woken, TimedOut;
    if Asleep(s.threads[u]) {
      WokenLocal(c, s.word, u, s.threads[u]);
    }
  }

  lemma InitInv(c: Config, s: State)
    requires Init(c, s)
    ensures Inv(c, s)
  {
  }

  lemma {:induction false} RunInv(c: Config, ss: seq<State>, acts: seq<Action>, i: nat)
    requires IsRun(c, ss, acts) && i < |ss|
    ensures Inv(c, ss[i])
  {
    if i == 0 {
      InitInv(c, ss[0]);
    } else {
      RunInv(c, ss, acts, i - 1);
      NextKeepsInv(c, ss[i - 1], acts[i - 1]);
    }
  }

  // ----- the results -----

  /** At most one thread holds the mutex, whatever its type and whatever calls are in flight. */
  lemma MutualExclusion(c: Config, ss: seq<State>, acts: seq<Action>, i: nat, t: Tid, u: Tid)
    requires IsRun(c, ss, acts) && i < |ss| && t in ss[i].threads && u in ss[i].threads
    requires ss[i].threads[t].depth > 0 && ss[i].threads[u].depth > 0
    ensures t == u
  {
    RunInv(c, ss, acts, i);
  }

  /**
   The fields of the word at every point of every run: kind bits as at init, a normal word is
   the kind plus 0, 1 or 2, and otherwise owner and counter are the holder and its depth minus one.
   */
  lemma WordTellsHolder(c: Config, ss: seq<State>, acts: seq<Action>, i: nat)
    requires IsRun(c, ss, acts) && i < |ss|
    ensures var s := ss[i]; var w := s.word;
            && w.mtype == c.mtype && w.shared == c.shared && w.state in {UNLOCKED, UNCONTENDED, CONTENDED}
            && (c.mtype == NORMAL ==> w == Free(c.mtype, c.shared).(state := w.state))
            && ((forall t <- s.threads :: s.threads[t].depth == 0) <==> w == Free(c.mtype, c.shared))
            && (c.mtype != NORMAL ==> forall t <- s.threads :: s.threads[t].depth > 0 <==> w.owner == t)
            && (c.mtype != NORMAL ==>
                  forall t <- s.threads :: s.threads[t].depth > 0 ==> w.counter == s.threads[t].depth - 1)
  {
    RunInv(c, ss, acts, i);
  }

  /** The simple lock the code implements. */
  datatype SimpleLock = Unheld | HeldBy(owner: Tid, depth: int)

  ghost function View(s: State): SimpleLock {
    if exists t <- s.threads :: s.threads[t].depth > 0 then
      var t :| t in s.threads && s.threads[t].depth > 0;
      HeldBy(t, s.threads[t].depth)
    else Unheld
  }

  /** One action of thread `t` on the simple lock, or a stutter. */
  predicate SimpleNext(c: Config, l: SimpleLock, l': SimpleLock, t: Tid) {
    || l' == l
    || (l == Unheld && l' == HeldBy(t, 1))
    || (l == HeldBy(t, 1) && l' == Unheld)
    || (c.mtype == RECURSIVE && l.HeldBy? && l.owner == t && 1 <= l.depth <= MAX_COUNTER
        && l' == HeldBy(t, l.depth + 1))
    || (c.mtype == RECURSIVE && l.HeldBy? && l.owner == t && 2 <= l.depth && l' == HeldBy(t, l.depth - 1))
  }

  lemma ViewOfHolder(c: Config, s: State, t: Tid)
    requires Inv(c, s) && t in s.threads && s.threads[t].depth > 0
    ensures View(s) == HeldBy(t, s.threads[t].depth)
  {
  }

  lemma LockStepIsSimpleStep(c: Config, s: State, s': State, t: Tid)
    requires Inv(c, s) && Inv(c, s') && t in s.threads && s'.threads.Keys == s.threads.Keys
    requires LockStep(s.word, s'.word, s.threads[t].depth, s'.threads[t].depth)
    requires forall u <- s.threads :: u != t ==> s'.threads[u].depth == s.threads[u].depth
    ensures SimpleNext(c, View(s), View(s'), t)
  {
    assert Local(c, s.word, t, s.threads[t]) && Local(c, s'.word, t, s'.threads[t]);
    if s.threads[t].depth > 0 {
      ViewOfHolder(c, s, t);
    }
    if s'.threads[t].depth > 0 {
      ViewOfHolder(c, s', t);
    }
    if h: Tid :| h in s.threads && h != t && s.threads[h].depth > 0 {
      ViewOfHolder(c, s, h);
      ViewOfHolder(c, s', h);
    }
  }

  /** Every atomic step, on all three types and every entry point, is a step of the simple lock. */
  lemma RefinesSimpleLock(c: Config, ss: seq<State>, acts: seq<Action>, i: nat)
    requires IsRun(c, ss, acts) && i < |acts|
    ensures View(ss[0]) == Unheld
    ensures if acts[i].Tick? then View(ss[i + 1]) == View(ss[i])
            else SimpleNext(c, View(ss[i]), View(ss[i + 1]), acts[i].t)
  {
    RunInv(c, ss, acts, i);
    RunInv(c, ss, acts, i + 1);
    if !acts[i].Tick? {
      DepthsAfter(c, ss[i], acts[i]);
      LockStepIsSimpleStep(c, ss[i], ss[i + 1], acts[i].t);
    }
  }

  lemma DepthsAfter(c: Config, s: State, a: Action)
    requires Inv(c, s) && Enabled(c, s, a) && !a.Tick?
    ensures var s' := Next(c, s, a);
            && s'.threads.Keys == s.threads.Keys
            && a.t in s.threads && LockStep(s.word, s'.word, s.threads[a.t].depth, s'.threads[a.t].depth)
            && forall u <- s.threads :: u != a.t ==> s'.threads[u].depth == s.threads[u].depth
  {
    SameThreads(c, s, a);
    if a.Go? {
      StepGuarantees(c, s, a.t);
    }
    forall u <- s.threads
      ensures !(a.Go? && a.t == u) ==> Next(c, s, a).threads[u].depth == s.threads[u].depth
    {
      LocalAfter(c, s, a, u);
    }
  }

  /**
   "Am I the owner" is answered by one plain load: no other thread's action makes the caller
   own the mutex or stop owning it, and while it owns it the others can only mark it contended.
   */
  lemma OwnershipTestIsStable(c: Config, ss: seq<State>, acts: seq<Action>, i: nat, t: Tid)
    requires IsRun(c, ss, acts) && i < |acts| && c.mtype != NORMAL && t in ss[i].threads && !ActsFor(acts[i], t)
    ensures var w, w' := ss[i].word, ss[i + 1].word;
            && (w.owner == t <==> w'.owner == t)
            && (w.owner == t ==> w' == w || (w.state == UNCONTENDED && w' == w.(state := CONTENDED)))
  {
    RunInv(c, ss, acts, i);
    RunInv(c, ss, acts, i + 1);
    if acts[i].Go? {
      StepGuarantees(c, ss[i], acts[i].t);
      assert Rely(c, t, ss[i].word, ss[i + 1].word);
    }
  }

  /** A counter cmpxchg loop makes at most two attempts, and the second one cannot fail. */
  lemma RetryLoopsAreBounded(c: Config, ss: seq<State>, acts: seq<Action>, i: nat, t: Tid)
    requires IsRun(c, ss, acts) && i < |ss| && t in ss[i].threads
    requires ss[i].threads[t].pc.Inc? || ss[i].threads[t].pc.Dec?
    ensures ss[i].threads[t].pc.tries <= 1
    ensures ss[i].threads[t].pc.tries == 1 ==> ss[i].word == ss[i].threads[t].mvalue
  {
    RunInv(c, ss, acts, i);
  }
}
