/**
 Nobody is orphaned on the mutex's futex queue: for every run of a normal mutex, and of a
 recursive or errorcheck mutex whose clients do not use the timed lock. With the timed lock
 on a recursive or errorcheck mutex a sleeper can be forgotten, and a run shows it.
 */
module MutexOrphans {
  import opened Common
  import opened MutexWord
  import opened FutexMachine
  import opened MutexOwnership

  /** An awake thread that will wake a sleeper, swap in 2, or mark the word contended. */
  predicate OnDuty(pc: Pc) {
    pc.WakeOne? || pc.NStore? || pc.NSwap? || pc.Reload? || pc.Acq? || pc.Flip?
  }

  ghost predicate SomeoneSleeps(s: State) {
    exists t <- s.threads :: OnMutexQueue(s.threads[t])
  }

  ghost predicate SomeoneOnDuty(s: State) {
    exists u <- s.threads :: OnDuty(s.threads[u].pc)
  }

  ghost predicate NoOrphan(s: State) {
    SomeoneSleeps(s) ==> s.word.state == CONTENDED || SomeoneOnDuty(s)
  }

  predicate Careful(c: Config) { c.mtype == NORMAL || !c.timed }

  /** No step drops the duty: it passes it on, or leaves the word contended. */
  predicate DutyKept(s: State, th: T, e: Effect) {
    && (s.word.state == CONTENDED && e.word.state != CONTENDED ==> OnDuty(e.th.pc))
    && (OnDuty(th.pc) && !th.pc.WakeOne? && !OnDuty(e.th.pc) ==> e.word.state == CONTENDED)
    && (OnMutexQueue(e.th) ==> e.word.state == CONTENDED)
    && (th.pc.WakeOne? ==> e.wakes == OneOnMutex && e.word == s.word)
  }

  lemma NormalKeepsDuty(c: Config, s: State, t: Tid, th: T)
    requires ValidConfig(c) && Shape(c, s.word) && Local(c, s.word, t, th) && IsNormalPc(th.pc)
    ensures DutyKept(s, th, NormalStep(s, th))
  {
  }

  lemma OwnerKeepsDuty(c: Config, s: State, t: Tid, th: T)
    requires ValidConfig(c) && Shape(c, s.word) && Local(c, s.word, t, th) && IsOwnerPc(th.pc)
    ensures DutyKept(s, th, OwnerStep(s, th))
  {
  }

  lemma GrabKeepsDuty(c: Config, s: State, t: Tid, th: T)
    requires ValidConfig(c) && Shape(c, s.word) && Local(c, s.word, t, th) && IsGrabPc(th.pc) && Careful(c)
    ensures DutyKept(s, th, GrabStep(s, t, th))
  {
  }

  lemma ParkKeepsDuty(c: Config, s: State, t: Tid, th: T)
    requires ValidConfig(c) && Shape(c, s.word) && Local(c, s.word, t, th) && IsParkPc(th.pc) && Careful(c)
    ensures DutyKept(s, th, ParkStep(s, th))
  {
  }

  lemma StepKeepsDuty(c: Config, s: State, t: Tid)
    requires Inv(c, s) && Careful(c) && t in s.threads && !s.threads[t].pc.Idle? && !Asleep(s.threads[t])
    ensures DutyKept(s, s.threads[t], StepOf(s, t, s.threads[t]))
  {
    var th := s.threads[t];
    if IsNormalPc(th.pc) {
      NormalKeepsDuty(c, s, t, th);
    } else if IsOwnerPc(th.pc) {
      OwnerKeepsDuty(c, s, t, th);
    } else if IsGrabPc(th.pc) {
      GrabKeepsDuty(c, s, t, th);
    } else if IsParkPc(th.pc) {
      ParkKeepsDuty(c, s, t, th);
    }
  }

  lemma LeavingIsOnDuty(c: Config, s: State, t: Tid, th: T)
    requires Careful(c) && Local(c, s.word, t, th) && Asleep(th)
    ensures OnMutexQueue(th) ==> OnDuty(Woken(th).pc)
    ensures OnMutexQueue(th) && CanTimeOut(s, th) ==> OnDuty(TimedOut(th).pc)
    ensures !OnMutexQueue(Woken(th)) && !OnMutexQueue(TimedOut(th))
  {
  }

  /** If `u` carried the duty and did not act, it still does. */
  lemma DutyStays(c: Config, s: State, a: Action, u: Tid)
    requires Enabled(c, s, a) && u in s.threads && !ActsFor(a, u) && OnDuty(s.threads[u].pc)
    ensures u in Next(c, s, a).threads && Next(c, s, a).threads[u] == s.threads[u]
  {
    OthersStandBy(c, s, a, u);
  }

  lemma SleeperWasAsleep(c: Config, s: State, a: Action, x: Tid)
    requires Inv(c, s) && Careful(c) && Enabled(c, s, a) && x in s.threads && !(a.Go? && a.t == x)
    requires x in Next(c, s, a).threads && OnMutexQueue(Next(c, s, a).threads[x])
    ensures OnMutexQueue(s.threads[x])
  {
    if Asleep(s.threads[x]) {
      LeavingIsOnDuty(c, s, x, s.threads[x]);
    }
    if !ActsFor(a, x) {
      OthersStandBy(c, s, a, x);
    }
  }

  lemma GoKeepsNoOrphan(c: Config, s: State, a: Action)
    requires Inv(c, s) && Careful(c) && Enabled(c, s, a) && a.Go? && NoOrphan(s)
    ensures NoOrphan(Next(c, s, a))
  {
    var s' := Next(c, s, a);
    SameThreads(c, s, a);
    StepKeepsDuty(c, s, a.t);
    if x: Tid :| x in s'.threads && OnMutexQueue(s'.threads[x]) {
      if x != a.t {
        SleeperWasAsleep(c, s, a, x);
        if s.word.state != CONTENDED {
          var u :| u in s.threads && OnDuty(s.threads[u].pc);
          if u != a.t {
            DutyStays(c, s, a, u);
          } else if s.threads[u].pc.WakeOne? {
            var p := a.pick.value;
            LeavingIsOnDuty(c, s, p, s.threads[p]);
            assert s'.threads[p] == Woken(s.threads[p]);
          }
        }
      }
    }
  }

  lemma OthersKeepNoOrphan(c: Config, s: State, a: Action)
    requires Inv(c, s) && Careful(c) && Enabled(c, s, a) && !a.Go? && NoOrphan(s)
    requires a.Leave? ==> !OnMutexQueue(s.threads[a.t])
    ensures NoOrphan(Next(c, s, a))
  {
    hide Inv, StepOf;
    var s' := Next(c, s, a);
    SameThreads(c, s, a);
    if x: Tid :| x in s'.threads && OnMutexQueue(s'.threads[x]) {
      SleeperWasAsleep(c, s, a, x);
      if s.word.state != CONTENDED {
        var u :| u in s.threads && OnDuty(s.threads[u].pc);
        assert OnDuty(s'.threads[u].pc);
      }
    }
  }

  lemma NextKeepsNoOrphan(c: Config, s: State, a: Action)
    requires Inv(c, s) && Careful(c) && Enabled(c, s, a) && NoOrphan(s)
    ensures NoOrphan(Next(c, s, a))
  {
    hide StepOf, OnDuty, Rouse;
    if a.Go? {
      GoKeepsNoOrphan(c, s, a);
    } else if a.Leave? && OnMutexQueue(s.threads[a.t]) {
      var s' := Next(c, s, a);
      LeavingIsOnDuty(c, s, a.t, s.threads[a.t]);
      assert OnDuty(s'.threads[a.t].pc);
    } else {
      OthersKeepNoOrphan(c, s, a);
    }
  }

  // ----- the results -----

  /** In every run, a sleeper is covered by state 2 or by an awake thread on duty. */
  lemma {:induction false} NobodyIsOrphaned(c: Config, ss: seq<State>, acts: seq<Action>, i: nat)
    requires IsRun(c, ss, acts) && i < |ss| && Careful(c)
    ensures NoOrphan(ss[i])
  {
    if i > 0 {
      NobodyIsOrphaned(c, ss, acts, i - 1);
      RunInv(c, ss, acts, i - 1);
      NextKeepsNoOrphan(c, ss[i - 1], acts[i - 1]);
    }
  }

  /** Not everyone can be asleep on the mutex, unless a holder locked its own normal mutex again. */
  lemma SomeoneIsAwake(c: Config, ss: seq<State>, acts: seq<Action>, i: nat)
    requires IsRun(c, ss, acts) && i < |ss| && Careful(c) && SomeoneSleeps(ss[i])
    requires c.mtype == NORMAL ==>
               forall t <- ss[i].threads :: OnMutexQueue(ss[i].threads[t]) ==> ss[i].threads[t].depth == 0
    ensures exists u <- ss[i].threads :: !OnMutexQueue(ss[i].threads[u])
  {
    RunInv(c, ss, acts, i);
    NobodyIsOrphaned(c, ss, acts, i);
    var s := ss[i];
    if s.word.state == CONTENDED {
      var h :| h in s.threads && s.threads[h].depth > 0;
      assert Local(c, s.word, h, s.threads[h]);
      assert !OnMutexQueue(s.threads[h]);
    }
  }

  /** When no thread is in the middle of an operation, nobody sleeps on a mutex that is free or not marked. */
  lemma QuietSleepersWaitForAHolder(c: Config, ss: seq<State>, acts: seq<Action>, i: nat)
    requires IsRun(c, ss, acts) && i < |ss| && Careful(c) && SomeoneSleeps(ss[i])
    requires forall t <- ss[i].threads :: ss[i].threads[t].pc.Idle? || Asleep(ss[i].threads[t])
    ensures ss[i].word.state == CONTENDED && View(ss[i]).HeldBy?
  {
    RunInv(c, ss, acts, i);
    NobodyIsOrphaned(c, ss, acts, i);
    var h :| h in ss[i].threads && ss[i].threads[h].depth > 0;
    ViewOfHolder(c, ss[i], h);
  }

  // ----- the timed lock on a recursive or errorcheck mutex -----

  const LATE := TimedLock(0)

  /** Threads 1, 2 and 3 at the clock's time `now`. */
  function Trio(c: Config, w: Word, now: int, a: T, b: T, d: T): State {
    State(w, c.cond, now, 0, map[1 := a, 2 := b, 3 := d])
  }

  function Owned1(c: Config, state: int): Word { Kind(c).(owner := 1, state := state) }

  function Answered(th: T, op: Op, e: Error, depth: int, entry: int): T {
    th.(pc := Idle, call := OnMutex(op), depth := depth, base := entry, entry := entry,
        last := Some(Outcome(OnMutex(op), e, entry)))
  }

  function Busy(c: Config, op: Op, pc: Pc, mvalue: Word): T {
    Fresh(c).(call := OnMutex(op), pc := pc, mvalue := mvalue)
  }

  predicate Timed(c: Config) { ValidConfig(c) && c.mtype != NORMAL && c.timed }

  function Nth(t: Tid, a: T, b: T, d: T): T
    requires t <= 3
  {
    if t == 1 then a else if t == 2 then b else d
  }

  /** The trio with thread `t` replaced. */
  function With(c: Config, w: Word, now: int, a: T, b: T, d: T, t: Tid, th: T): State
    requires t <= 3
  {
    Trio(c, w, now, if t == 1 then th else a, if t == 2 then th else b, if t == 3 then th else d)
  }

  lemma TrioCalls(c: Config, w: Word, now: int, a: T, b: T, d: T, t: Tid, op: Op)
    requires Timed(c) && t <= 3 && Reachable(c, Trio(c, w, now, a, b, d)) && Nth(t, a, b, d).pc.Idle?
    ensures Reachable(c, With(c, w, now, a, b, d, t, Begin(Nth(t, a, b, d), OnMutex(op))))
  {
    var s := Trio(c, w, now, a, b, d);
    assert s.threads[t] == Nth(t, a, b, d);
    NextReachable(c, s, Start(t, OnMutex(op)), With(c, w, now, a, b, d, t, Begin(Nth(t, a, b, d), OnMutex(op))));
  }

  lemma TrioSteps(c: Config, w: Word, now: int, a: T, b: T, d: T, t: Tid, w': Word, th': T)
    requires t <= 3 && Reachable(c, Trio(c, w, now, a, b, d))
    requires !Nth(t, a, b, d).pc.Idle? && !Asleep(Nth(t, a, b, d))
    requires var s := Trio(c, w, now, a, b, d); StepOf(s, t, Nth(t, a, b, d)) == Quiet(s, w', th')
    ensures Reachable(c, With(c, w', now, a, b, d, t, th'))
  {
    var s := Trio(c, w, now, a, b, d);
    assert s.threads[t] == Nth(t, a, b, d);
    NextReachable(c, s, Go(t, None), With(c, w', now, a, b, d, t, th'));
  }

  /** What threads 1 and 3 look like once they hold the mutex and sleep on it. */
  function Holding(c: Config): T { Answered(Fresh(c), Lock, OK, 1, 0) }

  function Sleeping(c: Config): T { Busy(c, Lock, Sleep(Lock), Owned1(c, 2)) }

  /** Thread 1 takes the mutex. */
  lemma OneLocks(c: Config)
    requires Timed(c)
    ensures Reachable(c, Trio(c, Owned1(c, 1), 0, Holding(c), Fresh(c), Fresh(c)))
  {
    var f, k := Fresh(c), Kind(c);
    StartReachable(c, Trio(c, k, 0, f, f, f));
    TrioCalls(c, k, 0, f, f, f, 1, Lock);
    TrioSteps(c, k, 0, Busy(c, Lock, Load(Lock), k), f, f, 1, k, Busy(c, Lock, Fast(Lock), k));
    TrioSteps(c, k, 0, Busy(c, Lock, Fast(Lock), k), f, f, 1, Owned1(c, 1), Holding(c));
  }

  /** Thread 3 finds it locked in state 1. */
  lemma ThreeLoads(c: Config)
    requires Timed(c)
    ensures Reachable(c, Trio(c, Owned1(c, 1), 0, Holding(c), Fresh(c), Busy(c, Lock, Flip(Lock), Owned1(c, 1))))
  {
    var f, h, w1 := Fresh(c), Holding(c), Owned1(c, 1);
    OneLocks(c);
    TrioCalls(c, w1, 0, h, f, f, 3, Lock);
    TrioSteps(c, w1, 0, h, f, Busy(c, Lock, Load(Lock), Kind(c)), 3, w1, Busy(c, Lock, Flip(Lock), w1));
  }

  /** It marks it contended and sleeps, without a timeout. */
  lemma ThreeSleeps(c: Config)
    requires Timed(c)
    ensures Reachable(c, Trio(c, Owned1(c, 2), 0, Holding(c), Fresh(c), Sleeping(c)))
  {
    var f, h, w1, w2 := Fresh(c), Holding(c), Owned1(c, 1), Owned1(c, 2);
    ThreeLoads(c);
    TrioSteps(c, w1, 0, h, f, Busy(c, Lock, Flip(Lock), w1), 3, w2, Busy(c, Lock, Wait(Lock), w2));
    TrioSteps(c, w2, 0, h, f, Busy(c, Lock, Wait(Lock), w2), 3, w2, Sleeping(c));
  }

  /** Thread 2 finds it in state 2. */
  lemma TwoLoads(c: Config)
    requires Timed(c)
    ensures Reachable(c, Trio(c, Owned1(c, 2), 0, Holding(c), Busy(c, LATE, Check(LATE), Owned1(c, 2)), Sleeping(c)))
  {
    var h, z, w2 := Holding(c), Sleeping(c), Owned1(c, 2);
    ThreeSleeps(c);
    TrioCalls(c, w2, 0, h, Fresh(c), z, 2, LATE);
    TrioSteps(c, w2, 0, h, Busy(c, LATE, Load(LATE), Kind(c)), z, 2, w2, Busy(c, LATE, Check(LATE), w2));
  }

  /** It sleeps too, with a deadline. */
  lemma TwoSleeps(c: Config)
    requires Timed(c)
    ensures Reachable(c, Trio(c, Owned1(c, 2), 0, Holding(c), Busy(c, LATE, Sleep(LATE), Owned1(c, 2)), Sleeping(c)))
  {
    var h, z, w2 := Holding(c), Sleeping(c), Owned1(c, 2);
    TwoLoads(c);
    TrioSteps(c, w2, 0, h, Busy(c, LATE, Check(LATE), w2), z, 2, w2, Busy(c, LATE, Wait(LATE), w2));
    TrioSteps(c, w2, 0, h, Busy(c, LATE, Wait(LATE), w2), z, 2, w2, Busy(c, LATE, Sleep(LATE), w2));
  }

  /** Thread 1 in the middle of its unlock. */
  function Unlocks(c: Config, pc: Pc, depth: int): T {
    Holding(c).(call := OnMutex(Unlock), base := 1, entry := 1, pc := pc, depth := depth,
                mvalue := if pc.Load? then Kind(c) else Owned1(c, 2))
  }

  function Unlocked(c: Config): T { Answered(Unlocks(c, WakeOne, 0), Unlock, OK, 0, 1) }

  /** Thread 1 lets go and is about to wake one sleeper. */
  lemma OneUnlocks(c: Config)
    requires Timed(c)
    ensures Reachable(c, Trio(c, Kind(c), 0, Unlocks(c, WakeOne, 0), Busy(c, LATE, Sleep(LATE), Owned1(c, 2)),
                              Sleeping(c)))
  {
    var h, w2, z := Holding(c), Owned1(c, 2), Sleeping(c);
    var y := Busy(c, LATE, Sleep(LATE), w2);
    TwoSleeps(c);
    TrioCalls(c, w2, 0, h, y, z, 1, Unlock);
    TrioSteps(c, w2, 0, Unlocks(c, Load(Unlock), 1), y, z, 1, w2, Unlocks(c, USwap, 1));
    TrioSteps(c, w2, 0, Unlocks(c, USwap, 1), y, z, 1, Kind(c), Unlocks(c, WakeOne, 0));
  }

  /** It wakes thread 2. */
  lemma OneWakesTwo(c: Config)
    requires Timed(c)
    ensures Reachable(c, Trio(c, Kind(c), 0, Unlocked(c), Busy(c, LATE, Reload(LATE), Owned1(c, 2)), Sleeping(c)))
  {
    var k, w2, z := Kind(c), Owned1(c, 2), Sleeping(c);
    var b, y, y' := Unlocks(c, WakeOne, 0), Busy(c, LATE, Sleep(LATE), w2), Busy(c, LATE, Reload(LATE), w2);
    OneUnlocks(c);
    var s, s' := Trio(c, k, 0, b, y, z), Trio(c, k, 0, Unlocked(c), y', z);
    assert s.threads[1] == b && s.threads[2] == y;
    assert StepOf(s, 1, b) == Effect(k, c.cond, false, Unlocked(c), OneOnMutex);
    assert Next(c, s, Go(1, Some(2))) == s' by {
      assert Rouse(s.threads, OneOnMutex, Some(2)) == s.threads[2 := y'];
    }
    NextReachable(c, s, Go(1, Some(2)), s');
  }

  /** Thread 2 sees the mutex free. */
  lemma TwoSeesItFree(c: Config)
    requires Timed(c)
    ensures Reachable(c, Trio(c, Kind(c), 0, Unlocked(c), Busy(c, LATE, Acq(LATE), Kind(c)), Sleeping(c)))
  {
    var k := Kind(c);
    OneWakesTwo(c);
    TrioSteps(c, k, 0, Unlocked(c), Busy(c, LATE, Reload(LATE), Owned1(c, 2)), Sleeping(c),
              2, k, Busy(c, LATE, Acq(LATE), k));
  }

  /** Thread 1 calls lock again. */
  function Relocks(c: Config, pc: Pc): T {
    Unlocked(c).(call := OnMutex(Lock), base := 0, entry := 0, pc := pc,
                 mvalue := if pc.Load? then Owned1(c, 2) else Kind(c))
  }

  function HoldingAgain(c: Config): T { Answered(Relocks(c, Fast(Lock)), Lock, OK, 1, 0) }

  /** It takes the mutex again by the fast path. */
  lemma OneLocksAgain(c: Config)
    requires Timed(c)
    ensures Reachable(c, Trio(c, Owned1(c, 1), 0, HoldingAgain(c), Busy(c, LATE, Acq(LATE), Kind(c)), Sleeping(c)))
  {
    var z, k, w1 := Sleeping(c), Kind(c), Owned1(c, 1);
    var y := Busy(c, LATE, Acq(LATE), k);
    TwoSeesItFree(c);
    TrioCalls(c, k, 0, Unlocked(c), y, z, 1, Lock);
    TrioSteps(c, k, 0, Relocks(c, Load(Lock)), y, z, 1, k, Relocks(c, Fast(Lock)));
    TrioSteps(c, k, 0, Relocks(c, Fast(Lock)), y, z, 1, w1, HoldingAgain(c));
  }

  /** Thread 2's cmpxchg fails. */
  lemma TwoFails(c: Config)
    requires Timed(c)
    ensures Reachable(c, Trio(c, Owned1(c, 1), 0, HoldingAgain(c), Busy(c, LATE, AcqCheck(LATE), Kind(c)), Sleeping(c)))
  {
    var y, y' := Busy(c, LATE, Acq(LATE), Kind(c)), Busy(c, LATE, AcqCheck(LATE), Kind(c));
    OneLocksAgain(c);
    TrioSteps(c, Owned1(c, 1), 0, HoldingAgain(c), y, Sleeping(c), 2, Owned1(c, 1), y');
  }

  function GaveUp(c: Config): T { Answered(Busy(c, LATE, AcqCheck(LATE), Kind(c)), LATE, EBUSY, 0, 0) }

  /** Thread 2's time is up: it returns EBUSY with the word in state 1 and thread 3 still asleep. */
  lemma TwoGivesUp(c: Config)
    requires Timed(c)
    ensures Reachable(c, Trio(c, Owned1(c, 1), 1, HoldingAgain(c), GaveUp(c), Sleeping(c)))
  {
    var h, z, w1 := HoldingAgain(c), Sleeping(c), Owned1(c, 1);
    var y := Busy(c, LATE, AcqCheck(LATE), Kind(c));
    TwoFails(c);
    NextReachable(c, Trio(c, w1, 0, h, y, z), Tick(1), Trio(c, w1, 1, h, y, z));
    TrioSteps(c, w1, 1, h, y, z, 2, w1, GaveUp(c));
  }

  /** Thread 1 in the middle of its second unlock. */
  function LetsGo(c: Config, pc: Pc): T {
    HoldingAgain(c).(call := OnMutex(Unlock), base := 1, entry := 1, pc := pc,
                     mvalue := if pc.Load? then Kind(c) else Owned1(c, 1))
  }

  /** All operations are over, the mutex is free, and thread 3 is asleep on it. */
  function Orphan(c: Config): State {
    Trio(c, Kind(c), 1, Answered(LetsGo(c, USwap), Unlock, OK, 0, 1), GaveUp(c), Sleeping(c))
  }

  /** Thread 1 unlocks, sees state 1 and wakes nobody. */
  lemma OneLetsGo(c: Config)
    requires Timed(c)
    ensures Reachable(c, Orphan(c))
  {
    var y, z, w1 := GaveUp(c), Sleeping(c), Owned1(c, 1);
    TwoGivesUp(c);
    TrioCalls(c, w1, 1, HoldingAgain(c), y, z, 1, Unlock);
    TrioSteps(c, w1, 1, LetsGo(c, Load(Unlock)), y, z, 1, w1, LetsGo(c, USwap));
    TrioSteps(c, w1, 1, LetsGo(c, USwap), y, z, 1, Kind(c), Answered(LetsGo(c, USwap), Unlock, OK, 0, 1));
  }

  /** A reachable state in which a thread sleeps on a free mutex while every other thread is done. */
  lemma TimedLockCanOrphan(c: Config)
    requires Timed(c)
    ensures var s := Orphan(c);
            && Reachable(c, s) && !NoOrphan(s) && s.word == Free(c.mtype, c.shared)
            && s.threads.Keys == {1, 2, 3} && OnMutexQueue(s.threads[3])
            && (forall t <- s.threads :: s.threads[t].depth == 0 && (s.threads[t].pc.Idle? || t == 3))
  {
    OneLetsGo(c);
    assert OnMutexQueue(Orphan(c).threads[3]);
  }

  /** The exact condition: a normal mutex, or clients that keep the timed lock off the other types. */
  lemma OrphanFreeIffCareful(c: Config)
    requires ValidConfig(c)
    ensures (forall s: State :: Reachable(c, s) ==> NoOrphan(s)) <==> Careful(c)
  {
    if Careful(c) {
      forall s: State | Reachable(c, s)
        ensures NoOrphan(s)
      {
        var ss: seq<State>, acts: seq<Action> :| IsRun(c, ss, acts) && ss[|acts|] == s;
        NobodyIsOrphaned(c, ss, acts, |acts|);
      }
    } else {
      TimedLockCanOrphan(c);
    }
  }
}
