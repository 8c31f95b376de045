/**
 The condition variable: a 31-bit pulse counter next to a shared flag. No waiter misses a
 broadcast or a signal as long as fewer than 2^31 pulses fall into its window between the
 snapshot and the futex wait, and exactly at a multiple of 2^31 it does.
 */
module CondVar {
  import opened Common
  import opened MutexWord
  import opened FutexMachine
  import opened MutexOwnership
  import opened MutexLedger

  /** The condition word after `n` pulses. */
  function After(c: Config, n: nat): CondWord {
    CondWord(c.cond.shared, (c.cond.count - n) % HALF)
  }

  predicate WaitsFrom(th: T, k: int) { th.frame.Waiting? && th.frame.since <= k }

  predicate CondLocal(c: Config, pulses: nat, th: T) {
    && (th.frame.Waiting? ==> th.frame.since <= pulses && th.frame.snap == After(c, th.frame.since))
    && (th.pc.PLoad? ==> th.pc.flags == c.cond.shared)
    && (th.pc.PCas? ==> th.pc.flags == c.cond.shared)
    && (th.pc.PWake? ==> th.pc.index < pulses)
  }

  /** A pulse sent by a holder finds only waiters from before it. */
  ghost predicate HolderPulses(s: State) {
    forall u <- s.threads, t <- s.threads ::
      s.threads[u].pc.PWake? && s.threads[u].depth > 0 && s.threads[t].frame.Waiting? && s.threads[t].entry > 0 ==>
        WaitsFrom(s.threads[t], s.threads[u].pc.index)
  }

  ghost predicate CondInv(c: Config, s: State) {
    && Inv(c, s)
    && s.cond == After(c, s.pulses)
    && (forall t <- s.threads :: CondLocal(c, s.pulses, s.threads[t]) && Ledger(c, s.threads[t]))
    && HolderPulses(s)
  }

  // ----- arithmetic -----

  lemma CountsAgree(a: int, p: int, q: int)
    ensures (a - p) % HALF == (a - q) % HALF <==> (p - q) % HALF == 0
  {
    var m, n := (a - p) / HALF, (a - q) / HALF;
    var k := (p - q) / HALF;
    if (a - p) % HALF == (a - q) % HALF {
      assert p - q == HALF * (n - m);
    }
    if (p - q) % HALF == 0 {
      assert a - q == HALF * (m + k) + (a - p) % HALF;
    }
  }

  lemma AfterPulse(c: Config, n: nat)
    ensures Pulsed(After(c, n), c.cond.shared) == After(c, n + 1)
  {
    var a := c.cond.count - n;
    assert a == HALF * (a / HALF) + a % HALF;
    CountsAgree(a - 1, 0, HALF * (a / HALF));
  }

  /** A snapshot still equals the word exactly if a multiple of 2^31 pulses came in between. */
  lemma SnapshotStillEqual(c: Config, since: nat, pulses: nat)
    requires since <= pulses
    ensures After(c, since) == After(c, pulses) <==> (pulses - since) % HALF == 0
    ensures pulses - since < HALF ==> (After(c, since) == After(c, pulses) <==> pulses == since)
  {
    CountsAgree(c.cond.count, since, pulses);
    CountsAgree(c.cond.count, pulses, since);
  }

  // ----- the invariant is kept -----

  /** The steps of the mutex code do not touch the condition variable. */
  predicate LeavesCond(s: State, th: T, e: Effect) {
    && e.cond == s.cond && !e.pulsed
    && e.th.frame == th.frame && e.th.entry == th.entry
    && !IsPulsePc(e.th.pc) && !OnCondQueue(e.th)
  }

  lemma MutexStepsLeaveCond(s: State, t: Tid, th: T)
    requires !th.pc.Idle? && !Asleep(th) && !IsCondPc(th.pc)
    ensures LeavesCond(s, th, StepOf(s, t, th))
  {
    if IsNormalPc(th.pc) {
      assert LeavesCond(s, th, NormalStep(s, th));
    } else if IsOwnerPc(th.pc) {
      assert LeavesCond(s, th, OwnerStep(s, th));
    } else if IsGrabPc(th.pc) {
      assert LeavesCond(s, th, GrabStep(s, t, th));
    } else if IsParkPc(th.pc) {
      assert LeavesCond(s, th, ParkStep(s, th));
    }
  }

  function PulsesAfter(s: State, e: Effect): nat {
    if e.pulsed then s.pulses + 1 else s.pulses
  }

  /** A waiter's snapshot is the one it had, or the one it has just taken. */
  predicate SameWait(th: T, th': T) {
    th'.frame.Waiting? ==>
      th'.entry == th.entry && (th'.frame == th.frame || (th.pc.CSnap? && th.depth == th.entry))
  }

  predicate FallsAsleep(s: State, th: T, th': T) {
    th.pc.CFutex? && th'.frame == th.frame && th.frame.Waiting? && th.frame.snap == s.cond
  }

  /** What one step of one thread means for the condition variable. */
  predicate CondEffect(c: Config, s: State, th: T, e: Effect) {
    && e.cond == After(c, PulsesAfter(s, e))
    && CondLocal(c, PulsesAfter(s, e), e.th)
    && SameWait(th, e.th)
    && (e.th.pc.PWake? ==> e.th.depth == th.depth && e.th.frame.Client? && e.th.pc.index == s.pulses)
    && (OnCondQueue(e.th) ==> FallsAsleep(s, th, e.th))
  }

  lemma WaitEffect(c: Config, s: State, th: T)
    requires s.cond == After(c, s.pulses) && CondLocal(c, s.pulses, th) && Ledger(c, th) && IsWaitPc(th.pc)
    ensures CondEffect(c, s, th, WaitStep(s, th))
  {
  }

  lemma PulseEffect(c: Config, s: State, th: T)
    requires s.cond == After(c, s.pulses) && CondLocal(c, s.pulses, th) && Ledger(c, th) && IsPulsePc(th.pc)
    ensures CondEffect(c, s, th, PulseStep(s, th))
  {
    AfterPulse(c, s.pulses);
  }

  lemma CondSteps(s: State, t: Tid, th: T)
    requires IsCondPc(th.pc)
    ensures StepOf(s, t, th) == if IsWaitPc(th.pc) then WaitStep(s, th) else PulseStep(s, th)
  {
  }

  lemma StepCondEffect(c: Config, s: State, t: Tid, th: T, e: Effect)
    requires s.cond == After(c, s.pulses) && CondLocal(c, s.pulses, th) && Ledger(c, th)
    requires !th.pc.Idle? && !Asleep(th) && e == StepOf(s, t, th)
    ensures CondEffect(c, s, th, e)
  {
    if IsCondPc(th.pc) {
      CondSteps(s, t, th);
      if IsWaitPc(th.pc) {
        WaitEffect(c, s, th);
      } else {
        PulseEffect(c, s, th);
      }
    } else {
      MutexStepsLeaveCond(s, t, th);
      LeavingIsAnEffect(c, s, th, e);
    }
  }

  lemma LeavingIsAnEffect(c: Config, s: State, th: T, e: Effect)
    requires s.cond == After(c, s.pulses) && CondLocal(c, s.pulses, th) && LeavesCond(s, th, e)
    ensures CondEffect(c, s, th, e)
  {
  }

  lemma BystanderCond(c: Config, s: State, a: Action, u: Tid)
    requires CondInv(c, s) && Enabled(c, s, a) && u in s.threads && !ActsFor(a, u)
    ensures var s' := Next(c, s, a);
            && u in s'.threads && CondLocal(c, s'.pulses, s'.threads[u])
            && s'.threads[u].entry == s.threads[u].entry && s'.threads[u].depth == s.threads[u].depth
            && (s'.threads[u].frame.Waiting? ==> s'.threads[u].frame == s.threads[u].frame)
            && (s'.threads[u].pc.PWake? ==> s'.threads[u].pc == s.threads[u].pc)
  {
    OthersStandBy(c, s, a, u);
  }

  lemma ActorCond(c: Config, s: State, a: Action)
    requires CondInv(c, s) && Enabled(c, s, a) && !a.Tick?
    ensures var s' := Next(c, s, a); var th, th' := s.threads[a.t], s'.threads[a.t];
            && CondLocal(c, s'.pulses, th')
            && SameWait(th, th')
            && (th'.pc.PWake? ==> th'.depth == th.depth && th'.frame.Client? && th'.pc.index == s.pulses)
            && (OnCondQueue(th') ==> FallsAsleep(s, th, th'))
  {
    hide Inv, StepOf, Rouse, HolderPulses, After;
    if a.Go? {
      StepCondEffect(c, s, a.t, s.threads[a.t], StepOf(s, a.t, s.threads[a.t]));
    }
  }

  lemma NextKeepsHolderPulses(c: Config, s: State, a: Action)
    requires CondInv(c, s) && Enabled(c, s, a) && Inv(c, Next(c, s, a))
    ensures HolderPulses(Next(c, s, a))
  {
    var s' := Next(c, s, a);
    SameThreads(c, s, a);
    forall u <- s'.threads, t <- s'.threads
      | s'.threads[u].pc.PWake? && s'.threads[u].depth > 0 && s'.threads[t].frame.Waiting? && s'.threads[t].entry > 0
      ensures WaitsFrom(s'.threads[t], s'.threads[u].pc.index)
    {
      if !a.Tick? {
        ActorCond(c, s, a);
      }
      if !ActsFor(a, u) {
        BystanderCond(c, s, a, u);
      }
      if !ActsFor(a, t) {
        BystanderCond(c, s, a, t);
      }
    }
  }

  lemma CondLocalAfter(c: Config, s: State, a: Action, u: Tid)
    requires CondInv(c, s) && Enabled(c, s, a) && u in s.threads
    ensures u in Next(c, s, a).threads
    ensures CondLocal(c, Next(c, s, a).pulses, Next(c, s, a).threads[u]) && Ledger(c, Next(c, s, a).threads[u])
  {
    hide Inv, StepOf, Rouse, HolderPulses;
    NextLedger(c, s, a, u);
    if ActsFor(a, u) {
      ActorCond(c, s, a);
    } else {
      BystanderCond(c, s, a, u);
    }
  }

  lemma CondAfter(c: Config, s: State, a: Action)
    requires CondInv(c, s) && Enabled(c, s, a)
    ensures Next(c, s, a).cond == After(c, Next(c, s, a).pulses)
  {
    hide Inv, StepOf, Rouse, HolderPulses;
    if a.Go? {
      StepCondEffect(c, s, a.t, s.threads[a.t], StepOf(s, a.t, s.threads[a.t]));
    }
  }

  lemma NextKeepsCondInv(c: Config, s: State, a: Action)
    requires CondInv(c, s) && Enabled(c, s, a)
    ensures CondInv(c, Next(c, s, a))
  {
    hide Inv, Next, Enabled, HolderPulses, CondLocal, Ledger;
    var s' := Next(c, s, a);
    NextKeepsInv(c, s, a);
    SameThreads(c, s, a);
    NextKeepsHolderPulses(c, s, a);
    CondAfter(c, s, a);
    forall u <- s'.threads
      ensures CondLocal(c, s'.pulses, s'.threads[u]) && Ledger(c, s'.threads[u])
    {
      CondLocalAfter(c, s, a, u);
    }
  }

  lemma {:induction false} RunCondInv(c: Config, ss: seq<State>, acts: seq<Action>, i: nat)
    requires IsRun(c, ss, acts) && i < |ss|
    ensures CondInv(c, ss[i])
  {
    if i == 0 {
      InitInv(c, ss[0]);
    } else {
      RunCondInv(c, ss, acts, i - 1);
      NextKeepsCondInv(c, ss[i - 1], acts[i - 1]);
    }
  }

  // ----- the results -----

  /** The shared flag never changes and the word returns to its first value exactly every 2^31 pulses. */
  lemma PulseArithmetic(c: Config, ss: seq<State>, acts: seq<Action>, i: nat)
    requires IsRun(c, ss, acts) && i < |ss|
    ensures ss[i].cond.shared == ss[0].cond.shared
    ensures ss[i].cond == ss[0].cond <==> ss[i].pulses % HALF == 0
  {
    RunCondInv(c, ss, acts, i);
    RunCondInv(c, ss, acts, 0);
    SnapshotStillEqual(c, 0, ss[i].pulses);
  }

  /** A waiter at its futex wait goes to sleep exactly if a multiple of 2^31 pulses came since its snapshot. */
  lemma SleepsExactlyAtWrapAround(c: Config, ss: seq<State>, acts: seq<Action>, i: nat, t: Tid)
    requires IsRun(c, ss, acts) && i < |acts| && t in ss[i].threads && ss[i].threads[t].pc.CFutex?
    requires acts[i].Go? && acts[i].t == t
    ensures ss[i].threads[t].frame.Waiting? && ss[i].threads[t].frame.since <= ss[i].pulses && t in ss[i + 1].threads
    ensures OnCondQueue(ss[i + 1].threads[t]) <==> (ss[i].pulses - ss[i].threads[t].frame.since) % HALF == 0
  {
    hide Inv, HolderPulses, Next;
    RunCondInv(c, ss, acts, i);
    FutexStep(c, ss[i], acts[i]);
    FutexCompares(c, ss[i], t, ss[i].threads[t]);
  }

  lemma FutexStep(c: Config, s: State, a: Action)
    requires Enabled(c, s, a) && a.Go? && s.threads[a.t].pc.CFutex?
    ensures a.t in Next(c, s, a).threads && Next(c, s, a).threads[a.t] == StepOf(s, a.t, s.threads[a.t]).th
  {
  }

  lemma FutexCompares(c: Config, s: State, t: Tid, th: T)
    requires s.cond == After(c, s.pulses) && CondLocal(c, s.pulses, th) && Ledger(c, th) && th.pc.CFutex?
    ensures th.frame.Waiting? && th.frame.since <= s.pulses
    ensures StepOf(s, t, th).wakes == Nobody
    ensures OnCondQueue(StepOf(s, t, th).th) <==> (s.pulses - th.frame.since) % HALF == 0
  {
    CondSteps(s, t, th);
    SnapshotStillEqual(c, th.frame.since, s.pulses);
  }

  /** Fewer than 2^31 pulses in every waiter's window. */
  ghost predicate ShortWindows(s: State) {
    forall t <- s.threads :: s.threads[t].frame.Waiting? ==> s.pulses - s.threads[t].frame.since < HALF
  }

  ghost predicate NoneAsleepFrom(s: State, k: int) {
    forall t <- s.threads :: OnCondQueue(s.threads[t]) ==> !WaitsFrom(s.threads[t], k)
  }

  lemma StaleWaiterDoesNotSleep(c: Config, s: State, a: Action, k: int)
    requires CondInv(c, s) && Enabled(c, s, a) && ShortWindows(s) && k < s.pulses && NoneAsleepFrom(s, k)
    ensures NoneAsleepFrom(Next(c, s, a), k)
  {
    var s' := Next(c, s, a);
    SameThreads(c, s, a);
    forall t <- s'.threads | OnCondQueue(s'.threads[t])
      ensures !WaitsFrom(s'.threads[t], k)
    {
      if !ActsFor(a, t) {
        OthersStandBy(c, s, a, t);
      } else {
        FallingAsleep(c, s, a);
      }
    }
  }

  lemma FallingAsleep(c: Config, s: State, a: Action)
    requires CondInv(c, s) && Enabled(c, s, a) && ShortWindows(s) && !a.Tick?
    requires OnCondQueue(Next(c, s, a).threads[a.t])
    ensures Next(c, s, a).threads[a.t].frame.Waiting? && Next(c, s, a).threads[a.t].frame.since == s.pulses
  {
    var th := s.threads[a.t];
    ActorCond(c, s, a);
    SnapshotStillEqual(c, th.frame.since, s.pulses);
  }

  lemma BroadcastWakesAll(c: Config, s: State, a: Action)
    requires CondInv(c, s) && Enabled(c, s, a) && a.Go?
    requires s.threads[a.t].pc.PWake? && s.threads[a.t].call == CondPulse(true)
    ensures forall t <- Next(c, s, a).threads :: !OnCondQueue(Next(c, s, a).threads[t])
    ensures s.pulses <= Next(c, s, a).pulses
  {
    CondSteps(s, a.t, s.threads[a.t]);
  }

  lemma PulsesGrow(c: Config, s: State, a: Action)
    requires Enabled(c, s, a)
    ensures s.pulses <= Next(c, s, a).pulses
  {
  }

  lemma {:induction false} NoneAsleepStays(c: Config, ss: seq<State>, acts: seq<Action>, i: nat, j: nat, k: int)
    requires IsRun(c, ss, acts) && i <= j < |ss| && k < ss[i].pulses && NoneAsleepFrom(ss[i], k)
    requires forall m :: i <= m < j ==> ShortWindows(ss[m])
    ensures k < ss[j].pulses && NoneAsleepFrom(ss[j], k)
    decreases j
  {
    if i < j {
      NoneAsleepStays(c, ss, acts, i, j - 1, k);
      RunCondInv(c, ss, acts, j - 1);
      PulsesGrow(c, ss[j - 1], acts[j - 1]);
      StaleWaiterDoesNotSleep(c, ss[j - 1], acts[j - 1], k);
    }
  }

  /**
   No missed broadcast: from the wake step of a broadcast on, for the rest of the run, no thread
   sleeps whose snapshot was taken before the broadcast's pulse.
   */
  lemma NoMissedBroadcast(c: Config, ss: seq<State>, acts: seq<Action>, i: nat, j: nat)
    requires IsRun(c, ss, acts) && i < j < |ss|
    requires forall m :: i <= m < j ==> ShortWindows(ss[m])
    requires acts[i].Go? && ss[i].threads[acts[i].t].pc.PWake? && ss[i].threads[acts[i].t].call == CondPulse(true)
    ensures NoneAsleepFrom(ss[j], ss[i].threads[acts[i].t].pc.index)
  {
    RunCondInv(c, ss, acts, i);
    BroadcastWakesAll(c, ss[i], acts[i]);
    assert CondLocal(c, ss[i].pulses, ss[i].threads[acts[i].t]);
    NoneAsleepStays(c, ss, acts, i + 1, j, ss[i].threads[acts[i].t].pc.index);
  }

  /** Out of the futex wait, or certain to be turned away by it. */
  predicate Freed(s: State, th: T) {
    !OnCondQueue(th) && (th.frame.Waiting? ==> s.cond != th.frame.snap)
  }

  /**
   A signal sent by a holder of the mutex, with clients that wait only while they hold it, frees at
   least one of the threads that were already waiting when it was sent, if there is one.
   */
  lemma SignalFreesAWaiter(c: Config, ss: seq<State>, acts: seq<Action>, i: nat, t: Tid)
    requires IsRun(c, ss, acts) && i < |acts| && ShortWindows(ss[i])
    requires acts[i].Go? && ss[i].threads[acts[i].t].pc.PWake? && ss[i].threads[acts[i].t].call == CondPulse(false)
    requires ss[i].threads[acts[i].t].depth > 0
    requires forall u <- ss[i].threads :: ss[i].threads[u].frame.Waiting? ==> ss[i].threads[u].entry > 0
    requires t in ss[i].threads && ss[i].threads[t].frame.Waiting?
    ensures exists u <- ss[i].threads :: WaitsFrom(ss[i].threads[u], ss[i].threads[acts[i].t].pc.index)
                                         && u in ss[i + 1].threads && Freed(ss[i + 1], ss[i + 1].threads[u])
  {
    RunCondInv(c, ss, acts, i);
    var u := SignalStep(c, ss[i], acts[i], t);
  }

  /** The wake step of a signal: one sleeper leaves the queue, or there is none. */
  lemma SignalWakes(c: Config, s: State, a: Action, u: Tid)
    requires Enabled(c, s, a) && a.Go? && s.threads[a.t].pc.PWake? && s.threads[a.t].call == CondPulse(false)
    requires u in s.threads && u != a.t
    ensures a.pick.Some? ==> a.pick.value in s.threads && OnCondQueue(s.threads[a.pick.value])
    ensures a.pick.None? ==> !OnCondQueue(s.threads[u])
    ensures Next(c, s, a).cond == s.cond && u in Next(c, s, a).threads
    ensures Next(c, s, a).threads[u] == if a.pick == Some(u) then Woken(s.threads[u]) else s.threads[u]
  {
    CondSteps(s, a.t, s.threads[a.t]);
  }

  lemma SignalStep(c: Config, s: State, a: Action, t: Tid) returns (u: Tid)
    requires CondInv(c, s) && Enabled(c, s, a) && ShortWindows(s)
    requires a.Go? && s.threads[a.t].pc.PWake? && s.threads[a.t].call == CondPulse(false) && s.threads[a.t].depth > 0
    requires forall v <- s.threads :: s.threads[v].frame.Waiting? ==> s.threads[v].entry > 0
    requires t in s.threads && s.threads[t].frame.Waiting?
    ensures u in s.threads && WaitsFrom(s.threads[u], s.threads[a.t].pc.index)
    ensures u in Next(c, s, a).threads && Freed(Next(c, s, a), Next(c, s, a).threads[u])
  {
    hide Inv, After, Next;
    SignalWakes(c, s, a, t);
    u := if a.pick.Some? then a.pick.value else t;
    assert CondLocal(c, s.pulses, s.threads[u]) && Ledger(c, s.threads[u]) && Ledger(c, s.threads[a.t]);
    SignalWakes(c, s, a, u);
    assert WaitsFrom(s.threads[u], s.threads[a.t].pc.index);
    SnapshotStillEqual(c, s.threads[u].frame.since, s.pulses);
  }
}
