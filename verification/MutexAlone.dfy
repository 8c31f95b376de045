/**
 The fast path: as long as one thread has the mutex to itself the word is never marked contended, so it
 never queues on it and never has anyone to wake.
 */
module MutexAlone {
  import opened Common
  import opened MutexWord
  import opened FutexMachine
  import opened MutexOwnership
  import opened MutexLedger

  /** Only `t` acts, and it does not lock its own normal mutex again. */
  predicate Alone(c: Config, s: State, a: Action, t: Tid) {
    && (a.Tick? || a.t == t)
    && (a.Start? && a.call.OnMutex? && c.mtype == NORMAL && t in s.threads && s.threads[t].depth > 0 ==>
          a.call.op.TryLock? || a.call.op.Unlock?)
  }

  predicate OffTheFastPath(pc: Pc) {
    || pc.NSwap? || pc.NCheck? || pc.NWait? || pc.NSleep? || pc.NStore? || pc.WakeOne?
    || pc.IncReload? || pc.DecReload? || pc.Reload? || pc.Acq? || pc.AcqCheck? || IsParkPc(pc) || pc.Sleep?
  }

  /** What a lone thread knows on top of what every thread knows. */
  predicate LoneKnows(c: Config, w: Word, th: T) {
    && w.state != CONTENDED && (w.state == UNCONTENDED ==> th.depth > 0)
    && !OffTheFastPath(th.pc)
    && (th.pc.Inc? || th.pc.Dec? ==> th.mvalue == w)
    && (th.pc.Fast? ==> th.depth == 0)
    && (c.mtype == NORMAL && (th.pc.Load? || th.pc.NTry?) && !th.pc.op.Unlock? && !th.pc.op.TryLock? ==> th.depth == 0)
  }

  lemma LoneLoad(c: Config, s: State, t: Tid, th: T)
    requires Known(c, s.word, t, th) && LoneKnows(c, s.word, th) && th.pc.Load?
    ensures LoneKnows(c, s.word, AfterLoad(s.word, t, th))
  {
  }

  lemma LoneNormal(c: Config, s: State, t: Tid, th: T)
    requires Known(c, s.word, t, th) && LoneKnows(c, s.word, th) && IsNormalPc(th.pc)
    ensures LoneKnows(c, NormalStep(s, th).word, NormalStep(s, th).th)
  {
  }

  lemma LoneOwner(c: Config, s: State, t: Tid, th: T)
    requires Known(c, s.word, t, th) && LoneKnows(c, s.word, th) && IsOwnerPc(th.pc)
    ensures LoneKnows(c, OwnerStep(s, th).word, OwnerStep(s, th).th)
  {
  }

  lemma LoneGrab(c: Config, s: State, t: Tid, th: T)
    requires Known(c, s.word, t, th) && LoneKnows(c, s.word, th) && IsGrabPc(th.pc)
    ensures LoneKnows(c, GrabStep(s, t, th).word, GrabStep(s, t, th).th)
  {
  }

  lemma LoneCond(c: Config, s: State, t: Tid, th: T)
    requires Known(c, s.word, t, th) && LoneKnows(c, s.word, th) && IsCondPc(th.pc)
    ensures var e := if IsWaitPc(th.pc) then WaitStep(s, th) else PulseStep(s, th);
            e.word == s.word && LoneKnows(c, s.word, e.th)
  {
  }

  lemma LoneStep(c: Config, s: State, t: Tid, th: T)
    requires Known(c, s.word, t, th) && LoneKnows(c, s.word, th) && !th.pc.Idle? && !Asleep(th)
    ensures LoneKnows(c, StepOf(s, t, th).word, StepOf(s, t, th).th)
  {
    hide Known, AfterLoad, NormalStep, OwnerStep, GrabStep, WaitStep, PulseStep;
    if th.pc.Load? {
      LoneLoad(c, s, t, th);
    } else if IsNormalPc(th.pc) {
      LoneNormal(c, s, t, th);
    } else if IsOwnerPc(th.pc) {
      LoneOwner(c, s, t, th);
    } else if IsGrabPc(th.pc) {
      LoneGrab(c, s, t, th);
    } else {
      LoneCond(c, s, t, th);
    }
  }

  /** Leaving the condition variable's queue, or beginning a call. */
  lemma LoneOther(c: Config, w: Word, t: Tid, th: T, call: Call)
    requires Known(c, w, t, th) && LoneKnows(c, w, th)
    ensures Asleep(th) ==> LoneKnows(c, w, Woken(th)) && LoneKnows(c, w, TimedOut(th))
    ensures th.pc.Idle? &&
            (call.OnMutex? && c.mtype == NORMAL && th.depth > 0 ==> call.op.TryLock? || call.op.Unlock?) ==>
              LoneKnows(c, w, Begin(th, call))
  {
  }

  ghost predicate AloneUntil(c: Config, ss: seq<State>, acts: seq<Action>, i: nat, t: Tid)
    requires i <= |acts| && i < |ss|
  {
    forall k | 0 <= k < i :: Alone(c, ss[k], acts[k], t)
  }

  lemma {:induction false} LoneRun(c: Config, ss: seq<State>, acts: seq<Action>, i: nat, t: Tid)
    requires IsRun(c, ss, acts) && i < |ss| && t in ss[i].threads && AloneUntil(c, ss, acts, i, t)
    ensures LoneKnows(c, ss[i].word, ss[i].threads[t])
  {
    hide LoneKnows, Alone, Next, Enabled, Init;
    if i == 0 {
      LoneStart(c, ss[0], t);
    } else {
      SameThreads(c, ss[i - 1], acts[i - 1]);
      LoneRun(c, ss, acts, i - 1, t);
      LoneAction(c, ss, acts, i - 1, t);
    }
  }

  lemma LoneStart(c: Config, s: State, t: Tid)
    requires Init(c, s) && t in s.threads
    ensures LoneKnows(c, s.word, s.threads[t])
  {
  }

  lemma LoneAction(c: Config, ss: seq<State>, acts: seq<Action>, i: nat, t: Tid)
    requires IsRun(c, ss, acts) && i < |acts| && t in ss[i].threads && Alone(c, ss[i], acts[i], t)
    requires LoneKnows(c, ss[i].word, ss[i].threads[t])
    ensures t in ss[i + 1].threads && LoneKnows(c, ss[i + 1].word, ss[i + 1].threads[t])
  {
    hide Known, LoneKnows, StepOf, Woken, TimedOut, Ledger, Inv;
    var s, a, th := ss[i], acts[i], ss[i].threads[t];
    RunLedger(c, ss, acts, i, t);
    KnownOf(c, s, t);
    if a.Go? {
      LoneStep(c, s, t, th);
    } else {
      LoneOther(c, s.word, t, th, if a.Start? then a.call else CondPulse(true));
    }
  }

  lemma KnownOf(c: Config, s: State, t: Tid)
    requires Inv(c, s) && t in s.threads && Ledger(c, s.threads[t])
    ensures Known(c, s.word, t, s.threads[t])
  {
    DepthMatchesState(c, s, t);
  }

  /** A thread that is alone never marks the mutex contended, never sleeps on it, and never wakes for it. */
  lemma AloneIsUncontended(c: Config, ss: seq<State>, acts: seq<Action>, i: nat, t: Tid)
    requires IsRun(c, ss, acts) && i < |ss| && t in ss[i].threads && AloneUntil(c, ss, acts, i, t)
    ensures ss[i].word.state != 2 && !OnMutexQueue(ss[i].threads[t])
    ensures !ss[i].threads[t].pc.Idle? && !Asleep(ss[i].threads[t]) ==>
              StepOf(ss[i], t, ss[i].threads[t]).wakes != OneOnMutex
  {
    LoneRun(c, ss, acts, i, t);
  }
}
