/**
 What a condition wait answers: ETIMEDOUT exactly if its first look at the clock found the deadline
 past, or if its futex wait ended by its timeout.
 */
module CondAnswer {
  import opened Common
  import opened MutexWord
  import opened FutexMachine
  import opened MutexOwnership
  import opened MutexLedger

  // ----- what happened to thread `t` since its last call began, over the first `i` actions -----

  predicate Begins(a: Action, t: Tid) { a.Start? && a.t == t }

  /** It has made no access yet. */
  predicate AtEntry(acts: seq<Action>, i: nat, t: Tid)
    requires i <= |acts|
  {
    i > 0 && (Begins(acts[i - 1], t) || (!ActsFor(acts[i - 1], t) && AtEntry(acts, i - 1, t)))
  }

  /** Its first access, of a wait that looks at the clock, was made after the deadline. */
  predicate FoundPast(ss: seq<State>, acts: seq<Action>, i: nat, t: Tid)
    requires i <= |acts| && i < |ss|
  {
    && i > 0 && !Begins(acts[i - 1], t)
    && (FoundPast(ss, acts, i - 1, t) ||
        (&& acts[i - 1].Go? && acts[i - 1].t == t && AtEntry(acts, i - 1, t) && t in ss[i - 1].threads
         && var call := ss[i - 1].threads[t].call;
            call.CondWait? && call.checked && call.deadline.Some? && ss[i - 1].now > call.deadline.value))
  }

  /** It left the condition variable's queue because the time was up. */
  predicate RanOut(ss: seq<State>, acts: seq<Action>, i: nat, t: Tid)
    requires i <= |acts| && i < |ss|
  {
    && i > 0 && !Begins(acts[i - 1], t)
    && (RanOut(ss, acts, i - 1, t) ||
        (acts[i - 1] == Leave(t, true) && t in ss[i - 1].threads && OnCondQueue(ss[i - 1].threads[t])))
  }

  /** Where a wait is, given what has happened to it. */
  predicate Story(th: T, now: int, entry: bool, past: bool, out: bool) {
    && (entry ==> !past && !out)
    && (past || out ==> th.call.CondWait? && th.call.deadline.Some? && now >= th.call.deadline.value)
    && (if th.pc.Idle? then
          th.last.Some? ==> th.last.value.call == th.call && (th.call.CondWait? ==> Truthful(th.last.value, past, out))
        else
          th.call.CondWait? ==>
            && !past && (out <==> th.frame == Relocking(true))
            && (entry ==> th.frame.Client? && th.pc == if th.call.checked then CCheck else CSnap)
            && (th.pc.CCheck? ==> entry && th.call.checked))
  }

  predicate Truthful(o: Outcome, past: bool, out: bool) { o.error == ETIMEDOUT <==> past || out }

  // ----- what each action does to the story -----

  /** The first access of a wait that looks at the clock, after the deadline. */
  predicate LooksPast(th: T, now: int, entry: bool) {
    entry && th.call.CondWait? && th.call.checked && th.call.deadline.Some? && now > th.call.deadline.value
  }

  /** A step inside the call, or its end with the answer it has come to. */
  predicate Continues(th: T, th': T, past': bool, out': bool) {
    && th'.call == th.call
    && (if th'.pc.Idle? then
          && th'.last.Some? && th'.last.value.call == th.call
          && (th.call.CondWait? ==> Truthful(th'.last.value, past', out'))
        else th.call.CondWait? ==> !past' && (out' <==> th'.frame == Relocking(true)) && !th'.pc.CCheck?)
  }

  lemma WaitContinues(c: Config, s: State, th: T, entry: bool, out: bool)
    requires Ledger(c, th) && IsWaitPc(th.pc) && Story(th, s.now, entry, false, out)
    ensures Continues(th, WaitStep(s, th).th, LooksPast(th, s.now, entry), out)
  {
  }

  /** The mutex operations inside a wait go on, or return. */
  lemma MutexContinues(c: Config, s: State, t: Tid, th: T, entry: bool, out: bool)
    requires Ledger(c, th) && !th.pc.Idle? && !Asleep(th) && !IsCondPc(th.pc) && th.call.CondWait?
    requires Story(th, s.now, entry, false, out)
    ensures Continues(th, StepOf(s, t, th).th, LooksPast(th, s.now, entry), out)
  {
    hide Ledger;
    MutexInside(c, th);
    if th.pc.Load? {
      assert Continues(th, AfterLoad(s.word, t, th), false, out);
    } else if IsNormalPc(th.pc) {
      assert Continues(th, NormalStep(s, th).th, false, out);
    } else if IsOwnerPc(th.pc) {
      assert Continues(th, OwnerStep(s, th).th, false, out);
    } else if IsGrabPc(th.pc) {
      assert Continues(th, GrabStep(s, t, th).th, false, out);
    } else if IsParkPc(th.pc) {
      assert Continues(th, ParkStep(s, th).th, false, out);
    }
  }

  lemma MutexInside(c: Config, th: T)
    requires Ledger(c, th) && !th.pc.Idle? && !Asleep(th) && !IsCondPc(th.pc) && th.call.CondWait?
    ensures !th.frame.Client?
  {
  }

  lemma PulseContinues(c: Config, s: State, th: T, past: bool, out: bool)
    requires Ledger(c, th) && IsPulsePc(th.pc)
    ensures Continues(th, PulseStep(s, th).th, past, out)
  {
  }

  lemma StepContinues(c: Config, s: State, t: Tid, th: T, entry: bool, past: bool, out: bool)
    requires Ledger(c, th) && !th.pc.Idle? && !Asleep(th) && Story(th, s.now, entry, past, out)
    ensures Continues(th, StepOf(s, t, th).th, past || LooksPast(th, s.now, entry), out)
  {
    hide Continues, Settled, WaitStep, PulseStep;
    if IsWaitPc(th.pc) {
      WaitContinues(c, s, th, entry, out);
    } else if IsPulsePc(th.pc) {
      PulseContinues(c, s, th, past || LooksPast(th, s.now, entry), out);
    } else if !th.call.CondWait? {
      OtherCallContinues(c, s, t, th, past || LooksPast(th, s.now, entry), out);
    } else {
      MutexContinues(c, s, t, th, entry, out);
    }
  }

  lemma OtherCallContinues(c: Config, s: State, t: Tid, th: T, past: bool, out: bool)
    requires Ledger(c, th) && !th.pc.Idle? && !Asleep(th) && !th.call.CondWait?
    ensures Continues(th, StepOf(s, t, th).th, past, out)
  {
    AnswerKeepsCall(s, t, th);
  }

  lemma LeavingContinues(c: Config, s: State, th: T, entry: bool, past: bool, out: bool)
    requires Ledger(c, th) && Asleep(th) && Story(th, s.now, entry, past, out)
    ensures Continues(th, Woken(th), past, out) && !Woken(th).pc.Idle?
    ensures CanTimeOut(s, th) ==> Continues(th, TimedOut(th), past, out || OnCondQueue(th))
    ensures CanTimeOut(s, th) && OnCondQueue(th) ==>
              th.call.CondWait? && th.call.deadline.Some? && s.now >= th.call.deadline.value
  {
  }

  lemma BeginStory(th: T, now: int, call: Call)
    ensures Story(Begin(th, call), now, true, false, false)
  {
  }

  /** An own step, or a wake-up by another, carries the story on. */
  lemma StoryGoesOn(th: T, th': T, now: int, entry: bool, past: bool, out: bool, past': bool, out': bool)
    requires Story(th, now, entry, past, out) && Continues(th, th', past', out')
    requires past' ==> past || LooksPast(th, now, entry)
    requires out' ==> out || (th.call.CondWait? && th.call.deadline.Some? && now >= th.call.deadline.value)
    ensures Story(th', now, false, past', out')
  {
  }

  ghost predicate StoryAt(ss: seq<State>, acts: seq<Action>, i: nat, t: Tid)
    requires i < |ss| == |acts| + 1
  {
    t in ss[i].threads &&
    Story(ss[i].threads[t], ss[i].now, AtEntry(acts, i, t), FoundPast(ss, acts, i, t), RanOut(ss, acts, i, t))
  }

  lemma OwnStory(c: Config, ss: seq<State>, acts: seq<Action>, i: nat, t: Tid)
    requires IsRun(c, ss, acts) && i < |acts| && ActsFor(acts[i], t)
    requires StoryAt(ss, acts, i, t) && Ledger(c, ss[i].threads[t])
    ensures StoryAt(ss, acts, i + 1, t)
  {
    hide Story, Continues, Ledger, StepOf, Woken, TimedOut, CanTimeOut;
    var s, th := ss[i], ss[i].threads[t];
    var entry, past, out := AtEntry(acts, i, t), FoundPast(ss, acts, i, t), RanOut(ss, acts, i, t);
    match acts[i]
    case Start(_, call) =>
      BeginStory(th, s.now, call);
    case Go(_, _) =>
      StepContinues(c, s, t, th, entry, past, out);
      var past' := past || LooksPast(th, s.now, entry);
      StoryGoesOn(th, StepOf(s, t, th).th, s.now, entry, past, out, past', out);
      assert FoundPast(ss, acts, i + 1, t) == past' && RanOut(ss, acts, i + 1, t) == out;
    case Leave(_, timeout) =>
      LeavingContinues(c, s, th, entry, past, out);
      var out' := out || (timeout && OnCondQueue(th));
      StoryGoesOn(th, if timeout then TimedOut(th) else Woken(th), s.now, entry, past, out, past, out');
      assert FoundPast(ss, acts, i + 1, t) == past && RanOut(ss, acts, i + 1, t) == out';
  }

  lemma StoryLater(th: T, now: int, later: int, entry: bool, past: bool, out: bool)
    requires Story(th, now, entry, past, out) && now <= later
    ensures Story(th, later, entry, past, out)
  {
  }

  lemma WokenStory(c: Config, th: T, now: int, entry: bool, past: bool, out: bool)
    requires Ledger(c, th) && Story(th, now, entry, past, out) && Asleep(th)
    ensures Story(Woken(th), now, entry, past, out)
  {
  }

  lemma OtherStory(c: Config, ss: seq<State>, acts: seq<Action>, i: nat, t: Tid)
    requires IsRun(c, ss, acts) && i < |acts| && !ActsFor(acts[i], t) && StoryAt(ss, acts, i, t)
    requires Ledger(c, ss[i].threads[t])
    ensures StoryAt(ss, acts, i + 1, t)
  {
    hide Story, Ledger;
    var s, th := ss[i], ss[i].threads[t];
    var entry, past, out := AtEntry(acts, i, t), FoundPast(ss, acts, i, t), RanOut(ss, acts, i, t);
    OthersStandBy(c, s, acts[i], t);
    if Asleep(th) {
      WokenStory(c, th, s.now, entry, past, out);
    }
    StoryLater(ss[i + 1].threads[t], s.now, ss[i + 1].now, entry, past, out);
  }

  lemma FirstStory(c: Config, s: State, t: Tid)
    requires Init(c, s) && t in s.threads
    ensures Story(s.threads[t], s.now, false, false, false)
  {
  }

  lemma {:induction false} RunStory(c: Config, ss: seq<State>, acts: seq<Action>, i: nat, t: Tid)
    requires IsRun(c, ss, acts) && i < |ss| && t in ss[i].threads
    ensures StoryAt(ss, acts, i, t)
  {
    hide Story, Ledger, Inv, Next, Enabled, Init;
    if i == 0 {
      FirstStory(c, ss[0], t);
    } else {
      SameThreads(c, ss[i - 1], acts[i - 1]);
      RunStory(c, ss, acts, i - 1, t);
      RunLedger(c, ss, acts, i - 1, t);
      if ActsFor(acts[i - 1], t) {
        OwnStory(c, ss, acts, i - 1, t);
      } else {
        OtherStory(c, ss, acts, i - 1, t);
      }
    }
  }

  // ----- the results -----

  /**
   A finished condition wait says ETIMEDOUT if and only if its first look at the clock found the deadline past
   or its futex wait ran out of time, and then the deadline has been reached; so a wait without a deadline
   never says so.
   */
  lemma WaitAnswersTruly(c: Config, ss: seq<State>, acts: seq<Action>, i: nat, t: Tid, o: Outcome)
    requires IsRun(c, ss, acts) && i < |ss| && t in ss[i].threads
    requires ss[i].threads[t].pc.Idle? && ss[i].threads[t].last == Some(o) && o.call.CondWait?
    ensures o.error == ETIMEDOUT <==> FoundPast(ss, acts, i, t) || RanOut(ss, acts, i, t)
    ensures o.error == ETIMEDOUT ==> o.call.deadline.Some? && ss[i].now >= o.call.deadline.value
  {
    RunStory(c, ss, acts, i, t);
  }

  /** The time of a sleeping wait can run out exactly if it has a deadline, which has been reached. */
  lemma SleeperRunsOutAtDeadline(c: Config, ss: seq<State>, acts: seq<Action>, i: nat, t: Tid)
    requires IsRun(c, ss, acts) && i < |ss| && t in ss[i].threads && OnCondQueue(ss[i].threads[t])
    ensures ss[i].threads[t].call.CondWait?
    ensures var deadline := ss[i].threads[t].call.deadline;
            Enabled(c, ss[i], Leave(t, true)) <==> deadline.Some? && ss[i].now >= deadline.value
  {
    RunLedger(c, ss, acts, i, t);
    assert Ledger(c, ss[i].threads[t]);
  }
}
