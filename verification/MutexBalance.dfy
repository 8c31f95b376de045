/**
 Locks against unlocks over a whole run: a thread holds the mutex as often as its locks that
 succeeded outnumber its unlocks, counting a wait it entered without the mutex as one more lock.
 */
module MutexBalance {
  import opened Common
  import opened MutexWord
  import opened FutexMachine
  import opened MutexOwnership
  import opened MutexLedger

  datatype Event = Locked | Unlocked | Strayed | Other

  /** What a call that is over did: `depth` is that of its thread afterwards. */
  function EventOf(o: Outcome, depth: int): Event {
    match o.call
    case OnMutex(Unlock) => if o.error == OK then Unlocked else Other
    case OnMutex(_) => if o.error == OK then Locked else Other
    case CondWait(_, _) => if o.entry == 0 && depth > 0 then Strayed else Other
    case CondPulse(_) => Other
  }

  /** The `i`th action ends a call of thread `t` with this event. */
  predicate Ends(ss: seq<State>, i: nat, t: Tid, e: Event)
    requires i + 1 < |ss|
  {
    && t in ss[i].threads && t in ss[i + 1].threads
    && !ss[i].threads[t].pc.Idle? && ss[i + 1].threads[t].pc.Idle?
    && ss[i + 1].threads[t].last.Some?
    && EventOf(ss[i + 1].threads[t].last.value, ss[i + 1].threads[t].depth) == e
  }

  /** How often that happens in the first `i` actions. */
  function Count(ss: seq<State>, i: nat, t: Tid, e: Event): nat
    requires i < |ss|
  {
    if i == 0 then 0 else Count(ss, i - 1, t, e) + if Ends(ss, i - 1, t, e) then 1 else 0
  }

  function Balance(ss: seq<State>, i: nat, t: Tid): int
    requires i < |ss|
  {
    Count(ss, i, t, Locked) + Count(ss, i, t, Strayed) - Count(ss, i, t, Unlocked)
  }

  /** The depth between calls, and during one the depth it began with. */
  function Outside(th: T): int { if th.pc.Idle? then th.depth else th.entry }

  function Change(e: Event): int {
    match e
    case Locked => 1
    case Strayed => 1
    case Unlocked => -1
    case Other => 0
  }

  /** A settled call changes the depth by what its event is worth. */
  lemma SettledChange(c: Config, o: Outcome, depth: int)
    requires Settled(c, o, depth)
    ensures depth == o.entry + Change(EventOf(o, depth))
  {
  }

  /** A step of a call keeps its entry depth, and its answer reports that. */
  lemma StepKeepsEntry(s: State, t: Tid, th: T)
    requires !th.pc.Idle? && !Asleep(th)
    ensures var th' := StepOf(s, t, th).th;
            th'.entry == th.entry && (th'.pc.Idle? ==> th'.last.Some? && th'.last.value.entry == th.entry)
  {
  }

  lemma LeavingKeepsEntry(th: T)
    requires Asleep(th)
    ensures Woken(th).entry == th.entry && !Woken(th).pc.Idle? && TimedOut(th).entry == th.entry
    ensures TimedOut(th).pc.Idle? ==> TimedOut(th).last.Some? && TimedOut(th).last.value.entry == th.entry
  {
  }

  /** What one action means for one thread. */
  lemma ActionKeepsEntry(c: Config, s: State, a: Action, u: Tid)
    requires Enabled(c, s, a) && u in s.threads
    ensures var s' := Next(c, s, a);
            && u in s'.threads
            && var th, th' := s.threads[u], s'.threads[u];
               && (th.pc.Idle? ==> Outside(th') == Outside(th))
               && (!th.pc.Idle? ==> th'.entry == th.entry
                                    && (th'.pc.Idle? ==> th'.last.Some? && th'.last.value.entry == th.entry))
  {
    hide StepOf, Woken, TimedOut;
    var th := s.threads[u];
    if Asleep(th) {
      LeavingKeepsEntry(th);
    }
    if !ActsFor(a, u) {
      OthersStandBy(c, s, a, u);
    } else if a.Go? {
      StepKeepsEntry(s, u, th);
    }
  }

  lemma OneActionBalances(c: Config, ss: seq<State>, acts: seq<Action>, i: nat, t: Tid)
    requires IsRun(c, ss, acts) && i < |acts| && t in ss[i].threads
    ensures t in ss[i + 1].threads
    ensures Outside(ss[i + 1].threads[t]) - Outside(ss[i].threads[t]) == Balance(ss, i + 1, t) - Balance(ss, i, t)
  {
    ActionKeepsEntry(c, ss[i], acts[i], t);
    RunLedger(c, ss, acts, i + 1, t);
    var th, th' := ss[i].threads[t], ss[i + 1].threads[t];
    if !th.pc.Idle? && th'.pc.Idle? {
      SettledChange(c, th'.last.value, th'.depth);
    }
  }

  /** At every point of every run, for every thread. */
  lemma {:induction false} DepthIsBalance(c: Config, ss: seq<State>, acts: seq<Action>, i: nat, t: Tid)
    requires IsRun(c, ss, acts) && i < |ss| && t in ss[i].threads
    ensures Outside(ss[i].threads[t]) == Balance(ss, i, t)
  {
    if i > 0 {
      SameThreads(c, ss[i - 1], acts[i - 1]);
      DepthIsBalance(c, ss, acts, i - 1, t);
      OneActionBalances(c, ss, acts, i - 1, t);
    }
  }

  /** With no call in progress, the mutex is free exactly if every thread has unlocked as often as locked. */
  lemma BalancedIffFree(c: Config, ss: seq<State>, acts: seq<Action>, i: nat)
    requires IsRun(c, ss, acts) && i < |ss| && forall t <- ss[i].threads :: ss[i].threads[t].pc.Idle?
    ensures ss[i].word == Free(c.mtype, c.shared) <==> forall t <- ss[i].threads :: Balance(ss, i, t) == 0
  {
    WordTellsHolder(c, ss, acts, i);
    forall t <- ss[i].threads
      ensures ss[i].threads[t].depth == Balance(ss, i, t)
    {
      DepthIsBalance(c, ss, acts, i, t);
    }
  }
}
