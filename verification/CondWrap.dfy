/**
 The missed signal the source's comment warns of, as a run: a holder starts to wait, and between its
 unlock and its futex wait another thread signals as often as the counter has values.
 */
module CondWrap {
  import opened Common
  import opened MutexWord
  import opened FutexMachine
  import opened CondVar

  /** Threads 1 and 2 after `n` pulses. */
  function Pair(c: Config, w: Word, n: nat, a: T, b: T): State {
    State(w, After(c, n), 0, n, map[1 := a, 2 := b])
  }

  function Taken(c: Config): Word {
    if c.mtype == NORMAL then Kind(c).(state := UNCONTENDED) else Kind(c).(owner := 1, state := UNCONTENDED)
  }

  lemma OneSteps(c: Config, w: Word, n: nat, a: T, b: T, w': Word, a': T)
    requires Reachable(c, Pair(c, w, n, a, b)) && !a.pc.Idle? && !Asleep(a)
    requires var s := Pair(c, w, n, a, b); StepOf(s, 1, a) == Quiet(s, w', a')
    ensures Reachable(c, Pair(c, w', n, a', b))
  {
    var s := Pair(c, w, n, a, b);
    assert s.threads[1] == a;
    NextReachable(c, s, Go(1, None), Pair(c, w', n, a', b));
  }

  lemma OneCalls(c: Config, w: Word, n: nat, a: T, b: T, call: Call)
    requires Reachable(c, Pair(c, w, n, a, b)) && a.pc.Idle? && MayCall(c, a, call)
    ensures Reachable(c, Pair(c, w, n, Begin(a, call), b))
  {
    var s := Pair(c, w, n, a, b);
    assert s.threads[1] == a;
    NextReachable(c, s, Start(1, call), Pair(c, w, n, Begin(a, call), b));
  }

  // ----- thread 1 locks, and begins to wait -----

  const WAIT := CondWait(false, None)

  function Locking(c: Config, pc: Pc): T { Fresh(c).(call := OnMutex(Lock), pc := pc) }

  function Holding(c: Config): T {
    Locking(c, Idle).(depth := 1, last := Some(Outcome(OnMutex(Lock), OK, 0)))
  }

  function Waits(c: Config, pc: Pc, mvalue: Word, depth: int): T {
    Holding(c).(call := WAIT, base := 1, entry := 1, frame := Waiting(c.cond, 0), pc := pc, mvalue := mvalue,
                depth := depth)
  }

  /** Thread 1 between its unlock and its futex wait. */
  function Waiter(c: Config): T {
    Waits(c, CFutex, Taken(c), 0)
  }

  lemma OneLocks(c: Config)
    requires ValidConfig(c)
    ensures Reachable(c, Pair(c, Taken(c), 0, Holding(c), Fresh(c)))
  {
    var f, k := Fresh(c), Kind(c);
    StartReachable(c, Pair(c, k, 0, f, f));
    OneCalls(c, k, 0, f, f, OnMutex(Lock));
    var pc := if c.mtype == NORMAL then NTry(Lock) else Fast(Lock);
    OneSteps(c, k, 0, Locking(c, Load(Lock)), f, k, Locking(c, pc));
    OneSteps(c, k, 0, Locking(c, pc), f, Taken(c), Holding(c));
  }

  lemma OneSnapshots(c: Config)
    requires ValidConfig(c)
    ensures Reachable(c, Pair(c, Taken(c), 0, Waits(c, Load(Unlock), Kind(c), 1), Fresh(c)))
  {
    var f, w := Fresh(c), Taken(c);
    OneLocks(c);
    OneCalls(c, w, 0, Holding(c), f, WAIT);
    OneSteps(c, w, 0, Begin(Holding(c), WAIT), f, w, Waits(c, Load(Unlock), Kind(c), 1));
  }

  lemma OneUnlocks(c: Config)
    requires ValidConfig(c)
    ensures Reachable(c, Pair(c, Kind(c), 0, Waiter(c), Fresh(c)))
  {
    var f, w := Fresh(c), Taken(c);
    var pc := if c.mtype == NORMAL then NDec else USwap;
    OneSnapshots(c);
    OneSteps(c, w, 0, Waits(c, Load(Unlock), Kind(c), 1), f, w, Waits(c, pc, w, 1));
    OneSteps(c, w, 0, Waits(c, pc, w, 1), f, Kind(c), Waiter(c));
  }

  // ----- thread 2 signals, over and over -----

  function Signals(c: Config, pc: Pc, seen: CondWord, last: Option<Outcome>): T {
    Fresh(c).(call := CondPulse(false), pc := pc, seen := seen, last := last)
  }

  const DONE := Some(Outcome(CondPulse(false), OK, 0))

  /** Thread 2 after `n` signals. */
  function Signaller(c: Config, n: nat): T {
    if n == 0 then Fresh(c) else Signals(c, Idle, After(c, n - 1), DONE)
  }

  /** `m` is `n`, or one more if the step is the pulse. */
  lemma TwoSteps(c: Config, n: nat, b: T, m: nat, b': T)
    requires Reachable(c, Pair(c, Kind(c), n, Waiter(c), b)) && IsPulsePc(b.pc) && b.call == CondPulse(false)
    requires var e := PulseStep(Pair(c, Kind(c), n, Waiter(c), b), b);
             e.cond == After(c, m) && e.th == b' && m == if e.pulsed then n + 1 else n
    ensures Reachable(c, Pair(c, Kind(c), m, Waiter(c), b'))
  {
    hide After;
    var s := Pair(c, Kind(c), n, Waiter(c), b);
    assert s.threads[2] == b && s.threads[1] == Waiter(c);
    CondSteps(s, 2, b);
    NextReachable(c, s, Go(2, None), Pair(c, Kind(c), m, Waiter(c), b'));
  }

  lemma TwoCalls(c: Config, n: nat)
    requires Reachable(c, Pair(c, Kind(c), n, Waiter(c), Signaller(c, n)))
    ensures var b := Signaller(c, n);
            Reachable(c, Pair(c, Kind(c), n, Waiter(c), Signals(c, PFlags, b.seen, b.last)))
  {
    var s, b := Pair(c, Kind(c), n, Waiter(c), Signaller(c, n)), Signaller(c, n);
    assert s.threads[2] == b;
    NextReachable(c, s, Start(2, CondPulse(false)), Pair(c, Kind(c), n, Waiter(c), Signals(c, PFlags, b.seen, b.last)));
  }

  /** It reads the flags and the word. */
  lemma TwoReads(c: Config, n: nat)
    requires Reachable(c, Pair(c, Kind(c), n, Waiter(c), Signaller(c, n)))
    ensures Reachable(c, Pair(c, Kind(c), n, Waiter(c),
                              Signals(c, PCas(c.cond.shared), After(c, n), Signaller(c, n).last)))
  {
    hide Reachable, Waiter;
    var b, flags := Signaller(c, n), c.cond.shared;
    TwoCalls(c, n);
    TwoSteps(c, n, Signals(c, PFlags, b.seen, b.last), n, Signals(c, PLoad(flags), b.seen, b.last));
    TwoSteps(c, n, Signals(c, PLoad(flags), b.seen, b.last), n, Signals(c, PCas(flags), After(c, n), b.last));
  }

  /** One more signal, which finds nobody asleep. */
  lemma TwoSignals(c: Config, n: nat)
    requires Reachable(c, Pair(c, Kind(c), n, Waiter(c), Signaller(c, n)))
    ensures Reachable(c, Pair(c, Kind(c), n + 1, Waiter(c), Signaller(c, n + 1)))
  {
    hide Reachable, Waiter;
    var last, now := Signaller(c, n).last, After(c, n);
    TwoReads(c, n);
    AfterPulse(c, n);
    TwoSteps(c, n, Signals(c, PCas(c.cond.shared), now, last), n + 1, Signals(c, PWake(n), now, last));
    TwoSteps(c, n + 1, Signals(c, PWake(n), now, last), n + 1, Signaller(c, n + 1));
  }

  /** Any number of signals between the waiter's unlock and its futex wait. */
  lemma {:induction false} ManySignals(c: Config, n: nat)
    requires ValidConfig(c)
    ensures Reachable(c, Pair(c, Kind(c), n, Waiter(c), Signaller(c, n)))
  {
    if n == 0 {
      OneUnlocks(c);
    } else {
      ManySignals(c, n - 1);
      TwoSignals(c, n - 1);
    }
  }

  /** The waiter asleep, `n` signals after it began to wait and with no thread left to wake it. */
  function Missed(c: Config, n: nat): State {
    Pair(c, Kind(c), n, Waiter(c).(pc := CSleep), Signaller(c, n))
  }

  /**
   On a mutex of any type, at every multiple of 2^31 signals: the waiter held the mutex when it took its
   snapshot, each signal came after it, and the waiter is asleep with nothing under way.
   */
  lemma SignalsCanBeMissed(c: Config, n: nat)
    requires ValidConfig(c) && n % HALF == 0
    ensures var s := Missed(c, n);
            && Reachable(c, s) && s.pulses == n && s.threads.Keys == {1, 2}
            && OnCondQueue(s.threads[1]) && s.threads[1].entry == 1 && WaitsFrom(s.threads[1], 0)
            && s.threads[2].pc.Idle?
  {
    ManySignals(c, n);
    SnapshotStillEqual(c, 0, n);
    OneSteps(c, Kind(c), n, Waiter(c), Signaller(c, n), Kind(c), Waiter(c).(pc := CSleep));
  }
}
