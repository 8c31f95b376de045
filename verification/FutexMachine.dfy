/**
 Threads running the mutex and condition-variable code over one mutex word and one
 condition word, as a transition system. One action is one atomic access of one
 thread (plain load, plain store, cmpxchg, swap, decrement, futex compare-and-sleep,
 futex wake), a call, a wake-up the kernel decides on (signal or timeout), or the
 passing of time. Everything a thread keeps in C locals is in its program counter.
 */
module FutexMachine {
  import opened Common
  import opened MutexWord

  /** Owner fields are 16 bits and 0 means nobody. */
  type Tid = t: int | 1 <= t <= 0xffff witness 1

  datatype Error = OK | EPERM | EAGAIN | EBUSY | EDEADLK | ETIMEDOUT

  /** Deadlines and the clock are in nanoseconds. */
  datatype Op = Lock | TryLock | TimedLock(deadline: int) | Unlock

  /** `checked`: the absolute-time entry points look at the clock before they wait. */
  datatype Call =
    | OnMutex(op: Op)
    | CondWait(checked: bool, deadline: Option<int>)
    | CondPulse(all: bool)

  const HALF := 0x8000_0000

  /** The condition word: bit 0 is the shared flag, the other 31 bits count down. */
  datatype CondWord = CondWord(shared: bool, count: int)

  function Pulsed(was: CondWord, flags: bool): CondWord {
    CondWord(flags, (was.count - 1) % HALF)
  }

  /** The atomic access a thread makes next. */
  datatype Pc =
    | Idle
    | Load(op: Op)
    // normal mutexes
    | NTry(op: Op) | NSwap(op: Op) | NCheck(op: Op) | NWait(op: Op) | NSleep(op: Op)
    | NDec | NStore
    // recursive and errorcheck mutexes
    | Inc(tries: nat) | IncReload(tries: nat)
    | Dec(tries: nat) | DecReload(tries: nat)
    | USwap
    | Fast(op: Op) | Reload(op: Op) | Acq(op: Op) | AcqCheck(op: Op)
    | Flip(op: Op) | FlipReload(op: Op) | Check(op: Op)
    | Wait(op: Op) | Sleep(op: Op)
    // both
    | WakeOne
    // condition variables
    | CCheck | CSnap | CFutex | CSleep
    | PFlags | PLoad(flags: bool) | PCas(flags: bool) | PWake(index: nat)

  /** Where a mutex operation returns to: the client, or the middle of a condition wait. */
  datatype Frame<C> =
    | Client
    | Waiting(snap: C, since: nat)
    | Relocking(timedOut: bool)

  datatype Outcome = Outcome(call: Call, error: Error, entry: int)

  /**
   `W` is the type of a mutex word, `C` that of a condition word. `mvalue` is the C local of that
   name, `kind` is `mtype | shared`, `seen` is the `oldval` of a pulse. `depth`, `base`, `entry`,
   `last` and `since` are bookkeeping the C code does not hold: how often this thread holds the
   mutex, the depth when the current mutex operation and the current call began, what the last
   call returned, and how many pulses had happened at the snapshot.
   */
  datatype Thread<W, C> = Thread(
    pc: Pc, mvalue: W, kind: W, seen: C, call: Call, frame: Frame<C>,
    depth: int, base: int, entry: int, last: Option<Outcome>)

  type T = Thread<Word, CondWord>

  datatype State = State(word: Word, cond: CondWord, now: int, pulses: nat, threads: map<Tid, T>)

  /** Which kernel wake-up, if any, an atomic step makes. */
  datatype Wakes = Nobody | OneOnMutex | OneOnCond | AllOnCond

  datatype Effect = Effect(word: Word, cond: CondWord, pulsed: bool, th: T, wakes: Wakes)

  // ----- returning -----

  /** The current mutex operation returns `e`. */
  function Return<W, C>(th: Thread<W, C>, e: Error): Thread<W, C> {
    match th.frame
    case Client => Answer(th, e)
    case Waiting(_, _) => th.(pc := CFutex)
    case Relocking(timedOut) => Answer(th, if timedOut then ETIMEDOUT else OK)
  }

  /** The current call returns `e` to the client. */
  function Answer<W, C>(th: Thread<W, C>, e: Error): Thread<W, C> {
    th.(pc := Idle, last := Some(Outcome(th.call, e, th.entry)))
  }

  function Acquired<W, C>(th: Thread<W, C>): Thread<W, C> {
    Return(th.(depth := th.depth + 1), OK)
  }

  function Released<W, C>(th: Thread<W, C>): Thread<W, C> {
    th.(depth := th.depth - 1)
  }

  /** After the futex wait of a condition wait the mutex is locked again, without a timeout. */
  function StartRelock<W, C>(th: Thread<W, C>, timedOut: bool): Thread<W, C> {
    th.(pc := Load(Lock), frame := Relocking(timedOut), base := th.depth)
  }

  // ----- one atomic step of one thread -----

  function Quiet(s: State, word: Word, th: T): Effect {
    Effect(word, s.cond, false, th, Nobody)
  }

  predicate Expired(s: State, op: Op) {
    op.TimedLock? && s.now > op.deadline
  }

  /** The first plain load of every entry point and the branches that follow it. */
  function AfterLoad(v: Word, t: Tid, th0: T): T
    requires th0.pc.Load?
  {
    var op := th0.pc.op;
    var th := th0.(mvalue := v, kind := Free(v.mtype, v.shared));
    if v.mtype == NORMAL then
      th.(pc := if op.Unlock? then NDec else NTry(op))
    else if op.Unlock? then
      if v.owner != t then Return(th, EPERM)
      else if v.counter != 0 then th.(pc := Dec(0))
      else th.(pc := USwap)
    else if v.owner == t then
      if v.mtype == ERRORCHECK then Return(th, EDEADLK)
      else if v.counter == MAX_COUNTER then Return(th, EAGAIN)
      else th.(pc := Inc(0))
    else if op.TryLock? || v == th.kind then th.(pc := Fast(op))
    else LoopHead(op, th)
  }

  /** The head of the slow loop, with the value just loaded. */
  function LoopHead(op: Op, th: T): T {
    if th.mvalue == th.kind then th.(pc := Acq(op))
    else if th.mvalue.state == UNCONTENDED then th.(pc := Flip(op))
    else BeforeWait(op, th)
  }

  function BeforeWait(op: Op, th: T): T {
    th.(pc := if op.TimedLock? then Check(op) else Wait(op))
  }

  predicate IsNormalPc(pc: Pc) {
    pc.NTry? || pc.NSwap? || pc.NCheck? || pc.NWait? || pc.NDec? || pc.NStore?
  }

  function NormalStep(s: State, th: T): Effect
    requires IsNormalPc(th.pc)
  {
    var w, free := s.word, th.kind;
    match th.pc
    case NTry(op) =>
      if w == free then Quiet(s, free.(state := UNCONTENDED), Acquired(th))
      else if op.TryLock? then Quiet(s, w, Return(th, EBUSY))
      else Quiet(s, w, th.(pc := NSwap(op)))
    case NSwap(op) =>
      var w' := free.(state := CONTENDED);
      if w == free then Quiet(s, w', Acquired(th))
      else Quiet(s, w', th.(pc := if op.TimedLock? then NCheck(op) else NWait(op)))
    case NCheck(op) =>
      Quiet(s, w, if Expired(s, op) then Return(th, EBUSY) else th.(pc := NWait(op)))
    case NWait(op) =>
      Quiet(s, w, th.(pc := if w == free.(state := CONTENDED) then NSleep(op) else NSwap(op)))
    case NDec =>
      var w' := w.(state := w.state - 1);
      if w == free.(state := UNCONTENDED) then Quiet(s, w', Return(Released(th), OK))
      else Quiet(s, w', th.(pc := NStore))
    case NStore =>
      Quiet(s, free, Released(th).(pc := WakeOne))
  }

  predicate IsOwnerPc(pc: Pc) {
    pc.Inc? || pc.IncReload? || pc.Dec? || pc.DecReload? || pc.USwap?
  }

  /** The owner of a recursive or errorcheck mutex changes its counter or lets go. */
  function OwnerStep(s: State, th: T): Effect
    requires IsOwnerPc(th.pc)
  {
    var w, v := s.word, th.mvalue;
    match th.pc
    case Inc(n) =>
      if w == v then Quiet(s, v.(counter := v.counter + 1), Acquired(th))
      else Quiet(s, w, th.(pc := IncReload(n)))
    case IncReload(n) => Quiet(s, w, th.(mvalue := w, pc := Inc(n + 1)))
    case Dec(n) =>
      if w == v then Quiet(s, v.(counter := v.counter - 1), Return(Released(th), OK))
      else Quiet(s, w, th.(pc := DecReload(n)))
    case DecReload(n) => Quiet(s, w, th.(mvalue := w, pc := Dec(n + 1)))
    case USwap =>
      var th' := Released(th.(mvalue := w));
      Quiet(s, th.kind, if w.state == CONTENDED then th'.(pc := WakeOne) else Return(th', OK))
  }

  predicate IsGrabPc(pc: Pc) { pc.Fast? || pc.Reload? || pc.Acq? || pc.AcqCheck? }

  predicate IsParkPc(pc: Pc) { pc.Flip? || pc.FlipReload? || pc.Check? || pc.Wait? }

  predicate IsSlowPc(pc: Pc) { IsGrabPc(pc) || IsParkPc(pc) }

  /** A thread that does not own a recursive or errorcheck mutex tries to take it. */
  function GrabStep(s: State, t: Tid, th: T): Effect
    requires IsGrabPc(th.pc)
  {
    var w, free := s.word, th.kind;
    match th.pc
    case Fast(op) =>
      if w == free then Quiet(s, free.(owner := t, state := UNCONTENDED), Acquired(th))
      else if op.TryLock? then Quiet(s, w, Return(th, EBUSY))
      else Quiet(s, w, th.(pc := Reload(op)))
    case Reload(op) => Quiet(s, w, LoopHead(op, th.(mvalue := w)))
    case Acq(op) =>
      if w == free then Quiet(s, free.(owner := t, state := CONTENDED), Acquired(th))
      else Quiet(s, w, th.(pc := if op.TimedLock? then AcqCheck(op) else Reload(op)))
    case AcqCheck(op) =>
      Quiet(s, w, if Expired(s, op) then Return(th, EBUSY) else th.(pc := Reload(op)))
  }

  /** It is locked: the thread marks it contended and goes to sleep on it. */
  function ParkStep(s: State, th: T): Effect
    requires IsParkPc(th.pc)
  {
    var w := s.word;
    match th.pc
    case Flip(op) =>
      var v' := th.mvalue.(state := 3 - th.mvalue.state);
      if w == th.mvalue then Quiet(s, v', BeforeWait(op, th.(mvalue := v')))
      else Quiet(s, w, th.(pc := if op.TimedLock? then FlipReload(op) else Reload(op)))
    case FlipReload(op) => Quiet(s, w, th.(mvalue := w, pc := Check(op)))
    case Check(op) =>
      Quiet(s, w,
            if Expired(s, op) then Return(th, EBUSY)
            else if th.mvalue.state == CONTENDED then th.(pc := Wait(op))
            else LoopHead(op, th))
    case Wait(op) =>
      Quiet(s, w, th.(pc := if w == th.mvalue then Sleep(op) else Reload(op)))
  }

  predicate IsWaitPc(pc: Pc) { pc.CCheck? || pc.CSnap? || pc.CFutex? }

  predicate DeadlinePassed(call: Call, now: int) {
    call.CondWait? && call.deadline.Some? && now > call.deadline.value
  }

  /** A condition wait, up to its futex wait; the mutex operations it calls are the steps above. */
  function WaitStep(s: State, th: T): Effect
    requires IsWaitPc(th.pc)
  {
    match th.pc
    case CCheck =>
      Quiet(s, s.word, if DeadlinePassed(th.call, s.now) then Answer(th, ETIMEDOUT) else th.(pc := CSnap))
    case CSnap =>
      Quiet(s, s.word, th.(pc := Load(Unlock), frame := Waiting(s.cond, s.pulses), base := th.depth))
    case CFutex =>
      if th.frame.Waiting? && s.cond == th.frame.snap then Quiet(s, s.word, th.(pc := CSleep))
      else Quiet(s, s.word, StartRelock(th, false))
  }

  predicate IsPulsePc(pc: Pc) { pc.PFlags? || pc.PLoad? || pc.PCas? || pc.PWake? }

  predicate IsCondPc(pc: Pc) { IsWaitPc(pc) || IsPulsePc(pc) }

  /** Signal and broadcast. */
  function PulseStep(s: State, th: T): Effect
    requires IsPulsePc(th.pc)
  {
    match th.pc
    case PFlags => Quiet(s, s.word, th.(pc := PLoad(s.cond.shared)))
    case PLoad(flags) => Quiet(s, s.word, th.(seen := s.cond, pc := PCas(flags)))
    case PCas(flags) =>
      if s.cond == th.seen then
        Effect(s.word, Pulsed(th.seen, flags), true, th.(pc := PWake(s.pulses)), Nobody)
      else Quiet(s, s.word, th.(pc := PLoad(flags)))
    case PWake(_) =>
      Effect(s.word, s.cond, false, Answer(th, OK),
             if th.call == CondPulse(true) then AllOnCond else OneOnCond)
  }

  predicate OnMutexQueue<W, C>(th: Thread<W, C>) { th.pc.NSleep? || th.pc.Sleep? }

  predicate OnCondQueue<W, C>(th: Thread<W, C>) { th.pc.CSleep? }

  predicate Asleep<W, C>(th: Thread<W, C>) { OnMutexQueue(th) || OnCondQueue(th) }

  function StepOf(s: State, t: Tid, th: T): Effect
    requires !th.pc.Idle? && !Asleep(th)
  {
    if th.pc.Load? then Quiet(s, s.word, AfterLoad(s.word, t, th))
    else if IsNormalPc(th.pc) then NormalStep(s, th)
    else if IsOwnerPc(th.pc) then OwnerStep(s, th)
    else if IsGrabPc(th.pc) then GrabStep(s, t, th)
    else if IsParkPc(th.pc) then ParkStep(s, th)
    else if th.pc.WakeOne? then Effect(s.word, s.cond, false, Return(th, OK), OneOnMutex)
    else if IsWaitPc(th.pc) then WaitStep(s, th)
    else PulseStep(s, th)
  }

  // ----- leaving a futex wait -----

  /** A futex wait returns 0 or is interrupted. */
  function Woken<W, C>(th: Thread<W, C>): Thread<W, C>
    requires Asleep(th)
  {
    match th.pc
    case NSleep(op) => th.(pc := NSwap(op))
    case Sleep(op) => th.(pc := Reload(op))
    case CSleep => StartRelock(th, false)
  }

  predicate CanTimeOut(s: State, th: T) {
    match th.pc
    case NSleep(op) => op.TimedLock? && s.now >= op.deadline
    case Sleep(op) => op.TimedLock? && s.now >= op.deadline
    case CSleep => th.call.CondWait? && th.call.deadline.Some? && s.now >= th.call.deadline.value
    case _ => false
  }

  /** A futex wait returns because its time is up. */
  function TimedOut<W, C>(th: Thread<W, C>): Thread<W, C>
    requires Asleep(th)
  {
    match th.pc
    case NSleep(op) => th.(pc := NSwap(op))
    case Sleep(op) => Return(th, EBUSY)
    case CSleep => StartRelock(th, true)
  }

  // ----- calls -----

  function Begin<W, C>(th: Thread<W, C>, call: Call): Thread<W, C> {
    th.(call := call, frame := Client, base := th.depth, entry := th.depth,
        pc := match call
          case OnMutex(op) => Load(op)
          case CondWait(checked, _) => if checked then CCheck else CSnap
          case CondPulse(_) => PFlags)
  }

  /**
   `timed` says whether clients use the timed lock on a recursive or errorcheck mutex.
   */
  datatype Config = Config(mtype: int, shared: bool, timed: bool, cond: CondWord)

  predicate ValidConfig(c: Config) {
    NORMAL <= c.mtype <= ERRORCHECK && 0 <= c.cond.count < HALF
  }

  /** What the code asks of its callers: only the holder of a normal mutex unlocks it or waits with it. */
  predicate MayCall(c: Config, th: T, call: Call) {
    && (c.mtype == NORMAL && (call == OnMutex(Unlock) || call.CondWait?) ==> th.depth > 0)
    && (c.mtype != NORMAL && call.OnMutex? && call.op.TimedLock? ==> c.timed)
  }

  // ----- the whole system -----

  datatype Action =
    | Start(t: Tid, call: Call)
    | Go(t: Tid, pick: Option<Tid>)
    | Leave(t: Tid, timeout: bool)
    | Tick(ns: nat)

  /** A wake that finds sleepers takes one of them, the kernel decides which. */
  predicate PickOk<W, C>(threads: map<Tid, Thread<W, C>>, wakes: Wakes, pick: Option<Tid>) {
    match wakes
    case OneOnMutex =>
      if pick.Some? then pick.value in threads && OnMutexQueue(threads[pick.value])
      else forall u <- threads :: !OnMutexQueue(threads[u])
    case OneOnCond =>
      if pick.Some? then pick.value in threads && OnCondQueue(threads[pick.value])
      else forall u <- threads :: !OnCondQueue(threads[u])
    case _ => pick.None?
  }

  predicate Enabled(c: Config, s: State, a: Action) {
    match a
    case Start(t, call) => t in s.threads && s.threads[t].pc.Idle? && MayCall(c, s.threads[t], call)
    case Go(t, pick) =>
      && t in s.threads && !s.threads[t].pc.Idle? && !Asleep(s.threads[t])
      && PickOk(s.threads, StepOf(s, t, s.threads[t]).wakes, pick)
    case Leave(t, timeout) =>
      t in s.threads && Asleep(s.threads[t]) && (timeout ==> CanTimeOut(s, s.threads[t]))
    case Tick(_) => true
  }

  function WakeAll<W, C>(threads: map<Tid, Thread<W, C>>): map<Tid, Thread<W, C>> {
    map u <- threads :: if OnCondQueue(threads[u]) then Woken(threads[u]) else threads[u]
  }

  function Rouse<W, C>(threads: map<Tid, Thread<W, C>>, wakes: Wakes, pick: Option<Tid>): map<Tid, Thread<W, C>>
    requires PickOk(threads, wakes, pick)
  {
    if wakes == AllOnCond then WakeAll(threads)
    else if pick.Some? then threads[pick.value := Woken(threads[pick.value])]
    else threads
  }

  function Next(c: Config, s: State, a: Action): State
    requires Enabled(c, s, a)
  {
    match a
    case Start(t, call) => s.(threads := s.threads[t := Begin(s.threads[t], call)])
    case Go(t, pick) =>
      var e := StepOf(s, t, s.threads[t]);
      State(e.word, e.cond, s.now, if e.pulsed then s.pulses + 1 else s.pulses,
            Rouse(s.threads, e.wakes, pick)[t := e.th])
    case Leave(t, timeout) =>
      s.(threads := s.threads[t := if timeout then TimedOut(s.threads[t]) else Woken(s.threads[t])])
    case Tick(ns) => s.(now := s.now + ns)
  }

  /** A thread that has not called anything yet. */
  predicate IsFresh(th: T) {
    th.pc.Idle? && th.depth == th.entry == 0 && th.last.None? && th.frame.Client?
  }

  predicate Init(c: Config, s: State) {
    && ValidConfig(c)
    && s.word == Free(c.mtype, c.shared)
    && s.cond == c.cond
    && s.pulses == 0
    && forall t <- s.threads :: IsFresh(s.threads[t])
  }

  /** A run: states joined by enabled actions, from an initial state. */
  ghost predicate IsRun(c: Config, ss: seq<State>, acts: seq<Action>) {
    && |ss| == |acts| + 1
    && Init(c, ss[0])
    && forall i :: 0 <= i < |acts| ==> Enabled(c, ss[i], acts[i]) && ss[i + 1] == Next(c, ss[i], acts[i])
  }

  /** The word nobody holds, and a thread to start a run with. */
  function Kind(c: Config): Word { Free(c.mtype, c.shared) }

  function Fresh(c: Config): T {
    Thread(Idle, Kind(c), Kind(c), c.cond, CondPulse(true), Client, 0, 0, 0, None)
  }

  ghost predicate Reachable(c: Config, s: State) {
    exists ss: seq<State>, acts: seq<Action> :: IsRun(c, ss, acts) && ss[|acts|] == s
  }

  lemma StartReachable(c: Config, s: State)
    requires Init(c, s)
    ensures Reachable(c, s)
  {
    assert IsRun(c, [s], []) && [s][0] == s;
  }

  lemma NextReachable(c: Config, s: State, a: Action, s': State)
    requires Reachable(c, s) && Enabled(c, s, a) && s' == Next(c, s, a)
    ensures Reachable(c, s')
  {
    var ss: seq<State>, acts: seq<Action> :| IsRun(c, ss, acts) && ss[|acts|] == s;
    var ss', acts' := ss + [s'], acts + [a];
    assert IsRun(c, ss', acts') && ss'[|acts'|] == s';
  }

  // ----- framing -----

  /** What an action does to a thread that is not its actor. */
  predicate Bystander(th: T, th': T) {
    th' == th || (Asleep(th) && th' == Woken(th))
  }

  predicate ActsFor(a: Action, u: Tid) { !a.Tick? && a.t == u }

  lemma OthersStandBy(c: Config, s: State, a: Action, u: Tid)
    requires Enabled(c, s, a) && u in s.threads && !ActsFor(a, u)
    ensures u in Next(c, s, a).threads && Bystander(s.threads[u], Next(c, s, a).threads[u])
  {
  }

  lemma SameThreads(c: Config, s: State, a: Action)
    requires Enabled(c, s, a)
    ensures Next(c, s, a).threads.Keys == s.threads.Keys
  {
  }
}
