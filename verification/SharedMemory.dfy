/**
 The code on the real words: an object with the two shared words, the three atomic primitives,
 and one method per group of steps that does the C code's bit arithmetic in place. Every method
 is proved to do what the transition system says, field by field.
 */
module SharedMemory {
  import opened Common
  import opened MutexWord
  import opened FutexMachine
  import opened MutexOwnership
  import opened Timespec

  type Raw = Thread<bv32, Uint32>

  /** A condition word as an unsigned number; its masks are bit 0 and the other 31. */
  function CondOf(n: Uint32): CondWord { CondWord(n % 2 == 1, n / 2) }

  lemma CondOfInjective(m: Uint32, n: Uint32)
    ensures CondOf(m) == CondOf(n) <==> m == n
  {
  }

  /** The value a mutex is initialised to, or none for an attribute of unknown type (EINVAL). */
  function InitBits(attr: Option<bv32>): Option<bv32> {
    if attr.None? then Some(0)
    else
      var shared := if attr.value & 0x10 != 0 then SHARED_MASK else 0;
      if attr.value & 0xf == 0 then Some(shared)
      else if attr.value & 0xf == 1 then Some(shared | 0x4000)
      else if attr.value & 0xf == 2 then Some(shared | 0x8000)
      else None
  }

  /** Init succeeds exactly for the three types and gives a free mutex of that type and sharing. */
  lemma InitMeans(attr: Option<bv32>)
    ensures InitBits(attr).Some? <==> attr.None? || attr.value & 0xf <= 2
    ensures attr.None? ==> Unpack(InitBits(attr).value) == Free(NORMAL, false)
    ensures attr.Some? && attr.value & 0xf <= 2 ==>
              Unpack(InitBits(attr).value) == Free(Num(attr.value & 0xf), attr.value & 0x10 != 0)
  {
    if attr.Some? {
      var shared := if attr.value & 0x10 != 0 then SHARED_MASK else 0;
      InitFields(shared, attr.value & 0xf);
    }
  }

  lemma InitFields(shared: bv32, kind: bv32)
    requires shared == 0 || shared == 0x2000
    ensures Unpack(shared) == Free(0, shared != 0)
    ensures Unpack(shared | 0x4000) == Free(1, shared != 0)
    ensures Unpack(shared | 0x8000) == Free(2, shared != 0)
    ensures Unpack(0) == Free(0, false)
  {
  }

  /** `((oldval - COND_COUNTER_INCREMENT) & COND_COUNTER_MASK) | flags`, with wrap-around. */
  function PulseBits(was: Uint32, flags: bool): Uint32 {
    var lowered := (was - 2) % 0x1_0000_0000;
    lowered - lowered % 2 + (if flags then 1 else 0)
  }

  lemma PulseBitsMean(was: Uint32, flags: bool)
    ensures CondOf(PulseBits(was, flags)) == Pulsed(CondOf(was), flags)
  {
  }

  // ----- from the words and locals of the code to those of the machine -----

  function FrameOf(f: Frame<Uint32>): Frame<CondWord> {
    match f
    case Client => Client
    case Waiting(n, since) => Waiting(CondOf(n), since)
    case Relocking(timedOut) => Relocking(timedOut)
  }

  function ThreadOf(th: Raw): T {
    Thread(th.pc, Unpack(th.mvalue), Unpack(th.kind), CondOf(th.seen), th.call, FrameOf(th.frame),
           th.depth, th.base, th.entry, th.last)
  }

  lemma AnswerOf(th: Raw, e: Error)
    ensures ThreadOf(Answer(th, e)) == Answer(ThreadOf(th), e)
  {
    hide Unpack, CondOf, FrameOf;
  }

  lemma ReturnOf(th: Raw, e: Error)
    ensures ThreadOf(Return(th, e)) == Return(ThreadOf(th), e)
  {
    hide Unpack, CondOf, Answer;
    match th.frame
    case Client => AnswerOf(th, e);
    case Waiting(_, _) =>
    case Relocking(timedOut) => AnswerOf(th, if timedOut then ETIMEDOUT else OK);
  }

  lemma AcquiredOf(th: Raw)
    ensures ThreadOf(Acquired(th)) == Acquired(ThreadOf(th))
  {
    hide Unpack, CondOf, FrameOf, Return;
    ReturnOf(th.(depth := th.depth + 1), OK);
  }

  lemma ReleasedOf(th: Raw, e: Error)
    ensures ThreadOf(Released(th)) == Released(ThreadOf(th))
    ensures ThreadOf(Return(Released(th), e)) == Return(Released(ThreadOf(th)), e)
  {
    hide Unpack, CondOf, FrameOf, Return;
    ReturnOf(Released(th), e);
  }

  lemma RelockOf(th: Raw, timedOut: bool)
    ensures ThreadOf(StartRelock(th, timedOut)) == StartRelock(ThreadOf(th), timedOut)
  {
    hide Unpack, CondOf;
  }

  ghost function ThreadsOf(threads: map<Tid, Raw>): map<Tid, T> {
    map t <- threads :: ThreadOf(threads[t])
  }

  lemma PutOf(threads: map<Tid, Raw>, t: Tid, th: Raw)
    ensures ThreadsOf(threads[t := th]) == ThreadsOf(threads)[t := ThreadOf(th)]
  {
  }

  lemma WokenOf(th: Raw)
    requires Asleep(th)
    ensures ThreadOf(Woken(th)) == Woken(ThreadOf(th)) && ThreadOf(TimedOut(th)) == TimedOut(ThreadOf(th))
  {
    hide Unpack, CondOf;
    RelockOf(th, true);
    RelockOf(th, false);
    ReturnOf(th, EBUSY);
  }

  lemma RouseOf(threads: map<Tid, Raw>, wakes: Wakes, pick: Option<Tid>)
    requires PickOk(ThreadsOf(threads), wakes, pick)
    ensures PickOk(threads, wakes, pick) && Rouse(threads, wakes, pick).Keys == threads.Keys
    ensures ThreadsOf(Rouse(threads, wakes, pick)) == Rouse(ThreadsOf(threads), wakes, pick)
  {
    hide Unpack, CondOf;
    assert forall t <- threads :: ThreadsOf(threads)[t] == ThreadOf(threads[t]);
    forall t <- threads | Asleep(threads[t])
      ensures ThreadOf(Woken(threads[t])) == Woken(ThreadOf(threads[t]))
    {
      WokenOf(threads[t]);
    }
    if wakes != AllOnCond && pick.Some? {
      PutOf(threads, pick.value, Woken(threads[pick.value]));
    }
  }

  lemma KnowsEnough(c: Config, s: State, t: Tid, th: Raw)
    requires Inv(c, s) && t in s.threads && s.threads[t] == ThreadOf(th)
    ensures IsNormalPc(th.pc) || IsGrabPc(th.pc) ==> IsFree(th.kind)
    ensures th.pc.NDec? ==> s.word.state > 0
    ensures th.pc.Inc? ==> Unpack(th.mvalue).counter < MAX_COUNTER
    ensures th.pc.Dec? ==> Unpack(th.mvalue).counter > 0
  {
    hide Unpack, CondOf;
    assert Local(c, s.word, t, s.threads[t]);
  }

  predicate IsFree(kind: bv32) { Unpack(kind) == Free(Unpack(kind).mtype, Unpack(kind).shared) }

  class Memory {
    var value: bv32
    var cond: Uint32
    var now: int
    var pulses: nat  // bookkeeping, like the depths in a thread
    var threads: map<Tid, Raw>
    const tids: map<Tid, bv32>

    ghost function View(): State
      reads this
    {
      State(Unpack(value), CondOf(cond), now, pulses, ThreadsOf(threads))
    }

    ghost predicate Valid(c: Config)
      reads this
    {
      && Inv(c, View())
      && threads.Keys <= tids.Keys
      && forall t <- tids :: IsTid(tids[t], t)
    }

    constructor (c: Config, kind: bv32, cond: Uint32, tids: map<Tid, bv32>)
      requires ValidConfig(c) && Unpack(kind) == Free(c.mtype, c.shared) && CondOf(cond) == c.cond
      requires forall t <- tids :: IsTid(tids[t], t)
      ensures Valid(c) && Init(c, View()) && threads.Keys == tids.Keys == this.tids.Keys
    {
      this.value := kind;
      this.cond := cond;
      this.now, this.pulses := 0, 0;
      this.tids := tids;
      this.threads := map t <- tids :: Thread(Idle, kind, kind, cond, CondPulse(true), Client, 0, 0, 0, None);
      new;
      InitInv(c, View());
    }

    // ----- the primitives of bionic_atomic_arm.h -----

    /** Returns 0 (false) on success. */
    method CmpXchg(was: bv32, becomes: bv32) returns (failed: bool)
      modifies this`value
      ensures failed == (old(value) != was)
      ensures value == if failed then old(value) else becomes
    {
      failed := value != was;
      if !failed {
        value := becomes;
      }
    }

    method Swap(becomes: bv32) returns (prev: bv32)
      modifies this`value
      ensures prev == old(value) && value == becomes
    {
      prev, value := value, becomes;
    }

    method AtomicDec() returns (prev: bv32)
      modifies this`value
      ensures prev == old(value) && value == prev - 1
    {
      prev, value := value, value - 1;
    }

    // ----- the code, one atomic access at a time -----

    /** `s` is what the machine sees of the words. */
    ghost predicate Shows(s: State)
      reads this
    {
      s.word == Unpack(value) && s.cond == CondOf(cond) && s.now == now && s.pulses == pulses
    }

    /** `__timespec_to_absolute(&ts, &abstime, clock) < 0`, if the lock is timed. */
    method Late(op: Op) returns (late: bool)
      ensures late <==> op.TimedLock? && now > op.deadline
    {
      late := false;
      if op.TimedLock? {
        late := IsPast(op.deadline, now);
      }
    }

    method AfterLoadInstr(ghost s: State, t: Tid, tid: bv32, th: Raw) returns (th': Raw)
      requires Shows(s) && th.pc.Load? && IsTid(tid, t)
      ensures ThreadOf(th') == AfterLoad(s.word, t, ThreadOf(th))
    {
      hide Unpack, IsTid, CondOf, FrameOf, Return, Acquired, Released, StateBits, OwnerFromBits, FlipContention,
           Uncontended, Contended, OwnedUncontended, OwnedContended;
      var v, op := value, th.pc.op;
      KindBitsMean(v);
      NormalTestMeans(v);
      ErrorcheckTestMeans(v);
      OwnerTestMeans(v, tid, t);
      CounterTestsMean(v);
      th' := th.(mvalue := v, kind := TypeBits(v) | SharedBits(v));
      if TypeBits(v) == 0 {
        th' := th'.(pc := if op.Unlock? then NDec else NTry(op));
      } else if op.Unlock? {
        if OwnerFromBits(v) != tid {
          ReturnOf(th', EPERM);
          th' := Return(th', EPERM);
        } else if !CounterIsZero(v) {
          th' := th'.(pc := Dec(0));
        } else {
          th' := th'.(pc := USwap);
        }
      } else if OwnerFromBits(v) == tid {
        if TypeBits(v) == TYPE_BITS_ERRORCHECK {
          ReturnOf(th', EDEADLK);
          th' := Return(th', EDEADLK);
        } else if CounterWillOverflow(v) {
          ReturnOf(th', EAGAIN);
          th' := Return(th', EAGAIN);
        } else {
          th' := th'.(pc := Inc(0));
        }
      } else {
        UnpackInjective(v, th'.kind);
        if op.TryLock? || v == th'.kind {
          th' := th'.(pc := Fast(op));
        } else {
          th' := SlowLoopHead(op, th');
        }
      }
    }

    method SlowLoopHead(op: Op, th: Raw) returns (th': Raw)
      ensures ThreadOf(th') == LoopHead(op, ThreadOf(th))
    {
      UnpackInjective(th.mvalue, th.kind);
      StateTestsMean(th.mvalue);
      if th.mvalue == th.kind {
        th' := th.(pc := Acq(op));
      } else if StateBits(th.mvalue) == 1 {
        th' := th.(pc := Flip(op));
      } else {
        th' := th.(pc := if op.TimedLock? then Check(op) else Wait(op));
      }
    }

    /** Lock, trylock and timed lock of a normal mutex. */
    method NormalLockInstr(ghost s: State, th: Raw) returns (th': Raw)
      requires Shows(s) && IsNormalPc(th.pc) && !th.pc.NDec? && !th.pc.NStore? && IsFree(th.kind)
      modifies this`value
      ensures Quiet(s, Unpack(value), ThreadOf(th')) == NormalStep(s, ThreadOf(th))
    {
      hide Unpack, IsTid, CondOf, FrameOf, Return, Acquired, Released, StateBits, OwnerFromBits, FlipContention,
           Uncontended, Contended, OwnedUncontended, OwnedContended;
      AcquiredOf(th);
      ReturnOf(th, EBUSY);
      UncontendedMeans(th.kind);
      ContendedMeans(th.kind);
      UnpackInjective(value, th.kind);
      if th.pc.NTry? {
        var failed := CmpXchg(th.kind, Uncontended(th.kind));
        if !failed {
          th' := Acquired(th);
        } else if th.pc.op.TryLock? {
          th' := Return(th, EBUSY);
        } else {
          th' := th.(pc := NSwap(th.pc.op));
        }
      } else if th.pc.NSwap? {
        var prev := Swap(Contended(th.kind));
        if prev == th.kind {
          th' := Acquired(th);
        } else {
          th' := th.(pc := if th.pc.op.TimedLock? then NCheck(th.pc.op) else NWait(th.pc.op));
        }
      } else if th.pc.NCheck? {
        var late := Late(th.pc.op);
        th' := if late then Return(th, EBUSY) else th.(pc := NWait(th.pc.op));
      } else {
        UnpackInjective(value, Contended(th.kind));
        th' := th.(pc := if value == Contended(th.kind) then NSleep(th.pc.op) else NSwap(th.pc.op));
      }
    }

    method NormalUnlockInstr(ghost s: State, th: Raw) returns (th': Raw)
      requires Shows(s) && (th.pc.NDec? || th.pc.NStore?) && IsFree(th.kind) && (th.pc.NDec? ==> s.word.state > 0)
      modifies this`value
      ensures Quiet(s, Unpack(value), ThreadOf(th')) == NormalStep(s, ThreadOf(th))
    {
      hide Unpack, IsTid, CondOf, FrameOf, Return, Released, Uncontended;
      ReleasedOf(th, OK);
      UncontendedMeans(th.kind);
      if th.pc.NDec? {
        UnpackInjective(value, Uncontended(th.kind));
        AtomicDecMeans(value);
        var prev := AtomicDec();
        if prev == Uncontended(th.kind) {
          th' := Return(Released(th), OK);
        } else {
          th' := th.(pc := NStore);
        }
      } else {
        value := th.kind;
        th' := Released(th).(pc := WakeOne);
      }
    }

    method OwnerInstr(ghost s: State, th: Raw) returns (th': Raw)
      requires Shows(s) && IsOwnerPc(th.pc)
      requires th.pc.Inc? ==> Unpack(th.mvalue).counter < MAX_COUNTER
      requires th.pc.Dec? ==> Unpack(th.mvalue).counter > 0
      modifies this`value
      ensures Quiet(s, Unpack(value), ThreadOf(th')) == OwnerStep(s, ThreadOf(th))
    {
      hide Unpack, IsTid, CondOf, FrameOf, Return, Acquired, Released, StateBits, OwnerFromBits, FlipContention,
           Uncontended, Contended, OwnedUncontended, OwnedContended;
      var v := th.mvalue;
      AcquiredOf(th);
      ReleasedOf(th, OK);
      UnpackInjective(value, v);
      if th.pc.Inc? {
        IncrementMeans(v);
        var failed := CmpXchg(v, v + COUNTER_ONE);
        th' := if failed then th.(pc := IncReload(th.pc.tries)) else Acquired(th);
      } else if th.pc.IncReload? {
        th' := th.(mvalue := value, pc := Inc(th.pc.tries + 1));
      } else if th.pc.Dec? {
        DecrementMeans(v);
        var failed := CmpXchg(v, v - COUNTER_ONE);
        th' := if failed then th.(pc := DecReload(th.pc.tries)) else Return(Released(th), OK);
      } else if th.pc.DecReload? {
        th' := th.(mvalue := value, pc := Dec(th.pc.tries + 1));
      } else {
        StateTestsMean(value);
        var prev := Swap(th.kind);
        th' := Released(th.(mvalue := prev));
        ReleasedOf(th.(mvalue := prev), OK);
        th' := if StateBits(prev) == 2 then th'.(pc := WakeOne) else Return(th', OK);
      }
    }

    method GrabInstr(ghost s: State, t: Tid, tid: bv32, th: Raw) returns (th': Raw)
      requires Shows(s) && IsGrabPc(th.pc) && IsFree(th.kind) && IsTid(tid, t)
      modifies this`value
      ensures Quiet(s, Unpack(value), ThreadOf(th')) == GrabStep(s, t, ThreadOf(th))
    {
      hide Unpack, IsTid, CondOf, FrameOf, Return, Acquired, Released, StateBits, OwnerFromBits, FlipContention,
           Uncontended, Contended, OwnedUncontended, OwnedContended;
      AcquiredOf(th);
      ReturnOf(th, EBUSY);
      OwnedUncontendedMeans(th.kind, tid, t);
      OwnedContendedMeans(th.kind, tid, t);
      UnpackInjective(value, th.kind);
      if th.pc.Fast? {
        var failed := CmpXchg(th.kind, OwnedUncontended(th.kind, tid));
        if !failed {
          th' := Acquired(th);
        } else if th.pc.op.TryLock? {
          th' := Return(th, EBUSY);
        } else {
          th' := th.(pc := Reload(th.pc.op));
        }
      } else if th.pc.Reload? {
        th' := SlowLoopHead(th.pc.op, th.(mvalue := value));
      } else if th.pc.Acq? {
        var failed := CmpXchg(th.kind, OwnedContended(th.kind, tid));
        if !failed {
          th' := Acquired(th);
        } else {
          th' := th.(pc := if th.pc.op.TimedLock? then AcqCheck(th.pc.op) else Reload(th.pc.op));
        }
      } else {
        var late := Late(th.pc.op);
        th' := if late then Return(th, EBUSY) else th.(pc := Reload(th.pc.op));
      }
    }

    method ParkInstr(ghost s: State, th: Raw) returns (th': Raw)
      requires Shows(s) && IsParkPc(th.pc)
      modifies this`value
      ensures Quiet(s, Unpack(value), ThreadOf(th')) == ParkStep(s, ThreadOf(th))
    {
      hide Unpack, IsTid, CondOf, FrameOf, Return, Acquired, Released, StateBits, OwnerFromBits, FlipContention,
           Uncontended, Contended, OwnedUncontended, OwnedContended;
      var v, op := th.mvalue, th.pc.op;
      ReturnOf(th, EBUSY);
      UnpackInjective(value, v);
      if th.pc.Flip? {
        FlipMeans(v);
        var failed := CmpXchg(v, FlipContention(v));
        if failed {
          th' := th.(pc := if op.TimedLock? then FlipReload(op) else Reload(op));
        } else {
          th' := th.(mvalue := FlipContention(v), pc := if op.TimedLock? then Check(op) else Wait(op));
        }
      } else if th.pc.FlipReload? {
        th' := th.(mvalue := value, pc := Check(op));
      } else if th.pc.Check? {
        StateTestsMean(v);
        var late := Late(op);
        if late {
          th' := Return(th, EBUSY);
        } else if StateBits(v) == 2 {
          th' := th.(pc := Wait(op));
        } else {
          th' := SlowLoopHead(op, th);
        }
      } else {
        th' := th.(pc := if value == v then Sleep(op) else Reload(op));
      }
    }

    method WaitInstr(ghost s: State, th: Raw) returns (th': Raw)
      requires Shows(s) && IsWaitPc(th.pc)
      ensures Quiet(s, Unpack(value), ThreadOf(th')) == WaitStep(s, ThreadOf(th))
    {
      if th.pc.CCheck? {
        var late := false;
        if th.call.CondWait? && th.call.deadline.Some? {
          late := IsPast(th.call.deadline.value, now);
        }
        th' := if late then Answer(th, ETIMEDOUT) else th.(pc := CSnap);
      } else if th.pc.CSnap? {
        th' := th.(pc := Load(Unlock), frame := Waiting(cond, pulses), base := th.depth);
      } else if th.frame.Waiting? && cond == th.frame.snap {
        th' := th.(pc := CSleep);
      } else {
        if th.frame.Waiting? {
          CondOfInjective(cond, th.frame.snap);
        }
        th' := StartRelock(th, false);
      }
    }

    method PulseInstr(ghost s: State, th: Raw) returns (th': Raw, ghost e: Effect)
      requires Shows(s) && IsPulsePc(th.pc)
      modifies this`cond, this`pulses
      ensures e == PulseStep(s, ThreadOf(th))
      ensures e.word == Unpack(value) && e.cond == CondOf(cond) && e.th == ThreadOf(th')
      ensures pulses == if e.pulsed then old(pulses) + 1 else old(pulses)
    {
      e := PulseStep(s, ThreadOf(th));
      if th.pc.PFlags? {
        th' := th.(pc := PLoad(cond % 2 == 1));
      } else if th.pc.PLoad? {
        th' := th.(seen := cond, pc := PCas(th.pc.flags));
      } else if th.pc.PCas? {
        CondOfInjective(cond, th.seen);
        PulseBitsMean(th.seen, th.pc.flags);
        if cond == th.seen {
          cond := PulseBits(th.seen, th.pc.flags);
          th' := th.(pc := PWake(pulses));
          pulses := pulses + 1;
        } else {
          th' := th.(pc := PLoad(th.pc.flags));
        }
      } else {
        th' := Answer(th, OK);
      }
    }

    // ----- whole actions -----

    method Execute(c: Config, ghost s: State, t: Tid, th: Raw) returns (th': Raw, wakes: Wakes, ghost e: Effect)
      requires Valid(c) && s == View() && t in threads && th == threads[t] && !th.pc.Idle? && !Asleep(th)
      modifies this`value, this`cond, this`pulses
      ensures e == StepOf(s, t, ThreadOf(th)) && e.wakes == wakes && e.th == ThreadOf(th')
      ensures e.word == Unpack(value) && e.cond == CondOf(cond)
      ensures pulses == if e.pulsed then old(pulses) + 1 else old(pulses)
    {
      hide Unpack, IsTid, CondOf, NormalStep, OwnerStep, GrabStep, ParkStep, WaitStep, AfterLoad, Inv;
      KnowsEnough(c, s, t, th);
      e := StepOf(s, t, ThreadOf(th));
      wakes := Nobody;
      if th.pc.Load? {
        th' := AfterLoadInstr(s, t, tids[t], th);
      } else if th.pc.NDec? || th.pc.NStore? {
        th' := NormalUnlockInstr(s, th);
      } else if IsNormalPc(th.pc) {
        th' := NormalLockInstr(s, th);
      } else if IsOwnerPc(th.pc) {
        th' := OwnerInstr(s, th);
      } else if IsGrabPc(th.pc) {
        th' := GrabInstr(s, t, tids[t], th);
      } else if IsParkPc(th.pc) {
        th' := ParkInstr(s, th);
      } else if th.pc.WakeOne? {
        ReturnOf(th, OK);
        th', wakes := Return(th, OK), OneOnMutex;
      } else if IsWaitPc(th.pc) {
        th' := WaitInstr(s, th);
      } else {
        ghost var e';
        th', e' := PulseInstr(s, th);
        if th.pc.PWake? {
          wakes := if th.call == CondPulse(true) then AllOnCond else OneOnCond;
        }
      }
    }

    /** Thread `t` makes its next atomic access; `pick` is the sleeper a wake finds. */
    method Go(c: Config, t: Tid, pick: Option<Tid>)
      requires Valid(c) && Enabled(c, View(), Action.Go(t, pick))
      modifies this
      ensures Valid(c) && View() == Next(c, old(View()), Action.Go(t, pick))
    {
      hide Unpack, CondOf, FrameOf, IsTid, StepOf, Rouse, PickOk, Inv;
      ghost var s := View();
      NextKeepsInv(c, s, Action.Go(t, pick));
      SameThreads(c, s, Action.Go(t, pick));
      var th := threads[t];
      var th', wakes, e := Execute(c, s, t, th);
      RouseOf(threads, wakes, pick);
      PutOf(Rouse(threads, wakes, pick), t, th');
      threads := Rouse(threads, wakes, pick)[t := th'];
      assert View() == Next(c, s, Action.Go(t, pick));
    }

    method Leave(c: Config, t: Tid, timeout: bool)
      requires Valid(c) && Enabled(c, View(), Action.Leave(t, timeout))
      modifies this`threads
      ensures Valid(c) && View() == Next(c, old(View()), Action.Leave(t, timeout))
    {
      hide Unpack, CondOf, FrameOf, IsTid, Woken, TimedOut, CanTimeOut, Inv;
      ghost var s := View();
      NextKeepsInv(c, s, Action.Leave(t, timeout));
      WokenOf(threads[t]);
      var th' := if timeout then TimedOut(threads[t]) else Woken(threads[t]);
      PutOf(threads, t, th');
      threads := threads[t := th'];
    }

    method Start(c: Config, t: Tid, call: Call)
      requires Valid(c) && Enabled(c, View(), Action.Start(t, call))
      modifies this`threads
      ensures Valid(c) && View() == Next(c, old(View()), Action.Start(t, call))
    {
      hide Unpack, CondOf, IsTid, MayCall, Inv;
      ghost var s := View();
      NextKeepsInv(c, s, Action.Start(t, call));
      var th' := Begin(threads[t], call);
      PutOf(threads, t, th');
      threads := threads[t := th'];
    }

    method Tick(c: Config, ns: nat)
      requires Valid(c)
      modifies this`now
      ensures Valid(c) && View() == Next(c, old(View()), Action.Tick(ns))
    {
      NextKeepsInv(c, View(), Action.Tick(ns));
      now := now + ns;
    }
  }
}
