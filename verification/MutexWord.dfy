/**
 The 32-bit mutex word: the field masks and bit tricks of the C macros on `bv32`,
 the five fields they stand for as a `Word`, and the lemmas that say each trick
 does to the packed word exactly what it is meant to do to the fields.
 */
module MutexWord {

  const NORMAL := 0
  const RECURSIVE := 1
  const ERRORCHECK := 2

  const UNLOCKED := 0
  const UNCONTENDED := 1
  const CONTENDED := 2

  const MAX_COUNTER := 2047

  /** bits 31-16 owner, 15-14 mtype, 13 shared, 12-2 counter, 1-0 state */
  datatype Word = Word(owner: int, mtype: int, shared: bool, counter: int, state: int)

  /** The value of a mutex of this kind that nobody holds. */
  function Free(mtype: int, shared: bool): Word {
    Word(0, mtype, shared, 0, UNLOCKED)
  }

  // ----- the macros, on bits -----

  const STATE_MASK: bv32 := 0x3
  const COUNTER_MASK: bv32 := 0x1ffc
  const COUNTER_ONE: bv32 := 0x4
  const SHARED_MASK: bv32 := 0x2000
  const TYPE_MASK: bv32 := 0xc000
  const TYPE_BITS_ERRORCHECK: bv32 := 0x8000

  function StateBits(v: bv32): bv32 { v & STATE_MASK }

  function TypeBits(v: bv32): bv32 { v & TYPE_MASK }

  function SharedBits(v: bv32): bv32 { v & SHARED_MASK }

  function OwnerFromBits(v: bv32): bv32 { (v >> 16) & 0xffff }

  /** A thread's own tid, which fits the owner field. */
  predicate IsTid(tid: bv32, owner: int) { tid <= 0xffff && Num(tid) == owner }

  function OwnerToBits(tid: bv32): bv32 { (tid & 0xffff) << 16 }

  predicate CounterWillOverflow(v: bv32) { v & COUNTER_MASK == COUNTER_MASK }

  predicate CounterIsZero(v: bv32) { v & COUNTER_MASK == 0 }

  /** Exchanges states 1 and 2: the mask is 2 ^ 1. */
  function FlipContention(v: bv32): bv32 { v ^ (2 ^ 1) }

  // What the code ors onto `kind`, its local `mtype | shared`.

  function Uncontended(kind: bv32): bv32 { kind | 1 }

  function Contended(kind: bv32): bv32 { kind | 2 }

  function OwnedUncontended(kind: bv32, tid: bv32): bv32 { OwnerToBits(tid) | kind | 1 }

  function OwnedContended(kind: bv32, tid: bv32): bv32 { OwnerToBits(tid) | kind | 2 }

  // ----- from bits to numbers; the lemmas below hide `Num` and use only these facts -----

  function Num(a: bv32): int { a as int }

  lemma NumInjective(a: bv32, b: bv32)
    requires Num(a) == Num(b)
    ensures a == b
  {
    assert (a as int) as bv32 == a;
  }

  lemma NumOfConstants()
    ensures Num(0) == 0 && Num(1) == 1 && Num(2) == 2 && Num(3) == 3 && Num(0x7ff) == 2047
  {
  }

  lemma NumUp(a: bv32)
    requires a <= 0x7ff
    ensures Num(a + 1) == Num(a) + 1
  {
  }

  lemma NumDown(a: bv32)
    requires 0 < a <= 0x7ff
    ensures Num(a - 1) == Num(a) - 1
  {
    hide Num;
    NumUp(a - 1);
    assert a - 1 + 1 == a;
  }

  // ----- packing and unpacking -----

  function Unpack(v: bv32): Word {
    Word(Num(OwnerFromBits(v)), Num((v >> 14) & 3), SharedBits(v) != 0, Num((v >> 2) & 0x7ff), Num(StateBits(v)))
  }

  function PackBits(owner: bv32, mtype: bv32, sharedBit: bv32, counter: bv32, state: bv32): bv32 {
    ((owner & 0xffff) << 16) | (mtype << 14) | (sharedBit << 13) | (counter << 2) | state
  }

  /** Two words with the same five fields are the same word, so a whole-word compare
      (cmpxchg, futex wait) is a compare of the fields. */
  lemma UnpackInjective(v: bv32, w: bv32)
    ensures Unpack(v) == Unpack(w) <==> v == w
  {
    hide Num;
    if Unpack(v) == Unpack(w) {
      NumInjective(OwnerFromBits(v), OwnerFromBits(w));
      NumInjective((v >> 14) & 3, (w >> 14) & 3);
      NumInjective((v >> 2) & 0x7ff, (w >> 2) & 0x7ff);
      NumInjective(StateBits(v), StateBits(w));
    }
  }

  /** The five fields sit side by side: each one reads back from the packed word. */
  lemma PackThenRead(o: bv32, m: bv32, s: bv32, c: bv32, t: bv32)
    requires o <= 0xffff && m <= 3 && s <= 1 && c <= 0x7ff && t <= 3
    ensures var v := PackBits(o, m, s, c, t);
            && (v >> 16) & 0xffff == o
            && (v >> 14) & 3 == m
            && (v >> 13) & 1 == s
            && (v >> 2) & 0x7ff == c
            && v & 3 == t
  {
  }

  /** And it is what the five fields of the word are. */
  lemma UnpackPacked(o: bv32, m: bv32, s: bv32, c: bv32, t: bv32)
    requires o <= 0xffff && m <= 3 && s <= 1 && c <= 0x7ff && t <= 3
    ensures Unpack(PackBits(o, m, s, c, t)) == Word(Num(o), Num(m), s == 1, Num(c), Num(t))
  {
    hide Num;
    PackThenRead(o, m, s, c, t);
    SharedBit(PackBits(o, m, s, c, t));
  }

  lemma SharedBit(v: bv32)
    ensures v & 0x2000 != 0 <==> (v >> 13) & 1 == 1
  {
  }

  /** Packing the fields read from a word gives the word back. */
  lemma ReadThenPack(v: bv32)
    ensures PackBits((v >> 16) & 0xffff, (v >> 14) & 3, (v >> 13) & 1, (v >> 2) & 0x7ff, v & 3) == v
  {
  }

  // ----- what each bit trick does to the fields -----

  lemma FlipMeans(v: bv32)
    ensures Unpack(FlipContention(v)) == Unpack(v).(state := 3 - Unpack(v).state)
  {
    hide Num;
    NumOfConstants();
    FlipBits(v);
  }

  lemma CounterTestsMean(v: bv32)
    ensures CounterIsZero(v) <==> Unpack(v).counter == 0
    ensures CounterWillOverflow(v) <==> Unpack(v).counter == MAX_COUNTER
  {
    hide Num;
    NumOfConstants();
    var c := (v >> 2) & 0x7ff;
    assert CounterIsZero(v) <==> c == 0;
    assert CounterWillOverflow(v) <==> c == 0x7ff;
    if Num(c) == MAX_COUNTER {
      NumInjective(c, 0x7ff);
    }
    if Num(c) == 0 {
      NumInjective(c, 0);
    }
  }

  lemma IncrementMeans(v: bv32)
    requires Unpack(v).counter < MAX_COUNTER
    ensures Unpack(v + COUNTER_ONE) == Unpack(v).(counter := Unpack(v).counter + 1)
  {
    hide Num;
    CounterTestsMean(v);
    IncrementBits(v);
    NumUp((v >> 2) & 0x7ff);
  }

  lemma DecrementMeans(v: bv32)
    requires Unpack(v).counter > 0
    ensures Unpack(v - COUNTER_ONE) == Unpack(v).(counter := Unpack(v).counter - 1)
  {
    hide Num;
    CounterTestsMean(v);
    DecrementBits(v);
    NumDown((v >> 2) & 0x7ff);
  }

  lemma AtomicDecMeans(v: bv32)
    requires Unpack(v).state > 0
    ensures Unpack(v - 1) == Unpack(v).(state := Unpack(v).state - 1)
  {
    hide Num;
    NumOfConstants();
    if v & 3 != 0 {
      AtomicDecBits(v);
      NumDown(v & 3);
    }
  }

  // The same on bits alone.

  lemma FlipBits(v: bv32)
    ensures ((v ^ 3) >> 16) & 0xffff == (v >> 16) & 0xffff && ((v ^ 3) >> 14) & 3 == (v >> 14) & 3
    ensures (v ^ 3) & 0x2000 == v & 0x2000 && ((v ^ 3) >> 2) & 0x7ff == (v >> 2) & 0x7ff
    ensures v & 3 in {0, 1, 2, 3} && (v ^ 3) & 3 == 3 - (v & 3)
  {
  }

  lemma IncrementBits(v: bv32)
    requires v & 0x1ffc != 0x1ffc
    ensures OnlyCounterDiffers(v + 4, v)
    ensures ((v + 4) >> 2) & 0x7ff == ((v >> 2) & 0x7ff) + 1
  {
  }

  lemma DecrementBits(v: bv32)
    requires v & 0x1ffc != 0
    ensures OnlyCounterDiffers(v - 4, v)
    ensures ((v - 4) >> 2) & 0x7ff == ((v >> 2) & 0x7ff) - 1
  {
  }

  predicate OnlyCounterDiffers(u: bv32, v: bv32) {
    && (u >> 16) & 0xffff == (v >> 16) & 0xffff && (u >> 14) & 3 == (v >> 14) & 3
    && u & 0x2000 == v & 0x2000 && u & 3 == v & 3
  }

  lemma AtomicDecBits(v: bv32)
    requires v & 3 != 0
    ensures ((v - 1) >> 16) & 0xffff == (v >> 16) & 0xffff && ((v - 1) >> 14) & 3 == (v >> 14) & 3
    ensures (v - 1) & 0x2000 == v & 0x2000 && ((v - 1) >> 2) & 0x7ff == (v >> 2) & 0x7ff
    ensures (v - 1) & 3 == (v & 3) - 1
  {
  }

  lemma StateTestsMean(v: bv32)
    ensures StateBits(v) == 1 <==> Unpack(v).state == UNCONTENDED
    ensures StateBits(v) == 2 <==> Unpack(v).state == CONTENDED
  {
    hide Num;
    NumOfConstants();
    if Num(StateBits(v)) == 1 {
      NumInjective(StateBits(v), 1);
    }
    if Num(StateBits(v)) == 2 {
      NumInjective(StateBits(v), 2);
    }
  }

  lemma NormalTestMeans(v: bv32)
    ensures TypeBits(v) == 0 <==> Unpack(v).mtype == NORMAL
  {
    hide Num;
    NumOfConstants();
    var m := (v >> 14) & 3;
    TypeBitsRead(v, m);
    if Num(m) == NORMAL {
      NumInjective(m, 0);
    }
  }

  lemma ErrorcheckTestMeans(v: bv32)
    ensures TypeBits(v) == TYPE_BITS_ERRORCHECK <==> Unpack(v).mtype == ERRORCHECK
  {
    hide Num;
    NumOfConstants();
    var m := (v >> 14) & 3;
    TypeBitsRead(v, m);
    if Num(m) == ERRORCHECK {
      NumInjective(m, 2);
    }
  }

  lemma TypeBitsRead(v: bv32, m: bv32)
    requires m == (v >> 14) & 3
    ensures v & 0xc000 == 0 <==> m == 0
    ensures v & 0xc000 == 0x8000 <==> m == 2
  {
  }

  lemma OwnerTestMeans(v: bv32, tid: bv32, owner: int)
    requires IsTid(tid, owner)
    ensures OwnerFromBits(v) == tid <==> Unpack(v).owner == owner
  {
    hide Num;
    if Num(OwnerFromBits(v)) == Num(tid) {
      NumInjective(OwnerFromBits(v), tid);
    }
  }

  /** `mtype | shared`, the locals every entry point derives from its first load. */
  lemma KindBitsMean(v: bv32)
    ensures Unpack(TypeBits(v) | SharedBits(v)) == Free(Unpack(v).mtype, Unpack(v).shared)
    ensures Unpack(v).mtype == NORMAL ==> TypeBits(v) | SharedBits(v) == SharedBits(v)
  {
    hide Num;
    NumOfConstants();
    NormalTestMeans(v);
  }

  /** `OWNER_TO_BITS(tid) | mtype | state` on a free word. */
  lemma OwnedBitsMean(kind: bv32, tid: bv32, state: bv32)
    requires tid <= 0xffff && state <= 2
    requires Unpack(kind) == Free(Unpack(kind).mtype, Unpack(kind).shared)
    ensures Unpack(OwnerToBits(tid) | kind | state) ==
            Unpack(kind).(owner := Num(tid), state := Num(state))
  {
    hide Num;
    NumOfConstants();
    FreeBits(kind);
    OrIntoFree(kind, tid, state);
  }

  lemma OrIntoFree(kind: bv32, tid: bv32, state: bv32)
    requires tid <= 0xffff && state <= 2
    requires (kind >> 16) & 0xffff == 0 && (kind >> 2) & 0x7ff == 0 && kind & 3 == 0
    ensures var v := ((tid & 0xffff) << 16) | kind | state;
            && (v >> 16) & 0xffff == tid
            && (v >> 14) & 3 == (kind >> 14) & 3
            && (v & 0x2000) == kind & 0x2000
            && (v >> 2) & 0x7ff == 0
            && v & 3 == state
  {
  }

  lemma FreeBits(kind: bv32)
    requires Unpack(kind) == Free(Unpack(kind).mtype, Unpack(kind).shared)
    ensures OwnerFromBits(kind) == 0 && (kind >> 2) & 0x7ff == 0 && StateBits(kind) == 0
  {
    hide Num;
    NumOfConstants();
    NumInjective(OwnerFromBits(kind), 0);
    NumInjective((kind >> 2) & 0x7ff, 0);
    NumInjective(StateBits(kind), 0);
  }

  /** `shared | state` on a free word. */
  lemma StateBitsMean(kind: bv32, state: bv32)
    requires state <= 2
    requires Unpack(kind) == Free(Unpack(kind).mtype, Unpack(kind).shared)
    ensures Unpack(kind | state) == Unpack(kind).(state := Num(state))
  {
    hide Num;
    NumOfConstants();
    OwnedBitsMean(kind, 0, state);
    assert OwnerToBits(0) | kind | state == kind | state;
  }

  lemma UncontendedMeans(kind: bv32)
    requires Unpack(kind) == Free(Unpack(kind).mtype, Unpack(kind).shared)
    ensures Unpack(Uncontended(kind)) == Unpack(kind).(state := UNCONTENDED)
  {
    hide Num;
    NumOfConstants();
    StateBitsMean(kind, 1);
  }

  lemma ContendedMeans(kind: bv32)
    requires Unpack(kind) == Free(Unpack(kind).mtype, Unpack(kind).shared)
    ensures Unpack(Contended(kind)) == Unpack(kind).(state := CONTENDED)
  {
    hide Num;
    NumOfConstants();
    StateBitsMean(kind, 2);
  }

  lemma OwnedUncontendedMeans(kind: bv32, tid: bv32, owner: int)
    requires IsTid(tid, owner) && Unpack(kind) == Free(Unpack(kind).mtype, Unpack(kind).shared)
    ensures Unpack(OwnedUncontended(kind, tid)) == Unpack(kind).(owner := owner, state := UNCONTENDED)
  {
    hide Num;
    NumOfConstants();
    OwnedBitsMean(kind, tid, 1);
  }

  lemma OwnedContendedMeans(kind: bv32, tid: bv32, owner: int)
    requires IsTid(tid, owner) && Unpack(kind) == Free(Unpack(kind).mtype, Unpack(kind).shared)
    ensures Unpack(OwnedContended(kind, tid)) == Unpack(kind).(owner := owner, state := CONTENDED)
  {
    hide Num;
    NumOfConstants();
    OwnedBitsMean(kind, tid, 2);
  }
}
