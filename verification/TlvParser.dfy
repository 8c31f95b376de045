/**
 Finding the dB information in a TLV stream: a recursive descent over 32-bit words with
 unsigned, wrapping size arithmetic. A read past the end of the words is a `Fault`, which C
 leaves undefined.
 */
module TlvParser {
  import opened Common
  import opened TlvWords

  const EINVAL := -22

  /** The return value and the pointer stored through db_tlvp, as a word index. */
  datatype Answer = Fault | Answer(err: int, at: Option<nat>)

  const NotFound := Answer(EINVAL, None)

  predicate IsDb(kind: Uint32) { DB_SCALE <= kind <= DB_MINMAX_MUTE }

  predicate LegalSize(kind: Uint32, size: Uint32) {
    (if kind == DB_RANGE then 16 else 8) <= size <= MAX_RANGE_SIZE
  }

  /** What the parser does at word `tlv`, given `avail` bytes. */
  function Parse(mem: seq<Uint32>, tlv: nat, avail: Uint32): Answer
    decreases |mem| - tlv, 1
  {
    if tlv + 2 > |mem| then Fault
    else
      var kind, size := mem[tlv], mem[tlv + 1];
      if size > (avail - 8) % WRAP then NotFound
      else if kind == CONTAINER then ParseChildren(mem, tlv + 2, IntIndex(size) * 4 % WRAP)
      else if IsDb(kind) && LegalSize(kind, size) then Answer(size + 8, Some(tlv))
      else NotFound
  }

  function ParseChildren(mem: seq<Uint32>, tlv: nat, size: Uint32): Answer
    decreases |mem| - tlv, 2
  {
    if size == 0 then NotFound
    else
      var r := Parse(mem, tlv, size);
      if r.Fault? || r.err < 0 || r.err > 0 then r
      else if tlv + 2 > |mem| then Fault
      else
        var len := (IntIndex(mem[tlv + 1]) + 2) % WRAP;
        ParseChildren(mem, tlv + IntIndex(mem[tlv + 1]) + 2, (size - len * 4) % WRAP)
  }

  method ParseDbInfo(mem: seq<Uint32>, tlv: nat, avail: Uint32) returns (r: Answer)
    ensures r == Parse(mem, tlv, avail)
    decreases |mem| - tlv
  {
    if tlv + 2 > |mem| {
      return Fault;
    }
    var kind, size := mem[tlv], mem[tlv + 1];
    if size > (avail - 8) % WRAP {
      return NotFound;
    }
    if kind == CONTAINER {
      var left: Uint32, cur := IntIndex(size) * 4 % WRAP, tlv + 2;
      while left > 0
        invariant tlv + 2 <= cur
        invariant Parse(mem, tlv, avail) == ParseChildren(mem, cur, left)
        decreases |mem| - cur
      {
        r := ParseDbInfo(mem, cur, left);
        if r.Fault? || r.err < 0 || r.err > 0 {
          return;
        }
        if cur + 2 > |mem| {
          return Fault;
        }
        left := (left - (IntIndex(mem[cur + 1]) + 2) % WRAP * 4) % WRAP;
        cur := cur + IntIndex(mem[cur + 1]) + 2;
      }
    } else if IsDb(kind) {
      if LegalSize(kind, size) {
        return Answer(size + 8, Some(tlv));
      }
    }
    return NotFound;
  }

  // ----- it never goes on to a second child -----

  /** The parser never returns 0, so the loop over children stops at the first one. */
  lemma {:induction false} NeverZero(mem: seq<Uint32>, tlv: nat, avail: Uint32)
    ensures var r := Parse(mem, tlv, avail);
            r.Fault? || r == NotFound || (r.err > 8 && r.at.Some?)
    decreases |mem| - tlv
  {
    if tlv + 2 <= |mem| && mem[tlv] == CONTAINER {
      NeverZero(mem, tlv + 2, IntIndex(mem[tlv + 1]) * 4 % WRAP);
    }
  }

  /** A non-empty container means what its first child means, whatever follows. */
  lemma FirstChildDecides(mem: seq<Uint32>, tlv: nat, avail: Uint32)
    requires tlv + 2 <= |mem| && mem[tlv] == CONTAINER && mem[tlv + 1] <= (avail - 8) % WRAP
    ensures var inner := IntIndex(mem[tlv + 1]) * 4 % WRAP;
            Parse(mem, tlv, avail) == if inner == 0 then NotFound else Parse(mem, tlv + 2, inner)
  {
    NeverZero(mem, tlv + 2, IntIndex(mem[tlv + 1]) * 4 % WRAP);
  }

  // ----- does it stay inside its source? -----

  /** How many words hold `avail` bytes. */
  function WordsOf(avail: Uint32): nat { (avail + 3) / 4 }

  predicate OpensChild(mem: seq<Uint32>, tlv: nat, avail: Uint32)
    requires avail >= 8
  {
    tlv + 2 <= |mem| && mem[tlv] == CONTAINER && 0 < mem[tlv + 1] <= avail - 8
  }

  /** What a container's first child gets. */
  function Inner(mem: seq<Uint32>, tlv: nat, avail: Uint32): (inner: Uint32)
    requires avail >= 8 && OpensChild(mem, tlv, avail)
    ensures inner % 4 == 0 && inner == 4 * WordsOf(mem[tlv + 1]) && 0 < WordsOf(inner) <= WordsOf(avail) - 2
  {
    IntIndex(mem[tlv + 1]) * 4
  }

  /** No source on the leftmost path is too short for a header: none of its containers has 1 to 4 bytes. */
  predicate NoStub(mem: seq<Uint32>, tlv: nat, avail: Uint32)
    decreases |mem| - tlv
  {
    avail >= 8 && (OpensChild(mem, tlv, avail) ==> NoStub(mem, tlv + 2, Inner(mem, tlv, avail)))
  }

  /** The end of the innermost source on the leftmost path, or of the first that is too short for a header. */
  function InnerEnd(mem: seq<Uint32>, tlv: nat, avail: Uint32): nat
    decreases |mem| - tlv
  {
    if avail >= 8 && OpensChild(mem, tlv, avail) then InnerEnd(mem, tlv + 2, Inner(mem, tlv, avail))
    else tlv + WordsOf(avail)
  }

  /** The descent, while sources have room for a header. */
  lemma Descends(mem: seq<Uint32>, tlv: nat, avail: Uint32)
    requires avail >= 8 && OpensChild(mem, tlv, avail)
    ensures Parse(mem, tlv, avail) == Parse(mem, tlv + 2, Inner(mem, tlv, avail))
  {
    hide Parse;
    FirstChildDecides(mem, tlv, avail);
  }

  lemma EndsHere(mem: seq<Uint32>, tlv: nat, avail: Uint32)
    requires avail >= 8 && tlv + 2 <= |mem| && !OpensChild(mem, tlv, avail)
    ensures Parse(mem, tlv, avail) ==
            if mem[tlv + 1] <= avail - 8 && IsDb(mem[tlv]) && LegalSize(mem[tlv], mem[tlv + 1])
            then Answer(mem[tlv + 1] + 8, Some(tlv)) else NotFound
  {
    hide ParseChildren, LegalSize;
    if mem[tlv] == CONTAINER && mem[tlv + 1] <= avail - 8 {
      FirstChildDecides(mem, tlv, avail);
    }
  }

  /** Without stubs it does not fault, and what it finds is a dB entry that lies wholly inside the source. */
  lemma {:induction false} FoundInside(mem: seq<Uint32>, tlv: nat, avail: Uint32)
    requires tlv + WordsOf(avail) <= |mem| && NoStub(mem, tlv, avail)
    ensures var r := Parse(mem, tlv, avail);
            && !r.Fault?
            && (r.at.Some? ==>
                  var at := r.at.value;
                  && tlv <= at && at + 2 <= |mem|
                  && IsDb(mem[at]) && LegalSize(mem[at], mem[at + 1]) && r.err == mem[at + 1] + 8
                  && at + WordsOf(r.err) <= tlv + WordsOf(avail))
    decreases |mem| - tlv
  {
    hide Parse;
    if OpensChild(mem, tlv, avail) {
      Descends(mem, tlv, avail);
      FoundInside(mem, tlv + 2, Inner(mem, tlv, avail));
    } else {
      EndsHere(mem, tlv, avail);
    }
  }

  /**
   Exactly then: with nothing after the innermost source, or after the first stub, the parse is free of
   faults if and only if there is no stub.
   */
  lemma {:induction false} StaysInsideIffNoStub(mem: seq<Uint32>, tlv: nat, avail: Uint32)
    requires tlv + WordsOf(avail) <= |mem| && (avail >= 8 || avail % 4 == 0)
    ensures tlv <= InnerEnd(mem, tlv, avail) <= tlv + WordsOf(avail)
    ensures !Parse(mem[..InnerEnd(mem, tlv, avail)], tlv, avail).Fault? <==> NoStub(mem, tlv, avail)
    decreases |mem| - tlv
  {
    var end := InnerEnd(mem, tlv, avail);
    if avail >= 8 {
      if OpensChild(mem, tlv, avail) {
        StaysInsideIffNoStub(mem, tlv + 2, Inner(mem, tlv, avail));
        assert OpensChild(mem[..end], tlv, avail);
        Descends(mem[..end], tlv, avail);
      } else {
        EndsHere(mem[..end], tlv, avail);
      }
    }
  }

  /** A container of 4 bytes: its child's 4 bytes less a header wrap around, and an entry from beyond is found. */
  lemma StubEscapes()
    ensures var mem := [CONTAINER, 4, DB_SCALE, 8, 0, 100];
            Parse(mem, 0, 12) == Answer(16, Some(2)) && 4 * 2 + 16 > 12 && !NoStub(mem, 0, 12)
  {
    var mem := [CONTAINER, 4, DB_SCALE, 8, 0, 100];
    assert Parse(mem, 2, 4) == Answer(16, Some(2));
    assert ParseChildren(mem, 2, 4) == Answer(16, Some(2));
    assert OpensChild(mem, 0, 12) && Inner(mem, 0, 12) == 4;
  }

  // ----- well-formed trees -----

  /** `size` counts bytes and need not be a multiple of 4. */
  datatype Tlv =
    | Leaf(kind: Uint32, size: Uint32, payload: seq<Uint32>)
    | Container(size: Uint32, children: seq<Tlv>)

  function Encode(t: Tlv): seq<Uint32> {
    match t
    case Leaf(kind, size, payload) => [kind, size] + payload
    case Container(size, children) => [CONTAINER, size] + EncodeAll(children)
  }

  function EncodeAll(ts: seq<Tlv>): seq<Uint32> {
    if ts == [] then [] else Encode(ts[0]) + EncodeAll(ts[1..])
  }

  /** Sizes are right and leave room for rounding up to whole words. */
  predicate WellFormed(t: Tlv) {
    && t.size + 3 < WRAP
    && match t
       case Leaf(kind, size, payload) => kind != CONTAINER && |payload| == IntIndex(size)
       case Container(size, children) =>
         |EncodeAll(children)| == IntIndex(size) && forall i | 0 <= i < |children| :: WellFormed(children[i])
  }

  /** The leftmost leaf decides: its place and its whole size if it is a dB entry of legal size. */
  function Expected(t: Tlv, at: nat): Answer {
    match t
    case Leaf(kind, size, _) =>
      if IsDb(kind) && LegalSize(kind, size) then Answer(size + 8, Some(at)) else NotFound
    case Container(_, children) =>
      if children == [] then NotFound else Expected(children[0], at + 2)
  }

  lemma EncodedLength(t: Tlv)
    requires WellFormed(t)
    ensures |Encode(t)| == 2 + IntIndex(t.size) && Encode(t)[1] == t.size
    ensures Encode(t)[0] == if t.Leaf? then t.kind else CONTAINER
    ensures t.size <= 4 * IntIndex(t.size) < WRAP
  {
  }

  /** The words of a non-empty container, seen from its first child. */
  lemma FirstChildEncoded(pre: seq<Uint32>, t: Tlv, post: seq<Uint32>)
    requires WellFormed(t) && t.Container? && t.children != []
    ensures var rest := EncodeAll(t.children[1..]);
            && EncodeAll(t.children) == Encode(t.children[0]) + rest
            && pre + Encode(t) + post == (pre + [CONTAINER, t.size]) + Encode(t.children[0]) + (rest + post)
    ensures WellFormed(t.children[0]) && t.children[0].size + 8 <= 4 * IntIndex(t.size) < WRAP
  {
    EncodedLength(t);
    EncodedLength(t.children[0]);
  }

  lemma ParseLeaf(pre: seq<Uint32>, t: Tlv, post: seq<Uint32>, avail: Uint32)
    requires WellFormed(t) && t.Leaf? && t.size + 8 <= avail
    ensures Parse(pre + Encode(t) + post, |pre|, avail) == Expected(t, |pre|)
  {
    var mem := pre + Encode(t) + post;
    assert mem[|pre|] == t.kind && mem[|pre| + 1] == t.size;
  }

  lemma EmptyContainer(t: Tlv)
    requires WellFormed(t) && t.Container? && t.children == []
    ensures IntIndex(t.size) == 0
  {
  }

  lemma ParseContainer(pre: seq<Uint32>, t: Tlv, post: seq<Uint32>, avail: Uint32)
    requires WellFormed(t) && t.Container? && t.size + 8 <= avail
    ensures var mem := pre + Encode(t) + post;
            Parse(mem, |pre|, avail) ==
            if IntIndex(t.size) == 0 then NotFound else Parse(mem, |pre| + 2, 4 * IntIndex(t.size))
  {
    hide WellFormed, EncodeAll, Parse;
    var mem := pre + Encode(t) + post;
    EncodedLength(t);
    assert mem[|pre|] == Encode(t)[0] && mem[|pre| + 1] == Encode(t)[1];
    FirstChildDecides(mem, |pre|, avail);
  }

  /** On every well-formed tree, at any depth and with anything before and after it. */
  lemma {:induction false} ParseWellFormed(pre: seq<Uint32>, t: Tlv, post: seq<Uint32>, avail: Uint32)
    requires WellFormed(t) && t.size + 8 <= avail
    ensures Parse(pre + Encode(t) + post, |pre|, avail) == Expected(t, |pre|)
    decreases t
  {
    if t.Leaf? {
      ParseLeaf(pre, t, post, avail);
      return;
    }
    hide Parse, IntIndex;
    ParseContainer(pre, t, post, avail);
    if t.children != [] {
      FirstChildEncoded(pre, t, post);
      var rest := EncodeAll(t.children[1..]);
      ParseWellFormed(pre + [CONTAINER, t.size], t.children[0], rest + post, 4 * IntIndex(t.size));
    } else {
      EmptyContainer(t);
    }
  }

  /** What success promises: the start and byte size of a dB entry that lies wholly inside the source. */
  lemma {:induction false} ExpectedIsWhole(pre: seq<Uint32>, t: Tlv, post: seq<Uint32>)
    requires WellFormed(t)
    ensures var mem := pre + Encode(t) + post; var r := Expected(t, |pre|);
            r == NotFound ||
            (&& r.Answer? && r.at.Some? && |pre| <= r.at.value && r.at.value + 2 <= |mem|
             && IsDb(mem[r.at.value]) && LegalSize(mem[r.at.value], mem[r.at.value + 1])
             && r.err == mem[r.at.value + 1] + 8
             && 4 * r.at.value + r.err <= 4 * (|pre| + |Encode(t)|))
    decreases t
  {
    var mem := pre + Encode(t) + post;
    EncodedLength(t);
    assert mem[|pre|] == Encode(t)[0] && mem[|pre| + 1] == Encode(t)[1];
    if t.Container? && t.children != [] {
      FirstChildEncoded(pre, t, post);
      ExpectedIsWhole(pre + [CONTAINER, t.size], t.children[0], EncodeAll(t.children[1..]) + post);
    }
  }

  /** Some leaf of the tree is a dB entry of legal size. */
  predicate HasDb(t: Tlv) {
    match t
    case Leaf(kind, size, _) => IsDb(kind) && LegalSize(kind, size)
    case Container(_, children) => exists i | 0 <= i < |children| :: HasDb(children[i])
  }

  /** The function's comment promises an entry "if found in the given source"; a second entry is not found. */
  lemma SecondEntryIsMissed()
    ensures var t := Container(32, [Leaf(0x101, 8, [0, 0]), Leaf(DB_SCALE, 8, [0, 100])]);
            WellFormed(t) && HasDb(t) && Parse(Encode(t), 0, 40) == NotFound
  {
    var a, b := Leaf(0x101, 8, [0, 0]), Leaf(DB_SCALE, 8, [0, 100]);
    var t := Container(32, [a, b]);
    assert EncodeAll([b]) == Encode(b) + EncodeAll([]);
    assert EncodeAll([a, b]) == Encode(a) + EncodeAll([b]);
    assert HasDb(t.children[1]);
    ParseWellFormed([], t, [], 40);
    assert [] + Encode(t) + [] == Encode(t);
  }

  /** What is found is there: success means some leaf is a dB entry of legal size. */
  lemma {:induction false} FoundMeansThere(t: Tlv, at: nat)
    ensures Expected(t, at) != NotFound ==> HasDb(t)
    decreases t
  {
    if t.Container? && t.children != [] {
      FoundMeansThere(t.children[0], at + 2);
    }
  }
}
