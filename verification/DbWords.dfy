/**
 The conversion and the range on the words of a TLV. A method is given the words that hold one entry;
 a read past the entry's own bytes, which may end inside the last word, is an outcome of its own.
 */
module DbWords {
  import opened Common
  import opened TlvWords
  import opened DbConvert
  import TlvParser

  /** The cast `(int)tlv[i]`. */
  function Signed(w: Uint32): int {
    if w < 0x8000_0000 then w else w - WRAP
  }

  /** The words that hold one TLV; `Bytes` of them are its own. */
  predicate Whole(tlv: seq<Uint32>) {
    |tlv| >= 2 && |tlv| == 2 + IntIndex(tlv[1])
  }

  /** What the parser returns for it, and its caller copies. */
  function Bytes(tlv: seq<Uint32>): int
    requires Whole(tlv)
  {
    var size: int := tlv[1];
    size + 8
  }

  predicate IsLine(kind: Uint32) { kind == DB_SCALE || kind == DB_MINMAX || kind == DB_MINMAX_MUTE }

  /** The kinds whose range is in two words; that of a DB_LINEAR is stored like that of a DB_MINMAX. */
  predicate HasEnds(kind: Uint32) { IsLine(kind) || kind == DB_LINEAR }

  function EntryAt(tlv: seq<Uint32>, at: nat): Entry
    requires at + 4 <= |tlv| && HasEnds(tlv[at])
  {
    if tlv[at] == DB_SCALE then
      Scale(Signed(tlv[at + 2]), tlv[at + 3] % 0x1_0000, tlv[at + 3] / 0x1_0000 % 2 == 1)
    else
      MinMax(Signed(tlv[at + 2]), Signed(tlv[at + 3]), tlv[at] == DB_MINMAX_MUTE)
  }

  /** There is a segment at word `pos` of a DB_RANGE: two raw values and an entry. */
  predicate SegmentAt(tlv: seq<Uint32>, pos: nat)
    requires Whole(tlv)
  {
    pos + 4 <= IntIndex(tlv[1])
  }

  function After(tlv: seq<Uint32>, pos: nat): nat
    requires Whole(tlv) && SegmentAt(tlv, pos)
  {
    pos + IntIndex(tlv[pos + 3]) + 4
  }

  /** All entries from `pos` on are lines, of any size. */
  predicate Plain(tlv: seq<Uint32>, pos: nat)
    requires Whole(tlv)
    decreases |tlv| - pos
  {
    SegmentAt(tlv, pos) ==> IsLine(tlv[pos + 2]) && Plain(tlv, After(tlv, pos))
  }

  /** None of them is itself a DB_RANGE. */
  predicate NotNested(tlv: seq<Uint32>, pos: nat)
    requires Whole(tlv)
    decreases |tlv| - pos
  {
    SegmentAt(tlv, pos) ==> tlv[pos + 2] != DB_RANGE && NotNested(tlv, After(tlv, pos))
  }

  /** The segments from `pos` on, up to the first entry of an unknown kind. */
  function Segments(tlv: seq<Uint32>, pos: nat): seq<Segment>
    requires Whole(tlv)
    decreases |tlv| - pos
  {
    if SegmentAt(tlv, pos) && HasEnds(tlv[pos + 2]) then
      [Segment(Signed(tlv[pos]), Signed(tlv[pos + 1]), EntryAt(tlv, pos + 2))] + Segments(tlv, After(tlv, pos))
    else []
  }

  /** The one at `pos`, and those after it. */
  lemma NextSegment(tlv: seq<Uint32>, pos: nat)
    requires Whole(tlv)
    ensures Segments(tlv, pos) != [] <==> SegmentAt(tlv, pos) && HasEnds(tlv[pos + 2])
    ensures SegmentAt(tlv, pos) && HasEnds(tlv[pos + 2]) ==>
              && pos + 6 <= |tlv|
              && Segments(tlv, pos)[0] == Segment(Signed(tlv[pos]), Signed(tlv[pos + 1]), EntryAt(tlv, pos + 2))
              && Segments(tlv, pos)[1..] == Segments(tlv, After(tlv, pos))
  {
  }

  // ----- what the loops read -----

  /** Whether the loop over the segments goes on after `s`: for a range, or for the conversion of a gain. */
  predicate GoesOn(s: Segment, rawMax: int, gain: Option<int>) {
    && rawMax != Clip(s.rawMax, rawMax)
    && (gain.Some? ==> gain.value >= Bottom(s.entry) && gain.value > TopOf(s, rawMax))
  }

  /** Of a segment it reads the six words up to the second end, before it looks at the result. */
  predicate Visited(tlv: seq<Uint32>, from: nat, pos: nat, rawMax: int, gain: Option<int>)
    requires Whole(tlv)
    decreases |tlv| - from
  {
    && SegmentAt(tlv, from) && HasEnds(tlv[from + 2])
    && (pos == from || (GoesOn(Segments(tlv, from)[0], rawMax, gain) &&
                        Visited(tlv, After(tlv, from), pos, rawMax, gain)))
  }

  /** Some word it reads does not lie wholly inside the TLV's bytes. */
  predicate ReadsPast(tlv: seq<Uint32>, from: nat, rawMax: int, gain: Option<int>)
    requires Whole(tlv)
    decreases |tlv| - from
  {
    && SegmentAt(tlv, from) && HasEnds(tlv[from + 2])
    && (4 * (from + 6) > Bytes(tlv) || (GoesOn(Segments(tlv, from)[0], rawMax, gain) &&
                                        ReadsPast(tlv, After(tlv, from), rawMax, gain)))
  }

  /** That happens exactly if the bytes do not fill the last word and a segment that is visited ends in it. */
  lemma {:induction false} ReadsPastExactly(tlv: seq<Uint32>, from: nat, rawMax: int, gain: Option<int>)
    requires Whole(tlv)
    ensures ReadsPast(tlv, from, rawMax, gain) <==>
            && Bytes(tlv) % 4 != 0 && IntIndex(tlv[1]) >= 4
            && Visited(tlv, from, IntIndex(tlv[1]) - 4, rawMax, gain)
    decreases |tlv| - from
  {
    if SegmentAt(tlv, from) {
      ReadsPastExactly(tlv, After(tlv, from), rawMax, gain);
      LastWord(tlv, from);
      if IntIndex(tlv[1]) - 4 == from {
        BeyondTheEnd(tlv, After(tlv, from), rawMax, gain);
      }
    }
  }

  lemma LastWord(tlv: seq<Uint32>, from: nat)
    requires Whole(tlv) && SegmentAt(tlv, from)
    ensures 4 * (from + 6) > Bytes(tlv) <==> Bytes(tlv) % 4 != 0 && from + 4 == IntIndex(tlv[1])
  {
  }

  lemma BeyondTheEnd(tlv: seq<Uint32>, from: nat, rawMax: int, gain: Option<int>)
    requires Whole(tlv) && from + 4 > IntIndex(tlv[1])
    ensures !ReadsPast(tlv, from, rawMax, gain)
  {
  }

  // ----- the conversion -----

  /** A read past the TLV's bytes, which C leaves undefined; -EINVAL; or the raw value. */
  datatype Conversion = PastEnd | Refused | Raw(value: int)

  /** What both functions ask of the words they get: an entry with ends has room for them. */
  predicate Roomy(tlv: seq<Uint32>) {
    Whole(tlv) && (HasEnds(tlv[0]) ==> |tlv| >= 4 && tlv[1] >= 8)
  }

  /** The loop of snd_tlv_convert_from_dB over a DB_RANGE. */
  method ConvertSegments(tlv: seq<Uint32>, rawMax: int, gain: int, xdir: int) returns (r: Conversion)
    requires Whole(tlv) && Plain(tlv, 2)
    ensures r == if ReadsPast(tlv, 2, rawMax, Some(gain)) then PastEnd
                 else Raw(ConvertRange(Segments(tlv, 2), true, 0, rawMax, gain, xdir))
  {
    hide Segments, Convert, Bottom, Top, IntIndex, Signed, EntryAt;
    var pos, before := 2, 0;
    while pos + 4 <= IntIndex(tlv[1])
      invariant 2 <= pos && Plain(tlv, pos)
      invariant ConvertRange(Segments(tlv, 2), true, 0, rawMax, gain, xdir) ==
                ConvertRange(Segments(tlv, pos), pos == 2, before, rawMax, gain, xdir)
      invariant ReadsPast(tlv, 2, rawMax, Some(gain)) <==> ReadsPast(tlv, pos, rawMax, Some(gain))
      decreases |tlv| - pos
    {
      NextSegment(tlv, pos);
      if 4 * (pos + 6) > Bytes(tlv) {
        return PastEnd;
      }
      var rawMin, top := Signed(tlv[pos]), Signed(tlv[pos + 1]);
      if rawMax < top {
        top := rawMax;
      }
      var e := EntryAt(tlv, pos + 2);
      if gain >= Bottom(e) && gain <= Top(e, top - rawMin) {
        return Raw(Convert(e, rawMin, top, gain, xdir));
      } else if gain < Bottom(e) {
        return Raw(if xdir > 0 || pos == 2 then rawMin else before);
      }
      before := top;
      if rawMax == top {
        return Raw(before);
      }
      pos := pos + IntIndex(tlv[pos + 3]) + 4;
    }
    NextSegment(tlv, pos);
    return Raw(before);
  }

  /** snd_tlv_convert_from_dB, but for DB_LINEAR. */
  method ConvertFromDb(tlv: seq<Uint32>, rawMin: int, rawMax: int, gain: int, xdir: int) returns (r: Conversion)
    requires Roomy(tlv) && tlv[0] != DB_LINEAR && (tlv[0] == DB_RANGE ==> Plain(tlv, 2))
    ensures IsLine(tlv[0]) ==> r == Raw(Convert(EntryAt(tlv, 0), rawMin, rawMax, gain, xdir))
    ensures tlv[0] == DB_RANGE ==>
              r == if Segments(tlv, 2) == [] || IntIndex(tlv[1]) > MAX_RANGE_SIZE then Refused
                   else if ReadsPast(tlv, 2, rawMax, Some(gain)) then PastEnd
                   else Raw(ConvertRange(Segments(tlv, 2), true, 0, rawMax, gain, xdir))
    ensures !IsLine(tlv[0]) && tlv[0] != DB_RANGE ==> r == Refused
  {
    if tlv[0] == DB_RANGE {
      var len := IntIndex(tlv[1]);
      if len < 6 || len > MAX_RANGE_SIZE {
        return Refused;
      }
      r := ConvertSegments(tlv, rawMax, gain, xdir);
    } else if IsLine(tlv[0]) {
      r := Raw(Convert(EntryAt(tlv, 0), rawMin, rawMax, gain, xdir));
    } else {
      r := Refused;
    }
  }

  // ----- the range -----

  /** A read past the TLV's bytes; -EINVAL; 0 without a value stored; or 0 with both ends stored. */
  datatype Report = Overrun | Invalid | Unset | Span(ends: (int, int))

  /** The loop comes to an entry of an unknown kind. */
  predicate MeetsUnknown(tlv: seq<Uint32>, from: nat, rawMax: int)
    requires Whole(tlv)
    decreases |tlv| - from
  {
    && SegmentAt(tlv, from)
    && (!HasEnds(tlv[from + 2]) || (GoesOn(Segments(tlv, from)[0], rawMax, None) &&
                                    MeetsUnknown(tlv, After(tlv, from), rawMax)))
  }

  /** What the range of a DB_RANGE's segments from `from` on is, with the ends of earlier ones in `sofar`. */
  ghost function RangeFrom(tlv: seq<Uint32>, from: nat, rawMax: int, sofar: Option<(int, int)>): Report
    requires Whole(tlv)
  {
    if ReadsPast(tlv, from, rawMax, None) then Overrun
    else if MeetsUnknown(tlv, from, rawMax) then Invalid
    else
      var segs := Segments(tlv, from);
      if sofar.Some? then Span(WithRest(sofar.value, segs, rawMax))
      else if segs == [] then Unset else Span(GainRange(segs, rawMax))
  }

  /** What is to report once the ends of earlier segments are in `sofar`. */
  ghost function WithRest(sofar: (int, int), segs: seq<Segment>, rawMax: int): (int, int) {
    if segs == [] then sofar else Join(sofar, GainRange(segs, rawMax))
  }

  lemma OneMore(sofar: (int, int), segs: seq<Segment>, rawMax: int)
    requires segs != []
    ensures rawMax != Clip(segs[0].rawMax, rawMax) ==>
              && GainRange(segs, rawMax) == WithRest(Ends(segs[0], rawMax), segs[1..], rawMax)
              && WithRest(sofar, segs, rawMax) == WithRest(Join(sofar, Ends(segs[0], rawMax)), segs[1..], rawMax)
    ensures rawMax == Clip(segs[0].rawMax, rawMax) ==>
              && GainRange(segs, rawMax) == Ends(segs[0], rawMax)
              && WithRest(sofar, segs, rawMax) == Join(sofar, Ends(segs[0], rawMax))
  {
    if |segs| > 1 {
      JoinAssociates(sofar, Ends(segs[0], rawMax), GainRange(segs[1..], rawMax));
    }
  }

  /** One entry's ends, into those of the segments before it. */
  method Widen(first: bool, lo: int, hi: int, e: Entry, raws: int) returns (lo': int, hi': int)
    ensures var ends := (Bottom(e), Top(e, raws));
            (lo', hi') == if first then ends else Join((lo, hi), ends)
  {
    var rmin, rmax := Bottom(e), Top(e, raws);
    if first {
      return rmin, rmax;
    }
    lo', hi' := lo, hi;
    if rmin < lo {
      lo' := rmin;
    }
    if rmax > hi {
      hi' := rmax;
    }
  }

  /** The loop of snd_tlv_get_dB_range over a DB_RANGE. */
  method SpanOfSegments(tlv: seq<Uint32>, rawMax: int) returns (r: Report)
    requires Whole(tlv) && NotNested(tlv, 2)
    ensures r == RangeFrom(tlv, 2, rawMax, None)
  {
    hide Join, GainRange, Bottom, Top, Segments, IntIndex, Signed, EntryAt;
    var pos, lo, hi := 2, 0, 0;
    while pos + 4 <= IntIndex(tlv[1])
      invariant 2 <= pos && NotNested(tlv, pos)
      invariant RangeFrom(tlv, 2, rawMax, None) ==
                RangeFrom(tlv, pos, rawMax, if pos == 2 then None else Some((lo, hi)))
      decreases |tlv| - pos
    {
      NextSegment(tlv, pos);
      if !IsLine(tlv[pos + 2]) && tlv[pos + 2] != DB_LINEAR {
        return Invalid;
      }
      if 4 * (pos + 6) > Bytes(tlv) {
        return Overrun;
      }
      OneMore((lo, hi), Segments(tlv, pos), rawMax);
      var rawMin, top := Signed(tlv[pos]), Signed(tlv[pos + 1]);
      if rawMax < top {
        top := rawMax;
      }
      lo, hi := Widen(pos == 2, lo, hi, EntryAt(tlv, pos + 2), top - rawMin);
      if rawMax == top {
        return Span((lo, hi));
      }
      pos := pos + IntIndex(tlv[pos + 3]) + 4;
    }
    NextSegment(tlv, pos);
    return if pos == 2 then Unset else Span((lo, hi));
  }

  /** snd_tlv_get_dB_range */
  method GetDbRange(tlv: seq<Uint32>, rawMin: int, rawMax: int) returns (r: Report)
    requires Roomy(tlv) && (tlv[0] == DB_RANGE ==> NotNested(tlv, 2))
    ensures IsLine(tlv[0]) ==> r == Span((Bottom(EntryAt(tlv, 0)), Top(EntryAt(tlv, 0), rawMax - rawMin)))
    ensures tlv[0] == DB_LINEAR ==> r == Span((Signed(tlv[2]), Signed(tlv[3])))
    ensures tlv[0] == DB_RANGE ==>
              r == if IntIndex(tlv[1]) > MAX_RANGE_SIZE then Invalid
                   else if ReadsPast(tlv, 2, rawMax, None) then Overrun
                   else if MeetsUnknown(tlv, 2, rawMax) then Invalid
                   else if Segments(tlv, 2) == [] then Unset
                   else Span(GainRange(Segments(tlv, 2), rawMax))
    ensures !HasEnds(tlv[0]) && tlv[0] != DB_RANGE ==> r == Invalid
  {
    if tlv[0] == DB_RANGE {
      if IntIndex(tlv[1]) > MAX_RANGE_SIZE {
        return Invalid;
      }
      r := SpanOfSegments(tlv, rawMax);
    } else if IsLine(tlv[0]) {
      r := Span((Bottom(EntryAt(tlv, 0)), Top(EntryAt(tlv, 0), rawMax - rawMin)));
    } else if tlv[0] == DB_LINEAR {
      r := Span((Signed(tlv[2]), Signed(tlv[3])));
    } else {
      r := Invalid;
    }
  }

  // ----- what the parser found -----

  /** The words of the entry at `at`, by its own size. */
  function Found(mem: seq<Uint32>, at: nat): seq<Uint32>
    requires at + 2 <= |mem| && at + 2 + IntIndex(mem[at + 1]) <= |mem|
  {
    mem[at..at + 2 + IntIndex(mem[at + 1])]
  }

  /** What parsing answers was answered at some word by a leaf of legal size. */
  lemma {:induction false} AnswerIsLegal(mem: seq<Uint32>, tlv: nat, avail: Uint32)
    ensures var r := TlvParser.Parse(mem, tlv, avail);
            r.Answer? && r.at.Some? ==>
              && r.at.value + 2 <= |mem| && TlvParser.IsDb(mem[r.at.value])
              && TlvParser.LegalSize(mem[r.at.value], mem[r.at.value + 1])
              && r.err == mem[r.at.value + 1] + 8
    decreases |mem| - tlv
  {
    if tlv + 2 <= |mem| && mem[tlv] == CONTAINER && mem[tlv + 1] <= (avail - 8) % WRAP {
      TlvParser.FirstChildDecides(mem, tlv, avail);
      var inner: Uint32 := IntIndex(mem[tlv + 1]) * 4 % WRAP;
      AnswerIsLegal(mem, tlv + 2, inner);
    }
  }

  /**
   What is found in a source without stubs lies inside it and is fit for conversion and range: a line
   has its ends within the bytes returned, and a DB_RANGE has a segment exactly from 29 bytes on. How
   much of those bytes a DB_RANGE reads is the business of ReadsPastExactly.
   */
  lemma ParsedIsConvertible(mem: seq<Uint32>, tlv: nat, avail: Uint32)
    requires tlv + TlvParser.WordsOf(avail) <= |mem| && TlvParser.NoStub(mem, tlv, avail)
    ensures var r := TlvParser.Parse(mem, tlv, avail);
            r != TlvParser.NotFound ==>
              && r.Answer? && r.at.Some?
              && var at := r.at.value;
                 && tlv <= at && at + 2 <= |mem|
                 && at + 2 + IntIndex(mem[at + 1]) <= tlv + TlvParser.WordsOf(avail)
                 && var e := Found(mem, at);
                    && Roomy(e) && Bytes(e) == r.err && (HasEnds(e[0]) || e[0] == DB_RANGE)
                    && (HasEnds(e[0]) ==> 16 <= r.err)
                    && (e[0] == DB_RANGE ==> IntIndex(e[1]) <= MAX_RANGE_SIZE && (SegmentAt(e, 2) <==> r.err >= 29))
  {
    hide TlvParser.Parse, TlvParser.NoStub;
    TlvParser.NeverZero(mem, tlv, avail);
    TlvParser.FoundInside(mem, tlv, avail);
  }

  /** A DB_RANGE of 21 bytes, which the parser accepts: conversion and range read three bytes more than it returns. */
  lemma OddRangeReadsPast(from: Uint32, to: Uint32, min: Uint32, step: Uint32, rawMax: int, gain: Option<int>)
    ensures var tlv := [DB_RANGE, 21, from, to, DB_SCALE, 8, min, step];
            && TlvParser.Parse(tlv, 0, 32) == TlvParser.Answer(29, Some(0))
            && Whole(tlv) && Plain(tlv, 2) && Bytes(tlv) == 29 && ReadsPast(tlv, 2, rawMax, gain)
  {
    var tlv := [DB_RANGE, 21, from, to, DB_SCALE, 8, min, step];
    assert Plain(tlv, 2) by {
      assert Plain(tlv, 8);
    }
  }
}
