/**
 The format from the side of whoever writes it: entries and ranges encoded number by number, and what
 parsing, conversion and range make of them.
 */
module DbFormat {
  import opened Common
  import opened TlvWords
  import opened DbConvert
  import opened DbWords
  import TlvParser

  // ----- what is found -----

  /**
   An entry that is no container and has room is found, with its size and its header's, exactly if it is of
   a kind that conversion or range handle and of 8 (for a DB_RANGE, 16) to 256 bytes.
   */
  lemma FoundIff(mem: seq<Uint32>, tlv: nat, avail: Uint32)
    requires tlv + 2 <= |mem| && mem[tlv] != 0 && avail >= 8 && mem[tlv + 1] <= avail - 8
    ensures var kind, size := mem[tlv], mem[tlv + 1];
            && (HasEnds(kind) || kind == 3 <==> 1 <= kind <= 5)
            && TlvParser.Parse(mem, tlv, avail) ==
               if 1 <= kind <= 5 && (if kind == 3 then 16 else 8) <= size <= 256
               then TlvParser.Answer(size + 8, Some(tlv)) else TlvParser.Answer(-22, None)
  {
  }

  /** Kind 0 is a container: its first child decides, with its size rounded up to whole words. */
  lemma ContainerIs(mem: seq<Uint32>, tlv: nat, avail: Uint32, inner: Uint32)
    requires tlv + 2 <= |mem| && mem[tlv] == 0 && avail >= 8 && mem[tlv + 1] <= avail - 8
    requires inner % 4 == 0 && mem[tlv + 1] <= inner < mem[tlv + 1] + 4
    ensures TlvParser.Parse(mem, tlv, avail) ==
            if inner == 0 then TlvParser.Answer(-22, None) else TlvParser.Parse(mem, tlv + 2, inner)
  {
    hide TlvParser.Parse;
    assert IntIndex(mem[tlv + 1]) * 4 == inner;
    TlvParser.FirstChildDecides(mem, tlv, avail);
  }

  // ----- encoding -----

  /** What fits a C int. */
  type Int32 = n: int | -0x8000_0000 <= n < 0x8000_0000

  function TwosComplement(n: Int32): Uint32 { n % 0x1_0000_0000 }

  /** `pad` is whatever else the entry's size covers. */
  datatype Coded =
    | CodedScale(min: Int32, step: int, mute: bool, pad: seq<Uint32>)
    | CodedMinMax(min: Int32, max: Int32, mute: bool, pad: seq<Uint32>)

  predicate Fits(e: Coded) {
    |e.pad| < 1000 && (e.CodedScale? ==> 0 <= e.step <= 0xffff)
  }

  function Encode(e: Coded): seq<Uint32>
    requires Fits(e)
  {
    match e
    case CodedScale(min, step, mute, pad) =>
      [1, 8 + 4 * |pad|, TwosComplement(min), step + if mute then 0x1_0000 else 0] + pad
    case CodedMinMax(min, max, mute, pad) =>
      [if mute then 5 else 4, 8 + 4 * |pad|, TwosComplement(min), TwosComplement(max)] + pad
  }

  function EntryOf(e: Coded): Entry
    requires Fits(e)
  {
    match e
    case CodedScale(min, step, mute, _) => Scale(min, step, mute)
    case CodedMinMax(min, max, mute, _) => MinMax(min, max, mute)
  }

  lemma SignedBack(n: Int32)
    ensures Signed(TwosComplement(n)) == n
  {
  }

  lemma StepAndMute(step: int, mute: bool)
    requires 0 <= step <= 0xffff
    ensures var w := step + if mute then 0x1_0000 else 0;
            w % 0x1_0000 == step && (w / 0x1_0000 % 2 == 1 <==> mute)
  {
  }

  lemma EncodedSize(e: Coded)
    requires Fits(e)
    ensures |Encode(e)| == 4 + |e.pad| && IntIndex(Encode(e)[1]) == 2 + |e.pad|
  {
  }

  lemma EntryDecodes(tlv: seq<Uint32>, at: nat, e: Coded)
    requires Fits(e) && at + |Encode(e)| <= |tlv| && tlv[at..at + |Encode(e)|] == Encode(e)
    ensures at + 4 <= |tlv| && IsLine(tlv[at]) && EntryAt(tlv, at) == EntryOf(e) && tlv[at + 1] == Encode(e)[1]
  {
    hide Signed, TwosComplement;
    var words := Encode(e);
    assert forall j | 0 <= j < 4 :: tlv[at + j] == tlv[at..at + |words|][j] == words[j];
    SignedBack(e.min);
    if e.CodedScale? {
      StepAndMute(e.step, e.mute);
    } else {
      SignedBack(e.max);
    }
  }

  // ----- a line, converted and ranged -----

  lemma EncodedIsWhole(e: Coded)
    requires Fits(e)
    ensures var tlv := Encode(e);
            Roomy(tlv) && IsLine(tlv[0]) && tlv[0] != 2 && tlv[0] != 3 && EntryAt(tlv, 0) == EntryOf(e)
  {
    var tlv := Encode(e);
    assert tlv[0..0 + |tlv|] == tlv;
    EntryDecodes(tlv, 0, e);
  }

  /** The gain of each raw value of a scale comes back, unless rounding up steps over a muted bottom. */
  method ConvertScale(e: Coded, rawMin: int, rawMax: int, k: nat, xdir: int) returns (value: int)
    requires Fits(e) && e.CodedScale? && e.step > 0 && rawMin + k <= rawMax
    ensures value == rawMin + k <==> !(k == 0 && e.mute && xdir > 0 && e.min > -9999999)
  {
    EncodedIsWhole(e);
    ScaleRoundTrip(EntryOf(e), rawMin, rawMax, k, xdir);
    var r := ConvertFromDb(Encode(e), rawMin, rawMax, e.min + e.step * k, xdir);
    value := r.value;
  }

  /** A gain between the ends is rounded down or up on the line between them; others give the ends. */
  method ConvertMinMax(e: Coded, rawMin: int, rawMax: int, gain: int, xdir: int) returns (value: int)
    requires Fits(e) && e.CodedMinMax? && rawMin <= rawMax
    ensures gain <= e.min ==>
              value == if e.mute && xdir > 0 && gain > -9999999 then rawMin + 1 else rawMin
    ensures gain > e.min && gain >= e.max ==> value == rawMax
    ensures e.min < gain < e.max && xdir <= 0 ==>
              (value - rawMin) * (e.max - e.min) <= (gain - e.min) * (rawMax - rawMin)
              < (value + 1 - rawMin) * (e.max - e.min)
    ensures e.min < gain < e.max && xdir > 0 ==>
              (value - 1 - rawMin) * (e.max - e.min) < (gain - e.min) * (rawMax - rawMin)
              <= (value - rawMin) * (e.max - e.min)
  {
    EncodedIsWhole(e);
    var r := ConvertFromDb(Encode(e), rawMin, rawMax, gain, xdir);
    value := r.value;
    if e.min < gain < e.max {
      if xdir > 0 {
        RoundsUp(EntryOf(e), rawMin, rawMax, gain, xdir, value);
        RoundsUp(EntryOf(e), rawMin, rawMax, gain, xdir, value - 1);
      } else {
        RoundsDown(EntryOf(e), rawMin, rawMax, gain, xdir, value);
        RoundsDown(EntryOf(e), rawMin, rawMax, gain, xdir, value + 1);
      }
    }
  }

  /** The range goes from the mute gain or the least gain to that of the last raw value. */
  method RangeOfLine(e: Coded, rawMin: int, rawMax: int) returns (lo: int, hi: int)
    requires Fits(e)
    ensures lo == if e.mute then -9999999 else e.min
    ensures hi == if e.CodedScale? then e.min + e.step * (rawMax - rawMin) else e.max
  {
    EncodedIsWhole(e);
    var r := GetDbRange(Encode(e), rawMin, rawMax);
    lo, hi := r.ends.0, r.ends.1;
  }

  /** A DB_LINEAR has its ends in the same places, and no mute. */
  method RangeOfLinear(min: Int32, max: Int32, rawMin: int, rawMax: int) returns (lo: int, hi: int)
    ensures lo == min && hi == max
  {
    var tlv := [2, 8, TwosComplement(min), TwosComplement(max)];
    assert Roomy(tlv);
    var r := GetDbRange(tlv, rawMin, rawMax);
    lo, hi := r.ends.0, r.ends.1;
  }

  // ----- a DB_RANGE -----

  datatype Item = Item(rawMin: Int32, rawMax: Int32, entry: Coded)

  predicate AllFit(items: seq<Item>) {
    forall i | 0 <= i < |items| :: Fits(items[i].entry)
  }

  function EncodeItem(item: Item): seq<Uint32>
    requires Fits(item.entry)
  {
    [TwosComplement(item.rawMin), TwosComplement(item.rawMax)] + Encode(item.entry)
  }

  function EncodeItems(items: seq<Item>): seq<Uint32>
    requires AllFit(items)
  {
    if items == [] then [] else EncodeItem(items[0]) + EncodeItems(items[1..])
  }

  predicate FitsRange(items: seq<Item>) {
    AllFit(items) && |EncodeItems(items)| <= 1000
  }

  function EncodeRange(items: seq<Item>): seq<Uint32>
    requires FitsRange(items)
  {
    [3, 4 * |EncodeItems(items)|] + EncodeItems(items)
  }

  function SegmentsOf(items: seq<Item>): seq<Segment>
    requires AllFit(items)
  {
    if items == [] then []
    else [Segment(items[0].rawMin, items[0].rawMax, EntryOf(items[0].entry))] + SegmentsOf(items[1..])
  }

  /** The words of the first item, and where those of the others are. */
  lemma FirstWords(tlv: seq<Uint32>, pos: nat, items: seq<Item>)
    requires pos <= |tlv| && AllFit(items) && items != [] && tlv[pos..] == EncodeItems(items)
    ensures var e := items[0].entry; var next := pos + 2 + |Encode(e)|;
            && next <= |tlv| && tlv[pos] == TwosComplement(items[0].rawMin)
            && tlv[pos + 1] == TwosComplement(items[0].rawMax)
            && tlv[pos + 2..next] == Encode(e) && tlv[next..] == EncodeItems(items[1..])
  {
    hide Encode, TwosComplement;
    var words, first, rest := tlv[pos..], EncodeItem(items[0]), EncodeItems(items[1..]);
    assert words == first + rest;
    assert words[0] == first[0] && words[1] == first[1];
    assert tlv[pos + 2..pos + |first|] == words[2..|first|] == first[2..];
    assert tlv[pos + |first|..] == words[|first|..] == rest;
  }

  lemma FirstItem(tlv: seq<Uint32>, pos: nat, items: seq<Item>)
    requires Whole(tlv) && 2 <= pos <= |tlv| && AllFit(items) && tlv[pos..] == EncodeItems(items) && items != []
    ensures SegmentAt(tlv, pos) && After(tlv, pos) <= |tlv| && tlv[After(tlv, pos)..] == EncodeItems(items[1..])
    ensures IsLine(tlv[pos + 2]) && EntryAt(tlv, pos + 2) == EntryOf(items[0].entry)
    ensures Signed(tlv[pos]) == items[0].rawMin && Signed(tlv[pos + 1]) == items[0].rawMax
  {
    hide Encode, EncodeItems, EntryAt, EntryOf, Signed, TwosComplement, IntIndex;
    var e := items[0].entry;
    FirstWords(tlv, pos, items);
    EncodedSize(e);
    EntryDecodes(tlv, pos + 2, e);
    SignedBack(items[0].rawMin);
    SignedBack(items[0].rawMax);
  }

  /** From any segment on, the words are those of the items left. */
  lemma {:induction false} ItemsDecode(tlv: seq<Uint32>, pos: nat, items: seq<Item>)
    requires Whole(tlv) && 2 <= pos <= |tlv| && AllFit(items) && tlv[pos..] == EncodeItems(items)
    ensures Plain(tlv, pos) && Segments(tlv, pos) == SegmentsOf(items)
    decreases |items|
  {
    hide EncodeItems, EntryAt, EntryOf, Signed, IntIndex, Fits;
    if items == [] {
      NothingEncoded(items);
    } else {
      FirstItem(tlv, pos, items);
      ItemsDecode(tlv, After(tlv, pos), items[1..]);
    }
  }

  lemma NothingEncoded(items: seq<Item>)
    requires items == []
    ensures AllFit(items) && EncodeItems(items) == []
  {
  }

  lemma {:induction false} PlainIsKnown(tlv: seq<Uint32>, pos: nat, rawMax: int)
    requires Whole(tlv) && Plain(tlv, pos)
    ensures NotNested(tlv, pos) && !MeetsUnknown(tlv, pos, rawMax)
    decreases |tlv| - pos
  {
    if SegmentAt(tlv, pos) {
      PlainIsKnown(tlv, After(tlv, pos), rawMax);
    }
  }

  lemma EncodedRange(items: seq<Item>, rawMax: int, gain: Option<int>)
    requires FitsRange(items)
    ensures var tlv := EncodeRange(items);
            && Roomy(tlv) && Plain(tlv, 2) && NotNested(tlv, 2) && Segments(tlv, 2) == SegmentsOf(items)
            && IntIndex(tlv[1]) == |EncodeItems(items)|
            && !MeetsUnknown(tlv, 2, rawMax) && !ReadsPast(tlv, 2, rawMax, gain)
            && (SegmentsOf(items) == [] <==> items == [])
  {
    hide EncodeItems, Segments, Plain, NotNested, MeetsUnknown, ReadsPast, Visited, AllFit;
    var tlv := EncodeRange(items);
    assert tlv[2..] == EncodeItems(items);
    ItemsDecode(tlv, 2, items);
    PlainIsKnown(tlv, 2, rawMax);
    ReadsPastExactly(tlv, 2, rawMax, gain);
  }

  /** What was put in is converted: none stands for -EINVAL. */
  method ConvertItems(items: seq<Item>, rawMax: int, gain: int, xdir: int) returns (r: Option<int>)
    requires FitsRange(items)
    ensures r == if items == [] || |EncodeItems(items)| > 256 then None
                 else Some(ConvertRange(SegmentsOf(items), true, 0, rawMax, gain, xdir))
  {
    hide ReadsPast, Plain, Segments, EncodeItems, SegmentsOf, ConvertRange;
    EncodedRange(items, rawMax, Some(gain));
    var answer := ConvertFromDb(EncodeRange(items), 0, rawMax, gain, xdir);
    r := if answer.Raw? then Some(answer.value) else None;
  }

  /** And ranged. */
  method RangeOfItems(items: seq<Item>, rawMax: int) returns (r: Option<(int, int)>)
    requires FitsRange(items)
    ensures r == if items == [] || |EncodeItems(items)| > 256 then None
                 else Some(GainRange(SegmentsOf(items), rawMax))
  {
    hide ReadsPast, NotNested, MeetsUnknown, Segments, EncodeItems, SegmentsOf, GainRange;
    EncodedRange(items, rawMax, None);
    var report := GetDbRange(EncodeRange(items), 0, rawMax);
    r := if report.Span? then Some(report.ends) else None;
  }
}
