/**
 From a dB gain (in 0.01 dB) to the raw volume of a mixer control: linear entries given by a
 step or by two ends, and a DB_RANGE that strings several of them together.
 */
module DbConvert {
  import opened TlvWords

  /** DB_SCALE, and DB_MINMAX or DB_MINMAX_MUTE. */
  datatype Entry =
    | Scale(min: int, step: nat, mute: bool)
    | MinMax(min: int, max: int, mute: bool)

  /** The gain of the top raw value, `raws` above the bottom one. */
  function Top(e: Entry, raws: int): int {
    if e.Scale? then e.min + e.step * raws else e.max
  }

  /** snd_tlv_get_dB_range on one entry. */
  function Bottom(e: Entry): int {
    if e.mute then GAIN_MUTE else e.min
  }

  /** C's division, which truncates towards zero. */
  function TruncDiv(a: int, b: int): int
    requires b > 0
  {
    if a >= 0 then a / b else -((-a) / b)
  }

  /** snd_tlv_convert_from_dB on one entry. */
  function Convert(e: Entry, rawMin: int, rawMax: int, gain: int, xdir: int): int {
    var top := Top(e, rawMax - rawMin);
    if gain <= e.min then
      if gain > GAIN_MUTE && xdir > 0 && e.mute then rawMin + 1 else rawMin
    else if gain >= top then rawMax
    else
      var v := (gain - e.min) * (rawMax - rawMin) + (if xdir > 0 then top - e.min - 1 else 0);
      TruncDiv(v, top - e.min) + rawMin
  }

  // ----- rounding -----

  /** The gain of raw value `v`, scaled by `rawMax - rawMin` to stay in whole numbers, is at most `gain`. */
  predicate NotAbove(e: Entry, rawMin: int, rawMax: int, v: int, gain: int) {
    (v - rawMin) * (Top(e, rawMax - rawMin) - e.min) <= (gain - e.min) * (rawMax - rawMin)
  }

  predicate NotBelow(e: Entry, rawMin: int, rawMax: int, v: int, gain: int) {
    (v - rawMin) * (Top(e, rawMax - rawMin) - e.min) >= (gain - e.min) * (rawMax - rawMin)
  }

  predicate Inside(e: Entry, rawMin: int, rawMax: int, gain: int) {
    rawMin <= rawMax && e.min < gain < Top(e, rawMax - rawMin)
  }

  lemma FloorIsAdjoint(n: int, d: int, w: int)
    requires d > 0
    ensures w * d <= n <==> w <= n / d
  {
    var q := n / d;
    assert q * d <= n < (q + 1) * d;
    if w <= q {
      MulMonotone(w, q, d);
    } else {
      MulMonotone(q + 1, w, d);
    }
  }

  lemma CeilingIsAdjoint(n: int, d: int, w: int)
    requires d > 0
    ensures w * d >= n <==> w >= (n + d - 1) / d
  {
    FloorIsAdjoint(n + d - 1, d, w + 1);
    FloorIsAdjoint(n + d - 1, d, w);
    var q := (n + d - 1) / d;
    assert q * d <= n + d - 1 < (q + 1) * d;
    assert (q + 1) * d == q * d + d;
    if w >= q {
      MulMonotone(q, w, d);
    } else {
      MulMonotone(w + 1, q, d);
      assert (w + 1) * d == w * d + d;
    }
  }

  lemma MulMonotone(a: int, b: int, d: int)
    requires a <= b && d >= 0
    ensures a * d <= b * d
  {
  }

  /** Rounding down gives the largest raw value whose gain is not above the one asked for. */
  lemma RoundsDown(e: Entry, rawMin: int, rawMax: int, gain: int, xdir: int, w: int)
    requires Inside(e, rawMin, rawMax, gain) && xdir <= 0
    ensures NotAbove(e, rawMin, rawMax, w, gain) <==> w <= Convert(e, rawMin, rawMax, gain, xdir)
    ensures rawMin <= Convert(e, rawMin, rawMax, gain, xdir) <= rawMax
  {
    var d, n := Top(e, rawMax - rawMin) - e.min, (gain - e.min) * (rawMax - rawMin);
    assert n >= 0 by { MulMonotone(0, gain - e.min, rawMax - rawMin); }
    assert n <= (rawMax - rawMin) * d by { MulMonotone(gain - e.min, d, rawMax - rawMin); }
    FloorIsAdjoint(n, d, w - rawMin);
    FloorIsAdjoint(n, d, 0);
    FloorIsAdjoint(n, d, rawMax - rawMin + 1);
    assert (rawMax - rawMin + 1) * d == (rawMax - rawMin) * d + d;
  }

  /** Rounding up gives the smallest raw value whose gain is not below the one asked for. */
  lemma RoundsUp(e: Entry, rawMin: int, rawMax: int, gain: int, xdir: int, w: int)
    requires Inside(e, rawMin, rawMax, gain) && xdir > 0
    ensures NotBelow(e, rawMin, rawMax, w, gain) <==> w >= Convert(e, rawMin, rawMax, gain, xdir)
    ensures rawMin <= Convert(e, rawMin, rawMax, gain, xdir) <= rawMax
  {
    var d, n := Top(e, rawMax - rawMin) - e.min, (gain - e.min) * (rawMax - rawMin);
    assert n >= 0 by { MulMonotone(0, gain - e.min, rawMax - rawMin); }
    assert n <= (rawMax - rawMin) * d by { MulMonotone(gain - e.min, d, rawMax - rawMin); }
    CeilingIsAdjoint(n, d, w - rawMin);
    CeilingIsAdjoint(n, d, rawMax - rawMin);
    FloorIsAdjoint(n + d - 1, d, 0);
  }

  /** On a DB_SCALE the gain of each raw value converts back to it, unless rounding up steps over a muted bottom. */
  lemma ScaleRoundTrip(e: Entry, rawMin: int, rawMax: int, k: nat, xdir: int)
    requires e.Scale? && e.step > 0 && rawMin + k <= rawMax
    ensures Convert(e, rawMin, rawMax, e.min + e.step * k, xdir) == rawMin + k <==>
            !(k == 0 && e.mute && xdir > 0 && e.min > GAIN_MUTE)
  {
    var raws, gain := rawMax - rawMin, e.min + e.step * k;
    if 0 < k < raws {
      MulStrict(k, raws, e.step);
      MulStrict(0, k, e.step);
      ScaleExact(e.step, k, raws);
      if xdir > 0 {
        RoundsUp(e, rawMin, rawMax, gain, xdir, rawMin + k);
        RoundsUp(e, rawMin, rawMax, gain, xdir, rawMin + k - 1);
      } else {
        RoundsDown(e, rawMin, rawMax, gain, xdir, rawMin + k);
        RoundsDown(e, rawMin, rawMax, gain, xdir, rawMin + k + 1);
      }
    } else if k == raws && k > 0 {
      MulStrict(0, k, e.step);
    }
  }

  lemma MulStrict(a: int, b: int, d: int)
    requires a < b && d > 0
    ensures d * a < d * b
  {
  }

  lemma ScaleExact(step: int, k: int, raws: int)
    requires step > 0 && 0 < k < raws
    ensures k * (step * raws) == (step * k) * raws
    ensures (k - 1) * (step * raws) < (step * k) * raws
    ensures (k + 1) * (step * raws) > (step * k) * raws
  {
    assert k * (step * raws) == (step * k) * raws;
    assert (k - 1) * (step * raws) == k * (step * raws) - step * raws;
    assert (k + 1) * (step * raws) == k * (step * raws) + step * raws;
    assert step * raws > 0;
  }

  // ----- DB_RANGE -----

  datatype Segment = Segment(rawMin: int, rawMax: int, entry: Entry)

  function Clip(a: int, limit: int): int { if limit < a then limit else a }

  /** The loop over the segments; `before` is the top of the previous one. */
  function ConvertRange(segs: seq<Segment>, first: bool, before: int, rawMax: int, gain: int, xdir: int): int {
    if segs == [] then before
    else
      var s, top := segs[0], Clip(segs[0].rawMax, rawMax);
      if Bottom(s.entry) <= gain <= Top(s.entry, top - s.rawMin) then Convert(s.entry, s.rawMin, top, gain, xdir)
      else if gain < Bottom(s.entry) then (if xdir > 0 || first then s.rawMin else before)
      else if rawMax == top then top
      else ConvertRange(segs[1..], false, top, rawMax, gain, xdir)
  }

  /** Segments follow each other without a gap in raw values. */
  predicate Contiguous(segs: seq<Segment>) {
    && (forall i | 0 <= i < |segs| :: segs[i].rawMin <= segs[i].rawMax)
    && (forall i | 0 < i < |segs| :: segs[i].rawMin == segs[i - 1].rawMax + 1)
  }

  /** The top of the last segment that the limit leaves. */
  function Highest(segs: seq<Segment>, rawMax: int): int
    requires segs != []
  {
    Clip(segs[|segs| - 1].rawMax, rawMax)
  }

  lemma ContiguousTail(segs: seq<Segment>)
    requires Contiguous(segs) && segs != []
    ensures Contiguous(segs[1..])
  {
    var t := segs[1..];
    assert forall i | 0 <= i < |t| :: t[i] == segs[i + 1];
  }

  lemma {:induction false} RawMaxGrows(segs: seq<Segment>)
    requires Contiguous(segs) && segs != []
    ensures segs[0].rawMax <= segs[|segs| - 1].rawMax
    decreases |segs|
  {
    if |segs| > 1 {
      ContiguousTail(segs);
      assert segs[1].rawMin <= segs[1].rawMax;
      RawMaxGrows(segs[1..]);
    }
  }

  /** Rounding up steps over the muted value, which needs a second value to step to. */
  predicate RoomToRound(e: Entry, rawMin: int, rawMax: int, xdir: int) {
    xdir > 0 && e.mute && e.min > GAIN_MUTE ==> rawMin < rawMax
  }

  lemma RoundsInside(e: Entry, rawMin: int, rawMax: int, gain: int, xdir: int)
    requires Inside(e, rawMin, rawMax, gain)
    ensures rawMin <= Convert(e, rawMin, rawMax, gain, xdir) <= rawMax
    ensures xdir > 0 && rawMin < rawMax ==> rawMin < Convert(e, rawMin, rawMax, gain, xdir)
  {
    if xdir > 0 {
      RoundsUp(e, rawMin, rawMax, gain, xdir, rawMin);
      if rawMin < rawMax {
        MulStrict(0, rawMax - rawMin, gain - e.min);
      }
    } else {
      RoundsDown(e, rawMin, rawMax, gain, xdir, rawMin);
    }
  }

  /** One entry: in range, and a higher gain never gives a lower value. */
  lemma EntryMonotone(e: Entry, rawMin: int, rawMax: int, g: int, h: int, xdir: int)
    requires rawMin <= rawMax && RoomToRound(e, rawMin, rawMax, xdir) && g <= h
    ensures rawMin <= Convert(e, rawMin, rawMax, g, xdir) <= Convert(e, rawMin, rawMax, h, xdir) <= rawMax
  {
    if Inside(e, rawMin, rawMax, g) {
      RoundsInside(e, rawMin, rawMax, g, xdir);
    }
    if Inside(e, rawMin, rawMax, h) {
      RoundsInside(e, rawMin, rawMax, h, xdir);
    }
    if Inside(e, rawMin, rawMax, g) && Inside(e, rawMin, rawMax, h) {
      MulMonotone(g - e.min, h - e.min, rawMax - rawMin);
      var v, u := Convert(e, rawMin, rawMax, g, xdir), Convert(e, rawMin, rawMax, h, xdir);
      if xdir > 0 {
        RoundsUp(e, rawMin, rawMax, g, xdir, u);
        RoundsUp(e, rawMin, rawMax, h, xdir, u);
      } else {
        RoundsDown(e, rawMin, rawMax, g, xdir, v);
        RoundsDown(e, rawMin, rawMax, h, xdir, v);
      }
    }
  }

  /** The one case out of range, and out of order: rounding up on a muted entry with a single raw value. */
  lemma InRangeIffRoom(e: Entry, rawMin: int, rawMax: int, xdir: int)
    requires rawMin <= rawMax
    ensures (forall gain: int :: rawMin <= Convert(e, rawMin, rawMax, gain, xdir) <= rawMax)
            <==> RoomToRound(e, rawMin, rawMax, xdir)
    ensures (forall g: int, h: int | g <= h ::
               Convert(e, rawMin, rawMax, g, xdir) <= Convert(e, rawMin, rawMax, h, xdir))
            <==> RoomToRound(e, rawMin, rawMax, xdir)
  {
    if RoomToRound(e, rawMin, rawMax, xdir) {
      forall g: int, h: int | g <= h
        ensures rawMin <= Convert(e, rawMin, rawMax, g, xdir) <= Convert(e, rawMin, rawMax, h, xdir) <= rawMax
      {
        EntryMonotone(e, rawMin, rawMax, g, h, xdir);
      }
      assert forall gain: int :: rawMin <= Convert(e, rawMin, rawMax, gain, xdir) <= rawMax;
    } else {
      SingleRawValue(e, rawMin, xdir);
    }
  }

  lemma SingleRawValue(e: Entry, raw: int, xdir: int)
    requires xdir > 0 && e.mute && e.min > GAIN_MUTE
    ensures Convert(e, raw, raw, e.min, xdir) == raw + 1
    ensures Convert(e, raw, raw, e.min + 1, xdir) == raw
  {
    var gain := e.min + 1;
    assert (gain - e.min) * (raw - raw) == 0;
    if gain < Top(e, 0) {
      assert TruncDiv(Top(e, 0) - e.min - 1, Top(e, 0) - e.min) == 0;
    }
  }

  predicate Reaches(segs: seq<Segment>, first: bool, before: int, rawMax: int) {
    && Contiguous(segs)
    && (if segs == [] then !first else segs[0].rawMin <= rawMax && (!first ==> before == segs[0].rawMin - 1))
  }

  function Floor(segs: seq<Segment>, first: bool, before: int): int
    requires segs == [] ==> !first
  {
    if first then segs[0].rawMin else before
  }

  function Ceiling(segs: seq<Segment>, before: int, rawMax: int): int {
    if segs == [] then before else Highest(segs, rawMax)
  }

  predicate RoomEverywhere(segs: seq<Segment>, rawMax: int, xdir: int) {
    forall i | 0 <= i < |segs| :: RoomToRound(segs[i].entry, segs[i].rawMin, Clip(segs[i].rawMax, rawMax), xdir)
  }

  /** Over any number of segments: in range, and non-decreasing across segments and gaps. */
  lemma {:induction false} RangeMonotone(
    segs: seq<Segment>, first: bool, before: int, rawMax: int, g: int, h: int, xdir: int)
    requires Reaches(segs, first, before, rawMax) && RoomEverywhere(segs, rawMax, xdir) && g <= h
    ensures Floor(segs, first, before) <= ConvertRange(segs, first, before, rawMax, g, xdir)
    ensures ConvertRange(segs, first, before, rawMax, g, xdir) <= ConvertRange(segs, first, before, rawMax, h, xdir)
    ensures ConvertRange(segs, first, before, rawMax, h, xdir) <= Ceiling(segs, before, rawMax)
    decreases |segs|
  {
    if segs != [] {
      var s, top := segs[0], Clip(segs[0].rawMax, rawMax);
      assert s.rawMin <= s.rawMax;
      EntryMonotone(s.entry, s.rawMin, top, g, h, xdir);
      RawMaxGrows(segs);
      if rawMax != top {
        ContiguousTail(segs);
        assert |segs| > 1 ==> segs[1].rawMin == s.rawMax + 1;
        RangeMonotone(segs[1..], false, top, rawMax, g, h, xdir);
      }
    }
  }

  /** mixer_tlv_convert_from_db always rounds down. */
  lemma MixerConversion(segs: seq<Segment>, rawMax: int, g: int, h: int)
    requires segs != [] && Contiguous(segs) && segs[0].rawMin <= rawMax && g <= h
    ensures var v, w := ConvertRange(segs, true, 0, rawMax, g, 0), ConvertRange(segs, true, 0, rawMax, h, 0);
            segs[0].rawMin <= v <= w <= Highest(segs, rawMax) <= rawMax
  {
    RangeMonotone(segs, true, 0, rawMax, g, h, 0);
  }

  // ----- the reported range -----

  /** The gain of the top of a segment, as far as the limit leaves it. */
  function TopOf(s: Segment, rawMax: int): int {
    Top(s.entry, Clip(s.rawMax, rawMax) - s.rawMin)
  }

  function Ends(s: Segment, rawMax: int): (int, int) { (Bottom(s.entry), TopOf(s, rawMax)) }

  /** snd_tlv_get_dB_range over the segments up to the limit: the lowest bottom and the highest top. */
  function GainRange(segs: seq<Segment>, rawMax: int): (int, int)
    requires segs != []
  {
    if rawMax == Clip(segs[0].rawMax, rawMax) || |segs| == 1 then Ends(segs[0], rawMax)
    else Join(Ends(segs[0], rawMax), GainRange(segs[1..], rawMax))
  }

  function Join(a: (int, int), b: (int, int)): (int, int) {
    (if b.0 < a.0 then b.0 else a.0, if b.1 > a.1 then b.1 else a.1)
  }

  /** A segment that starts at or below the limit. */
  predicate InUse(segs: seq<Segment>, rawMax: int, i: int) {
    0 <= i < |segs| && segs[i].rawMin <= rawMax
  }

  lemma JoinAssociates(a: (int, int), b: (int, int), c: (int, int))
    ensures Join(a, Join(b, c)) == Join(Join(a, b), c)
  {
  }

  lemma {:induction false} RawMinGrows(segs: seq<Segment>, i: nat)
    requires Contiguous(segs) && 0 < i < |segs|
    ensures segs[i].rawMin > segs[0].rawMax
  {
    if i > 1 {
      RawMinGrows(segs, i - 1);
      assert segs[i - 1].rawMin <= segs[i - 1].rawMax;
    }
  }

  /** The reported range covers every segment in use, and no less would do. */
  lemma {:induction false} GainRangeIsTight(segs: seq<Segment>, rawMax: int)
    requires Contiguous(segs) && InUse(segs, rawMax, 0)
    ensures var r := GainRange(segs, rawMax);
            && (forall i | InUse(segs, rawMax, i) :: r.0 <= Bottom(segs[i].entry) && TopOf(segs[i], rawMax) <= r.1)
            && (exists i | InUse(segs, rawMax, i) :: Bottom(segs[i].entry) == r.0)
            && (exists i | InUse(segs, rawMax, i) :: TopOf(segs[i], rawMax) == r.1)
    decreases |segs|
  {
    var r, top, rest := GainRange(segs, rawMax), Clip(segs[0].rawMax, rawMax), segs[1..];
    if rawMax == top || rest == [] {
      forall i | InUse(segs, rawMax, i)
        ensures i == 0
      {
        if i > 0 {
          RawMinGrows(segs, i);
        }
      }
    } else {
      ContiguousTail(segs);
      assert segs[1].rawMin == segs[0].rawMax + 1;
      GainRangeIsTight(rest, rawMax);
      var q := GainRange(rest, rawMax);
      forall i | InUse(segs, rawMax, i)
        ensures r.0 <= Bottom(segs[i].entry) && TopOf(segs[i], rawMax) <= r.1
      {
        assert i > 0 ==> InUse(rest, rawMax, i - 1) && rest[i - 1] == segs[i];
      }
      var j :| InUse(rest, rawMax, j) && Bottom(rest[j].entry) == q.0;
      var k :| InUse(rest, rawMax, k) && TopOf(rest[k], rawMax) == q.1;
      assert InUse(segs, rawMax, 0) && InUse(segs, rawMax, j + 1) && InUse(segs, rawMax, k + 1);
      assert Bottom(segs[j + 1].entry) == q.0 && TopOf(segs[k + 1], rawMax) == q.1;
    }
  }

  predicate Upward(e: Entry) {
    e.min >= GAIN_MUTE && (e.MinMax? ==> e.min <= e.max)
  }

  lemma BottomBelowTop(e: Entry, raws: int)
    requires Upward(e) && raws >= 0
    ensures Bottom(e) <= Top(e, raws)
  {
    if e.Scale? {
      MulMonotone(0, raws, e.step);
    }
  }

  /** Outside the reported range the conversion stops at the ends. */
  lemma {:induction false} SaturatesOutsideRange(
    segs: seq<Segment>, first: bool, before: int, rawMax: int, gain: int, xdir: int)
    requires segs != [] && Reaches(segs, first, before, rawMax)
    requires forall i | 0 <= i < |segs| :: Upward(segs[i].entry)
    ensures gain > GainRange(segs, rawMax).1 ==>
              ConvertRange(segs, first, before, rawMax, gain, xdir) == Highest(segs, rawMax)
    ensures first && gain < GainRange(segs, rawMax).0 ==>
              ConvertRange(segs, first, before, rawMax, gain, xdir) == segs[0].rawMin
    decreases |segs|
  {
    var top := Clip(segs[0].rawMax, rawMax);
    RawMaxGrows(segs);
    BottomBelowTop(segs[0].entry, top - segs[0].rawMin);
    if rawMax != top && |segs| > 1 {
      ContiguousTail(segs);
      SaturatesOutsideRange(segs[1..], false, top, rawMax, gain, xdir);
    }
  }
}
