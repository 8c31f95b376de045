/**
 Rounding over a whole DB_RANGE: among all the raw values of all the segments, rounding down
 gives the largest whose gain is not above the one asked for, and rounding up the smallest whose
 gain is not below it.
 */
module DbRounding {
  import opened TlvWords
  import opened DbConvert

  /** The gain of raw value `w` of a segment: the bottom one may be muted, the others are on the line. */
  predicate GainAtMost(s: Segment, rawMax: int, w: int, gain: int) {
    if w == s.rawMin then Bottom(s.entry) <= gain
    else NotAbove(s.entry, s.rawMin, Clip(s.rawMax, rawMax), w, gain)
  }

  predicate GainAtLeast(s: Segment, rawMax: int, w: int, gain: int) {
    if w == s.rawMin then Bottom(s.entry) >= gain
    else NotBelow(s.entry, s.rawMin, Clip(s.rawMax, rawMax), w, gain)
  }

  /** A line that rises over the raw values there are. */
  predicate Sloped(s: Segment, rawMax: int) {
    && s.entry.min >= GAIN_MUTE
    && (if s.rawMin < Clip(s.rawMax, rawMax) then s.entry.min < TopOf(s, rawMax) else s.entry.min == TopOf(s, rawMax))
  }

  predicate Holds(s: Segment, rawMax: int, w: int) { s.rawMin <= w <= Clip(s.rawMax, rawMax) }

  lemma SegmentAboveOrBelow(s: Segment, rawMax: int, w: int, gain: int)
    requires Sloped(s, rawMax) && Holds(s, rawMax, w)
    ensures gain > TopOf(s, rawMax) ==> GainAtMost(s, rawMax, w, gain) && !GainAtLeast(s, rawMax, w, gain)
    ensures gain < Bottom(s.entry) ==> !GainAtMost(s, rawMax, w, gain) && GainAtLeast(s, rawMax, w, gain)
  {
    var raws, d := Clip(s.rawMax, rawMax) - s.rawMin, TopOf(s, rawMax) - s.entry.min;
    if w != s.rawMin {
      MulMonotone(w - s.rawMin, raws, d);
      if gain > TopOf(s, rawMax) {
        MulStrict(d, gain - s.entry.min, raws);
      } else if gain < Bottom(s.entry) && gain < s.entry.min {
        MulStrict(gain - s.entry.min, 0, raws);
        MulMonotone(0, w - s.rawMin, d);
      }
    }
  }

  lemma SegmentRoundsDown(s: Segment, rawMax: int, w: int, gain: int, xdir: int)
    requires Sloped(s, rawMax) && Holds(s, rawMax, w) && xdir <= 0
    requires Bottom(s.entry) <= gain <= TopOf(s, rawMax)
    ensures GainAtMost(s, rawMax, w, gain) <==>
            w <= Convert(s.entry, s.rawMin, Clip(s.rawMax, rawMax), gain, xdir)
  {
    var e, top := s.entry, Clip(s.rawMax, rawMax);
    if Inside(e, s.rawMin, top, gain) {
      RoundsDown(e, s.rawMin, top, gain, xdir, w);
    } else if w != s.rawMin {
      MulMonotone(w - s.rawMin, top - s.rawMin, TopOf(s, rawMax) - e.min);
      MulStrict(0, w - s.rawMin, TopOf(s, rawMax) - e.min);
      if gain < e.min {
        MulStrict(gain - e.min, 0, top - s.rawMin);
      }
    }
  }

  lemma SegmentRoundsUp(s: Segment, rawMax: int, w: int, gain: int, xdir: int)
    requires Sloped(s, rawMax) && Holds(s, rawMax, w) && xdir > 0
    requires Bottom(s.entry) <= gain <= TopOf(s, rawMax)
    ensures GainAtLeast(s, rawMax, w, gain) <==>
            w >= Convert(s.entry, s.rawMin, Clip(s.rawMax, rawMax), gain, xdir)
  {
    var e, top := s.entry, Clip(s.rawMax, rawMax);
    if Inside(e, s.rawMin, top, gain) {
      RoundsUp(e, s.rawMin, top, gain, xdir, w);
      RoundsInside(e, s.rawMin, top, gain, xdir);
    } else if w != s.rawMin {
      MulMonotone(w - s.rawMin, top - s.rawMin, TopOf(s, rawMax) - e.min);
      MulStrict(0, w - s.rawMin, TopOf(s, rawMax) - e.min);
      if w < top {
        MulStrict(w - s.rawMin, top - s.rawMin, TopOf(s, rawMax) - e.min);
      }
      if gain < e.min {
        MulStrict(gain - e.min, 0, top - s.rawMin);
      }
    }
  }

  lemma BottomNotAboveTop(s: Segment, rawMax: int)
    requires Sloped(s, rawMax)
    ensures Bottom(s.entry) <= TopOf(s, rawMax)
  {
  }

  /** Nothing in a segment is below its bottom. */
  lemma BottomIsLeast(s: Segment, rawMax: int, w: int, gain: int)
    requires Sloped(s, rawMax) && Holds(s, rawMax, w) && gain <= Bottom(s.entry)
    ensures GainAtLeast(s, rawMax, w, gain)
  {
    if w != s.rawMin {
      MulMonotone(0, w - s.rawMin, TopOf(s, rawMax) - s.entry.min);
      MulMonotone(gain - s.entry.min, 0, Clip(s.rawMax, rawMax) - s.rawMin);
    }
  }

  // ----- bounds on the result, whatever the segments' gains -----

  lemma ConvertBounds(e: Entry, rawMin: int, rawMax: int, gain: int, xdir: int)
    requires rawMin <= rawMax
    ensures rawMin <= Convert(e, rawMin, rawMax, gain, xdir) <= rawMax + (if xdir > 0 then 1 else 0)
  {
    if Inside(e, rawMin, rawMax, gain) {
      RoundsInside(e, rawMin, rawMax, gain, xdir);
    }
  }

  lemma {:induction false} StaysAbove(segs: seq<Segment>, before: int, rawMax: int, gain: int, xdir: int)
    requires Reaches(segs, false, before, rawMax)
    ensures ConvertRange(segs, false, before, rawMax, gain, xdir) >= before
    ensures segs != [] && xdir > 0 ==> ConvertRange(segs, false, before, rawMax, gain, xdir) >= segs[0].rawMin
    decreases |segs|
  {
    if segs != [] {
      var s, top := segs[0], Clip(segs[0].rawMax, rawMax);
      assert s.rawMin <= s.rawMax;
      ConvertBounds(s.entry, s.rawMin, top, gain, xdir);
      if rawMax != top {
        TailReaches(segs, false, before, rawMax);
        StaysAbove(segs[1..], top, rawMax, gain, xdir);
      }
    }
  }

  /** A gain that segment `k` reaches does not convert to anything beyond it, bar the step over a muted value. */
  lemma {:induction false} StaysBelow(
    segs: seq<Segment>, first: bool, before: int, rawMax: int, gain: int, xdir: int, k: nat)
    requires Reaches(segs, first, before, rawMax) && InUse(segs, rawMax, k) && gain <= TopOf(segs[k], rawMax)
    ensures ConvertRange(segs, first, before, rawMax, gain, xdir) <= segs[k].rawMax + (if xdir > 0 then 1 else 0)
    decreases |segs|
  {
    var s, top := segs[0], Clip(segs[0].rawMax, rawMax);
    assert s.rawMin <= s.rawMax && segs[k].rawMin <= segs[k].rawMax;
    ConvertBounds(s.entry, s.rawMin, top, gain, xdir);
    if k > 0 {
      RawMinGrows(segs, k);
      if gain > TopOf(s, rawMax) {
        TailReaches(segs, first, before, rawMax);
        StaysBelow(segs[1..], false, top, rawMax, gain, xdir, k - 1);
      }
    }
  }

  lemma TailReaches(segs: seq<Segment>, first: bool, before: int, rawMax: int)
    requires Reaches(segs, first, before, rawMax) && segs != [] && rawMax != Clip(segs[0].rawMax, rawMax)
    ensures Reaches(segs[1..], false, segs[0].rawMax, rawMax)
  {
    ContiguousTail(segs);
  }

  // ----- segments in order -----

  /** Every segment in use is a line. */
  predicate Lines(segs: seq<Segment>, rawMax: int) {
    forall i | 0 <= i < |segs| :: InUse(segs, rawMax, i) ==> Sloped(segs[i], rawMax)
  }

  /** Each segment in use starts above the gains of those before it. */
  ghost predicate Apart(segs: seq<Segment>, rawMax: int) {
    forall i, j | InUse(segs, rawMax, i) && InUse(segs, rawMax, j) && i < j ::
      TopOf(segs[i], rawMax) < Bottom(segs[j].entry)
  }

  /** Each starts no lower than those before it end. */
  ghost predicate InOrder(segs: seq<Segment>, rawMax: int) {
    forall i, j | InUse(segs, rawMax, i) && InUse(segs, rawMax, j) && i < j ::
      TopOf(segs[i], rawMax) <= Bottom(segs[j].entry)
  }

  lemma TailKeeps(segs: seq<Segment>, rawMax: int)
    requires segs != [] && Lines(segs, rawMax)
    ensures Lines(segs[1..], rawMax)
    ensures Apart(segs, rawMax) ==> Apart(segs[1..], rawMax)
    ensures InOrder(segs, rawMax) ==> InOrder(segs[1..], rawMax)
  {
    var t := segs[1..];
    assert forall i | 0 <= i < |t| :: t[i] == segs[i + 1] && (InUse(t, rawMax, i) ==> InUse(segs, rawMax, i + 1));
  }

  /** Rounding down: raw value `w` of segment `i` is at or below the result exactly if its gain is not above. */
  lemma {:induction false} RangeRoundsDown(
    segs: seq<Segment>, first: bool, before: int, rawMax: int, gain: int, xdir: int, i: nat, w: int)
    requires Reaches(segs, first, before, rawMax) && xdir <= 0
    requires Lines(segs, rawMax) && Apart(segs, rawMax)
    requires InUse(segs, rawMax, i) && Holds(segs[i], rawMax, w)
    requires first ==> gain >= Bottom(segs[0].entry)
    ensures GainAtMost(segs[i], rawMax, w, gain) <==> w <= ConvertRange(segs, first, before, rawMax, gain, xdir)
    decreases |segs|
  {
    hide GainAtMost, Sloped, Convert, Bottom, Top;
    var s, top := segs[0], Clip(segs[0].rawMax, rawMax);
    assert InUse(segs, rawMax, 0);
    BottomNotAboveTop(s, rawMax);
    SegmentAboveOrBelow(segs[i], rawMax, w, gain);
    ConvertBounds(s.entry, s.rawMin, top, gain, xdir);
    if i > 0 {
      RawMinGrows(segs, i);
    }
    if gain > TopOf(s, rawMax) {
      if rawMax != top {
        TailReaches(segs, first, before, rawMax);
        StaysAbove(segs[1..], top, rawMax, gain, xdir);
        TailKeeps(segs, rawMax);
        if i > 0 {
          RangeRoundsDown(segs[1..], false, top, rawMax, gain, xdir, i - 1, w);
        }
      }
    } else if gain >= Bottom(s.entry) && i == 0 {
      SegmentRoundsDown(s, rawMax, w, gain, xdir);
    }
  }

  /** Rounding up: at or above the result exactly if its gain is not below `gain`, which segment `k` reaches. */
  lemma {:induction false} RangeRoundsUp(
    segs: seq<Segment>, first: bool, before: int, rawMax: int, gain: int, xdir: int, i: nat, w: int, k: nat)
    requires Reaches(segs, first, before, rawMax) && xdir > 0
    requires Lines(segs, rawMax) && InOrder(segs, rawMax)
    requires InUse(segs, rawMax, i) && Holds(segs[i], rawMax, w)
    requires InUse(segs, rawMax, k) && gain <= TopOf(segs[k], rawMax)
    ensures GainAtLeast(segs[i], rawMax, w, gain) <==> w >= ConvertRange(segs, first, before, rawMax, gain, xdir)
    decreases |segs|
  {
    hide GainAtLeast, Sloped, Convert, Bottom, Top;
    var s, top := segs[0], Clip(segs[0].rawMax, rawMax);
    assert InUse(segs, rawMax, 0);
    BottomNotAboveTop(s, rawMax);
    if gain > TopOf(s, rawMax) {
      RawMinGrows(segs, k);
      TailReaches(segs, first, before, rawMax);
      StaysAbove(segs[1..], top, rawMax, gain, xdir);
      TailKeeps(segs, rawMax);
      if i > 0 {
        RangeRoundsUp(segs[1..], false, top, rawMax, gain, xdir, i - 1, w, k - 1);
      } else {
        assert segs[1..][0].rawMin == s.rawMax + 1;
        SegmentAboveOrBelow(s, rawMax, w, gain);
      }
    } else if i > 0 {
      RawMinGrows(segs, i);
      BottomIsLeast(segs[i], rawMax, w, gain);
      ConvertBounds(s.entry, s.rawMin, top, gain, xdir);
    } else if gain < Bottom(s.entry) {
      BottomIsLeast(s, rawMax, w, gain);
    } else {
      SegmentRoundsUp(s, rawMax, w, gain, xdir);
    }
  }

  // ----- the exact conditions -----

  /** The result is the largest raw value of all the segments whose gain is not above `gain`. */
  ghost predicate LargestNotAbove(segs: seq<Segment>, rawMax: int, gain: int, result: int) {
    forall i, w | InUse(segs, rawMax, i) && Holds(segs[i], rawMax, w) ::
      GainAtMost(segs[i], rawMax, w, gain) <==> w <= result
  }

  /** The smallest whose gain is not below it. */
  ghost predicate SmallestNotBelow(segs: seq<Segment>, rawMax: int, gain: int, result: int) {
    forall i, w | InUse(segs, rawMax, i) && Holds(segs[i], rawMax, w) ::
      GainAtLeast(segs[i], rawMax, w, gain) <==> w >= result
  }

  /** Some segment in use goes up to `gain`. */
  ghost predicate Reached(segs: seq<Segment>, rawMax: int, gain: int) {
    exists k | InUse(segs, rawMax, k) :: gain <= TopOf(segs[k], rawMax)
  }

  /** A gain that segments `i` and `j` share; the higher bottom of the first and of segment `j`. */
  function SharedGain(segs: seq<Segment>, j: nat): int
    requires j < |segs|
  {
    if Bottom(segs[j].entry) >= Bottom(segs[0].entry) then Bottom(segs[j].entry) else Bottom(segs[0].entry)
  }

  /** Where any two segments share a gain, rounding down stays below the later one although it has a value that fits. */
  lemma SharedGainRoundsLow(segs: seq<Segment>, rawMax: int, xdir: int, i: nat, j: nat)
    requires Contiguous(segs) && Lines(segs, rawMax) && xdir <= 0
    requires i < j && InUse(segs, rawMax, 0) && InUse(segs, rawMax, i) && InUse(segs, rawMax, j)
    requires TopOf(segs[i], rawMax) >= Bottom(segs[j].entry)
    ensures var gain := SharedGain(segs, j);
            && ConvertRange(segs, true, 0, rawMax, gain, xdir) < segs[j].rawMin
            && GainAtMost(segs[j], rawMax, segs[j].rawMin, gain)
  {
    var gain := SharedGain(segs, j);
    BottomNotAboveTop(segs[0], rawMax);
    var k := if gain == Bottom(segs[j].entry) then i else 0;
    StaysBelow(segs, true, 0, rawMax, gain, xdir, k);
    RawMinFollows(segs, k, j);
  }

  lemma {:induction false} RawMinFollows(segs: seq<Segment>, i: nat, j: nat)
    requires Contiguous(segs) && i < j < |segs|
    ensures segs[i].rawMax < segs[j].rawMin
  {
    if i + 1 < j {
      RawMinFollows(segs, i, j - 1);
      assert segs[j - 1].rawMin <= segs[j - 1].rawMax;
    }
  }

  /** Rounding down is right for every gain from the first bottom on if and only if no two segments share a gain. */
  lemma RoundsDownIffApart(segs: seq<Segment>, rawMax: int, xdir: int)
    requires Contiguous(segs) && InUse(segs, rawMax, 0) && Lines(segs, rawMax) && xdir <= 0
    ensures (forall gain | gain >= Bottom(segs[0].entry) ::
               LargestNotAbove(segs, rawMax, gain, ConvertRange(segs, true, 0, rawMax, gain, xdir)))
            <==> Apart(segs, rawMax)
  {
    if Apart(segs, rawMax) {
      forall gain, i, w
        | gain >= Bottom(segs[0].entry) && InUse(segs, rawMax, i) && Holds(segs[i], rawMax, w)
        ensures GainAtMost(segs[i], rawMax, w, gain) <==> w <= ConvertRange(segs, true, 0, rawMax, gain, xdir)
      {
        RangeRoundsDown(segs, true, 0, rawMax, gain, xdir, i, w);
      }
    } else {
      var i, j :| InUse(segs, rawMax, i) && InUse(segs, rawMax, j) && i < j &&
                  TopOf(segs[i], rawMax) >= Bottom(segs[j].entry);
      SharedGainRoundsLow(segs, rawMax, xdir, i, j);
      var gain := SharedGain(segs, j);
      assert segs[j].rawMin <= segs[j].rawMax && Holds(segs[j], rawMax, segs[j].rawMin);
      assert !LargestNotAbove(segs, rawMax, gain, ConvertRange(segs, true, 0, rawMax, gain, xdir));
    }
  }

  /** Rounding up is right for every gain reached if and only if no segment starts below an earlier one's end. */
  lemma RoundsUpIffInOrder(segs: seq<Segment>, rawMax: int, xdir: int)
    requires Contiguous(segs) && InUse(segs, rawMax, 0) && Lines(segs, rawMax) && xdir > 0
    ensures (forall gain | Reached(segs, rawMax, gain) ::
               SmallestNotBelow(segs, rawMax, gain, ConvertRange(segs, true, 0, rawMax, gain, xdir)))
            <==> InOrder(segs, rawMax)
  {
    if InOrder(segs, rawMax) {
      forall gain, i, w | Reached(segs, rawMax, gain) && InUse(segs, rawMax, i) && Holds(segs[i], rawMax, w)
        ensures GainAtLeast(segs[i], rawMax, w, gain) <==> w >= ConvertRange(segs, true, 0, rawMax, gain, xdir)
      {
        var k :| InUse(segs, rawMax, k) && gain <= TopOf(segs[k], rawMax);
        RangeRoundsUp(segs, true, 0, rawMax, gain, xdir, i, w, k);
      }
    } else {
      var i, j :| InUse(segs, rawMax, i) && InUse(segs, rawMax, j) && i < j &&
                  TopOf(segs[i], rawMax) > Bottom(segs[j].entry);
      var gain := TopOf(segs[i], rawMax);
      StaysBelow(segs, true, 0, rawMax, gain, xdir, i);
      RawMinFollows(segs, i, j);
      assert segs[j].rawMin <= segs[j].rawMax && Holds(segs[j], rawMax, segs[j].rawMin);
      assert Reached(segs, rawMax, gain);
      assert !SmallestNotBelow(segs, rawMax, gain, ConvertRange(segs, true, 0, rawMax, gain, xdir));
    }
  }

  // ----- rounding up past the end -----

  /** The loop does not stop at `s`, as far as the gain goes. */
  predicate Passes(s: Segment, rawMax: int, gain: int) {
    Bottom(s.entry) <= gain && TopOf(s, rawMax) < gain
  }

  /** `gain` is in the step over the muted bottom of the last segment in use, which has a single raw value. */
  ghost predicate Oversteps(segs: seq<Segment>, rawMax: int, i: nat, gain: int) {
    && InUse(segs, rawMax, i) && Clip(segs[i].rawMax, rawMax) == segs[i].rawMin == Highest(segs, rawMax)
    && segs[i].entry.mute && GAIN_MUTE < gain <= segs[i].entry.min && gain <= TopOf(segs[i], rawMax)
    && forall j: nat | j < i :: Passes(segs[j], rawMax, gain)
  }

  ghost predicate SomeOversteps(segs: seq<Segment>, rawMax: int, gain: int) {
    exists i: nat | i < |segs| :: Oversteps(segs, rawMax, i, gain)
  }

  /** One segment: only the step over a muted value with nothing above it gets out. */
  lemma StepOrNot(e: Entry, rawMin: int, top: int, gain: int, xdir: int)
    requires rawMin <= top && xdir > 0
    ensures Convert(e, rawMin, top, gain, xdir) > top <==> rawMin == top && e.mute && GAIN_MUTE < gain <= e.min
  {
    if Inside(e, rawMin, top, gain) {
      RoundsInside(e, rawMin, top, gain, xdir);
    }
  }

  lemma TailOversteps(segs: seq<Segment>, rawMax: int, gain: int)
    requires |segs| > 1 && Passes(segs[0], rawMax, gain)
    ensures SomeOversteps(segs, rawMax, gain) <==> SomeOversteps(segs[1..], rawMax, gain)
  {
    var t := segs[1..];
    if i: nat :| i < |segs| && Oversteps(segs, rawMax, i, gain) {
      assert i > 0;
      assert forall j: nat | j < i - 1 :: t[j] == segs[j + 1];
      assert Oversteps(t, rawMax, i - 1, gain);
    }
    if i: nat :| i < |t| && Oversteps(t, rawMax, i, gain) {
      assert forall j: nat | 0 < j < i + 1 :: segs[j] == t[j - 1];
      assert Oversteps(segs, rawMax, i + 1, gain);
    }
  }

  lemma {:induction false} OverstepsOrNot(
    segs: seq<Segment>, first: bool, before: int, rawMax: int, gain: int, xdir: int)
    requires Reaches(segs, first, before, rawMax) && InUse(segs, rawMax, 0) && xdir > 0
    ensures ConvertRange(segs, first, before, rawMax, gain, xdir) > Highest(segs, rawMax) <==>
            SomeOversteps(segs, rawMax, gain)
    decreases |segs|
  {
    hide Convert;
    var s, top := segs[0], Clip(segs[0].rawMax, rawMax);
    RawMaxGrows(segs);
    ConvertBounds(s.entry, s.rawMin, top, gain, xdir);
    StepOrNot(s.entry, s.rawMin, top, gain, xdir);
    FirstOversteps(segs, rawMax, gain);
    if Passes(s, rawMax, gain) && rawMax != top && |segs| > 1 {
      TailReaches(segs, first, before, rawMax);
      OverstepsOrNot(segs[1..], false, top, rawMax, gain, xdir);
      TailOversteps(segs, rawMax, gain);
    }
  }

  /** Where the loop stops at the first segment, that is the one to look at. */
  lemma FirstOversteps(segs: seq<Segment>, rawMax: int, gain: int)
    requires Contiguous(segs) && InUse(segs, rawMax, 0)
    ensures !Passes(segs[0], rawMax, gain) || rawMax == Clip(segs[0].rawMax, rawMax) || |segs| == 1 ==>
              (SomeOversteps(segs, rawMax, gain) <==> Oversteps(segs, rawMax, 0, gain))
  {
    if i: nat :| 0 < i < |segs| && Oversteps(segs, rawMax, i, gain) {
      RawMinGrows(segs, i);
    }
  }

  /** The highest gain in the step, if there is a step. */
  function StepGain(s: Segment, rawMax: int): int {
    if TopOf(s, rawMax) < s.entry.min then TopOf(s, rawMax) else s.entry.min
  }

  /**
   Rounding up leaves the range for some gain if and only if the last segment in use is a muted single raw
   value whose step is above the mute gain and above all that the segments before it reach.
   */
  lemma LeavesRangeIff(segs: seq<Segment>, rawMax: int, xdir: int)
    requires Contiguous(segs) && InUse(segs, rawMax, 0) && xdir > 0
    ensures (exists gain :: ConvertRange(segs, true, 0, rawMax, gain, xdir) > Highest(segs, rawMax)) <==>
            (exists i: nat | i < |segs| :: Oversteps(segs, rawMax, i, StepGain(segs[i], rawMax)))
  {
    if gain :| ConvertRange(segs, true, 0, rawMax, gain, xdir) > Highest(segs, rawMax) {
      OverstepsOrNot(segs, true, 0, rawMax, gain, xdir);
      var i: nat :| i < |segs| && Oversteps(segs, rawMax, i, gain);
      var best := StepGain(segs[i], rawMax);
      assert forall j: nat | j < i :: Passes(segs[j], rawMax, gain) ==> Passes(segs[j], rawMax, best);
      assert Oversteps(segs, rawMax, i, best);
    }
    if i: nat :| i < |segs| && Oversteps(segs, rawMax, i, StepGain(segs[i], rawMax)) {
      var gain := StepGain(segs[i], rawMax);
      OverstepsOrNot(segs, true, 0, rawMax, gain, xdir);
      assert ConvertRange(segs, true, 0, rawMax, gain, xdir) > Highest(segs, rawMax);
    }
  }
}
