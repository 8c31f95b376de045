/**
 The LED and backlight code: three sources share one RGB light, and caches skip writes that
 would change nothing. The light and the panel are modelled as the sysfs files latch them.
 */
module Lights {
  import opened Common

  /** 0xAARRGGBB */
  type Color = Uint32

  datatype Light = Light(color: Color, flash: int)

  datatype Rgb = Rgb(red: int, green: int, blue: int)

  const DARK := Rgb(0, 0, 0)

  function Shown(c: Color): Rgb { Rgb(c / 0x1_0000 % 0x100, c / 0x100 % 0x100, c % 0x100) }

  predicate IsLit(l: Light) { l.color % 0x100_0000 != 0 }

  datatype Source = Attention | Notification | Battery

  /** What the clients have asked for, by source. */
  datatype Requests = Requests(attention: Light, notification: Light, battery: Light)

  function Ask(r: Requests, s: Source, l: Light): Requests {
    match s
    case Attention => r.(attention := l)
    case Notification => r.(notification := l)
    case Battery => r.(battery := l)
  }

  /** The highest-priority lit source; the battery's light if none is lit. */
  function Winner(r: Requests): Light {
    if IsLit(r.attention) then r.attention
    else if IsLit(r.notification) then r.notification
    else r.battery
  }

  lemma RemainderIs(c: int, high: int, low: int)
    requires c == high * 0x100_0000 + low && 0 <= low < 0x100_0000
    ensures c % 0x100_0000 == low
  {
  }

  /** The channels of a colour put together from bytes, whatever is in the top one. */
  lemma ChannelsAre(high: int, red: int, green: int, blue: int)
    requires 0 <= high < 256 && 0 <= red < 256 && 0 <= green < 256 && 0 <= blue < 256
    ensures var c := high * 0x100_0000 + red * 0x1_0000 + green * 0x100 + blue;
            Shown(c) == Rgb(red, green, blue) && (IsLit(Light(c, 0)) <==> red != 0 || green != 0 || blue != 0)
  {
    var c := high * 0x100_0000 + red * 0x1_0000 + green * 0x100 + blue;
    assert c / 0x100 == high * 0x1_0000 + red * 0x100 + green;
    assert c / 0x1_0000 == high * 0x100 + red;
    RemainderIs(c, high, red * 0x1_0000 + green * 0x100 + blue);
  }

  /** A light shows dark exactly if it is not lit. */
  lemma DarkIffNotLit(l: Light)
    ensures Shown(l.color) == DARK <==> !IsLit(l)
  {
    var c := l.color;
    var g := c / 0x100;
    var r := g / 0x100;
    assert r == c / 0x1_0000;
    assert c == r / 0x100 * 0x100_0000 + (r % 0x100 * 0x1_0000 + g % 0x100 * 0x100 + c % 0x100);
    RemainderIs(c, r / 0x100, r % 0x100 * 0x1_0000 + g % 0x100 * 0x100 + c % 0x100);
  }

  /** One write of the `update` file takes the three colour files over into the LED. */
  class Led {
    var pending: Rgb
    var latched: Rgb
    var flashes: seq<Rgb>   // all that was latched, in order

    constructor ()
      ensures pending == latched == DARK && flashes == []
    {
      pending, latched, flashes := DARK, DARK, [];
    }

    method WriteColor(c: Color)
      modifies this`pending
      ensures pending == Shown(c)
    {
      pending := pending.(red := c / 0x1_0000 % 0x100);
      pending := pending.(green := c / 0x100 % 0x100);
      pending := pending.(blue := c % 0x100);
    }

    method Update()
      modifies this`latched, this`flashes
      ensures latched == pending && flashes == old(flashes) + [pending]
    {
      latched, flashes := pending, flashes + [pending];
    }
  }

  class Speaker {
    var attention: Light
    var notification: Light
    var battery: Light
    var current: Light   // g_speaker_light
    const led: Led

    ghost function Asked(): Requests
      reads this
    {
      Requests(attention, notification, battery)
    }

    /** The cache holds the winner's colour and the LED shows it. */
    ghost predicate Valid()
      reads this, led
    {
      current.color == Winner(Asked()).color && led.latched == Shown(current.color)
    }

    constructor (led: Led)
      requires led.latched == DARK
      ensures Valid() && this.led == led && Asked() == Requests(Light(0, 0), Light(0, 0), Light(0, 0))
    {
      attention, notification, battery, current := Light(0, 0), Light(0, 0), Light(0, 0), Light(0, 0);
      this.led := led;
    }

    /** set_speaker_light_locked */
    method SetSpeakerLight(l: Light) returns (wrote: bool)
      requires led.latched == Shown(current.color)
      modifies this`current, led
      ensures current.color == l.color && led.latched == Shown(l.color)
      ensures wrote <==> old(current.color) != l.color
      ensures led.flashes == old(led.flashes) + if !wrote then [] else if Shown(l.color) == DARK then [DARK]
                                                else [DARK, Shown(l.color)]
    {
      if current.color == l.color {
        return false;
      }
      DarkIffNotLit(l);
      current := l;
      if IsLit(l) {
        led.WriteColor(0);
        led.Update();
      }
      led.WriteColor(l.color);
      led.Update();
      return true;
    }

    /** set_light_attention, set_light_notifications and set_light_battery */
    method SetLight(s: Source, l: Light) returns (wrote: bool)
      requires Valid()
      modifies this, led
      ensures Valid() && Asked() == Ask(old(Asked()), s, l)
      ensures attention == (if s.Attention? then l else old(attention))
      ensures notification == (if s.Notification? then l else old(notification))
      ensures battery == (if s.Battery? then l else old(battery))
      ensures var c := if attention.color % 0x100_0000 != 0 then attention.color
                       else if notification.color % 0x100_0000 != 0 then notification.color else battery.color;
              led.latched == Rgb(c / 0x1_0000 % 0x100, c / 0x100 % 0x100, c % 0x100)
      ensures wrote <==> Winner(Asked()).color != Winner(old(Asked())).color
    {
      match s {
        case Attention => attention := l;
        case Notification => notification := l;
        case Battery => battery := l;
      }
      if IsLit(attention) {
        wrote := SetSpeakerLight(attention);
      } else if IsLit(notification) {
        wrote := SetSpeakerLight(notification);
      } else {
        wrote := SetSpeakerLight(battery);
      }
    }
  }

  function AskAll(r: Requests, calls: seq<(Source, Light)>): Requests {
    if calls == [] then r
    else
      var n := |calls| - 1;
      Ask(AskAll(r, calls[..n]), calls[n].0, calls[n].1)
  }

  /** Over any calls from dark LEDs, the LED shows what writing through every time would show. */
  method RunCalls(calls: seq<(Source, Light)>) returns (led: Led)
    ensures led.latched ==
            Shown(Winner(AskAll(Requests(Light(0, 0), Light(0, 0), Light(0, 0)), calls)).color)
  {
    led := new Led();
    var speaker := new Speaker(led);
    ghost var start := speaker.Asked();
    for i := 0 to |calls|
      invariant speaker.Valid() && speaker.led == led && fresh(speaker) && fresh(led)
      invariant speaker.Asked() == AskAll(start, calls[..i])
    {
      assert calls[..i + 1][..i] == calls[..i];
      var _ := speaker.SetLight(calls[i].0, calls[i].1);
    }
    assert calls[..|calls|] == calls;
  }

  // ----- backlight -----

  /** `rgb_to_brightness`, and twice that before the shift. */
  function Brightness(c: Color): int {
    (77 * Shown(c).red + 150 * Shown(c).green + 29 * Shown(c).blue) / 256
  }

  function Brightness2(c: Color): int {
    (2 * 77 * Shown(c).red + 2 * 150 * Shown(c).green + 2 * 29 * Shown(c).blue) / 256
  }

  /** The weights of the three channels, in 256ths. */
  lemma WeightsAre(high: int, red: int, green: int, blue: int)
    requires 0 <= high < 256 && 0 <= red < 256 && 0 <= green < 256 && 0 <= blue < 256
    ensures var c := high * 0x100_0000 + red * 0x1_0000 + green * 0x100 + blue;
            && Brightness(c) == (77 * red + 150 * green + 29 * blue) / 256
            && Brightness2(c) == (154 * red + 300 * green + 58 * blue) / 256
  {
    ChannelsAre(high, red, green, blue);
  }

  /** The doubled brightness is spread over two panels that each take a byte and differ by at most one. */
  lemma HalvesFitPanels(c: Color)
    ensures var b := Brightness2(c);
            && 0 <= b / 2 <= (b + 1) / 2 <= 255 && (b + 1) / 2 - b / 2 <= 1 && b / 2 + (b + 1) / 2 == b
            && b / 2 == Brightness(c)
  {
    var s := 77 * Shown(c).red + 150 * Shown(c).green + 29 * Shown(c).blue;
    assert 0 <= s <= 256 * 255;
  }

  /** Two brightness files; a write may fail, and they may hold anything to begin with. */
  class Backlight {
    var shown: int   // the old_brightness cache, -1 before the first call
    var lcd0: int
    var lcd1: int

    constructor (lcd0: int, lcd1: int)
      ensures shown == -1 && this.lcd0 == lcd0 && this.lcd1 == lcd1
    {
      this.shown, this.lcd0, this.lcd1 := -1, lcd0, lcd1;
    }

    /** The files hold the halves of the cached brightness. */
    ghost predicate InSync()
      reads this
    {
      lcd0 == shown / 2 && lcd1 == (shown + 1) / 2
    }

    /** set_light_backlight; `ok0` and `ok1` say whether the writes to the two files succeed. */
    method SetBacklight(c: Color, ok0: bool, ok1: bool) returns (err: bool)
      modifies this
      ensures shown == Brightness2(c)
      ensures err <==> old(shown) != shown && !(ok0 && ok1)
      ensures old(shown) == shown ==> lcd0 == old(lcd0) && lcd1 == old(lcd1)
      ensures lcd0 == if old(shown) != shown && ok0 then shown / 2 else old(lcd0)
      ensures lcd1 == if old(shown) != shown && ok0 && ok1 then (shown + 1) / 2 else old(lcd1)
      ensures old(shown) != shown && !err ==> InSync()
      ensures old(shown) >= 0 && old(InSync()) ==>
                (InSync() <==> !err || (ok0 && (shown + 1) / 2 == (old(shown) + 1) / 2))
      ensures old(shown) == shown ==> (InSync() <==> old(InSync()))
    {
      hide Brightness, Brightness2;
      var b := Brightness2(c);
      err := false;
      HalvesFitPanels(c);
      if shown < 0 || shown != b {
        err := !ok0;
        if ok0 {
          lcd0 := b / 2;
        }
        if !err {
          err := !ok1;
          if ok1 {
            lcd1 := (b + 1) / 2;
          }
        }
      }
      shown := b;
    }
  }

  datatype Call = Call(color: Color, ok0: bool, ok1: bool)

  /** Call `i` asks for another brightness than the call before it. */
  predicate Changes(calls: seq<Call>, i: nat)
    requires i < |calls|
  {
    i == 0 || Brightness2(calls[i].color) != Brightness2(calls[i - 1].color)
  }

  /** Call `i` writes the first file, or the second after it. */
  predicate Writes(calls: seq<Call>, i: nat, second: bool)
    requires i < |calls|
  {
    Changes(calls, i) && calls[i].ok0 && (second ==> calls[i].ok1)
  }

  function Half(c: Color, upper: bool): int {
    (Brightness2(c) + if upper then 1 else 0) / 2
  }

  /** What the first or the second file holds after `n` calls. */
  function LastWritten(calls: seq<Call>, n: nat, second: bool, first: int): int
    requires n <= |calls|
  {
    if n == 0 then first
    else if Writes(calls, n - 1, second) then Half(calls[n - 1].color, second)
    else LastWritten(calls, n - 1, second, first)
  }

  /** That is the half of the last call that wrote it, or what it held to begin with. */
  lemma {:induction false} LastWrittenMeans(calls: seq<Call>, n: nat, second: bool, first: int, i: nat)
    requires i < n <= |calls| && Writes(calls, i, second)
    requires forall j: nat | i < j < n :: !Writes(calls, j, second)
    ensures LastWritten(calls, n, second, first) == Half(calls[i].color, second)
  {
    if i < n - 1 {
      LastWrittenMeans(calls, n - 1, second, first, i);
    }
  }

  lemma {:induction false} NeverWritten(calls: seq<Call>, n: nat, second: bool, first: int)
    requires n <= |calls| && forall j: nat | j < n :: !Writes(calls, j, second)
    ensures LastWritten(calls, n, second, first) == first
  {
    if n > 0 {
      NeverWritten(calls, n - 1, second, first);
    }
  }

  /** Both files hold the halves of what was asked last. */
  predicate Agrees(calls: seq<Call>, lcd0: int, lcd1: int)
    requires calls != []
  {
    var n, c := |calls|, calls[|calls| - 1].color;
    LastWritten(calls, n, false, lcd0) == Half(c, false) && LastWritten(calls, n, true, lcd1) == Half(c, true)
  }

  /** If every write succeeds they always do. */
  lemma AllWrittenAgree(calls: seq<Call>, n: nat, lcd0: int, lcd1: int)
    requires 0 < n <= |calls|
    requires forall i: nat | i < n :: Changes(calls, i) ==> Writes(calls, i, true)
    ensures LastWritten(calls, n, false, lcd0) == Half(calls[n - 1].color, false)
    ensures LastWritten(calls, n, true, lcd1) == Half(calls[n - 1].color, true)
  {
    if !Changes(calls, n - 1) {
      AllWrittenAgree(calls, n - 1, lcd0, lcd1);
    }
  }

  /**
   Over any calls, with any writes failing: each file holds the half of the brightness of the last call
   that wrote it, so the panels show what was asked last exactly if these halves are the same.
   */
  method RunBacklight(lcd0: int, lcd1: int, calls: seq<Call>) returns (panel: Backlight)
    ensures panel.lcd0 == LastWritten(calls, |calls|, false, lcd0)
    ensures panel.lcd1 == LastWritten(calls, |calls|, true, lcd1)
    ensures calls != [] ==>
              && panel.shown == Brightness2(calls[|calls| - 1].color)
              && (panel.InSync() <==> Agrees(calls, lcd0, lcd1))
  {
    panel := new Backlight(lcd0, lcd1);
    for i := 0 to |calls|
      invariant fresh(panel)
      invariant panel.shown == if i == 0 then -1 else Brightness2(calls[i - 1].color)
      invariant panel.lcd0 == LastWritten(calls, i, false, lcd0) && panel.lcd1 == LastWritten(calls, i, true, lcd1)
    {
      HalvesFitPanels(calls[i].color);
      var _ := panel.SetBacklight(calls[i].color, calls[i].ok0, calls[i].ok1);
    }
  }

  /** Asking again for the same brightness reports success and writes nothing, so a failed write stays lost. */
  method FailedWriteStaysLost(lcd0: int, lcd1: int) returns (panel: Backlight, err: bool)
    ensures !err && panel.shown == Brightness2(0xff_ffff) && !panel.InSync()
  {
    panel := new Backlight(lcd0, lcd1);
    var _ := panel.SetBacklight(0, true, true);
    var _ := panel.SetBacklight(0xff_ffff, false, true);
    err := panel.SetBacklight(0xff_ffff, true, true);
  }
}
