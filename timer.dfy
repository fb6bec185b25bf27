/**
 * The timer component: a count of elapsed seconds that grows by one each
 * second while the timer is active and not paused, shown as mm:ss or
 * hh:mm:ss.
 */
module Timer {
  import opened Numbers

  /** The component's state: the count and the two props that gate the interval. */
  class Timer {
    var time: nat
    var isActive: bool
    var isPaused: bool

    /** Mounting: the count starts at 0. */
    constructor (isActive: bool, isPaused: bool)
      ensures time == 0
      ensures this.isActive == isActive && this.isPaused == isPaused
    {
      time := 0;
      this.isActive := isActive;
      this.isPaused := isPaused;
    }

    /** The one-second interval is installed exactly when the timer is active and not paused. */
    predicate Running()
      reads this
    {
      isActive && !isPaused
    }

    /**
     * New props from the page. The interval is cleared or installed again; the
     * count is never reset.
     */
    method SetProps(isActive: bool, isPaused: bool)
      modifies this
      ensures time == old(time)
      ensures this.isActive == isActive && this.isPaused == isPaused
    {
      this.isActive := isActive;
      this.isPaused := isPaused;
    }

    /** One second passes: the count grows by one if the interval is installed. */
    method Tick()
      modifies this
      ensures time == if old(Running()) then old(time) + 1 else old(time)
      ensures isActive == old(isActive) && isPaused == old(isPaused)
    {
      if isActive && !isPaused {
        time := time + 1;
      }
    }
  }

  // ---------------------------------------------------------------------------
  // Display

  function Hours(t: nat): nat
  {
    t / 3600
  }

  function Minutes(t: nat): nat
  {
    (t % 3600) / 60
  }

  function Seconds(t: nat): nat
  {
    t % 60
  }

  /** The three parts recompose the count, and minutes and seconds stay below 60. */
  lemma ClockDecomposition(t: nat)
    ensures Minutes(t) < 60 && Seconds(t) < 60
    ensures 3600 * Hours(t) + 60 * Minutes(t) + Seconds(t) == t
  {
    assert t % 3600 == 60 * Minutes(t) + Seconds(t);
  }

  /** `parts.join(sep)`. */
  function Join(parts: seq<string>, sep: string): string
  {
    if |parts| == 0 then ""
    else if |parts| == 1 then parts[0]
    else Join(parts[..|parts| - 1], sep) + sep + parts[|parts| - 1]
  }

  /** One part of the clock: the number padded to two digits. */
  function Part(n: nat): string
  {
    PadTwo(ShowNat(n))
  }

  /** formatTime: hours only when there are any, then minutes and seconds, joined by colons. */
  function FormatClock(h: nat, m: nat, s: nat): (text: string)
    ensures h == 0 ==> text == Part(m) + ":" + Part(s)
    ensures h > 0 ==> text == Part(h) + ":" + Part(m) + ":" + Part(s)
  {
    var parts := (if h > 0 then [Part(h)] else []) + [Part(m), Part(s)];
    if h > 0 then
      assert parts == [Part(h), Part(m), Part(s)];
      assert parts[..2] == [Part(h), Part(m)] && parts[..2][..1] == [Part(h)];
      assert Join(parts[..2], ":") == Part(h) + ":" + Part(m);
      Join(parts, ":")
    else
      assert parts == [Part(m), Part(s)] && parts[..1] == [Part(m)];
      assert Join(parts[..1], ":") == Part(m);
      Join(parts, ":")
  }

  /** The text the timer shows for a count: `mm:ss` under an hour, then `hh:mm:ss` with as many hour digits as needed. */
  function Display(t: nat): (text: string)
    ensures t < 3600 ==> |text| == 5 && text[2] == ':'
    ensures t >= 3600 ==> |text| >= 8 && text[|text| - 3] == ':' && text[|text| - 6] == ':'
  {
    ClockDecomposition(t);
    ParsePadded(Minutes(t));
    ParsePadded(Seconds(t));
    assert |PadTwo(ShowNat(Hours(t)))| >= 2;
    FormatClock(Hours(t), Minutes(t), Seconds(t))
  }

  /** Under an hour the clock reads mm:ss; from an hour on, hh:mm:ss with at least two hour digits. */
  lemma DisplayShape(t: nat)
    ensures t < 3600 ==> Display(t) == Part(Minutes(t)) + ":" + Part(Seconds(t))
    ensures t >= 3600 ==> Display(t) == Part(Hours(t)) + ":" + Part(Minutes(t)) + ":" + Part(Seconds(t))
    ensures |Part(Minutes(t))| == 2 && |Part(Seconds(t))| == 2 && |Part(Hours(t))| >= 2
  {
    ClockDecomposition(t);
    ParsePadded(Minutes(t));
    ParsePadded(Seconds(t));
    if t >= 3600 {
      assert Hours(t) > 0;
    } else {
      assert Hours(t) == 0;
    }
  }

  /** Reads a clock text back as a number of seconds. */
  function ParseClock(text: string): int
  {
    var n := |text|;
    if n < 5 then 0
    else
      var hours := if n >= 8 then ParseDigits(text[..n - 6]) else 0;
      3600 * hours + 60 * ParseDigits(text[n - 5..n - 3]) + ParseDigits(text[n - 2..])
  }

  /** The display loses nothing: reading it back gives the count. */
  lemma ParseDisplay(t: nat)
    ensures ParseClock(Display(t)) == t
  {
    DisplayShape(t);
    ClockDecomposition(t);
    ParsePadded(Hours(t));
    ParsePadded(Minutes(t));
    ParsePadded(Seconds(t));
    var text := Display(t);
    var n := |text|;
    var m, s := Part(Minutes(t)), Part(Seconds(t));
    if t >= 3600 {
      var h := Part(Hours(t));
      assert text == (h + ":") + m + (":" + s);
      assert |m| == 2 && |s| == 2 && n == |h| + 6;
      MiddleSlice(h + ":", m, ":" + s);
      assert text[..n - 6] == h;
      assert text[n - 2..] == s;
    } else {
      assert text == m + ":" + s;
      assert text[n - 5..n - 3] == m;
      assert text[n - 2..] == s;
    }
  }

  /** The middle part of a concatenation of three, cut out again. */
  lemma MiddleSlice(a: string, b: string, c: string)
    ensures (a + b + c)[|a|..|a| + |b|] == b
  {
    assert forall i :: 0 <= i < |b| ==> (a + b + c)[|a| + i] == b[i];
  }
}
