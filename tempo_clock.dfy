/** Conversion of a delta-time in ticks into the delay, in milliseconds,
    that the player sleeps before an event. The arithmetic is exact: Python
    divides with `/`, and the model keeps the exact quotient. */
module TempoClock {
  import opened MidiBase

  /** The tempo in force at the start of every file: 500000 microseconds per
      quarter note, that is 120 beats per minute. */
  const DefaultTempo: nat := 500000

  /** Bit 15 of the time division is set (`time_division & 0x8000`). */
  predicate IsSmpte(division: nat)
  {
    division / 0x8000 % 2 == 1
  }

  /** The frame rate as the player computes it, `-(time_division >> 8)`.
      The division is unsigned, so this is the negated high byte, between
      -255 and -128, rather than the two's-complement reading of that byte. */
  function FramesPerSecond(division: nat): int
  {
    -(division / 256)
  }

  /** `time_division & 0x00FF`. */
  function TicksPerFrame(division: nat): nat
  {
    division % 256
  }

  /** The delay `d_ms` before an event whose delta-time is `delta`, under the
      tempo `tempo` in force when the event is reached. A zero divisor is the
      `ZeroDivisionError` that Python's `/` raises. What the value is, is
      stated by `DelayMsValue`. */
  function DelayMs(delta: nat, tempo: nat, division: nat): (r: Result<real>)
    ensures r.Err? ==> r.error == ZeroDivisionError
    ensures r.Err? <==> if IsSmpte(division) then TicksPerFrame(division) == 0 else division == 0
  {
    if IsSmpte(division) then
      var divisor := FramesPerSecond(division) * TicksPerFrame(division);
      SmpteDivisor(division);
      if divisor == 0 then Err(ZeroDivisionError)
      else Ok((delta * 1000) as real / divisor as real)
    else
      var divisor := division * 1000;
      if divisor == 0 then Err(ZeroDivisionError)
      else Ok((delta * tempo) as real / divisor as real)
  }

  /** The delay is the exact quotient: times the divisor it gives back
      `delta * tempo` (metrical) or `delta * 1000` (SMPTE). A metrical delay
      is never negative; an SMPTE delay is negative for every positive
      delta-time, because the frame rate is. */
  lemma DelayMsValue(delta: nat, tempo: nat, division: nat)
    requires DelayMs(delta, tempo, division).Ok?
    ensures var d := DelayMs(delta, tempo, division).value;
      !IsSmpte(division) ==> d * (division * 1000) as real == (delta * tempo) as real && d >= 0.0
    ensures var d := DelayMs(delta, tempo, division).value;
      IsSmpte(division) ==>
        d * (FramesPerSecond(division) * TicksPerFrame(division)) as real == (delta * 1000) as real &&
        (d < 0.0 <==> delta > 0) && (d == 0.0 <==> delta == 0)
  {
    if IsSmpte(division) {
      SmpteDivisor(division);
      QuotientSign((delta * 1000) as real, (FramesPerSecond(division) * TicksPerFrame(division)) as real);
    } else {
      QuotientSign((delta * tempo) as real, (division * 1000) as real);
    }
  }

  /** In SMPTE mode the frame rate is negative, so the divisor is zero
      exactly when the ticks per frame are, and negative otherwise. */
  lemma SmpteDivisor(division: nat)
    requires IsSmpte(division)
    ensures FramesPerSecond(division) <= -128
    ensures FramesPerSecond(division) * TicksPerFrame(division) == 0 <==> TicksPerFrame(division) == 0
    ensures FramesPerSecond(division) * TicksPerFrame(division) <= 0
  {
    var h := division / 0x8000;
    assert division == h * 0x8000 + division % 0x8000;
    assert h >= 1;
    assert division >= 0x8000;
    var hi := division / 256;
    assert division == hi * 256 + division % 256;
    assert hi >= 128;
    var f, t := FramesPerSecond(division), TicksPerFrame(division);
    if t != 0 {
      NegativeProduct(f, t);
    }
  }

  lemma NegativeProduct(f: int, t: int)
    requires f < 0 && t > 0
    ensures f * t < 0
  {
  }

  lemma QuotientSign(x: real, y: real)
    requires y != 0.0
    ensures (x / y) * y == x
    ensures y > 0.0 && x >= 0.0 ==> x / y >= 0.0
    ensures y < 0.0 && x > 0.0 ==> x / y < 0.0
    ensures x == 0.0 <==> x / y == 0.0
  {
  }

  /** Division 480 (metrical), tempo 500000 and a delta of 480 ticks: one
      quarter note at 120 beats per minute is 500 ms. */
  lemma MetricalExample()
    ensures DelayMs(480, DefaultTempo, 480) == Ok(500.0)
  {
  }

  /** The time division `0xE728` is the standard's encoding of 25 frames per
      second (high byte -25 in two's complement) and 40 ticks per frame, for
      which 1000 ticks last one second. As written the player reads the frame
      rate as -231 and computes a negative delay instead. */
  lemma SmpteExample()
    ensures DelayMs(1000, DefaultTempo, 0xE728) == Ok(-1000000.0 / 9240.0)
    ensures FramesPerSecond(0xE728) == -231 && TicksPerFrame(0xE728) == 40
  {
    assert FramesPerSecond(0xE728) * TicksPerFrame(0xE728) == -9240;
  }

  /** In SMPTE mode the tempo plays no part in the delay. */
  lemma SmpteIgnoresTempo(delta: nat, tempo1: nat, tempo2: nat, division: nat)
    requires IsSmpte(division)
    ensures DelayMs(delta, tempo1, division) == DelayMs(delta, tempo2, division)
  {
  }
}
