/** The MAX6675 type-K thermocouple converter: the 16-bit frame it returns,
    the validation of its flag bits, the quarter-degree temperature, and the
    minimum gap the driver keeps between two reads.

    Time is MicroPython's millisecond tick counter, which wraps around; the
    driver compares ticks with `ticks_diff`. */
module Max6675 {
  import opened Wrappers
  import opened Bytes

  /** `ticks_ms` counts modulo 2^30; `ticks_diff` answers in [-2^29, 2^29). */
  const TICKS_PERIOD: int := 0x4000_0000
  const TICKS_HALF: int := 0x2000_0000

  /** The driver leaves at least this many milliseconds between reads. */
  const MIN_GAP_MS: int := 250

  /** The RuntimeErrors of `read_raw` and `read`. */
  datatype ThermoError =
    | SpiFailed        // SPI read failed
    | InvalidData      // bit 15 set
    | Disconnected     // bit 2: thermocouple open
    | InvalidDeviceId  // bit 1 set

  // ---------------------------------------------------------------------
  // Ticks

  /** `time.ticks_diff(a, b)`: the signed distance from `b` to `a` on the
      wrapping tick counter. */
  function TicksDiff(a: int, b: int): (d: int)
    ensures -TICKS_HALF <= d < TICKS_HALF
    ensures (d - (a - b)) % TICKS_PERIOD == 0
  {
    (a - b + TICKS_HALF) % TICKS_PERIOD - TICKS_HALF
  }

  /** The tick counter's reading at a time `t` milliseconds after it
      started. */
  function Ticks(t: nat): (k: int)
    ensures 0 <= k < TICKS_PERIOD
  {
    t % TICKS_PERIOD
  }

  /** As long as less than half the tick period passed, `ticks_diff` of two
      readings is the time that passed between them. */
  lemma TicksDiffIsElapsed(t0: nat, t1: nat)
    requires t0 <= t1 < t0 + TICKS_HALF
    ensures TicksDiff(Ticks(t1), Ticks(t0)) == t1 - t0
  {
    var q0, q1 := t0 / TICKS_PERIOD, t1 / TICKS_PERIOD;
    assert Ticks(t1) - Ticks(t0) == (t1 - t0) - TICKS_PERIOD * (q1 - q0);
    assert q1 - q0 == 0 || q1 - q0 == 1;
  }

  /** The sleep `read_raw` takes before a transfer: the rest of the minimum
      gap when less has elapsed since the last successful read. */
  function WaitMs(now: int, lastRead: int): (w: nat)
    ensures TicksDiff(now, lastRead) < MIN_GAP_MS ==>
      w == MIN_GAP_MS - TicksDiff(now, lastRead)
    ensures TicksDiff(now, lastRead) >= MIN_GAP_MS ==> w == 0
  {
    var elapsed := TicksDiff(now, lastRead);
    if elapsed < MIN_GAP_MS then MIN_GAP_MS - elapsed else 0
  }

  /** While reads follow each other within half a tick period, the wait
      tops the elapsed time up to exactly 250 ms and never exceeds it. */
  lemma WaitKeepsMinimumGap(t0: nat, t1: nat)
    requires t0 <= t1 < t0 + TICKS_HALF
    ensures WaitMs(Ticks(t1), Ticks(t0)) <= MIN_GAP_MS
    ensures t1 - t0 < MIN_GAP_MS ==> (t1 - t0) + WaitMs(Ticks(t1), Ticks(t0)) == MIN_GAP_MS
    ensures t1 - t0 >= MIN_GAP_MS ==> WaitMs(Ticks(t1), Ticks(t0)) == 0
  {
    TicksDiffIsElapsed(t0, t1);
  }

  /** A read that comes half a tick period (about 6.2 days) after the
      previous one sees a negative `ticks_diff` and sleeps for longer than
      that again. */
  lemma WaitAfterLongIdle()
    ensures WaitMs(Ticks(TICKS_HALF), Ticks(0)) == MIN_GAP_MS + TICKS_HALF
  {
  }

  // ---------------------------------------------------------------------
  // The frame

  /** `read`: bit 15 must be clear, then bit 2 (open thermocouple), then
      bit 1 (device ID); bits 14..3 are the temperature in quarter
      degrees. */
  function Decode(raw: bv16): (r: Result<int, ThermoError>)
    ensures r == Err(InvalidData) <==> raw & 0x8000 != 0
    ensures r == Err(Disconnected) <==> raw & 0x8000 == 0 && raw & 0x0004 != 0
    ensures r == Err(InvalidDeviceId) <==>
      raw & 0x8000 == 0 && raw & 0x0004 == 0 && raw & 0x0002 != 0
    ensures r.Ok? ==> 0 <= r.value < 4096
  {
    if raw & 0x8000 != 0 then Err(InvalidData)
    else if raw & 0x0004 != 0 then Err(Disconnected)
    else if raw & 0x0002 != 0 then Err(InvalidDeviceId)
    else Ok(Quarters(raw))
  }

  /** Bits 14..3 of a frame whose top bit is clear. */
  function Quarters(raw: bv16): (q: int)
    requires raw & 0x8000 == 0
    ensures 0 <= q < 4096
  {
    (raw >> 3) as int
  }

  /** The frame the chip sends for a reading of `q` quarter degrees with the
      thermocouple connected. */
  function Frame(q: bv16): bv16
    requires q < 4096
  {
    q << 3
  }

  /** Every temperature the chip can send comes back out of `read`. */
  lemma DecodeFrame(q: bv16)
    requires q < 4096
    ensures Decode(Frame(q)) == Ok(q as int)
  {
    var raw := Frame(q);
    assert raw & 0x8000 == 0 && raw & 0x0006 == 0;
    assert raw >> 3 == q;
  }

  /** Bit 0 is left floating by the chip and never changes the outcome. */
  lemma DecodeIgnoresBitZero(raw: bv16)
    ensures Decode(raw ^ 1) == Decode(raw)
  {
    assert (raw ^ 1) & 0x8000 == raw & 0x8000;
    assert (raw ^ 1) & 0x0004 == raw & 0x0004;
    assert (raw ^ 1) & 0x0002 == raw & 0x0002;
    assert (raw ^ 1) >> 3 == raw >> 3;
  }

  /** Degrees Celsius of a quarter-degree count. */
  function Celsius(q: int): (c: real)
    ensures c * 4.0 == q as real
  {
    q as real * 0.25
  }

  /** `c * 9.0 / 5.0 + 32.0`. */
  function Fahrenheit(c: real): (f: real)
    ensures (f - 32.0) * 5.0 == c * 9.0
  {
    c * 9.0 / 5.0 + 32.0
  }

  /** A valid reading lies in 0..1023.75 °C, i.e. 32..1874.75 °F. */
  lemma ReadingRange(raw: bv16)
    requires Decode(raw).Ok?
    ensures 0.0 <= Celsius(Decode(raw).value) <= 1023.75
    ensures 32.0 <= Fahrenheit(Celsius(Decode(raw).value)) <= 1874.75
  {
  }

  /** What `read_safe` returns: (°C, °F, true) for a valid reading, and
      (0.0, 0.0, false) on every failure. */
  function SafeReading(r: Result<int, ThermoError>): (s: (real, real, bool))
    ensures s.2 <==> r.Ok?
    ensures r.Ok? ==> s.0 == Celsius(r.value) && s.1 == Fahrenheit(s.0)
    ensures r.Err? ==> s.0 == 0.0 && s.1 == 0.0
  {
    match r
    case Ok(q) =>
      var c := Celsius(q);
      (c, c * 9.0 / 5.0 + 32.0, true)
    case Err(_) => (0.0, 0.0, false)
  }

  // ---------------------------------------------------------------------
  // The driver object

  class Thermocouple {
    /** The chip-select pin (active low). */
    var csHigh: bool
    /** Every level written to the chip-select pin. */
    var csTrace: seq<bool>
    /** `_last_read`: tick of the last successful transfer. */
    var lastRead: int

    constructor ()
      ensures csHigh && csTrace == [true] && lastRead == 0
    {
      csHigh := true;
      csTrace := [true];
      lastRead := 0;
    }

    /** `read_raw`: wait out the minimum gap, select the chip, read two
        bytes, deselect it on both paths, and record the tick `done` after
        a successful transfer. */
    method ReadRaw(now: int, answer: Option<(Byte, Byte)>, done: int)
      returns (wait: nat, r: Result<bv16, ThermoError>)
      modifies this
      ensures wait == WaitMs(now, old(lastRead))
      ensures csHigh && csTrace == old(csTrace) + [false, true]
      ensures answer.None? ==> r == Err(SpiFailed) && lastRead == old(lastRead)
      ensures answer.Some? ==>
        r == Ok(Join16(answer.value.0, answer.value.1)) && lastRead == done
    {
      var elapsed := TicksDiff(now, lastRead);
      wait := 0;
      if elapsed < MIN_GAP_MS {
        wait := MIN_GAP_MS - elapsed;
      }
      csHigh := false;
      csTrace := csTrace + [false];
      if answer.None? {
        csHigh := true;
        csTrace := csTrace + [true];
        return wait, Err(SpiFailed);
      }
      var data := answer.value;
      csHigh := true;
      csTrace := csTrace + [true];
      lastRead := done;
      r := Ok(Join16(data.0, data.1));
    }

    /** `read`: a raw frame, validated and decoded to quarter degrees. */
    method Read(now: int, answer: Option<(Byte, Byte)>, done: int)
      returns (wait: nat, r: Result<int, ThermoError>)
      modifies this
      ensures wait == WaitMs(now, old(lastRead))
      ensures csHigh && csTrace == old(csTrace) + [false, true]
      ensures lastRead == if answer.Some? then done else old(lastRead)
      ensures r == ReadOutcome(answer)
    {
      var raw;
      wait, raw := ReadRaw(now, answer, done);
      if raw.Err? {
        return wait, Err(raw.error);
      }
      r := Decode(raw.value);
    }

    /** `read_f`: `read` in degrees Fahrenheit. */
    method ReadF(now: int, answer: Option<(Byte, Byte)>, done: int)
      returns (wait: nat, r: Result<real, ThermoError>)
      modifies this
      ensures wait == WaitMs(now, old(lastRead))
      ensures ReadOutcome(answer).Err? ==> r == Err(ReadOutcome(answer).error)
      ensures ReadOutcome(answer).Ok? ==>
        r == Ok(Fahrenheit(Celsius(ReadOutcome(answer).value)))
      ensures csHigh && csTrace == old(csTrace) + [false, true]
      ensures lastRead == if answer.Some? then done else old(lastRead)
    {
      var q;
      wait, q := Read(now, answer, done);
      if q.Err? {
        return wait, Err(q.error);
      }
      r := Ok(Celsius(q.value) * 9.0 / 5.0 + 32.0);
    }

    /** `read_safe`: `read` that never raises. */
    method ReadSafe(now: int, answer: Option<(Byte, Byte)>, done: int)
      returns (wait: nat, c: real, f: real, connected: bool)
      modifies this
      ensures wait == WaitMs(now, old(lastRead))
      ensures (c, f, connected) == SafeReading(ReadOutcome(answer))
      ensures csHigh && csTrace == old(csTrace) + [false, true]
      ensures lastRead == if answer.Some? then done else old(lastRead)
    {
      var q;
      wait, q := Read(now, answer, done);
      if q.Err? {
        return wait, 0.0, 0.0, false;
      }
      c := Celsius(q.value);
      f := c * 9.0 / 5.0 + 32.0;
      connected := true;
    }
  }

  /** `__init__`: a deselected chip with `_last_read` at 0, then a test
      read; any failure of it is raised again as an initialization error. */
  method Open(now: int, answer: Option<(Byte, Byte)>, done: int)
    returns (dev: Thermocouple, r: Outcome<ThermoError>)
    ensures fresh(dev) && dev.csHigh
    ensures dev.lastRead == if answer.Some? then done else 0
    ensures r == if answer.Some? then Pass else Fail(SpiFailed)
  {
    dev := new Thermocouple();
    var wait, raw := dev.ReadRaw(now, answer, done);
    r := if raw.Ok? then Pass else Fail(raw.error);
  }

  /** The outcome of `read` for one SPI answer. */
  function ReadOutcome(answer: Option<(Byte, Byte)>): Result<int, ThermoError>
  {
    match answer
    case None => Err(SpiFailed)
    case Some(d) => Decode(Join16(d.0, d.1))
  }
}
