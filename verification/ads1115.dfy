/** The ADS1115 16-bit ADC driver: the config-register word it composes, the
    byte framing of register reads and writes, the rate table, and the
    error-tolerant sampling loop of `capture`.

    Config words are 16-bit patterns (`bv16`), exactly the bits `_write_config`
    puts on the bus. Voltages are left as raw signed counts: the source only
    multiplies them by a per-gain constant. */
module Ads1115 {
  import opened Wrappers
  import opened Bytes

  // Register addresses
  const REG_CONVERSION: Byte := 0x00
  const REG_CONFIG: Byte := 0x01

  // Config register, bit 15: start a single conversion
  const OS_START: bv16 := 0x8000

  // Config register, bits 14:12: input multiplexer
  const MUX_DIFF_01: bv16 := 0x0000
  const MUX_DIFF_03: bv16 := 0x1000
  const MUX_DIFF_13: bv16 := 0x2000
  const MUX_DIFF_23: bv16 := 0x3000
  const MUX_SINGLE_0: bv16 := 0x4000

  // Config register, bits 11:9: programmable gain
  const PGA_6144: bv16 := 0x0000
  const PGA_4096: bv16 := 0x0200
  const PGA_2048: bv16 := 0x0400
  const PGA_1024: bv16 := 0x0600
  const PGA_512: bv16 := 0x0800
  const PGA_256: bv16 := 0x0A00

  // Config register, bit 8: operating mode
  const MODE_CONTINUOUS: bv16 := 0x0000
  const MODE_SINGLE: bv16 := 0x0100

  // Config register, bits 7:5: data rate
  const DR_8: bv16 := 0x0000
  const DR_16: bv16 := 0x0020
  const DR_32: bv16 := 0x0040
  const DR_64: bv16 := 0x0060
  const DR_128: bv16 := 0x0080
  const DR_250: bv16 := 0x00A0
  const DR_475: bv16 := 0x00C0
  const DR_860: bv16 := 0x00E0

  // Config register, bits 1:0 = 11: comparator disabled
  const COMP_DISABLE: bv16 := 0x0003

  /** `capture` gives up after this many failed reads in a row. */
  const MAX_CONSECUTIVE_ERRORS: nat := 10

  /** The exceptions the driver raises. */
  datatype AdsError =
    | NotFound            // RuntimeError: address absent from the bus scan
    | WriteFailed         // RuntimeError: I2C write failed
    | ReadFailed          // RuntimeError: I2C read failed
    | ConversionTimeout   // RuntimeError: conversion timeout
    | InvalidPair(pos: int, neg: int)  // ValueError: invalid differential pair
    | UnknownGain         // KeyError: gain is not a key of the full-scale table
    | ZeroRate            // ZeroDivisionError: unknown rate code gives 0 SPS
    | TooManyErrors       // RuntimeError: 10 consecutive I2C read errors

  /** What one register read over I2C yields: the two bytes, or None when
      the bus raised OSError. */
  type BusRead = Option<(Byte, Byte)>

  /** How `_wait_ready`'s polling of the config register ends. */
  datatype Wait = Ready | TimedOut | PollFailed

  // ---------------------------------------------------------------------
  // Config-word fields

  function OsBit(w: bv16): bv16 { w & 0x8000 }
  function MuxBits(w: bv16): bv16 { w & 0x7000 }
  function PgaBits(w: bv16): bv16 { w & 0x0E00 }
  function ModeBit(w: bv16): bv16 { w & 0x0100 }
  function RateBits(w: bv16): bv16 { w & 0x00E0 }
  function CompBits(w: bv16): bv16 { w & 0x001F }

  /** A value that lies inside the multiplexer field. */
  predicate FitsMux(m: bv16) { m & 0x8FFF == 0 }
  /** A value that lies inside the gain field. */
  predicate FitsPga(g: bv16) { g & 0xF1FF == 0 }
  /** A value that lies inside the rate field: exactly the eight rate codes. */
  predicate IsRateCode(r: bv16) { r & 0xFF1F == 0 }

  /** The keys of the full-scale-range table: the six gains the driver names. */
  predicate IsPgaCode(g: bv16)
  {
    g == PGA_6144 || g == PGA_4096 || g == PGA_2048 ||
    g == PGA_1024 || g == PGA_512 || g == PGA_256
  }

  /** `_MUX_SINGLE_0 + (channel << 12)`, reduced to the 16 bits that reach the
      bus; the shifted channel only contributes its low four bits. */
  function SingleEndedMux(channel: int): bv16
  {
    MUX_SINGLE_0 + (((channel % 16) as bv16) << 12)
  }

  /** For channels 0..3 the multiplexer field selects AINx against ground,
      code 4 + channel, and nothing outside the field is touched. */
  lemma SingleEndedMuxField(channel: int)
    requires 0 <= channel < 4
    ensures FitsMux(SingleEndedMux(channel))
    ensures SingleEndedMux(channel) >> 12 == 4 + channel as bv16
  {
  }

  /** Channel 4 is not rejected: its mux value carries into the start bit and
      leaves mux code 0, the AIN0-AIN1 differential pair. */
  lemma ChannelFourSelectsDifferential01()
    ensures SingleEndedMux(4) == OS_START
    ensures MuxBits(SingleShotConfig(SingleEndedMux(4), PGA_4096, DR_860)) == MUX_DIFF_01
  {
  }

  /** The word `read_raw` and `read_differential_raw` write: start bit,
      multiplexer, gain, single-shot mode, rate, comparator disabled. */
  function SingleShotConfig(mux: bv16, gain: bv16, rate: bv16): bv16
  {
    OS_START | mux | gain | MODE_SINGLE | rate | COMP_DISABLE
  }

  /** The fixed bits of the single-shot word are always set; fields that fit
      their place read back unchanged. */
  lemma SingleShotConfigFields(mux: bv16, gain: bv16, rate: bv16)
    ensures var w := SingleShotConfig(mux, gain, rate);
      OsBit(w) == OS_START && ModeBit(w) == MODE_SINGLE &&
      w & COMP_DISABLE == COMP_DISABLE
    ensures var w := SingleShotConfig(mux, gain, rate);
      FitsMux(mux) && FitsPga(gain) && IsRateCode(rate) ==>
      MuxBits(w) == mux && PgaBits(w) == gain && RateBits(w) == rate &&
      CompBits(w) == COMP_DISABLE
  {
  }

  /** The word `capture` writes first: continuous mode, no start bit. */
  function ContinuousConfig(mux: bv16, gain: bv16, rate: bv16): bv16
  {
    mux | gain | MODE_CONTINUOUS | rate | COMP_DISABLE
  }

  /** Fields that fit their place read back unchanged from the continuous
      word, which has neither the start bit nor the single-shot bit. */
  lemma ContinuousConfigFields(mux: bv16, gain: bv16, rate: bv16)
    requires FitsMux(mux) && FitsPga(gain) && IsRateCode(rate)
    ensures var w := ContinuousConfig(mux, gain, rate);
      OsBit(w) == 0 && ModeBit(w) == MODE_CONTINUOUS &&
      MuxBits(w) == mux && PgaBits(w) == gain && RateBits(w) == rate &&
      CompBits(w) == COMP_DISABLE
  {
  }

  /** The word `capture` writes last to return to single-shot mode. */
  function IdleConfig(mux: bv16, gain: bv16, rate: bv16): bv16
  {
    mux | gain | MODE_SINGLE | rate | COMP_DISABLE
  }

  /** The last word of `capture` has the single-shot bit but not the start
      bit, and keeps the fields that fit their place. */
  lemma IdleConfigFields(mux: bv16, gain: bv16, rate: bv16)
    ensures ModeBit(IdleConfig(mux, gain, rate)) == MODE_SINGLE
    ensures var w := IdleConfig(mux, gain, rate);
      FitsMux(mux) && FitsPga(gain) && IsRateCode(rate) ==>
      OsBit(w) == 0 && MuxBits(w) == mux && PgaBits(w) == gain &&
      RateBits(w) == rate && CompBits(w) == COMP_DISABLE
  {
  }

  /** The final word of `capture` rewrites the fields of its first word and
      only adds the single-shot mode bit. */
  lemma IdleIsContinuousPlusSingleShot(mux: bv16, gain: bv16, rate: bv16)
    ensures IdleConfig(mux, gain, rate) == ContinuousConfig(mux, gain, rate) | MODE_SINGLE
  {
  }

  /** The multiplexer code of a differential pair; only four pairs exist. */
  function DifferentialMux(pos: int, neg: int): (m: Option<bv16>)
    ensures m.Some? <==> (pos, neg) in {(0, 1), (0, 3), (1, 3), (2, 3)}
    ensures m.Some? ==> FitsMux(m.value) && m.value < MUX_SINGLE_0
  {
    if pos == 0 && neg == 1 then Some(MUX_DIFF_01)
    else if pos == 0 && neg == 3 then Some(MUX_DIFF_03)
    else if pos == 1 && neg == 3 then Some(MUX_DIFF_13)
    else if pos == 2 && neg == 3 then Some(MUX_DIFF_23)
    else None
  }

  /** The four accepted pairs, listed in order, get the codes 0, 1, 2, 3. */
  lemma DifferentialMuxOrder()
    ensures DifferentialMux(0, 1) == Some(0x0000)
    ensures DifferentialMux(0, 3) == Some(0x1000)
    ensures DifferentialMux(1, 3) == Some(0x2000)
    ensures DifferentialMux(2, 3) == Some(0x3000)
  {
  }

  /** `_get_rate_sps`: samples per second of a rate code, 0 for any other
      value. */
  function RateSps(rate: bv16): (sps: nat)
    ensures sps != 0 <==> IsRateCode(rate)
    ensures sps in {0, 8, 16, 32, 64, 128, 250, 475, 860}
  {
    if rate == DR_8 then 8
    else if rate == DR_16 then 16
    else if rate == DR_32 then 32
    else if rate == DR_64 then 64
    else if rate == DR_128 then 128
    else if rate == DR_250 then 250
    else if rate == DR_475 then 475
    else if rate == DR_860 then 860
    else 0
  }

  /** A larger rate code always means a faster rate. */
  lemma RateSpsIncreasing(r1: bv16, r2: bv16)
    requires IsRateCode(r1) && IsRateCode(r2) && r1 < r2
    ensures 0 < RateSps(r1) < RateSps(r2)
  {
  }

  // ---------------------------------------------------------------------
  // The sampling loop of `capture`, as a function of the bus answers

  /** The most recent successful answer among `rs`. */
  function LastAnswer(rs: seq<BusRead>): BusRead
  {
    if rs == [] then None
    else if rs[|rs| - 1].Some? then rs[|rs| - 1]
    else LastAnswer(rs[..|rs| - 1])
  }

  /** The value `last_good_value` holds after the answers `rs`: the most recent
      successful conversion, 0 before any success. */
  function HeldValue(rs: seq<BusRead>): int
  {
    match LastAnswer(rs)
    case None => 0
    case Some(b) => Signed16(b.0, b.1)
  }

  /** The value of `consecutive_errors` after the answers `rs`: the number of
      failed reads at the end of `rs`. */
  function FailRun(rs: seq<BusRead>): nat
  {
    if rs == [] || rs[|rs| - 1].Some? then 0
    else FailRun(rs[..|rs| - 1]) + 1
  }

  /** The failure run counts exactly the failed reads at the end: all of them
      failed, and the read before them (if any) succeeded. */
  lemma {:induction false} FailRunIsTrailingFailures(rs: seq<BusRead>)
    ensures FailRun(rs) <= |rs|
    ensures forall k :: |rs| - FailRun(rs) <= k < |rs| ==> rs[k].None?
    ensures FailRun(rs) < |rs| ==> rs[|rs| - 1 - FailRun(rs)].Some?
  {
    if rs != [] && rs[|rs| - 1].None? {
      var init := rs[..|rs| - 1];
      FailRunIsTrailingFailures(init);
      assert forall k :: 0 <= k < |init| ==> init[k] == rs[k];
    }
  }

  /** No prefix of the answers ends in 10 failed reads. */
  predicate Survives(rs: seq<BusRead>)
  {
    forall j :: 0 <= j <= |rs| ==> FailRun(rs[..j]) < MAX_CONSECUTIVE_ERRORS
  }

  /** One more read that does not complete ten failures keeps the run alive. */
  lemma SurvivesExtend(rs: seq<BusRead>, i: nat)
    requires i < |rs|
    requires Survives(rs[..i])
    requires FailRun(rs[..i + 1]) < MAX_CONSECUTIVE_ERRORS
    ensures Survives(rs[..i + 1])
  {
    var p := rs[..i + 1];
    forall j | 0 <= j <= |p|
      ensures FailRun(p[..j]) < MAX_CONSECUTIVE_ERRORS
    {
      if j <= i {
        assert p[..j] == rs[..i][..j];
      } else {
        assert p[..j] == p;
      }
    }
  }

  /** The list `capture` fills: each sample is the held value after its read. */
  function Filled(rs: seq<BusRead>): (s: seq<int>)
    ensures |s| == |rs|
  {
    seq(|rs|, i requires 0 <= i < |rs| => HeldValue(rs[..i + 1]))
  }

  /** The sampling loop: every sample filled, or the run aborted by the 10th
      consecutive failure. */
  function SampleLoop(rs: seq<BusRead>): Result<seq<int>, AdsError>
  {
    if Survives(rs) then Ok(Filled(rs)) else Err(TooManyErrors)
  }

  /** A sample is the conversion it read when the read succeeded; a failed
      read repeats the previous sample, and the first sample of a capture
      falls back to 0. */
  lemma FilledRepeatsLastGood(rs: seq<BusRead>, i: nat)
    requires i < |rs|
    ensures rs[i].Some? ==> Filled(rs)[i] == Signed16(rs[i].value.0, rs[i].value.1)
    ensures rs[i].None? && i == 0 ==> Filled(rs)[i] == 0
    ensures rs[i].None? && i > 0 ==> Filled(rs)[i] == Filled(rs)[i - 1]
  {
    assert rs[..i + 1][..i] == rs[..i];
    if i == 0 && rs[0].None? {
      var p := rs[..1];
      assert p[|p| - 1] == rs[0];
      assert p[..|p| - 1] == [];
      assert LastAnswer(p) == None;
    }
  }

  /** The ten reads starting at index `i` all fail. */
  predicate TenFailuresAt(rs: seq<BusRead>, i: int)
  {
    0 <= i && i + MAX_CONSECUTIVE_ERRORS <= |rs| &&
    forall k :: i <= k < i + MAX_CONSECUTIVE_ERRORS ==> rs[k].None?
  }

  /** Capture survives exactly when no ten consecutive reads fail. */
  lemma {:induction false} SurvivesIffNoTenFailures(rs: seq<BusRead>)
    ensures Survives(rs) <==> !exists i :: TenFailuresAt(rs, i)
  {
    if Survives(rs) {
      if i :| TenFailuresAt(rs, i) {
        var j := i + MAX_CONSECUTIVE_ERRORS;
        var p := rs[..j];
        assert forall k :: i <= k < j ==> p[k].None?;
        TrailingFailures(p, MAX_CONSECUTIVE_ERRORS);
        assert false;
      }
    } else {
      var j :| 0 <= j <= |rs| && FailRun(rs[..j]) >= MAX_CONSECUTIVE_ERRORS;
      var p := rs[..j];
      FailRunIsTrailingFailures(p);
      var i := j - MAX_CONSECUTIVE_ERRORS;
      assert forall k :: i <= k < j ==> p[k].None?;
      assert TenFailuresAt(rs, i);
    }
  }

  /** When the last `n` answers failed, the failure run is at least `n`. */
  lemma {:induction false} TrailingFailures(rs: seq<BusRead>, n: nat)
    requires n <= |rs|
    requires forall k :: |rs| - n <= k < |rs| ==> rs[k].None?
    ensures FailRun(rs) >= n
  {
    if n > 0 {
      var init := rs[..|rs| - 1];
      assert forall k :: |init| - (n - 1) <= k < |init| ==> init[k] == rs[k];
      TrailingFailures(init, n - 1);
    }
  }

  /** `capture` as the source has it: the config write, the rate lookup it
      divides by, the full-scale lookup, the sampling loop, and the final
      single-shot write. A failure of that final write raises, because
      `_write_config` turns OSError into RuntimeError, which the
      `except OSError` around it does not catch. */
  function CaptureAsWritten(gain: bv16, rate: bv16, firstAck: bool,
                            rs: seq<BusRead>, finalAck: bool): Result<seq<int>, AdsError>
  {
    if !firstAck then Err(WriteFailed)
    else if RateSps(rate) == 0 then Err(ZeroRate)
    else if !IsPgaCode(gain) then Err(UnknownGain)
    else match SampleLoop(rs)
      case Err(e) => Err(e)
      case Ok(s) => if finalAck then Ok(s) else Err(WriteFailed)
  }

  /** `capture` as its comment intends: a failed return to single-shot mode
      is only logged, and the samples are still returned. */
  function CaptureIntended(gain: bv16, rate: bv16, firstAck: bool,
                           rs: seq<BusRead>, finalAck: bool): (r: Result<seq<int>, AdsError>)
    ensures r.Ok? <==> firstAck && IsRateCode(rate) && IsPgaCode(gain) && Survives(rs)
    ensures r.Ok? ==> r.value == Filled(rs)
  {
    if !firstAck then Err(WriteFailed)
    else if RateSps(rate) == 0 then Err(ZeroRate)
    else if !IsPgaCode(gain) then Err(UnknownGain)
    else SampleLoop(rs)
  }

  /** Every input on which the final write fails after a clean run loses the
      samples as written, though the intended capture returns them. */
  lemma FinalWriteFailureLosesSamples(gain: bv16, rate: bv16, rs: seq<BusRead>)
    requires IsPgaCode(gain) && IsRateCode(rate) && Survives(rs)
    ensures CaptureAsWritten(gain, rate, true, rs, false) == Err(WriteFailed)
    ensures CaptureIntended(gain, rate, true, rs, false) == Ok(Filled(rs))
  {
  }

  /** The intended capture does not depend on the final write at all. */
  lemma CaptureIntendedIgnoresFinalWrite(gain: bv16, rate: bv16, firstAck: bool, rs: seq<BusRead>)
    ensures CaptureIntended(gain, rate, firstAck, rs, false) ==
            CaptureIntended(gain, rate, firstAck, rs, true)
  {
  }

  /** Apart from the final write, the source and the intended capture agree. */
  lemma CaptureAgreesWhenFinalWriteSucceeds(gain: bv16, rate: bv16, firstAck: bool, rs: seq<BusRead>)
    ensures CaptureAsWritten(gain, rate, firstAck, rs, true) ==
            CaptureIntended(gain, rate, firstAck, rs, true)
  {
  }

  // ---------------------------------------------------------------------
  // The driver object

  class Adc {
    const address: int
    var gain: bv16
    var rate: bv16
    /** The two-byte bus buffer every register access goes through. */
    const buf2: array<Byte>
    /** Every word handed to `_write_config`, in order. */
    var configWrites: seq<bv16>

    ghost predicate Valid()
      reads this
    {
      buf2.Length == 2
    }

    constructor (address: int)
      ensures Valid() && fresh(buf2)
      ensures this.address == address
      ensures gain == PGA_4096 && rate == DR_860 && configWrites == []
    {
      this.address := address;
      gain := PGA_4096;
      rate := DR_860;
      buf2 := new Byte[2];
      configWrites := [];
    }

    /** `_write_config`: split the word into the buffer, high byte first,
        and write it to the config register. */
    method WriteConfig(config: bv16, ack: bool) returns (r: Outcome<AdsError>)
      requires Valid()
      modifies this`configWrites, buf2
      ensures buf2[..] == [High(config), Low(config)]
      ensures configWrites == old(configWrites) + [config]
      ensures r == if ack then Pass else Fail(WriteFailed)
    {
      buf2[0] := High(config);
      buf2[1] := Low(config);
      configWrites := configWrites + [config];
      r := if ack then Pass else Fail(WriteFailed);
    }

    /** `_read_config`: read the config register into the buffer and join
        the bytes. */
    method ReadConfig(answer: BusRead) returns (r: Result<bv16, AdsError>)
      requires Valid()
      modifies buf2
      ensures answer.None? ==> r == Err(ReadFailed) && buf2[..] == old(buf2[..])
      ensures answer.Some? ==>
        buf2[..] == [answer.value.0, answer.value.1] &&
        r == Ok(Join16(answer.value.0, answer.value.1))
    {
      if answer.None? {
        return Err(ReadFailed);
      }
      buf2[0], buf2[1] := answer.value.0, answer.value.1;
      r := Ok(Join16(buf2[0], buf2[1]));
    }

    /** `_read_conversion`: read the conversion register as a signed 16-bit
        count. */
    method ReadConversion(answer: BusRead) returns (r: Result<int, AdsError>)
      requires Valid()
      modifies buf2
      ensures r == Conversion(answer)
      ensures answer.Some? ==> buf2[..] == [answer.value.0, answer.value.1]
      ensures answer.None? ==> buf2[..] == old(buf2[..])
    {
      if answer.None? {
        return Err(ReadFailed);
      }
      buf2[0], buf2[1] := answer.value.0, answer.value.1;
      r := Ok(Signed16(buf2[0], buf2[1]));
    }

    /** `read_raw`: start a single-shot conversion of AINx against ground,
        wait for it, and read the count. */
    method ReadRaw(channel: int, ack: bool, wait: Wait, answer: BusRead)
      returns (r: Result<int, AdsError>)
      requires Valid()
      modifies this`configWrites, buf2
      ensures configWrites == old(configWrites) + [SingleShotConfig(SingleEndedMux(channel), gain, rate)]
      ensures r == MeasureOutcome(ack, wait, answer)
      ensures !ack ==>
        var config := SingleShotConfig(SingleEndedMux(channel), gain, rate);
        buf2[..] == [High(config), Low(config)]
      ensures r.Ok? ==> buf2[..] == [answer.value.0, answer.value.1]
    {
      var config := SingleShotConfig(SingleEndedMux(channel), gain, rate);
      r := Measure(config, ack, wait, answer);
    }

    /** `read_differential_raw`: like `read_raw` for one of the four
        differential pairs; any other pair raises before the bus is used. */
    method ReadDifferentialRaw(pos: int, neg: int, ack: bool, wait: Wait, answer: BusRead)
      returns (r: Result<int, AdsError>)
      requires Valid()
      modifies this`configWrites, buf2
      ensures DifferentialMux(pos, neg).None? ==>
        r == Err(InvalidPair(pos, neg)) && configWrites == old(configWrites)
      ensures DifferentialMux(pos, neg).Some? ==>
        configWrites == old(configWrites) + [SingleShotConfig(DifferentialMux(pos, neg).value, gain, rate)] &&
        r == MeasureOutcome(ack, wait, answer)
      ensures DifferentialMux(pos, neg).None? ==> buf2[..] == old(buf2[..])
      ensures DifferentialMux(pos, neg).Some? && !ack ==>
        var config := SingleShotConfig(DifferentialMux(pos, neg).value, gain, rate);
        buf2[..] == [High(config), Low(config)]
      ensures r.Ok? ==> buf2[..] == [answer.value.0, answer.value.1]
    {
      var mux := DifferentialMux(pos, neg);
      if mux.None? {
        return Err(InvalidPair(pos, neg));
      }
      var config := SingleShotConfig(mux.value, gain, rate);
      r := Measure(config, ack, wait, answer);
    }

    /** Write a single-shot word, wait for the conversion, read it. */
    method Measure(config: bv16, ack: bool, wait: Wait, answer: BusRead)
      returns (r: Result<int, AdsError>)
      requires Valid()
      modifies this`configWrites, buf2
      ensures configWrites == old(configWrites) + [config]
      ensures r == MeasureOutcome(ack, wait, answer)
      ensures !ack ==> buf2[..] == [High(config), Low(config)]
      ensures r.Ok? ==> buf2[..] == [answer.value.0, answer.value.1]
    {
      var w := WriteConfig(config, ack);
      if w.Fail? {
        return Err(w.error);
      }
      match wait
      case TimedOut => return Err(ConversionTimeout);
      case PollFailed => return Err(ReadFailed);
      case Ready =>
      r := ReadConversion(answer);
    }

    /** `init`: take the new gain and rate when given, check the bus scan,
        test-read the config register, and look the gain up in the
        full-scale table for the start-up message. */
    method Init(gainArg: Option<bv16>, rateArg: Option<bv16>, scan: seq<int>, answer: BusRead)
      returns (r: Outcome<AdsError>)
      requires Valid()
      modifies this`gain, this`rate, buf2
      ensures gain == (if gainArg.Some? then gainArg.value else old(gain))
      ensures rate == (if rateArg.Some? then rateArg.value else old(rate))
      ensures r == (if address !in scan then Fail(NotFound)
                    else if answer.None? then Fail(ReadFailed)
                    else if !IsPgaCode(gain) then Fail(UnknownGain)
                    else Pass)
      ensures address in scan && answer.Some? ==> buf2[..] == [answer.value.0, answer.value.1]
      ensures address !in scan || answer.None? ==> buf2[..] == old(buf2[..])
    {
      if gainArg.Some? {
        gain := gainArg.value;
      }
      if rateArg.Some? {
        rate := rateArg.value;
      }
      if address !in scan {
        return Fail(NotFound);
      }
      var c := ReadConfig(answer);
      if c.Err? {
        return Fail(c.error);
      }
      if !IsPgaCode(gain) {
        return Fail(UnknownGain);
      }
      r := Pass;
    }

    method SetGain(g: bv16)
      modifies this`gain
      ensures gain == g
    {
      gain := g;
    }

    method SetRate(d: bv16)
      modifies this`rate
      ensures rate == d
    {
      rate := d;
    }

    /** `capture`: one bus answer per sample in `answers`. */
    method Capture(channel: int, firstAck: bool, answers: seq<BusRead>, finalAck: bool)
      returns (r: Result<seq<int>, AdsError>)
      requires Valid()
      modifies this`configWrites, buf2
      ensures r == CaptureIntended(gain, rate, firstAck, answers, finalAck)
      ensures configWrites == old(configWrites) +
        CaptureWrites(SingleEndedMux(channel), gain, rate,
                      firstAck && IsRateCode(rate) && IsPgaCode(gain) && Survives(answers))
    {
      var mux := SingleEndedMux(channel);
      var w := WriteConfig(ContinuousConfig(mux, gain, rate), firstAck);
      if w.Fail? {
        return Err(w.error);
      }
      if RateSps(rate) == 0 {
        return Err(ZeroRate);
      }
      if !IsPgaCode(gain) {
        return Err(UnknownGain);
      }
      r := SampleAndRestore(mux, answers, finalAck);
    }

    /** The sampling loop of `capture` followed by its return to single-shot
        mode, which is only attempted after a completed loop; a failure of
        that write is only logged. */
    method SampleAndRestore(mux: bv16, answers: seq<BusRead>, finalAck: bool)
      returns (r: Result<seq<int>, AdsError>)
      requires Valid()
      modifies this`configWrites, buf2
      ensures configWrites == old(configWrites) +
        if Survives(answers) then [IdleConfig(mux, gain, rate)] else []
      ensures r == if Survives(answers) then Ok(Filled(answers)) else Err(TooManyErrors)
    {
      var samples := SampleInto(answers);
      if samples.Err? {
        return samples;
      }
      var w := WriteConfig(IdleConfig(mux, gain, rate), finalAck);
      r := samples;
    }

    /** The sampling loop of `capture`: fill a fresh list, repeating the last
        good value on a failed read, and stop at the 10th failure in a row. */
    method SampleInto(answers: seq<BusRead>) returns (r: Result<seq<int>, AdsError>)
      requires Valid()
      modifies buf2
      ensures r == SampleLoop(answers)
    {
      var results := new int[|answers|];
      var consecutiveErrors: nat := 0;
      var lastGood := 0;
      for i := 0 to |answers|
        invariant forall k :: 0 <= k < i ==> results[k] == HeldValue(answers[..k + 1])
        invariant lastGood == HeldValue(answers[..i])
        invariant consecutiveErrors == FailRun(answers[..i])
        invariant Survives(answers[..i])
      {
        assert answers[..i + 1][..i] == answers[..i];
        if answers[i].Some? {
          buf2[0], buf2[1] := answers[i].value.0, answers[i].value.1;
          results[i] := Signed16(buf2[0], buf2[1]);
          lastGood := results[i];
          consecutiveErrors := 0;
        } else {
          results[i] := lastGood;
          consecutiveErrors := consecutiveErrors + 1;
          if consecutiveErrors >= MAX_CONSECUTIVE_ERRORS {
            assert !Survives(answers) by {
              assert answers[..i + 1] == answers[..i + 1];
            }
            return Err(TooManyErrors);
          }
        }
        SurvivesExtend(answers, i);
      }
      assert answers[..|answers|] == answers;
      assert results[..] == Filled(answers);
      r := Ok(results[..]);
    }
  }

  /** The words `capture` writes: the continuous-mode word, then the
      single-shot word once the sampling loop has completed. */
  function CaptureWrites(mux: bv16, gain: bv16, rate: bv16, completed: bool): seq<bv16>
  {
    [ContinuousConfig(mux, gain, rate)] + if completed then [IdleConfig(mux, gain, rate)] else []
  }

  /** What a completed conversion read yields. */
  function Conversion(answer: BusRead): (r: Result<int, AdsError>)
    ensures r.Ok? ==> -0x8000 <= r.value < 0x8000
    ensures r.Err? <==> answer.None?
  {
    match answer
    case None => Err(ReadFailed)
    case Some(b) => Ok(Signed16(b.0, b.1))
  }

  /** The result of a single-shot measurement: the write, the wait, the read. */
  function MeasureOutcome(ack: bool, wait: Wait, answer: BusRead): Result<int, AdsError>
  {
    if !ack then Err(WriteFailed)
    else match wait
      case TimedOut => Err(ConversionTimeout)
      case PollFailed => Err(ReadFailed)
      case Ready => Conversion(answer)
  }
}
