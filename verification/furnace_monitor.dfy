/** The decision logic of the furnace monitor: the 4-20 mA control-signal
    mapping, the flicker and thermoacoustic peak search and the flame
    status rules, the error counters of the monitoring loop and what it
    sends, and the retry loops of hardware initialization.

    Voltages, frequencies and magnitudes are exact `real`s; the spectrum and
    its RMS amplitude are inputs. */
module FurnaceMonitor {
  import opened Wrappers
  import Fft

  // ---------------------------------------------------------------------
  // Control signal

  const SENSE_RESISTANCE: real := 100.0
  const MA_MIN: real := 4.0
  const MA_MAX: real := 20.0

  /** Loop current in mA for the voltage across the sense resistor. */
  function Milliamps(voltage: real): (ma: real)
    ensures ma == voltage * 10.0
  {
    (voltage / SENSE_RESISTANCE) * 1000.0
  }

  /** The demand in percent: 0 below 4 mA, 100 above 20 mA, linear in
      between. */
  function Percent(ma: real): (p: real)
    ensures 0.0 <= p <= 100.0
    ensures MA_MIN <= ma <= MA_MAX ==> p * 16.0 == (ma - MA_MIN) * 100.0
  {
    if ma < MA_MIN then 0.0
    else if ma > MA_MAX then 100.0
    else ((ma - MA_MIN) / (MA_MAX - MA_MIN)) * 100.0
  }

  /** More current never means less demand. */
  lemma PercentMonotonic(a: real, b: real)
    requires a <= b
    ensures Percent(a) <= Percent(b)
  {
  }

  /** The ends of the range meet the clamps: 4 mA is 0 %, 20 mA is 100 %. */
  lemma PercentEnds()
    ensures Percent(MA_MIN) == 0.0 && Percent(MA_MAX) == 100.0
  {
  }

  /** `read_control_signal`: (voltage, percent, milliamps). */
  datatype Control = Control(voltage: real, percent: real, milliamps: real)

  function ReadControl(voltage: real): (c: Control)
    ensures c.voltage == voltage && c.milliamps == voltage * 10.0
    ensures 0.0 <= c.percent <= 100.0
  {
    var ma := Milliamps(voltage);
    Control(voltage, Percent(ma), ma)
  }

  // ---------------------------------------------------------------------
  // Flame analysis

  const FLICKER_FREQ_MIN: real := 1.0
  const FLICKER_FREQ_MAX: real := 20.0
  const THERMOACOUSTIC_FREQ_MIN: real := 30.0
  const THERMOACOUSTIC_FREQ_MAX: real := 400.0
  const MIN_SIGNAL_RMS: real := 0.001

  datatype Status = NoSignal | Normal | Unstable | Check | Error

  datatype Warning =
    | WeakSignal(rms: real)       // Signal too weak
    | LowFlicker                  // Low flicker - possible flame lift
    | NoFlicker                   // No flicker detected
    | Thermoacoustic(freq: real)  // Thermoacoustic at <freq> Hz

  /** A spectral peak: its frequency and magnitude. */
  datatype Peak = Peak(freq: real, mag: real)

  /** The dictionary `analyze_flame` returns. */
  datatype Analysis = Analysis(flicker: Peak, thermo: Peak, rms: real,
                               status: Status, warnings: seq<Warning>)

  /** The pairs `zip(frequencies, magnitudes)` walks: as many as the shorter
      list has. */
  function Pairs(freqs: seq<real>, mags: seq<real>): (n: nat)
    ensures n <= |freqs| && n <= |mags|
    ensures n == |freqs| || n == |mags|
  {
    if |freqs| < |mags| then |freqs| else |mags|
  }

  /** The peak search over the first `n` pairs: a bin inside [lo, hi]
      replaces the peak when its magnitude is strictly larger; the peak
      starts at frequency 0, magnitude 0. */
  function BandPeak(freqs: seq<real>, mags: seq<real>, lo: real, hi: real, n: nat): Peak
    requires n <= |freqs| && n <= |mags|
  {
    if n == 0 then Peak(0.0, 0.0)
    else
      var p := BandPeak(freqs, mags, lo, hi, n - 1);
      if lo <= freqs[n - 1] <= hi && mags[n - 1] > p.mag
      then Peak(freqs[n - 1], mags[n - 1])
      else p
  }

  /** Bin `k` is in the band, carries the largest in-band magnitude among
      the first `n` bins, and every in-band bin before it is strictly
      smaller. */
  predicate FirstMaximumAt(freqs: seq<real>, mags: seq<real>, lo: real, hi: real, n: nat, k: nat)
    requires n <= |freqs| && n <= |mags|
  {
    k < n && lo <= freqs[k] <= hi &&
    (forall j :: 0 <= j < n && lo <= freqs[j] <= hi ==> mags[j] <= mags[k]) &&
    (forall j :: 0 <= j < k && lo <= freqs[j] <= hi ==> mags[j] < mags[k])
  }

  /** The reported peak is the first strictly largest in-band bin when some
      in-band magnitude is positive, and stays (0, 0) otherwise. */
  lemma {:induction false} BandPeakIsFirstMaximum(freqs: seq<real>, mags: seq<real>,
                                                  lo: real, hi: real, n: nat)
    requires n <= |freqs| && n <= |mags|
    ensures var p := BandPeak(freqs, mags, lo, hi, n);
      p.mag >= 0.0 &&
      (forall j :: 0 <= j < n && lo <= freqs[j] <= hi ==> mags[j] <= p.mag) &&
      (p.mag == 0.0 ==> p.freq == 0.0) &&
      (p.mag > 0.0 ==> exists k: nat :: FirstMaximumAt(freqs, mags, lo, hi, n, k) &&
                                   p == Peak(freqs[k], mags[k]))
  {
    if n > 0 {
      BandPeakIsFirstMaximum(freqs, mags, lo, hi, n - 1);
      var p := BandPeak(freqs, mags, lo, hi, n - 1);
      if lo <= freqs[n - 1] <= hi && mags[n - 1] > p.mag {
        assert FirstMaximumAt(freqs, mags, lo, hi, n, n - 1);
      } else if p.mag > 0.0 {
        var k: nat :| FirstMaximumAt(freqs, mags, lo, hi, n - 1, k) && p == Peak(freqs[k], mags[k]);
        assert FirstMaximumAt(freqs, mags, lo, hi, n, k);
      }
    }
  }

  /** The status and warnings for a flicker peak, when the signal is strong
      enough. */
  function FlickerStatus(flickerFreq: real): (s: (Status, seq<Warning>))
    ensures s.0 == Normal <==> 8.0 <= flickerFreq <= 12.0
    ensures s.0 == Unstable <==> 0.0 < flickerFreq < 5.0
    ensures s.0 == Check <==> 5.0 <= flickerFreq && !(8.0 <= flickerFreq <= 12.0)
    ensures s.0 == NoSignal <==> flickerFreq <= 0.0
    ensures s.0 == Unstable ==> s.1 == [LowFlicker]
    ensures s.0 == NoSignal ==> s.1 == [NoFlicker]
    ensures s.0 in {Normal, Check} ==> s.1 == []
  {
    if flickerFreq > 0.0 then
      if 8.0 <= flickerFreq <= 12.0 then (Normal, [])
      else if flickerFreq < 5.0 then (Unstable, [LowFlicker])
      else (Check, [])
    else (NoSignal, [NoFlicker])
  }

  /** The classification at the end of `analyze_flame`: a weak signal stops
      with one warning; otherwise the flicker status, plus a thermoacoustic
      warning when that peak exceeds half the flicker peak. */
  function Classify(flicker: Peak, thermo: Peak, rms: real): (s: (Status, seq<Warning>))
    ensures rms < MIN_SIGNAL_RMS ==> s == (NoSignal, [WeakSignal(rms)])
    ensures rms >= MIN_SIGNAL_RMS ==> s.0 == FlickerStatus(flicker.freq).0
    ensures rms >= MIN_SIGNAL_RMS ==>
      (Thermoacoustic(thermo.freq) in s.1 <==> thermo.mag > flicker.mag * 0.5)
    ensures rms >= MIN_SIGNAL_RMS ==>
      s.1 == (if s.0 == Unstable then [LowFlicker] else if s.0 == NoSignal then [NoFlicker] else []) +
             (if thermo.mag > flicker.mag * 0.5 then [Thermoacoustic(thermo.freq)] else [])
    ensures 1 <= |s.1| <= 2 || s.0 in {Normal, Check}
  {
    if rms < MIN_SIGNAL_RMS then (NoSignal, [WeakSignal(rms)])
    else
      var (status, warnings) := FlickerStatus(flicker.freq);
      if thermo.mag > flicker.mag * 0.5
      then (status, warnings + [Thermoacoustic(thermo.freq)])
      else (status, warnings)
  }

  /** `analyze_flame` as a function of the spectrum and its RMS amplitude. */
  function AnalysisOf(freqs: seq<real>, mags: seq<real>, rms: real): Analysis
  {
    var n := Pairs(freqs, mags);
    var flicker := BandPeak(freqs, mags, FLICKER_FREQ_MIN, FLICKER_FREQ_MAX, n);
    var thermo := BandPeak(freqs, mags, THERMOACOUSTIC_FREQ_MIN, THERMOACOUSTIC_FREQ_MAX, n);
    var (status, warnings) := Classify(flicker, thermo, rms);
    Analysis(flicker, thermo, rms, status, warnings)
  }

  /** A flicker peak is either absent (frequency 0) or inside 1..20 Hz, so a
      strong signal is `no_signal` exactly when no in-band magnitude is
      positive. */
  lemma NoFlickerMeansNoPeak(freqs: seq<real>, mags: seq<real>, rms: real)
    requires rms >= MIN_SIGNAL_RMS
    ensures var a := AnalysisOf(freqs, mags, rms);
      a.status == NoSignal <==> a.flicker.mag == 0.0
  {
    var n := Pairs(freqs, mags);
    BandPeakIsFirstMaximum(freqs, mags, FLICKER_FREQ_MIN, FLICKER_FREQ_MAX, n);
  }

  /** What can go wrong in `analyze_flame`: the RMS divides by the number of
      magnitudes. */
  datatype FlameError = EmptySpectrum

  /** `analyze_flame`: two scans over the spectrum, then classification. */
  method AnalyzeFlame(freqs: seq<real>, mags: seq<real>, rms: real)
    returns (r: Result<Analysis, FlameError>)
    ensures |mags| == 0 ==> r == Err(EmptySpectrum)
    ensures |mags| > 0 ==> r == Ok(AnalysisOf(freqs, mags, rms))
  {
    var n := Pairs(freqs, mags);
    var flickerFreq, flickerMag := 0.0, 0.0;
    for i := 0 to n
      invariant Peak(flickerFreq, flickerMag) ==
                BandPeak(freqs, mags, FLICKER_FREQ_MIN, FLICKER_FREQ_MAX, i)
    {
      if FLICKER_FREQ_MIN <= freqs[i] <= FLICKER_FREQ_MAX && mags[i] > flickerMag {
        flickerMag := mags[i];
        flickerFreq := freqs[i];
      }
    }
    var thermoFreq, thermoMag := 0.0, 0.0;
    for i := 0 to n
      invariant Peak(thermoFreq, thermoMag) ==
                BandPeak(freqs, mags, THERMOACOUSTIC_FREQ_MIN, THERMOACOUSTIC_FREQ_MAX, i)
    {
      if THERMOACOUSTIC_FREQ_MIN <= freqs[i] <= THERMOACOUSTIC_FREQ_MAX && mags[i] > thermoMag {
        thermoMag := mags[i];
        thermoFreq := freqs[i];
      }
    }
    if |mags| == 0 {
      return Err(EmptySpectrum);
    }
    var flicker, thermo := Peak(flickerFreq, flickerMag), Peak(thermoFreq, thermoMag);
    var (status, warnings) := Classify(flicker, thermo, rms);
    r := Ok(Analysis(flicker, thermo, rms, status, warnings));
  }

  // ---------------------------------------------------------------------
  // The monitoring loop

  /** One pass of `monitor`: the control reading (the voltage, or None when
      it raised) and the flame analysis (None when the capture or the
      analysis raised). */
  datatype Iteration = Iteration(voltage: Option<real>, flame: Option<Analysis>)

  /** The JSON object sent over UDP. */
  datatype Packet = Packet(flame: Analysis, control: Control)

  /** The steps of one pass that raised. Sending never raises: `send_data`
      catches every exception itself. */
  function Failures(it: Iteration): (k: nat)
    ensures k <= 2
    ensures k == 0 <==> it.voltage.Some? && it.flame.Some?
  {
    (if it.voltage.None? then 1 else 0) + (if it.flame.None? then 1 else 0)
  }

  /** `error_count` after the passes `its`. */
  function TotalErrors(its: seq<Iteration>): nat
  {
    if its == [] then 0 else TotalErrors(its[..|its| - 1]) + Failures(its[|its| - 1])
  }

  /** `consecutive_errors` after the passes `its`: the passes with a failed
      step at the end. */
  function FailedRun(its: seq<Iteration>): nat
  {
    if its == [] || Failures(its[|its| - 1]) == 0 then 0
    else FailedRun(its[..|its| - 1]) + 1
  }

  /** Every failed pass adds at least one error, so the run never exceeds
      the total, and the total grows by at most two a pass. */
  lemma {:induction false} ErrorCounters(its: seq<Iteration>)
    ensures FailedRun(its) <= TotalErrors(its) <= 2 * |its|
    ensures FailedRun(its) <= |its|
  {
    if its != [] {
      ErrorCounters(its[..|its| - 1]);
    }
  }

  /** The control values a pass reports: the reading, or zeros. */
  function ControlOf(it: Iteration): Control
  {
    match it.voltage
    case Some(v) => ReadControl(v)
    case None => Control(0.0, 0.0, 0.0)
  }

  /** The flame values a pass starts from: status `error`, all zero. */
  const DEFAULT_FLAME: Analysis := Analysis(Peak(0.0, 0.0), Peak(0.0, 0.0), 0.0, Error, [])

  /** `send_data` as written: nothing without a socket, and nothing when the
      flame step failed, because the default flame dictionary lacks the
      magnitude and RMS keys and the lookup's KeyError is swallowed. */
  function SendAsWritten(it: Iteration, sockOpen: bool): (p: Option<Packet>)
    ensures p.Some? <==> sockOpen && it.flame.Some?
  {
    if !sockOpen || it.flame.None? then None
    else Some(Packet(it.flame.value, ControlOf(it)))
  }

  /** `send_data` as its defaults intend: every pass sends its control
      reading, with the `error` flame values when the flame step failed. */
  function SendIntended(it: Iteration, sockOpen: bool): (p: Option<Packet>)
    ensures p.Some? <==> sockOpen
    ensures p.Some? ==> p.value.control == ControlOf(it)
    ensures p.Some? && it.flame.None? ==> p.value.flame.status == Error
  {
    if !sockOpen then None
    else Some(Packet(if it.flame.Some? then it.flame.value else DEFAULT_FLAME, ControlOf(it)))
  }

  /** A pass whose control reading succeeded but whose flame step failed
      sends nothing as written, though the intended send reports it. */
  lemma ControlReadingLostWhenFlameFails(v: real)
    ensures SendAsWritten(Iteration(Some(v), None), true) == None
    ensures SendIntended(Iteration(Some(v), None), true) ==
            Some(Packet(DEFAULT_FLAME, ReadControl(v)))
  {
  }

  /** The two agree whenever the flame step succeeded. */
  lemma SendAgreesWhenFlameSucceeds(it: Iteration, sockOpen: bool)
    requires it.flame.Some?
    ensures SendAsWritten(it, sockOpen) == SendIntended(it, sockOpen)
  {
  }

  /** The packets of the passes `its`, in order. */
  function Sent(its: seq<Iteration>, sockOpen: bool): seq<Packet>
  {
    if its == [] then []
    else
      var p := SendIntended(its[|its| - 1], sockOpen);
      Sent(its[..|its| - 1], sockOpen) + (if p.Some? then [p.value] else [])
  }

  /** With a socket, every pass sends exactly one packet, carrying that
      pass's control values; without one nothing is sent. */
  lemma {:induction false} SentOnePerPass(its: seq<Iteration>, sockOpen: bool)
    ensures sockOpen ==> |Sent(its, sockOpen)| == |its|
    ensures sockOpen ==> forall i :: 0 <= i < |its| ==> Sent(its, sockOpen)[i].control == ControlOf(its[i])
    ensures !sockOpen ==> Sent(its, sockOpen) == []
  {
    if its != [] {
      var init := its[..|its| - 1];
      SentOnePerPass(init, sockOpen);
      if sockOpen {
        forall i | 0 <= i < |its|
          ensures Sent(its, sockOpen)[i].control == ControlOf(its[i])
        {
          if i < |init| {
            assert its[i] == init[i];
          }
        }
      }
    }
  }

  /** `monitor`: one pass per element of `its`, counting failed steps and
      runs of failed passes, and sending each pass's packet, with the
      `error` flame values when the flame step failed. */
  method Monitor(its: seq<Iteration>, sockOpen: bool)
    returns (errorCount: nat, consecutiveErrors: nat, sent: seq<Packet>)
    ensures errorCount == TotalErrors(its)
    ensures consecutiveErrors == FailedRun(its)
    ensures consecutiveErrors <= errorCount
    ensures sent == Sent(its, sockOpen)
  {
    errorCount, consecutiveErrors, sent := 0, 0, [];
    for i := 0 to |its|
      invariant errorCount == TotalErrors(its[..i])
      invariant consecutiveErrors == FailedRun(its[..i])
      invariant consecutiveErrors <= errorCount
      invariant sent == Sent(its[..i], sockOpen)
    {
      assert its[..i + 1][..i] == its[..i];
      var it := its[i];
      var loopSuccess := true;
      if it.voltage.None? {
        errorCount := errorCount + 1;
        loopSuccess := false;
      }
      if it.flame.None? {
        errorCount := errorCount + 1;
        loopSuccess := false;
      }
      var p := SendIntended(it, sockOpen);
      if p.Some? {
        sent := sent + [p.value];
      }
      if loopSuccess {
        consecutiveErrors := 0;
      } else {
        consecutiveErrors := consecutiveErrors + 1;
      }
    }
    assert its[..|its|] == its;
  }

  // ---------------------------------------------------------------------
  // Initialization with retries

  /** The sleeps after `k` failed attempts: 1, 2, 4, ... seconds. */
  function Backoff(k: nat): (s: seq<nat>)
    ensures |s| == k
    ensures forall i :: 0 <= i < k ==> s[i] == Fft.Pow2(i)
  {
    seq(k, i requires 0 <= i < k => Fft.Pow2(i))
  }

  /** Some attempt below `maxRetries` succeeds. */
  predicate Succeeds(ok: nat -> bool, maxRetries: int)
  {
    exists a :: 0 <= a < maxRetries && ok(a)
  }

  /** The first attempt in `from..n` that succeeds, or `n` when none does. */
  function FirstSuccess(ok: nat -> bool, from: nat, n: nat): (f: nat)
    requires from <= n
    ensures from <= f <= n
    ensures forall a :: from <= a < f ==> !ok(a)
    ensures f < n ==> ok(f)
    decreases n - from
  {
    if from == n || ok(from) then from else FirstSuccess(ok, from + 1, n)
  }

  /** The sleeps a flame or control retry loop takes, read off the attempts:
      one per failure before the first success, and none after the last
      allowed attempt. */
  function RetrySleeps(ok: nat -> bool, maxRetries: int): seq<nat>
  {
    if maxRetries <= 0 then []
    else
      var f := FirstSuccess(ok, 0, maxRetries);
      Backoff(if f < maxRetries then f else maxRetries - 1)
  }

  /** The retry loop around the flame and control ADCs: attempt `a` succeeds
      when `ok(a)`; a failure sleeps `2 ** a` seconds unless it was the last
      attempt, which raises instead. With no attempts allowed nothing is
      tried and nothing raises. */
  method RetryInit(maxRetries: int, ok: nat -> bool)
    returns (r: Outcome<nat>, tried: nat, sleeps: seq<nat>)
    ensures r.Fail? <==> maxRetries > 0 && forall a :: 0 <= a < maxRetries ==> !ok(a)
    ensures r.Fail? ==> r.error == maxRetries && tried == maxRetries
    ensures r.Pass? && maxRetries > 0 ==> 0 < tried <= maxRetries && ok(tried - 1)
    ensures maxRetries <= 0 ==> r.Pass? && tried == 0
    ensures forall a :: 0 <= a < tried - 1 ==> !ok(a)
    ensures sleeps == Backoff(if tried == 0 then 0 else tried - 1)
    ensures sleeps == RetrySleeps(ok, maxRetries)
    ensures r.Pass? && tried > 0 <==> Succeeds(ok, maxRetries)
  {
    tried, sleeps := 0, [];
    for attempt := 0 to if maxRetries < 0 then 0 else maxRetries
      invariant tried == attempt
      invariant maxRetries > 0 ==> attempt < maxRetries
      invariant forall a :: 0 <= a < attempt ==> !ok(a)
      invariant sleeps == Backoff(attempt)
    {
      tried := attempt + 1;
      if ok(attempt) {
        assert forall a :: 0 <= a < tried - 1 ==> !ok(a);
        return Pass, tried, Backoff(attempt);
      }
      if attempt < maxRetries - 1 {
        sleeps := sleeps + [Fft.Pow2(attempt)];
        assert sleeps == Backoff(attempt + 1);
      } else {
        return Fail(maxRetries), tried, sleeps;
      }
    }
    r := Pass;
  }

  /** How one `setup_wifi` call ends. */
  datatype WifiAttempt = Connected | NotConnected | Raised

  /** The sleeps of the WiFi retry loop over its first `k` attempts:
      `2 ** a` seconds after each attempt `a` that raised, except the last
      allowed one. */
  function WifiSleeps(attempt: nat -> WifiAttempt, maxRetries: int, k: nat): seq<nat>
  {
    if k == 0 then []
    else WifiSleeps(attempt, maxRetries, k - 1) +
         (if attempt(k - 1) == Raised && k - 1 < maxRetries - 1 then [Fft.Pow2(k - 1)] else [])
  }

  /** The first attempt in `from..n` that connects, or `n` when none does. */
  function FirstConnection(attempt: nat -> WifiAttempt, from: nat, n: nat): (f: nat)
    requires from <= n
    ensures from <= f <= n
    ensures forall a :: from <= a < f ==> attempt(a) != Connected
    ensures f < n ==> attempt(f) == Connected
    decreases n - from
  {
    if from == n || attempt(from) == Connected then from else FirstConnection(attempt, from + 1, n)
  }

  /** The sleeps of the whole WiFi retry loop, read off the attempts: it stops
      after the first connection or after the last allowed attempt. */
  function WifiRetrySleeps(attempt: nat -> WifiAttempt, maxRetries: int): seq<nat>
  {
    var n := if maxRetries < 0 then 0 else maxRetries;
    var f := FirstConnection(attempt, 0, n);
    WifiSleeps(attempt, maxRetries, if f < n then f + 1 else n)
  }

  /** The WiFi retry loop: stop at the first connection; sleep only after an
      attempt that raised. A plain failure retries at once. */
  method RetryWifi(maxRetries: int, attempt: nat -> WifiAttempt)
    returns (connected: bool, tried: nat, sleeps: seq<nat>)
    ensures connected <==> exists a :: 0 <= a < maxRetries && attempt(a) == Connected
    ensures connected ==> tried > 0 && attempt(tried - 1) == Connected
    ensures forall a :: 0 <= a < tried - 1 ==> attempt(a) != Connected
    ensures !connected ==> tried == (if maxRetries < 0 then 0 else maxRetries)
    ensures sleeps == WifiSleeps(attempt, maxRetries, tried)
    ensures sleeps == WifiRetrySleeps(attempt, maxRetries)
  {
    connected, tried, sleeps := false, 0, [];
    var n := if maxRetries < 0 then 0 else maxRetries;
    for a := 0 to n
      invariant tried == a && !connected
      invariant forall b :: 0 <= b < a ==> attempt(b) != Connected
      invariant sleeps == WifiSleeps(attempt, maxRetries, a)
    {
      tried := a + 1;
      match attempt(a)
      case Connected =>
        connected := true;
        return;
      case NotConnected =>
      case Raised =>
        if a < maxRetries - 1 {
          sleeps := sleeps + [Fft.Pow2(a)];
        }
    }
  }

  /** A WiFi attempt that returns without connecting is retried with no
      sleep at all; only raised attempts back off, and never more than the
      flame and control retry loops do. */
  lemma {:induction false} WifiSleepsAtMostBackoff(attempt: nat -> WifiAttempt, maxRetries: int, k: nat)
    ensures |WifiSleeps(attempt, maxRetries, k)| <= k
    ensures (forall a :: 0 <= a < k ==> attempt(a) != Raised) ==>
      WifiSleeps(attempt, maxRetries, k) == []
    ensures k <= maxRetries - 1 && (forall a :: 0 <= a < k ==> attempt(a) == Raised) ==>
      WifiSleeps(attempt, maxRetries, k) == Backoff(k)
  {
    if k > 0 {
      WifiSleepsAtMostBackoff(attempt, maxRetries, k - 1);
    }
  }

  /** Python truthiness of an optional string setting. */
  predicate Given(s: Option<string>)
  {
    s.Some? && s.value != ""
  }

  /** Why `init` raises. */
  datatype InitError = FlameSensorFailed(attempts: int) | ControlSignalFailed(attempts: int)

  class Furnace {
    const ssid: Option<string>
    const password: Option<string>
    var wifiConnected: bool
    var flameReady: bool
    var controlReady: bool
    /** Every `time.sleep` of `init`, in seconds. */
    var sleeps: seq<nat>

    constructor (ssid: Option<string>, password: Option<string>)
      ensures this.ssid == ssid && this.password == password
      ensures !wifiConnected && !flameReady && !controlReady && sleeps == []
    {
      this.ssid := ssid;
      this.password := password;
      wifiConnected, flameReady, controlReady := false, false, false;
      sleeps := [];
    }

    /** The WiFi part of `init`, run only when both credentials are given.
        The flag takes the result of the last attempt that returned, and
        keeps its old value when every attempt raised. */
    method ConnectWifi(maxRetries: int, wifi: nat -> WifiAttempt)
      modifies this`wifiConnected, this`sleeps
      ensures Given(ssid) && Given(password) ==>
        wifiConnected ==
          ((exists a :: 0 <= a < maxRetries && wifi(a) == Connected) ||
           (old(wifiConnected) && forall a :: 0 <= a < maxRetries ==> wifi(a) == Raised))
      ensures !(Given(ssid) && Given(password)) ==> wifiConnected == old(wifiConnected)
      ensures sleeps == old(sleeps) +
        (if Given(ssid) && Given(password) then WifiRetrySleeps(wifi, maxRetries) else [])
    {
      if Given(ssid) && Given(password) {
        var connected, tried, w := RetryWifi(maxRetries, wifi);
        // An attempt that raised leaves the flag as it was.
        if connected || exists a :: 0 <= a < tried && wifi(a) == NotConnected {
          wifiConnected := connected;
        }
        sleeps := sleeps + w;
      }
    }

    /** `init`: WiFi, then the flame ADC, then the control ADC; a component
        that exhausts its attempts raises and stops the rest. A sensor flag
        records a successful initialisation: with no attempts allowed, or
        after a failed component, it keeps its old value. */
    method Init(maxRetries: int, wifi: nat -> WifiAttempt, flameOk: nat -> bool, controlOk: nat -> bool)
      returns (r: Outcome<InitError>)
      modifies this
      ensures Given(ssid) && Given(password) ==>
        wifiConnected ==
          ((exists a :: 0 <= a < maxRetries && wifi(a) == Connected) ||
           (old(wifiConnected) && forall a :: 0 <= a < maxRetries ==> wifi(a) == Raised))
      ensures !(Given(ssid) && Given(password)) ==> wifiConnected == old(wifiConnected)
      ensures r == Fail(FlameSensorFailed(maxRetries)) <==>
        maxRetries > 0 && forall a :: 0 <= a < maxRetries ==> !flameOk(a)
      ensures r == Fail(ControlSignalFailed(maxRetries)) <==>
        maxRetries > 0 && Succeeds(flameOk, maxRetries) &&
        forall a :: 0 <= a < maxRetries ==> !controlOk(a)
      ensures r.Pass? <==>
        maxRetries <= 0 || (Succeeds(flameOk, maxRetries) && Succeeds(controlOk, maxRetries))
      ensures flameReady == (old(flameReady) || Succeeds(flameOk, maxRetries))
      ensures controlReady ==
        (old(controlReady) || (Succeeds(flameOk, maxRetries) && Succeeds(controlOk, maxRetries)))
      ensures sleeps == old(sleeps) +
        (if Given(ssid) && Given(password) then WifiRetrySleeps(wifi, maxRetries) else []) +
        RetrySleeps(flameOk, maxRetries) +
        (if r == Fail(FlameSensorFailed(maxRetries)) then [] else RetrySleeps(controlOk, maxRetries))
    {
      ConnectWifi(maxRetries, wifi);
      var flame, tried, s := RetryInit(maxRetries, flameOk);
      sleeps := sleeps + s;
      if flame.Fail? {
        return Fail(FlameSensorFailed(maxRetries));
      }
      if tried > 0 {
        flameReady := true;
      }
      var control, triedControl, t := RetryInit(maxRetries, controlOk);
      sleeps := sleeps + t;
      if control.Fail? {
        return Fail(ControlSignalFailed(maxRetries));
      }
      if triedControl > 0 {
        controlReady := true;
      }
      r := Pass;
    }
  }
}
