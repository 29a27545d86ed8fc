# Furnace monitor firmware — a Dafny model

This project models the MicroPython firmware of an ESP32 furnace monitor. The
firmware reads a UV flame sensor and a 4–20 mA burner control signal through
two ADS1115 ADCs, and it can also read MAX31856 and MAX6675 thermocouple
converters. It classifies the flame from its flicker spectrum and sends one
UDP JSON packet per pass. At boot a failsafe counter in RTC memory guards
against a boot loop.

The model has one module per source file, plus three shared ones:

| module | file | models |
|---|---|---|
| `Wrappers` | `wrappers.dfy` | `Option`, `Result` and `Outcome` (pass, or fail with an error) |
| `Bytes` | `bytes.dfy` | bytes on the buses; 16-bit joins and splits; two's complement |
| `Decimal` | `decimal.dfy` | `str(n)` and MicroPython's `int(s)` |
| `Ads1115` | `ads1115.dfy` | `firmware/micropython/ads1115.py` |
| `Max31856` | `max31856.dfy` | `firmware/micropython/max31856.py` |
| `Max6675` | `max6675.dfy` | `firmware/micropython/max6675.py` |
| `FurnaceMonitor` | `furnace_monitor.dfy` | `firmware/micropython/furnace_monitor.py`, except `_fft` |
| `Fft` | `fft.dfy` | the guard and bit-reversal pass of `_fft` |
| `Boot` | `boot.dfy` | `firmware/micropython/boot.py` |
| `ConfigCheck` | `config_check.dfy` | `firmware/micropython/test_config.py` |

## Modelling choices

**Driver objects are classes.**
- `Ads1115.Adc`, `Max31856.Thermocouple`, `Max6675.Thermocouple`, `FurnaceMonitor.Furnace` and `Boot.Rtc` each keep the fields the source updates.
- The ADS1115 two-byte bus buffer is an `array`.
- The bit-banged SPI pins of the MAX31856 are fields. Every rising clock edge is recorded in `wire`.

**Hardware answers are parameters.**
- Each I2C or SPI read is a `BusRead`: the two bytes, or `None` when the bus raised.
- Each write is an acknowledgement.
- The MISO line is a function from edge number to level.
- The tick counter is a number.
- `setup_wifi` and the sensor initialisations are functions from attempt number to outcome.

**Integer counts are kept exact.**
- ADS1115 conversions stay signed 16-bit counts.
- MAX31856 temperatures are counts of 1/128 °C (thermocouple) and 1/64 °C (cold junction).
- MAX6675 temperatures are counts of 1/4 °C.
- The degree conversions are separate functions over `real`. Their factors are exact: 0.0078125 = 1/128, 0.015625 = 1/64, 0.25.

**Control signal and flame analysis are over `real`.** The spectrum and its RMS amplitude are inputs.

**The model follows what the MicroPython code does, where that differs from what its names and comments suggest.** The code sends UDP JSON to a fixed host, and that is what is modelled. Points where the behaviour is easy to misread:
- **Monitor error count.** `send_data` catches every exception itself (`furnace_monitor.py:405-406`). The send step of `monitor` therefore never fails, and `error_count` grows by 0 to 2 per pass, not by up to 3.
- **FFT guard.** `_fft`'s guard `n & (n - 1) != 0` lets `n == 0` through, because `0 & -1 == 0`.
- **Retries.** `init(max_retries)` with `max_retries <= 0` makes no attempt and raises nothing.
- **ADS1115 `init` with an unknown gain.** It raises `KeyError`, from the full-scale lookup in its start-up message.
- **ADS1115 `init` test read.** A failed test read surfaces as the driver's own "I2C read failed" `RuntimeError`. `_read_config` already converts the `OSError`, so the `except OSError` around it never fires.

## Model

| member | source | states |
|---|---|---|
| Bytes.SplitJoin | firmware/micropython/ads1115.py:180-195 | splitting a config word into high and low byte and joining `(b0 << 8) \| b1` gives the word back, and joining then splitting gives the bytes back |
| Bytes.Unsigned16 | firmware/micropython/max6675.py:79 | the big-endian join of two bytes lies in 0..65535, with the first byte as quotient by 256 and the second as remainder |
| Bytes.Signed16 | firmware/micropython/ads1115.py:203-206 | the two's-complement reading lies in [-32768, 32767], is negative exactly when the high byte is at least 0x80, and equals the unsigned value modulo 65536 |
| Bytes.SignBit | firmware/micropython/max31856.py:49 | testing `b & 0x80` is the same as asking whether the byte is at least 0x80 |
| Ads1115.SingleEndedMuxField | firmware/micropython/ads1115.py:229 | for channels 0..3 the mux value lies inside the mux field and selects code 4 + channel |
| Ads1115.ChannelFourSelectsDifferential01 | firmware/micropython/ads1115.py:229-231 | channel 4 is not rejected: its mux value carries into the start bit and the config word selects the AIN0-AIN1 pair |
| Ads1115.SingleShotConfigFields | firmware/micropython/ads1115.py:230-231 | the single-shot word has the start bit, the single-shot mode bit and comparator bits 0b11 set, and mux, gain and rate fields that fit their places read back unchanged |
| Ads1115.ContinuousConfigFields | firmware/micropython/ads1115.py:322-323 | the continuous-mode word of `capture` has start bit and mode bit clear, comparator disabled, and mux, gain and rate read back unchanged |
| Ads1115.IdleConfigFields | firmware/micropython/ads1115.py:369-370 | the word `capture` writes at the end has the single-shot mode bit set and the same mux, gain and rate fields |
| Ads1115.IdleIsContinuousPlusSingleShot | firmware/micropython/ads1115.py:369-370 | the final word of `capture` is the continuous word with only the single-shot bit added |
| Ads1115.DifferentialMux | firmware/micropython/ads1115.py:263-272 | exactly the pairs (0,1), (0,3), (1,3), (2,3) get a mux value, which fits the mux field below the single-ended codes; every other pair is refused |
| Ads1115.DifferentialMuxOrder | firmware/micropython/ads1115.py:263-270 | the four pairs map to 0x0000, 0x1000, 0x2000, 0x3000 in that order |
| Ads1115.RateSps | firmware/micropython/ads1115.py:172-178 | the rate is non-zero exactly for the eight rate codes and is one of 8, 16, 32, 64, 128, 250, 475, 860, or 0 |
| Ads1115.RateSpsIncreasing | firmware/micropython/ads1115.py:174-177 | a higher rate code gives strictly more samples per second |
| Ads1115.FailRunIsTrailingFailures | firmware/micropython/ads1115.py:344-363 | the loop's `consecutive_errors` counts exactly the failed reads at the end of the run so far |
| Ads1115.Filled | firmware/micropython/ads1115.py:338 | a completed capture returns exactly one value per requested sample |
| Ads1115.FilledRepeatsLastGood | firmware/micropython/ads1115.py:347-359 | a good read stores its signed count; a failed read stores the previous entry, or 0 at the start |
| Ads1115.SurvivesIffNoTenFailures | firmware/micropython/ads1115.py:360-363 | the sampling loop completes exactly when no ten reads in a row fail |
| Ads1115.CaptureIntended | firmware/micropython/ads1115.py:304-377 | `capture` succeeds exactly when the first write is acknowledged, the rate and gain are known codes and no ten reads in a row fail, and then returns the filled samples |
| Ads1115.FinalWriteFailureLosesSamples | firmware/micropython/ads1115.py:368-376 | as written, a failed return to single-shot mode raises after a clean run; the intended capture returns the samples |
| Ads1115.CaptureIntendedIgnoresFinalWrite | firmware/micropython/ads1115.py:371-375 | the outcome of the intended capture does not depend on the final write |
| Ads1115.CaptureAgreesWhenFinalWriteSucceeds | firmware/micropython/ads1115.py:320-377 | when the final write succeeds, the code as written and the intended capture agree on every input |
| Ads1115.Conversion | firmware/micropython/ads1115.py:197-206 | a conversion read fails exactly when the bus fails, and otherwise yields a value in [-32768, 32767] |
| Ads1115.Adc.constructor | firmware/micropython/ads1115.py:127-139 | a new driver has gain ±4.096 V, rate 860 SPS, a fresh two-byte buffer and no writes |
| Ads1115.Adc.WriteConfig | firmware/micropython/ads1115.py:180-187 | the buffer holds the high byte then the low byte, the word is recorded as written, and a missing acknowledgement raises "write failed" |
| Ads1115.Adc.ReadConfig | firmware/micropython/ads1115.py:189-195 | a successful read fills the buffer with the two bytes and returns their join; a failed read raises and leaves the buffer |
| Ads1115.Adc.ReadConversion | firmware/micropython/ads1115.py:197-206 | the conversion read returns the signed count of the two bytes or raises on a bus failure |
| Ads1115.Adc.ReadRaw | firmware/micropython/ads1115.py:219-235 | `read_raw` writes the single-shot word for the channel with the current gain and rate, then fails at the write, the wait or the read, or returns the signed count; the buffer holds the written word after a failed write and the conversion bytes after a success |
| Ads1115.Adc.ReadDifferentialRaw | firmware/micropython/ads1115.py:251-279 | an invalid pair raises before anything is written or the buffer is touched; a valid pair writes its single-shot word and measures like `read_raw`, leaving the buffer as `read_raw` does |
| Ads1115.Adc.Measure | firmware/micropython/ads1115.py:274-279 | one word is written, and the outcome is the write, wait and read outcome in that order; the buffer holds the word after a failed write and the conversion bytes after a success |
| Ads1115.Adc.Init | firmware/micropython/ads1115.py:141-170 | gain and rate change only when given; the outcome is "not found" when the address is absent from the scan, else a failed test read, else an unknown gain, else success; a test read that answers leaves its bytes in the buffer, and otherwise the buffer is untouched |
| Ads1115.Adc.SetGain | firmware/micropython/ads1115.py:296-298 | the gain becomes the new value and nothing else changes |
| Ads1115.Adc.SetRate | firmware/micropython/ads1115.py:300-302 | the rate becomes the new value and nothing else changes |
| Ads1115.Adc.Capture | firmware/micropython/ads1115.py:304-377 | `capture` returns the intended outcome, and writes the continuous word and, after a completed loop, the single-shot word |
| Ads1115.Adc.SampleAndRestore | firmware/micropython/ads1115.py:344-377 | the loop's samples are returned whether or not the final single-shot write succeeds; that write happens only after a completed loop |
| Ads1115.Adc.SampleInto | firmware/micropython/ads1115.py:338-363 | the loop filling the results list computes exactly the specified samples, or the error at the tenth failure in a row |
| Max31856.Upper | firmware/micropython/max31856.py:36 | upper-casing keeps the length and upper-cases each letter in place |
| Max31856.TcCode | firmware/micropython/max31856.py:20-36 | the type code is at most 7, and 0x06 (S) for any name outside the table |
| Max31856.TcCodeLetters | firmware/micropython/max31856.py:20-23 | B, E, J, K, N, R, S, T map to 0..7, in upper and lower case |
| Max31856.TcCodeIgnoresCase | firmware/micropython/max31856.py:36 | the lookup gives the same code for a name and its upper-cased form |
| Max31856.HandleFaultIsHighestBit | firmware/micropython/max31856.py:74-90 | a zero fault byte raises nothing; any other byte raises exactly the fault of its highest set bit |
| Max31856.FaultBitInjective | firmware/micropython/max31856.py:74-90 | distinct faults stand for distinct bits |
| Max31856.ThermocoupleCount | firmware/micropython/max31856.py:46-50 | the 19-bit thermocouple count lies in [-2^18, 2^18) and is negative exactly when bit 7 of the first byte is set |
| Max31856.ThermocoupleCountIsArithmeticShift | firmware/micropython/max31856.py:46-50 | that count is the signed 24-bit register value shifted right by 5 with its sign kept |
| Max31856.ThermocoupleReading | firmware/micropython/max31856.py:41-59 | the temperature is returned exactly when the fault byte is zero; otherwise the fault of the highest set bit is raised |
| Max31856.ThermocoupleCelsius | firmware/micropython/max31856.py:52 | degrees are the count divided by 128 |
| Max31856.ThermocoupleCelsiusRange | firmware/micropython/max31856.py:46-52 | every thermocouple reading lies in [-2048, 2048) °C |
| Max31856.ColdJunctionRaw | firmware/micropython/max31856.py:66-69 | the 14-bit cold-junction value lies in [-2^13, 2^13) and is negative exactly when bit 7 of its high byte is set |
| Max31856.ColdJunctionIsArithmeticShift | firmware/micropython/max31856.py:66-69 | that value is the signed 16-bit register value shifted right by 2 with its sign kept |
| Max31856.ColdJunctionCount | firmware/micropython/max31856.py:65-71 | the cold-junction count is the unsigned offset byte plus the 14-bit value |
| Max31856.ColdJunctionCelsius | firmware/micropython/max31856.py:72 | degrees are the count divided by 64 |
| Max31856.ShiftLeftBits | firmware/micropython/max31856.py:107-108 | `byte <<= 1` moves each bit one place up and brings in a zero |
| Max31856.SendReceiveRoundTrip | firmware/micropython/max31856.py:105-118 | receiving the bits `send_byte` puts on MOSI gives the byte back |
| Max31856.ReceiveSendRoundTrip | firmware/micropython/max31856.py:112-118 | sending the byte `recv_byte` assembled puts the same eight bits back on the wire |
| Max31856.FromEightBits | firmware/micropython/max31856.py:113-118 | eight sampled bits, first bit highest, assemble into the byte with those bits |
| Max31856.WriteFrameDecodes | firmware/micropython/max31856.py:92-96 | a register write is 16 clocks with chip select low; the chip decodes a command with the write bit set naming the register, then the data byte |
| Max31856.Thermocouple.constructor | firmware/micropython/max31856.py:9-37 | the pins end idle, and the wire carries the write of 0x82 to register 0 then the type code to register 1 |
| Max31856.Thermocouple.SendByte | firmware/micropython/max31856.py:105-110 | `send_byte` makes exactly eight rising edges carrying the byte's bits, highest first, and leaves the clock low |
| Max31856.Thermocouple.Pulse | firmware/micropython/max31856.py:107-110 | one step sets MOSI and adds one rising edge carrying that bit |
| Max31856.Thermocouple.RecvByte | firmware/micropython/max31856.py:112-118 | `recv_byte` makes eight edges and returns the byte the chip drove on MISO during them |
| Max31856.Thermocouple.WriteRegister | firmware/micropython/max31856.py:92-96 | `write_register` adds exactly the write frame to the wire and returns the pins to idle |
| Max31856.Thermocouple.ReadRegisters | firmware/micropython/max31856.py:98-103 | `read_registers` sends the start register, returns exactly `count` bytes read from the following edges, and releases chip select |
| Max31856.Thermocouple.ReadThermocoupleTemp | firmware/micropython/max31856.py:41-59 | the wire carries the address byte 0x0C and then 32 clocks, and the reading decodes the four bytes clocked in after the address |
| Max31856.Thermocouple.ReadColdJunctionTemp | firmware/micropython/max31856.py:61-72 | the wire carries the address byte 0x09 and then 24 clocks, and the reading decodes the three bytes clocked in after the address |
| Max6675.TicksDiff | firmware/micropython/max6675.py:65 | `ticks_diff` lies in [-2^29, 2^29) and equals the plain difference modulo 2^30 |
| Max6675.Ticks | firmware/micropython/max6675.py:64 | the tick counter lies in [0, 2^30) |
| Max6675.TicksDiffIsElapsed | firmware/micropython/max6675.py:64-65 | within half a tick period, `ticks_diff` of two readings is the elapsed time, across a wrap too |
| Max6675.WaitMs | firmware/micropython/max6675.py:64-67 | the driver sleeps `250 - elapsed` ms when less than 250 ms elapsed, and not at all otherwise |
| Max6675.WaitKeepsMinimumGap | firmware/micropython/max6675.py:63-67 | for reads within half a tick period, the elapsed time plus the sleep is exactly 250 ms when the reads came closer, and there is no sleep otherwise |
| Max6675.WaitAfterLongIdle | firmware/micropython/max6675.py:64-67 | a read half a tick period after the last one sees a negative difference and sleeps 250 ms plus half a period |
| Max6675.Decode | firmware/micropython/max6675.py:91-107 | bit 15 is checked first, then bit 2, then bit 1, each raising its own error; otherwise the temperature is 0..4095 quarter degrees |
| Max6675.Quarters | firmware/micropython/max6675.py:106 | bits 14..3 give a value in 0..4095 |
| Max6675.DecodeFrame | firmware/micropython/max6675.py:105-107 | every temperature the chip can encode is decoded back unchanged |
| Max6675.DecodeIgnoresBitZero | firmware/micropython/max6675.py:101-106 | flipping bit 0 never changes the outcome of `read` |
| Max6675.Celsius | firmware/micropython/max6675.py:106 | degrees are a quarter of the count |
| Max6675.Fahrenheit | firmware/micropython/max6675.py:119 | Fahrenheit is `c * 9 / 5 + 32` |
| Max6675.ReadingRange | firmware/micropython/max6675.py:23-24 | a valid reading lies in 0..1023.75 °C and 32..1874.75 °F |
| Max6675.SafeReading | firmware/micropython/max6675.py:121-136 | `read_safe` reports connected exactly when `read` succeeds, with °C and the same °F formula as `read_f`, and (0, 0) otherwise |
| Max6675.Thermocouple.constructor | firmware/micropython/max6675.py:45-48 | chip select starts high and `_last_read` at 0 |
| Max6675.Thermocouple.ReadRaw | firmware/micropython/max6675.py:57-79 | `read_raw` waits as `WaitMs` says, leaves chip select high on both paths, and returns the big-endian join, updating `_last_read` only after a successful transfer |
| Max6675.Thermocouple.Read | firmware/micropython/max6675.py:81-107 | `read` returns the decoded outcome of the transfer with the same wait and chip-select behaviour |
| Max6675.Thermocouple.ReadF | firmware/micropython/max6675.py:109-119 | `read_f` fails exactly as `read` does and otherwise converts its reading to Fahrenheit; like `read`, it toggles CS low then high and updates the last-read time only on success |
| Max6675.Thermocouple.ReadSafe | firmware/micropython/max6675.py:121-136 | `read_safe` never fails and returns the safe reading of the `read` outcome; like `read`, it toggles CS low then high and updates the last-read time only on success |
| Max6675.Open | firmware/micropython/max6675.py:29-55 | the constructor's test read fails exactly when the transfer fails |
| FurnaceMonitor.Milliamps | firmware/micropython/furnace_monitor.py:355 | the loop current is ten times the voltage across the 100 Ω resistor, in mA |
| FurnaceMonitor.Percent | firmware/micropython/furnace_monitor.py:357-362 | the demand always lies in [0, 100] and is linear, `(ma - 4) / 16 * 100`, between 4 and 20 mA |
| FurnaceMonitor.PercentMonotonic | firmware/micropython/furnace_monitor.py:357-362 | more current never gives less demand |
| FurnaceMonitor.PercentEnds | firmware/micropython/furnace_monitor.py:357-362 | 4 mA is 0 % and 20 mA is 100 %, so the clamps meet the linear part |
| FurnaceMonitor.ReadControl | firmware/micropython/furnace_monitor.py:347-364 | the control reading keeps the voltage, gives ten times it in mA, and a demand in [0, 100] |
| FurnaceMonitor.Pairs | firmware/micropython/furnace_monitor.py:304 | `zip` walks as many pairs as the shorter list has |
| FurnaceMonitor.BandPeakIsFirstMaximum | firmware/micropython/furnace_monitor.py:303-315 | the peak found in a band is the first bin with the largest in-band magnitude when one is positive, and (0, 0) otherwise |
| FurnaceMonitor.FlickerStatus | firmware/micropython/furnace_monitor.py:328-339 | the status is normal exactly for 8..12 Hz, unstable with one warning below 5 Hz, check otherwise when positive, and no signal with one warning at 0 |
| FurnaceMonitor.Classify | firmware/micropython/furnace_monitor.py:321-343 | a weak signal gives no signal with exactly one warning; otherwise the flicker status, and the warnings are, in order, low flicker for `unstable` or no flicker for `no_signal` (none for `normal`/`check`), then a thermoacoustic warning exactly when that peak exceeds half the flicker peak |
| FurnaceMonitor.NoFlickerMeansNoPeak | firmware/micropython/furnace_monitor.py:328-339 | with a strong signal, the status is no signal exactly when no flicker-band magnitude is positive |
| FurnaceMonitor.AnalyzeFlame | firmware/micropython/furnace_monitor.py:286-345 | the two scan loops and the classification compute the specified analysis, and an empty spectrum raises |
| FurnaceMonitor.Failures | firmware/micropython/furnace_monitor.py:445-470 | a pass fails 0, 1 or 2 steps, and none exactly when the control and flame steps both succeed |
| FurnaceMonitor.ErrorCounters | firmware/micropython/furnace_monitor.py:421-478 | the run of failed passes never exceeds the error count, which never exceeds twice the number of passes |
| FurnaceMonitor.SendAsWritten | firmware/micropython/furnace_monitor.py:366-406 | as written a packet goes out exactly when there is a socket and the flame step succeeded |
| FurnaceMonitor.SendIntended | firmware/micropython/furnace_monitor.py:437-443 | as intended every pass with a socket sends its control values, with the default `error` flame values when the flame step failed |
| FurnaceMonitor.ControlReadingLostWhenFlameFails | firmware/micropython/furnace_monitor.py:437-443 | a pass with a good control reading and a failed flame step sends nothing as written but sends the reading as intended |
| FurnaceMonitor.SendAgreesWhenFlameSucceeds | firmware/micropython/furnace_monitor.py:382-397 | when the flame step succeeded, the code as written and the intended send agree |
| FurnaceMonitor.SentOnePerPass | firmware/micropython/furnace_monitor.py:464-466 | with a socket, every pass sends exactly one packet carrying its control values; without one nothing is sent |
| FurnaceMonitor.Monitor | firmware/micropython/furnace_monitor.py:408-478 | the loop's `error_count` and `consecutive_errors` equal the counts of failed steps and of trailing failed passes, the second never above the first, and the packets are those of the intended send |
| FurnaceMonitor.Backoff | firmware/micropython/furnace_monitor.py:187 | the k-th backoff sleep is 2^k seconds |
| FurnaceMonitor.FirstSuccess | firmware/micropython/furnace_monitor.py:195-204 | the attempt a retry loop stops at is the first that succeeds, or the end when none does |
| FurnaceMonitor.RetryInit | firmware/micropython/furnace_monitor.py:195-211 | the sensor retry loop stops at the first success, raises only when all attempts fail, sleeps 2^a s after each failure except the last, and tries nothing when no attempts are allowed; its sleeps are those read off the attempts |
| FurnaceMonitor.FirstConnection | firmware/micropython/furnace_monitor.py:179-183 | the attempt the WiFi loop stops at is the first that connects, or the end when none does |
| FurnaceMonitor.RetryWifi | firmware/micropython/furnace_monitor.py:178-187 | the WiFi loop connects exactly when one allowed attempt connects, stops there, and sleeps only after attempts that raised; its sleeps are those read off the attempts |
| FurnaceMonitor.WifiSleepsAtMostBackoff | firmware/micropython/furnace_monitor.py:179-187 | a WiFi attempt that returns without connecting is retried with no sleep, and only raised attempts back off |
| FurnaceMonitor.Furnace.constructor | firmware/micropython/furnace_monitor.py:145-166 | a new monitor keeps its credentials and starts with nothing connected or initialised |
| FurnaceMonitor.Furnace.ConnectWifi | firmware/micropython/furnace_monitor.py:177-189 | WiFi is tried only with both credentials; the flag ends true exactly when an attempt connects, false when an attempt returned without connecting, and unchanged when every attempt raised; the sleeps are the WiFi loop's |
| FurnaceMonitor.Furnace.Init | firmware/micropython/furnace_monitor.py:168-231 | the WiFi flag as in `ConnectWifi`; `init` raises for the flame sensor exactly when all its attempts fail, for the control signal exactly when the flame sensor came up and all control attempts fail, and succeeds otherwise, including when no attempts are allowed; a sensor is marked ready exactly when one of its attempts succeeded, and otherwise keeps its old mark; the sleeps are the WiFi, flame and (unless the flame sensor raised) control loops' in that order |
| Fft.GuardIsPowerOfTwo | firmware/micropython/furnace_monitor.py:508-509 | the guard passes exactly the powers of two and 0 |
| Fft.RevIncrement | firmware/micropython/furnace_monitor.py:516-521 | the inner `while` and `j += bit` turn the reversal of `i - 1` into the reversal of `i` |
| Fft.RevInvolution | firmware/micropython/furnace_monitor.py:522-523 | reversing an index twice gives it back, so every swapped pair is exchanged once |
| Fft.ReversedSuccessor | firmware/micropython/furnace_monitor.py:517-521 | the inner loop computes the reversed-order successor of `j` |
| Fft.Reorder | firmware/micropython/furnace_monitor.py:515-523 | the in-place pass leaves the array in the arrangement where every pair (i, rev(i)) with i < rev(i) is exchanged |
| Fft.ArrangedSamples | firmware/micropython/furnace_monitor.py:522-523 | at every stage the pass holds the same samples as its input |
| Fft.ArrangedAtEnd | firmware/micropython/furnace_monitor.py:514-523 | after the pass every position holds the sample from its bit-reversed index |
| Fft.BitReverse | firmware/micropython/furnace_monitor.py:504-523 | the guard raises exactly for lengths that are not 0 or a power of two; otherwise `real` is the input in bit-reversed order, a permutation of it, and `imag` is all zeros |
| Decimal.Digits | firmware/micropython/boot.py:26 | the decimal text of a number is non-empty digits without a leading zero |
| Decimal.Show | firmware/micropython/boot.py:26 | `str(n)` starts with a minus sign exactly when n is negative |
| Decimal.ShowParse | firmware/micropython/boot.py:21-26 | `int(str(n)) == n` for every integer |
| Decimal.ParseBlank | firmware/micropython/boot.py:21 | text made only of spaces is not a number |
| Decimal.LeadingZerosValue | firmware/micropython/boot.py:21 | leading zeros add nothing to the value of a string of digits |
| Decimal.ParseNumberReads | firmware/micropython/boot.py:21 | once the white space is gone, an optional sign followed by digits reads as their value, negated after a minus |
| Decimal.ParseAcceptsPadding | firmware/micropython/boot.py:21 | whatever white space surrounds it, an optional sign followed by digits, leading zeros included, reads as their value, negated after a minus |
| Decimal.ParseRefusesInnerSpace | firmware/micropython/boot.py:21 | a text that starts and ends with a digit and has a white-space character inside is refused |
| Boot.StoredCountReadsBack | firmware/micropython/boot.py:21-26 | the counter text written to RTC memory reads back as the same count |
| Boot.UnreadableMemoryIsZero | firmware/micropython/boot.py:19-24 | empty memory and memory holding no number count as 0 |
| Boot.ModeFor | firmware/micropython/boot.py:31 | failsafe mode starts exactly when the count exceeds 3 |
| Boot.Rtc.Write | firmware/micropython/boot.py:26 | a write replaces the memory and is recorded |
| Boot.RunBoot | firmware/micropython/boot.py:17-136 | one boot stores the read count plus one, enters failsafe mode exactly above 3 and then clears the counter, starts WebREPL exactly when a valid password exists and WiFi permits, and ends as the mode and monitor start say |
| Boot.SamePasswordRule | firmware/micropython/boot.py:46-106 | the failsafe and normal branches accept the same passwords: 4 to 9 characters, other than the placeholder |
| Boot.PlaceholderNeedsItsOwnRule | firmware/micropython/boot.py:46-54 | the placeholder would pass the length rule, so its explicit refusal is needed |
| Boot.OneBoot | firmware/micropython/boot.py:19-35 | as written each boot moves the stored count from c to c + 1, or to 0 when c + 1 exceeds 3 |
| Boot.AsWrittenNeverStarts | firmware/micropython/boot.py:120-136 | as written every boot leaves the memory of a boot whose monitor failed to start |
| Boot.CounterCycles | firmware/micropython/boot.py:25-35 | as written the stored count after k boots from a cleared counter is k mod 4 |
| Boot.FailsafeEveryFourthBoot | firmware/micropython/boot.py:120-136 | as written every fourth boot enters failsafe mode, however healthy the board |
| Boot.OneBootIntended | firmware/micropython/boot.py:118-122 | as intended a boot whose monitor starts clears the counter, and otherwise advances it as written |
| Boot.IntendedCountsFailedStarts | firmware/micropython/boot.py:118-122 | as intended the stored count is the number of failed starts since the last success, modulo the failsafe reset |
| Boot.HealthyBootsNeverFailsafe | firmware/micropython/boot.py:118-122 | as intended a board whose monitor always starts never enters failsafe mode |
| Boot.IntendedFailsafeAfterThreeFailures | firmware/micropython/boot.py:30-35 | as intended failsafe mode comes exactly after three failed starts in a row |
| ConfigCheck.Validate | firmware/micropython/test_config.py:4-8 | the checks run in order, and each fails exactly when the earlier ones pass and its own condition does not hold |
| ConfigCheck.ValidIffAllChecksPass | firmware/micropython/test_config.py:4-8 | a configuration passes exactly when SSID, password and host are non-empty and the port is an integer in 1..65535 |
| ConfigCheck.TrueIsPortOne | firmware/micropython/test_config.py:7-8 | `True` passes as port 1, since a bool is an int |
| ConfigCheck.MessageIdentifiesAssertion | firmware/micropython/test_config.py:4-8 | the five assertion messages are pairwise distinct, so the message names the failing check |
| ConfigCheck.Masked | firmware/micropython/test_config.py:10-11 | only text can be cut short; the echo is the first `keep` characters followed by exactly three `*` |
| ConfigCheck.Report | firmware/micropython/test_config.py:4-12 | a failing assertion stops the check with that assertion and its message and prints nothing; after the assertions, a SSID or host that is not text raises TypeError, after the Network line when only the host is not text; otherwise the three lines are printed, the Network line with the masked SSID and the Vector line with the masked host and the port |
| ConfigCheck.EchoHidesSecrets | firmware/micropython/test_config.py:10-11 | the echo of the SSID and of the host is their first 3 and 8 characters followed by `***`, so at most 6 and 11 characters |
| ConfigCheck.ValidTextConfigIsEchoed | firmware/micropython/test_config.py:10-12 | a configuration that passes the assertions is echoed in full exactly when its SSID and host are text |

## Findings

| source | as written | input that shows it | evidently intended | confidence | as-written member | corrected member |
|---|---|---|---|---|---|---|
| firmware/micropython/ads1115.py:369-376 | `_write_config` turns OSError into RuntimeError, so the `except OSError` around the final single-shot write never fires, and a failed write raises and discards the samples | a clean sampling run whose final config write is not acknowledged | the comment says the failure is non-fatal and only logged; the samples are returned | high, not executed | Ads1115.FinalWriteFailureLosesSamples | Ads1115.CaptureIntended |
| firmware/micropython/furnace_monitor.py:437-443 | after a failed flame step the default flame dictionary lacks `flicker_peak_mag`, `thermoacoustic_peak_mag` and `rms_amplitude`; `send_data` raises KeyError inside its own `try` and sends nothing | a pass whose control reading succeeds and whose flame capture raises, with the socket open | the defaults exist so the pass is still reported, with status `error` and the control reading | medium, not executed | FurnaceMonitor.ControlReadingLostWhenFlameFails | FurnaceMonitor.SentOnePerPass |
| firmware/micropython/boot.py:120-136 | `run_monitor(rtc=rtc)` passes an argument that `run_monitor()` (firmware/micropython/main.py:22) does not take; the TypeError leads to the reset with the counter still stored | four boots in a row on healthy hardware: the fourth enters failsafe mode | the comment says the RTC is passed so the counter is cleared after a successful start | high, not executed | Boot.FailsafeEveryFourthBoot | Boot.HealthyBootsNeverFailsafe |

The rest of the model uses the corrected behaviour:
- `Ads1115.Adc.Capture` is specified by `CaptureIntended`.
- `FurnaceMonitor.Monitor` sends with `SendIntended`.
- `Boot.RunBoot` leaves the memory of `NextMemoryIntended`. Its `started` parameter says whether the monitor's sensors came up.

## Left out

- I/O and timing:
  - The watchdog, all `print` output, the `time.sleep*` calls (sleeps are recorded as numbers where the source computes them), and the endless feed loop of failsafe mode.
  - The pins' electrical behaviour and I2C addressing, beyond the bytes and edges recorded.
- ADS1115 conversion waits. `_wait_ready` polling and its 200 ms timeout are hardware timing; each wait is given as ready, timed out or failed.
- Float arithmetic left out:
  - `read_voltage` and `read_differential` multiply a raw count by a full-scale constant. The `_FSR_MAP` and `_RATE_MS` tables are floating-point scaling. `capture`'s samples are kept as raw counts, not `value * scale`.
  - `read_flame_spectrum` (DC removal, Hanning window, magnitudes), the FFT butterflies and the RMS amplitude are floating-point numerics. The spectrum and `rms` are inputs, and the FFT is modelled up to and including its bit-reversal pass.
- Fft.BitReverse: returns at once for the empty input, where the source runs an empty loop; the result is the same.
- Network code and the main loop:
  - `setup_wifi`, socket creation and `sendto`, the UDP socket's retry loop in `init`, and the WebREPL start are network I/O. Their outcomes are parameters: a WiFi attempt's result, whether the socket is open, and whether a password exists.
  - `main.run_monitor` is a crash-and-restart loop around I/O.
  - `main.run_monitor` is not part of this model; only its signature matters, for the third finding.
- Text and value conversion:
  - `str.upper()` is modelled for ASCII letters only.
  - `bytes.decode()` is modelled one character per byte. A byte of 128 or more can never form a number under MicroPython's `int()`, so it reads as 0 either way.
  - `int()`'s underscores between digits are not modelled.
  - Configuration values other than text, integers, booleans and None are not modelled. So are the ImportError of a missing `config` module and the ImportError of a missing `webrepl_cfg` (which is modelled as "no password").
- Test and deployment code: the `test()` and `quick_test()` hardware smoke tests, the deployment scripts and `secrets.example.py`.
- FurnaceMonitor.Furnace.Init: does not model the `I2C(...)` and `ADS1115(...)` construction inside each attempt separately from `init`; one boolean per attempt says whether the sensor came up. The driver object a failed attempt leaves in `flame_adc` or `control_adc` is not modelled; the ready flags record only successful initialisations.
- Ads1115.Adc.Measure: does not state the buffer after a timed-out or failed wait, or after a failed conversion read, because the config words `_wait_ready` polls into it are not modelled. The same holds for `ReadRaw` and `ReadDifferentialRaw`.
