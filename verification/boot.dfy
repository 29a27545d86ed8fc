/** The boot script: a boot counter kept as decimal text in RTC memory,
    failsafe mode after more than three boots, and the WebREPL password
    rule. The counter survives a reset; failsafe mode clears it. */
module Boot {
  import opened Wrappers
  import opened Decimal

  /** Failsafe mode starts once the counter exceeds this. */
  const FAILSAFE_AFTER: int := 3

  /** The placeholder password that is never accepted. */
  const PLACEHOLDER_PASSWORD: string := "CHANGEME"

  // ---------------------------------------------------------------------
  // The counter as text in RTC memory

  /** A byte of RTC memory, as the number Python's `bytes` holds. */
  type Octet = b: int | 0 <= b < 256

  /** `s.encode()` for text whose characters are all single bytes. */
  function Encode(s: string): (data: seq<Octet>)
    requires forall i :: 0 <= i < |s| ==> s[i] as int < 256
    ensures |data| == |s|
  {
    seq(|s|, i requires 0 <= i < |s| => s[i] as int)
  }

  /** `data.decode()`, one character per byte. */
  function Text(data: seq<Octet>): (s: string)
    ensures |s| == |data|
  {
    seq(|data|, i requires 0 <= i < |data| => data[i] as char)
  }

  /** What the boot script reads from RTC memory: 0 when the memory is
      empty or its text is not a number. */
  function ReadCount(data: seq<Octet>): int
  {
    if |data| == 0 then 0
    else match Parse(Text(data))
      case Some(v) => v
      case None => 0
  }

  /** The decimal text of a number is plain ASCII. */
  lemma ShowIsAscii(n: int)
    ensures forall i :: 0 <= i < |Show(n)| ==> Show(n)[i] as int < 128
  {
  }

  /** The memory image written for `count`. */
  function Stored(count: int): (data: seq<Octet>)
  {
    ShowIsAscii(count);
    Encode(Show(count))
  }

  /** Writing a count and reading it back gives the count. */
  lemma StoredCountReadsBack(count: int)
    ensures ReadCount(Stored(count)) == count
  {
    ShowIsAscii(count);
    var s := Show(count);
    assert Text(Encode(s)) == s;
    ShowParse(count);
  }

  /** Empty memory and memory holding no number both count as 0. */
  lemma UnreadableMemoryIsZero(data: seq<Octet>)
    requires |data| == 0 || Parse(Text(data)).None?
    ensures ReadCount(data) == 0
  {
  }

  // ---------------------------------------------------------------------
  // One boot

  datatype Mode = Normal | Failsafe

  /** The mode a boot enters for the count it computed. */
  function ModeFor(count: int): (m: Mode)
    ensures m == Failsafe <==> count > FAILSAFE_AFTER
  {
    if count > FAILSAFE_AFTER then Failsafe else Normal
  }

  /** What `setup_wifi` did: returned True, returned False, or raised. */
  datatype WifiSetup = WifiUp | WifiDown | WifiRaised

  /** How the script ends: waiting forever in failsafe mode, running the
      monitor, or resetting the board after the monitor failed to start. */
  datatype Ending = SafeModeForever | Monitoring | ResetAfterFailedStart

  /** The RTC's battery-backed user memory. */
  class Rtc {
    var memory: seq<Octet>
    /** Every image written to the memory, oldest first. */
    var writes: seq<seq<Octet>>

    constructor (memory: seq<Octet>)
      ensures this.memory == memory && writes == []
    {
      this.memory := memory;
      writes := [];
    }

    method Write(data: seq<Octet>)
      modifies this
      ensures memory == data && writes == old(writes) + [data]
    {
      memory := data;
      writes := writes + [data];
    }
  }

  /** The whole boot script. `wifi` is the outcome of `setup_wifi`,
      `password` the `PASS` of `webrepl_cfg` (None when that module is
      missing), and `started` whether the monitor's sensors came up, in
      which case the monitor clears the counter it was handed. */
  method RunBoot(rtc: Rtc, wifi: WifiSetup, password: Option<string>, started: bool)
    returns (count: int, mode: Mode, webrepl: bool, ending: Ending)
    modifies rtc
    ensures count == ReadCount(old(rtc.memory)) + 1
    ensures mode == ModeFor(count)
    ensures rtc.writes == old(rtc.writes) + [Stored(count)] +
      (if mode == Failsafe || started then [Stored(0)] else [])
    ensures rtc.memory == NextMemoryIntended(old(rtc.memory), started)
    ensures webrepl <==>
      password.Some? && PasswordAccepted(password.value) &&
      (if mode == Failsafe then wifi != WifiRaised else wifi == WifiUp)
    ensures ending ==
      if mode == Failsafe then SafeModeForever
      else if started then Monitoring
      else ResetAfterFailedStart
  {
    count := ReadCount(rtc.memory);
    count := count + 1;
    rtc.Write(Stored(count));
    mode := ModeFor(count);
    if count > FAILSAFE_AFTER {
      rtc.Write(Stored(0));
      webrepl := false;
      if wifi != WifiRaised && password.Some? {
        webrepl := FailsafePasswordAccepted(password.value);
      }
      SamePasswordRule(if password.Some? then password.value else "");
      return count, mode, webrepl, SafeModeForever;
    }
    var wifiOk := wifi == WifiUp;
    webrepl := false;
    if wifiOk && password.Some? {
      webrepl := NormalPasswordAccepted(password.value);
    }
    SamePasswordRule(if password.Some? then password.value else "");
    if started {
      rtc.Write(Stored(0));
      ending := Monitoring;
    } else {
      ending := ResetAfterFailedStart;
    }
  }

  // ---------------------------------------------------------------------
  // The WebREPL password

  /** The rule of the failsafe branch: the placeholder is refused, then a
      length of 4 to 9 is accepted. */
  function FailsafePasswordAccepted(p: string): bool
  {
    if p == PLACEHOLDER_PASSWORD then false
    else if 4 <= |p| <= 9 then true
    else false
  }

  /** The rule of the normal branch: the placeholder is refused, then a
      length outside 4 to 9 is refused. */
  function NormalPasswordAccepted(p: string): bool
  {
    if p == PLACEHOLDER_PASSWORD then false
    else if !(4 <= |p| <= 9) then false
    else true
  }

  /** The rule both branches implement. */
  predicate PasswordAccepted(p: string)
  {
    p != PLACEHOLDER_PASSWORD && 4 <= |p| <= 9
  }

  /** Both branches accept exactly the passwords of 4 to 9 characters other
      than the placeholder. */
  lemma SamePasswordRule(p: string)
    ensures FailsafePasswordAccepted(p) == NormalPasswordAccepted(p)
    ensures NormalPasswordAccepted(p) <==> PasswordAccepted(p)
  {
  }

  /** The placeholder would pass the length rule on its own: the explicit
      refusal is what keeps it out. */
  lemma PlaceholderNeedsItsOwnRule()
    ensures 4 <= |PLACEHOLDER_PASSWORD| <= 9
    ensures !PasswordAccepted(PLACEHOLDER_PASSWORD)
  {
  }

  // ---------------------------------------------------------------------
  // Boots in a row, as written

  /** The memory a boot leaves behind, as the script is written: failsafe
      clears the counter, and every normal boot resets the board with the
      incremented counter still stored, because the start call passes the
      monitor an argument it does not take. */
  function NextMemory(data: seq<Octet>): seq<Octet>
  {
    var count := ReadCount(data) + 1;
    if count > FAILSAFE_AFTER then Stored(0) else Stored(count)
  }

  /** As written, every boot behaves like one whose monitor failed to
      start. */
  lemma AsWrittenNeverStarts(data: seq<Octet>)
    ensures NextMemory(data) == NextMemoryIntended(data, false)
  {
  }

  /** The count the next boot reads, given the count this boot read. */
  function NextCount(c: int): int
  {
    if c + 1 > FAILSAFE_AFTER then 0 else c + 1
  }

  /** One boot, seen through the counter. */
  lemma OneBoot(data: seq<Octet>)
    ensures ReadCount(NextMemory(data)) == NextCount(ReadCount(data))
  {
    var c := ReadCount(data) + 1;
    if c > FAILSAFE_AFTER {
      StoredCountReadsBack(0);
    } else {
      StoredCountReadsBack(c);
    }
  }

  /** The count read after `k` more boots, each ended by the reset or, in
      failsafe mode, by a power cycle. */
  function CountAfter(c: int, k: nat): int
  {
    if k == 0 then c else NextCount(CountAfter(c, k - 1))
  }

  /** Starting from a cleared counter, the count stored after `k` boots is
      `k mod 4`. */
  lemma {:induction false} CounterCycles(k: nat)
    ensures CountAfter(0, k) == k % 4
  {
    if k > 0 {
      CounterCycles(k - 1);
      CountStep(k - 1);
    }
  }

  /** Counting modulo 4 one step further. */
  lemma CountStep(j: nat)
    ensures j % 4 < 3 ==> (j + 1) % 4 == j % 4 + 1
    ensures j % 4 == 3 ==> (j + 1) % 4 == 0
  {
  }

  /** As written, boot `k + 1` after a cleared counter enters failsafe mode
      exactly when `k mod 4 == 3`: every fourth boot, however healthy the
      hardware. */
  lemma FailsafeEveryFourthBoot(k: nat)
    ensures ModeFor(CountAfter(0, k) + 1) == Failsafe <==> k % 4 == 3
  {
    CounterCycles(k);
  }

  // ---------------------------------------------------------------------
  // Boots in a row, as intended

  /** The memory a boot leaves behind when a monitor that started
      successfully clears the counter, as the comment on the start call
      says the RTC is passed for. */
  function NextMemoryIntended(data: seq<Octet>, started: bool): seq<Octet>
  {
    var count := ReadCount(data) + 1;
    if count > FAILSAFE_AFTER || started then Stored(0) else Stored(count)
  }

  /** The count read after a run of boots whose monitor start succeeded or
      failed as `started` says. */
  function CountAfterIntended(c: int, started: seq<bool>): int
  {
    if |started| == 0 then c
    else if started[|started| - 1] then 0
    else NextCount(CountAfterIntended(c, started[..|started| - 1]))
  }

  /** The number of failed starts at the end of `started`. */
  function TrailingFailures(started: seq<bool>): nat
  {
    if |started| == 0 || started[|started| - 1] then 0
    else 1 + TrailingFailures(started[..|started| - 1])
  }

  /** One boot as intended, seen through the counter. */
  lemma OneBootIntended(data: seq<Octet>, started: bool)
    ensures ReadCount(NextMemoryIntended(data, started)) ==
      if started then 0 else NextCount(ReadCount(data))
  {
    var c := ReadCount(data) + 1;
    if c > FAILSAFE_AFTER || started {
      StoredCountReadsBack(0);
    } else {
      StoredCountReadsBack(c);
    }
  }

  /** With the counter cleared after a successful start, the stored count is
      the number of failed starts since the last success or failsafe boot,
      so failsafe mode comes only after three failed starts in a row. */
  lemma {:induction false} IntendedCountsFailedStarts(started: seq<bool>)
    ensures CountAfterIntended(0, started) == TrailingFailures(started) % 4
  {
    if |started| > 0 && !started[|started| - 1] {
      var prefix := started[..|started| - 1];
      IntendedCountsFailedStarts(prefix);
      CountStep(TrailingFailures(prefix));
    }
  }

  /** As intended, a board whose monitor always starts never enters
      failsafe mode. */
  lemma HealthyBootsNeverFailsafe(started: seq<bool>)
    requires forall i :: 0 <= i < |started| ==> started[i]
    ensures ModeFor(CountAfterIntended(0, started) + 1) == Normal
  {
    IntendedCountsFailedStarts(started);
  }

  /** As intended, failsafe mode comes exactly when the last three boots
      all failed to start the monitor (counting modulo the reset that
      failsafe mode itself performs). */
  lemma IntendedFailsafeAfterThreeFailures(started: seq<bool>)
    ensures ModeFor(CountAfterIntended(0, started) + 1) == Failsafe <==>
      TrailingFailures(started) % 4 == 3
  {
    IntendedCountsFailedStarts(started);
  }
}
