/** The MAX31856 thermocouple converter on a bit-banged SPI bus: the
    thermocouple-type lookup, the decoding of the temperature and fault
    registers, and the byte-level framing of register reads and writes.

    Temperatures stay integer counts: the thermocouple count is in 1/128 °C,
    the cold-junction count in 1/64 °C; the degree values the driver returns
    are those counts divided by 128 and 64. */
module Max31856 {
  import opened Wrappers
  import opened Bytes

  // ---------------------------------------------------------------------
  // Thermocouple type

  /** The code written to register 1 when the type letter is unknown: S. */
  const DEFAULT_TC_CODE: Byte := 0x06

  /** ASCII upper-casing, one character at a time. */
  function Upper(s: string): (u: string)
    ensures |u| == |s|
    ensures forall i :: 0 <= i < |s| ==> u[i] == UpperChar(s[i])
  {
    if s == [] then [] else [UpperChar(s[0])] + Upper(s[1..])
  }

  function UpperChar(c: char): char
  {
    if 'a' <= c <= 'z' then (c as int - 32) as char else c
  }

  /** The type table of the constructor: B, E, J, K, N, R, S, T. */
  function TypeTable(s: string): Option<Byte>
  {
    if s == "B" then Some(0x00)
    else if s == "E" then Some(0x01)
    else if s == "J" then Some(0x02)
    else if s == "K" then Some(0x03)
    else if s == "N" then Some(0x04)
    else if s == "R" then Some(0x05)
    else if s == "S" then Some(0x06)
    else if s == "T" then Some(0x07)
    else None
  }

  /** `tc_types.get(tc_type.upper(), 0x06)`. */
  function TcCode(tcType: string): (code: Byte)
    ensures code <= 0x07
    ensures TypeTable(Upper(tcType)).None? ==> code == DEFAULT_TC_CODE
  {
    match TypeTable(Upper(tcType))
    case Some(c) => c
    case None => DEFAULT_TC_CODE
  }

  /** The letters, in table order, name the codes 0 to 7, in either case. */
  lemma TcCodeLetters()
    ensures TcCode("B") == 0 && TcCode("E") == 1 && TcCode("J") == 2 && TcCode("K") == 3
    ensures TcCode("N") == 4 && TcCode("R") == 5 && TcCode("S") == 6 && TcCode("T") == 7
    ensures TcCode("b") == 0 && TcCode("e") == 1 && TcCode("j") == 2 && TcCode("k") == 3
    ensures TcCode("n") == 4 && TcCode("r") == 5 && TcCode("s") == 6 && TcCode("t") == 7
  {
    assert Upper("b") == "B" && Upper("e") == "E" && Upper("j") == "J" && Upper("k") == "K";
    assert Upper("n") == "N" && Upper("r") == "R" && Upper("s") == "S" && Upper("t") == "T";
    assert Upper("B") == "B" && Upper("E") == "E" && Upper("J") == "J" && Upper("K") == "K";
    assert Upper("N") == "N" && Upper("R") == "R" && Upper("S") == "S" && Upper("T") == "T";
  }

  /** Upper-casing twice changes nothing more. */
  lemma UpperIdempotent(s: string)
    ensures Upper(Upper(s)) == Upper(s)
  {
  }

  /** The lookup does not see the case of the letters. */
  lemma TcCodeIgnoresCase(s: string)
    ensures TcCode(Upper(s)) == TcCode(s)
  {
    UpperIdempotent(s);
  }

  // ---------------------------------------------------------------------
  // Fault register

  /** The faults `_handle_fault` raises, from the highest bit to the lowest. */
  datatype Fault =
    | ColdJunctionRange    // 0x80
    | ThermocoupleRange    // 0x40
    | ColdJunctionHigh     // 0x20
    | ColdJunctionLow      // 0x10
    | ThermocoupleHigh     // 0x08
    | ThermocoupleLow      // 0x04
    | OverUnderVoltage     // 0x02
    | OpenCircuit          // 0x01

  /** The bit of the fault register each fault stands for. */
  function FaultBit(f: Fault): Byte
  {
    match f
    case ColdJunctionRange => 0x80
    case ThermocoupleRange => 0x40
    case ColdJunctionHigh => 0x20
    case ColdJunctionLow => 0x10
    case ThermocoupleHigh => 0x08
    case ThermocoupleLow => 0x04
    case OverUnderVoltage => 0x02
    case OpenCircuit => 0x01
  }

  /** `_handle_fault`: the first set bit, testing from 0x80 down, names the
      fault raised; a zero byte raises nothing. */
  function HandleFault(fault: Byte): (r: Option<Fault>)
  {
    if fault & 0x80 != 0 then Some(ColdJunctionRange)
    else if fault & 0x40 != 0 then Some(ThermocoupleRange)
    else if fault & 0x20 != 0 then Some(ColdJunctionHigh)
    else if fault & 0x10 != 0 then Some(ColdJunctionLow)
    else if fault & 0x08 != 0 then Some(ThermocoupleHigh)
    else if fault & 0x04 != 0 then Some(ThermocoupleLow)
    else if fault & 0x02 != 0 then Some(OverUnderVoltage)
    else if fault & 0x01 != 0 then Some(OpenCircuit)
    else None
  }

  /** Exactly one fault is raised for every non-zero byte, and it is the one
      of the highest set bit: its bit is set and every bit above it is
      clear. */
  lemma HandleFaultIsHighestBit(fault: Byte)
    ensures HandleFault(fault).None? <==> fault == 0
    ensures HandleFault(fault).Some? ==>
      var bit := FaultBit(HandleFault(fault).value);
      fault & bit != 0 && fault as int < 2 * bit as int
  {
  }

  /** Distinct faults stand for distinct bits, so the fault names the bit. */
  lemma FaultBitInjective(f: Fault, g: Fault)
    ensures FaultBit(f) == FaultBit(g) ==> f == g
  {
  }

  // ---------------------------------------------------------------------
  // Temperature registers

  /** `((b0 << 16) | (b1 << 8) | b2) >> 5`, read as 19-bit two's complement:
      the thermocouple temperature in 1/128 °C. */
  function ThermocoupleCount(b0: Byte, b1: Byte, b2: Byte): (t: int)
    ensures -0x4_0000 <= t < 0x4_0000
    ensures t < 0 <==> b0 as int >= 0x80
  {
    var raw := (b0 as int) * 0x1_0000 + (b1 as int) * 0x100 + (b2 as int);
    var temp := raw / 32;
    if b0 as int >= 0x80 then temp - 0x8_0000 else temp
  }

  /** The three bytes as one signed 24-bit number. */
  function Signed24(b0: Byte, b1: Byte, b2: Byte): (v: int)
    ensures -0x80_0000 <= v < 0x80_0000
  {
    var raw := (b0 as int) * 0x1_0000 + (b1 as int) * 0x100 + (b2 as int);
    if b0 as int >= 0x80 then raw - 0x100_0000 else raw
  }

  /** The thermocouple count is the signed 24-bit register value shifted
      right by 5 with the sign kept, i.e. divided by 32 rounding down. */
  lemma ThermocoupleCountIsArithmeticShift(b0: Byte, b1: Byte, b2: Byte)
    ensures ThermocoupleCount(b0, b1, b2) == Signed24(b0, b1, b2) / 32
  {
    var raw := (b0 as int) * 0x1_0000 + (b1 as int) * 0x100 + (b2 as int);
    var q, r := raw / 32, raw % 32;
    assert raw - 0x100_0000 == 32 * (q - 0x8_0000) + r;
  }

  /** `read_thermocouple_temp` on the four bytes read from register 0x0C: the
      count, unless the fault byte is non-zero. */
  function ThermocoupleReading(b0: Byte, b1: Byte, b2: Byte, fault: Byte): (r: Result<int, Fault>)
    ensures r.Ok? <==> fault == 0
    ensures r.Ok? ==> r.value == ThermocoupleCount(b0, b1, b2)
    ensures r.Err? ==> Some(r.error) == HandleFault(fault)
  {
    HandleFaultIsHighestBit(fault);
    match HandleFault(fault)
    case Some(f) => Err(f)
    case None => Ok(ThermocoupleCount(b0, b1, b2))
  }

  /** The degrees `read_thermocouple_temp` returns: the count times
      0.0078125. */
  function ThermocoupleCelsius(count: int): (c: real)
    ensures c * 128.0 == count as real
  {
    count as real * 0.0078125
  }

  /** The thermocouple reading spans -2048 °C up to just below 2048 °C. */
  lemma ThermocoupleCelsiusRange(b0: Byte, b1: Byte, b2: Byte)
    ensures -2048.0 <= ThermocoupleCelsius(ThermocoupleCount(b0, b1, b2)) < 2048.0
  {
  }

  /** `((b1 << 8) | b2) >> 2`, read as 14-bit two's complement. */
  function ColdJunctionRaw(b1: Byte, b2: Byte): (t: int)
    ensures -0x2000 <= t < 0x2000
    ensures t < 0 <==> b1 as int >= 0x80
  {
    var temp := Unsigned16(b1, b2) / 4;
    if b1 as int >= 0x80 then temp - 0x4000 else temp
  }

  /** `read_cj_temp` on the three bytes read from register 0x09: the unsigned
      offset byte plus the 14-bit value, in 1/64 °C. */
  function ColdJunctionCount(offset: Byte, b1: Byte, b2: Byte): (t: int)
    ensures t - offset as int == ColdJunctionRaw(b1, b2)
    ensures -0x2000 <= t < 0x2000 + 0x100
  {
    offset as int + ColdJunctionRaw(b1, b2)
  }

  /** The 14-bit value is the signed 16-bit register value divided by 4,
      rounding down. */
  lemma ColdJunctionIsArithmeticShift(b1: Byte, b2: Byte)
    ensures ColdJunctionRaw(b1, b2) == Signed16(b1, b2) / 4
  {
    var u := Unsigned16(b1, b2);
    var q, r := u / 4, u % 4;
    assert u - 0x1_0000 == 4 * (q - 0x4000) + r;
  }

  /** The degrees `read_cj_temp` returns: the count times 0.015625. */
  function ColdJunctionCelsius(count: int): (c: real)
    ensures c * 64.0 == count as real
  {
    count as real * 0.015625
  }

  // ---------------------------------------------------------------------
  // Bit order on the wire

  /** The eight bits of a byte, most significant first: the bit on MOSI at
      each clock of `send_byte`. */
  function MsbBits(b: Byte): (bits: seq<bool>)
    ensures |bits| == 8
  {
    [b & 0x80 != 0, b & 0x40 != 0, b & 0x20 != 0, b & 0x10 != 0,
     b & 0x08 != 0, b & 0x04 != 0, b & 0x02 != 0, b & 0x01 != 0]
  }

  /** `byte <<= 1` moves every bit one place towards the top and brings in
      a zero. */
  lemma ShiftLeftBits(x: Byte)
    ensures MsbBits(x << 1) == MsbBits(x)[1..] + [false]
  {
  }

  /** What `recv_byte` assembles from sampled bits: `byte = (byte << 1) | bit`
      for each bit in turn. */
  function FromMsbBits(bits: seq<bool>): Byte
  {
    if bits == [] then 0
    else (FromMsbBits(bits[..|bits| - 1]) << 1) | (if bits[|bits| - 1] then 1 else 0)
  }

  /** Receiving the bits `send_byte` emits reproduces the byte. */
  lemma SendReceiveRoundTrip(b: Byte)
    ensures FromMsbBits(MsbBits(b)) == b
  {
    FromEightBits(MsbBits(b));
  }

  /** The eight sampled bits assembled by `recv_byte`, written out. */
  lemma FromEightBits(bits: seq<bool>)
    requires |bits| == 8
    ensures FromMsbBits(bits) ==
      (if bits[0] then 0x80 else 0) | (if bits[1] then 0x40 else 0) |
      (if bits[2] then 0x20 else 0) | (if bits[3] then 0x10 else 0) |
      (if bits[4] then 0x08 else 0) | (if bits[5] then 0x04 else 0) |
      (if bits[6] then 0x02 else 0) | (if bits[7] then 0x01 else 0)
  {
    assert bits[..7][..6] == bits[..6];
    assert bits[..6][..5] == bits[..5];
    assert bits[..5][..4] == bits[..4];
    assert bits[..4][..3] == bits[..3];
    assert bits[..3][..2] == bits[..2];
    assert bits[..2][..1] == bits[..1];
    assert bits[..1][..0] == [];
  }

  /** Sending the byte `recv_byte` assembled puts the same bits back on the
      wire: the two bit orders are inverse. */
  lemma ReceiveSendRoundTrip(bits: seq<bool>)
    requires |bits| == 8
    ensures MsbBits(FromMsbBits(bits)) == bits
  {
    FromEightBits(bits);
  }

  // ---------------------------------------------------------------------
  // The driver object

  /** The state of the bus at one rising clock edge: chip select and MOSI. */
  datatype Edge = Edge(cs: bool, mosi: bool)

  /** The edges that put `bits` on MOSI while chip select is `cs`. */
  function EdgesOf(cs: bool, bits: seq<bool>): (e: seq<Edge>)
    ensures |e| == |bits|
    ensures forall i :: 0 <= i < |bits| ==> e[i] == Edge(cs, bits[i])
  {
    seq(|bits|, i requires 0 <= i < |bits| => Edge(cs, bits[i]))
  }

  /** `n` edges that hold MOSI at `mosi` while chip select is `cs`. */
  function IdleEdges(cs: bool, mosi: bool, n: nat): (e: seq<Edge>)
    ensures |e| == n
    ensures forall i :: 0 <= i < n ==> e[i] == Edge(cs, mosi)
  {
    seq(n, i requires 0 <= i < n => Edge(cs, mosi))
  }

  /** The byte the chip drives on MISO during edges `at .. at + 8`. */
  function ByteAt(miso: nat -> bool, at: nat): Byte
  {
    FromMsbBits(MisoBits(miso, at, 8))
  }

  /** The `n` levels on MISO from edge `at` on. */
  function MisoBits(miso: nat -> bool, at: nat, n: nat): (bits: seq<bool>)
    ensures |bits| == n
    ensures forall i :: 0 <= i < n ==> bits[i] == miso(at + i)
  {
    seq(n, i requires 0 <= i < n => miso(at + i))
  }

  lemma MisoBitsStep(miso: nat -> bool, at: nat, n: nat)
    ensures MisoBits(miso, at, n + 1)[..n] == MisoBits(miso, at, n)
    ensures MisoBits(miso, at, n + 1)[n] == miso(at + n)
  {
  }

  /** One step of `send_byte` on the bits still to send: the top bit goes
      out and the rest move up. */
  lemma SendStep(byte: Byte, bits: seq<bool>, k: nat)
    requires |bits| == 8 && k < 8
    requires MsbBits(byte)[..8 - k] == bits[k..]
    ensures (byte & 0x80 != 0) == bits[k]
    ensures MsbBits(byte << 1)[..7 - k] == bits[k + 1..]
  {
    var x := MsbBits(byte);
    assert x[0] == x[..8 - k][0];
    ShiftLeftBits(byte);
    forall i | 0 <= i < 7 - k
      ensures x[1..][i] == bits[k + 1..][i]
    {
      assert x[..8 - k][i + 1] == bits[k..][i + 1];
    }
  }

  lemma EdgesOfStep(cs: bool, bits: seq<bool>, k: nat)
    requires k < |bits|
    ensures EdgesOf(cs, bits[..k + 1]) == EdgesOf(cs, bits[..k]) + [Edge(cs, bits[k])]
  {
  }

  lemma IdleEdgesStep(cs: bool, mosi: bool, n: nat)
    ensures IdleEdges(cs, mosi, n + 1) == IdleEdges(cs, mosi, n) + [Edge(cs, mosi)]
  {
  }

  /** The `count` bytes the chip drives from edge `at` on. */
  function BytesAt(miso: nat -> bool, at: nat, count: nat): (r: seq<Byte>)
    ensures |r| == count
    ensures forall j :: 0 <= j < count ==> r[j] == ByteAt(miso, at + 8 * j)
  {
    seq(count, j requires 0 <= j < count => ByteAt(miso, at + 8 * j))
  }

  /** The edges of `write_register(reg, data)`: command byte `0x80 | reg`,
      then the data byte, all with chip select low. */
  function WriteFrame(reg: Byte, data: Byte): seq<Edge>
  {
    EdgesOf(false, MsbBits(0x80 | reg) + MsbBits(data))
  }

  /** What the chip decodes from a write frame: the command byte, with bit 7
      set to mean "write", and the data byte. */
  lemma WriteFrameDecodes(reg: Byte, data: Byte)
    ensures |WriteFrame(reg, data)| == 16
    ensures forall i :: 0 <= i < 16 ==> !WriteFrame(reg, data)[i].cs
    ensures var f := WriteFrame(reg, data);
      var cmd := FromMsbBits(seq(8, i requires 0 <= i < 8 => f[i].mosi));
      cmd & 0x80 != 0 && cmd & 0x7F == reg & 0x7F
    ensures var f := WriteFrame(reg, data);
      FromMsbBits(seq(8, i requires 0 <= i < 8 => f[8 + i].mosi)) == data
  {
    var f := WriteFrame(reg, data);
    assert seq(8, i requires 0 <= i < 8 => f[i].mosi) == MsbBits(0x80 | reg);
    assert seq(8, i requires 0 <= i < 8 => f[8 + i].mosi) == MsbBits(data);
    SendReceiveRoundTrip(0x80 | reg);
    SendReceiveRoundTrip(data);
  }

  class Thermocouple {
    /** The chip-select, MOSI and clock pins, as last driven. */
    var cs: bool
    var mosi: bool
    var clk: bool
    /** Every rising clock edge so far. */
    var wire: seq<Edge>
    /** The level the chip drives on MISO at each rising edge, by edge
        number. */
    const miso: nat -> bool

    /** The pins idle between transfers: chip select high, clock low. */
    predicate Idle()
      reads this
    {
      cs && !clk
    }

    /** `__init__`: idle the pins, start continuous conversion with faults
        cleared (0x82 to register 0), then write the type code to
        register 1. */
    constructor (tcType: string, miso: nat -> bool)
      ensures Idle()
      ensures this.miso == miso
      ensures wire == WriteFrame(0x00, 0x82) + WriteFrame(0x01, TcCode(tcType))
    {
      this.miso := miso;
      cs := true;
      clk := false;
      mosi := false;
      wire := [];
      new;
      WriteRegister(0x00, 0x82);
      WriteRegister(0x01, TcCode(tcType));
    }

    /** `send_byte`: eight clock pulses, MSB first. */
    method SendByte(b: Byte)
      requires !clk
      modifies this`mosi, this`clk, this`wire
      ensures wire == old(wire) + EdgesOf(cs, MsbBits(b))
      ensures !clk && mosi == MsbBits(b)[7]
    {
      ghost var bits := MsbBits(b);
      ghost var sent := wire;
      var byte := b;
      for k := 0 to 8
        invariant MsbBits(byte)[..8 - k] == bits[k..]
        invariant wire == sent + EdgesOf(cs, bits[..k])
        invariant !clk
        invariant k > 0 ==> mosi == bits[k - 1]
      {
        SendStep(byte, bits, k);
        ghost var e := EdgesOf(cs, bits[..k]);
        EdgesOfStep(cs, bits, k);
        Pulse(byte & 0x80 != 0);
        assert wire == sent + (e + [Edge(cs, bits[k])]);
        byte := byte << 1;
      }
      assert bits[..8] == bits;
    }

    /** One bit of `send_byte`: set MOSI, then raise and lower the clock. */
    method Pulse(bit: bool)
      requires !clk
      modifies this`mosi, this`clk, this`wire
      ensures wire == old(wire) + [Edge(cs, bit)]
      ensures mosi == bit && !clk
    {
      mosi := bit;
      clk := true;
      wire := wire + [Edge(cs, mosi)];
      clk := false;
    }

    /** `recv_byte`: eight clock pulses, sampling MISO on each and shifting
        the bit in at the bottom. */
    method RecvByte() returns (r: Byte)
      requires !clk
      modifies this`clk, this`wire
      ensures wire == old(wire) + IdleEdges(cs, mosi, 8)
      ensures r == ByteAt(miso, |old(wire)|)
      ensures !clk
    {
      var start := |wire|;
      var byte: Byte := 0;
      for k := 0 to 8
        invariant wire == old(wire) + IdleEdges(cs, mosi, k)
        invariant byte == FromMsbBits(MisoBits(miso, start, k))
        invariant !clk
      {
        clk := true;
        var bit := miso(|wire|);
        IdleEdgesStep(cs, mosi, k);
        MisoBitsStep(miso, start, k);
        wire := wire + [Edge(cs, mosi)];
        byte := (byte << 1) | (if bit then 1 else 0);
        clk := false;
      }
      r := byte;
    }

    /** `write_register`: chip select low, the command and data bytes, chip
        select high. */
    method WriteRegister(reg: Byte, data: Byte)
      requires Idle()
      modifies this`cs, this`mosi, this`clk, this`wire
      ensures Idle()
      ensures wire == old(wire) + WriteFrame(reg, data)
    {
      cs := false;
      SendByte(0x80 | reg);
      SendByte(data);
      cs := true;
      assert EdgesOf(false, MsbBits(0x80 | reg)) + EdgesOf(false, MsbBits(data)) ==
             WriteFrame(reg, data);
    }

    /** `read_registers`: chip select low, the start register, `count`
        received bytes, chip select high. */
    method ReadRegisters(start: Byte, count: nat) returns (r: seq<Byte>)
      requires Idle()
      modifies this`cs, this`mosi, this`clk, this`wire
      ensures Idle()
      ensures wire == old(wire) + EdgesOf(false, MsbBits(start)) +
                      IdleEdges(false, MsbBits(start)[7], 8 * count)
      ensures r == BytesAt(miso, |old(wire)| + 8, count)
    {
      cs := false;
      SendByte(start);
      var base := |wire|;
      ghost var sent := wire;
      r := [];
      for j := 0 to count
        invariant cs == false && !clk && mosi == MsbBits(start)[7]
        invariant wire == sent + IdleEdges(false, mosi, 8 * j)
        invariant r == BytesAt(miso, base, j)
      {
        var b := RecvByte();
        assert IdleEdges(false, mosi, 8 * j) + IdleEdges(false, mosi, 8) ==
               IdleEdges(false, mosi, 8 * (j + 1));
        r := r + [b];
      }
      cs := true;
    }

    /** `read_thermocouple_temp`: four registers from 0x0C, decoded. */
    method ReadThermocoupleTemp() returns (r: Result<int, Fault>)
      requires Idle()
      modifies this`cs, this`mosi, this`clk, this`wire
      ensures Idle()
      ensures |wire| == |old(wire)| + 8 + 32
      ensures wire == old(wire) + EdgesOf(false, MsbBits(0x0C)) + IdleEdges(false, MsbBits(0x0C)[7], 32)
      ensures var d := BytesAt(miso, |old(wire)| + 8, 4);
        r == ThermocoupleReading(d[0], d[1], d[2], d[3])
    {
      var data := ReadRegisters(0x0C, 4);
      r := ThermocoupleReading(data[0], data[1], data[2], data[3]);
    }

    /** `read_cj_temp`: three registers from 0x09, decoded. */
    method ReadColdJunctionTemp() returns (t: int)
      requires Idle()
      modifies this`cs, this`mosi, this`clk, this`wire
      ensures Idle()
      ensures |wire| == |old(wire)| + 8 + 24
      ensures wire == old(wire) + EdgesOf(false, MsbBits(0x09)) + IdleEdges(false, MsbBits(0x09)[7], 24)
      ensures var d := BytesAt(miso, |old(wire)| + 8, 3);
        t == ColdJunctionCount(d[0], d[1], d[2])
    {
      var data := ReadRegisters(0x09, 3);
      t := ColdJunctionCount(data[0], data[1], data[2]);
    }
  }
}
