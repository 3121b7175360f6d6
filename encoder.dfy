/**
 * The frame the plugin sends to the dashboard: a sync byte, a version byte,
 * nine gauge bytes, three bytes of packed lamp flags, and a length-prefixed
 * text for the character display.
 */
module Encoder {
  import opened Wrappers
  import opened Decimal
  import Telemetry
  import OptionStore

  const PACKET_MAX_SIZE: nat := 720
  const PACKET_SYNC: bv8 := 0xFF
  const PACKET_VER: bv8 := 2
  /** Size of the header: sync, version, nine gauges, three flag bytes and the text length. */
  const HEADER_SIZE: nat := 15
  const EMPTY_PACKET_SIZE: nat := 16

  const METERS_PER_SEC_TO_MILES_PER_HOUR: real := 2.2369
  const METERS_PER_SEC_TO_KM_PER_HOUR: real := 3.6

  // ---------------------------------------------------------------------
  // Numbers to bytes
  // ---------------------------------------------------------------------

  /** C++'s conversion of a floating value to an integer: truncation toward zero. */
  function Trunc(x: real): (r: int)
    ensures 0.0 <= x ==> 0 <= r && r as real <= x < r as real + 1.0
    ensures x < 0.0 ==> r <= 0 && r as real - 1.0 < x <= r as real
  {
    if x >= 0.0 then x.Floor else -((-x).Floor)
  }

  /** Truncation and floor part ways on negative values that are not whole. */
  lemma TruncIsNotFloor()
    ensures Trunc(-0.5) == 0 && (-0.5).Floor == -1
  {
  }

  function Abs(x: int): (r: nat)
    ensures r == x || r == -x
  {
    if x < 0 then -x else x
  }

  function AbsReal(x: real): (r: real)
    ensures r >= 0.0 && (r == x || r == -x)
  {
    if x < 0.0 then -x else x
  }

  /** An integer in byte range as a byte. */
  function ByteOf(n: int): (b: bv8)
    requires 0 <= n < 256
    ensures b as int == n
    decreases n
  {
    if n == 0 then 0 else ByteOf(n - 1) + 1
  }

  lemma ByteOfValue(b: bv8)
    ensures ByteOf(b as int) == b
  {
    var c := ByteOf(b as int);
    assert c as int == b as int;
  }

  /**
   * `float_to_byte`: saturate at 254 so that the sync value 255 never
   * appears, clamp negative values to 0, truncate the rest.
   */
  function FloatToByte(v: real): (r: bv8)
    ensures r != PACKET_SYNC && r <= 254
    ensures v > 254.0 ==> r == 254
    ensures v < 0.0 ==> r == 0
    ensures 0.0 <= v <= 254.0 ==> r as int == Trunc(v)
  {
    if v > 254.0 then 254 else if v < 0.0 then 0 else ByteOf(Trunc(v))
  }

  // ---------------------------------------------------------------------
  // Flags to bits
  // ---------------------------------------------------------------------

  /** Bit `i` of `x` is set. */
  predicate Bit(x: bv8, i: nat)
    requires i < 8
  {
    (x >> i) & 1 == 1
  }

  function BoolBit(b: bool): bv8 {
    if b then 1 else 0
  }

  /** `PACKBOOL`: the first argument lands in bit 7, the last in bit 0. */
  function PackBool(a: bool, b: bool, c: bool, d: bool, e: bool, f: bool, g: bool, h: bool): (r: bv8)
    ensures Bit(r, 7) == a && Bit(r, 6) == b && Bit(r, 5) == c && Bit(r, 4) == d
    ensures Bit(r, 3) == e && Bit(r, 2) == f && Bit(r, 1) == g && Bit(r, 0) == h
  {
    (BoolBit(a) << 7) | (BoolBit(b) << 6) | (BoolBit(c) << 5) | (BoolBit(d) << 4) |
    (BoolBit(e) << 3) | (BoolBit(f) << 2) | (BoolBit(g) << 1) | BoolBit(h)
  }

  /** A byte is determined by its eight bits, so packing loses nothing. */
  lemma BitsDetermineByte(x: bv8, y: bv8)
    requires forall i :: 0 <= i < 8 ==> Bit(x, i) == Bit(y, i)
    ensures x == y
  {
    assert Bit(x, 0) == Bit(y, 0) && Bit(x, 1) == Bit(y, 1) && Bit(x, 2) == Bit(y, 2);
    assert Bit(x, 3) == Bit(y, 3) && Bit(x, 4) == Bit(y, 4) && Bit(x, 5) == Bit(y, 5);
    assert Bit(x, 6) == Bit(y, 6) && Bit(x, 7) == Bit(y, 7);
  }

  /** Frame byte 11: bit 7 is always clear, then parking, blinkers, beams, brake and reverse lamps. */
  function TruckLights(t: Telemetry.State): (r: bv8)
    ensures !Bit(r, 7) && Bit(r, 6) == t.lightParking && Bit(r, 5) == t.lightLblinker
    ensures Bit(r, 4) == t.lightRblinker && Bit(r, 3) == t.lightLowBeam && Bit(r, 2) == t.lightHighBeam
    ensures Bit(r, 1) == t.lightBrake && Bit(r, 0) == t.lightReverse
  {
    PackBool(false, t.lightParking, t.lightLblinker, t.lightRblinker,
             t.lightLowBeam, t.lightHighBeam, t.lightBrake, t.lightReverse)
  }

  /** Frame byte 12: the eight warning lamps. */
  function Warnings(t: Telemetry.State): (r: bv8)
    ensures Bit(r, 7) == t.parkingBrake && Bit(r, 6) == t.motorBrake
    ensures Bit(r, 5) == t.brakeAirPressureWarning && Bit(r, 4) == t.brakeAirPressureEmergency
    ensures Bit(r, 3) == t.fuelWarning && Bit(r, 2) == t.batteryVoltageWarning
    ensures Bit(r, 1) == t.oilPressureWarning && Bit(r, 0) == t.waterTemperatureWarning
  {
    PackBool(t.parkingBrake, t.motorBrake, t.brakeAirPressureWarning, t.brakeAirPressureEmergency,
             t.fuelWarning, t.batteryVoltageWarning, t.oilPressureWarning, t.waterTemperatureWarning)
  }

  /** Frame byte 13: bits 7..2 clear, then electrics and engine. */
  function EnabledFlags(t: Telemetry.State): (r: bv8)
    ensures Bit(r, 1) == t.electricEnabled && Bit(r, 0) == t.engineEnabled
  {
    PackBool(false, false, false, false, false, false, t.electricEnabled, t.engineEnabled)
  }

  lemma TruckLightsTopBitClear(t: Telemetry.State)
    ensures !Bit(TruckLights(t), 7) && TruckLights(t) < 0x80
  {
    assert !Bit(TruckLights(t), 7);
  }

  lemma EnabledFlagsHighBitsClear(t: Telemetry.State)
    ensures forall i :: 2 <= i < 8 ==> !Bit(EnabledFlags(t), i)
    ensures EnabledFlags(t) < 4
  {
    var x := EnabledFlags(t);
    assert !Bit(x, 2) && !Bit(x, 3) && !Bit(x, 4) && !Bit(x, 5) && !Bit(x, 6) && !Bit(x, 7);
  }

  /** Parking, right blinker and brake lamps on, everything else off: 0b0101_0010. */
  lemma TruckLightsExample(t: Telemetry.State)
    requires t.lightParking && !t.lightLblinker && t.lightRblinker && !t.lightLowBeam
    requires !t.lightHighBeam && t.lightBrake && !t.lightReverse
    ensures TruckLights(t) == 0x52
  {
  }

  // ---------------------------------------------------------------------
  // Gauges
  // ---------------------------------------------------------------------

  /** The nine gauges, in frame order. */
  datatype Channel =
    | Speed | EngineRpm | BrakeAirPressure | BrakeTemperature | FuelRatio
    | OilPressure | OilTemperature | WaterTemperature | BatteryVoltage

  const Channels: seq<Channel> := [Speed, EngineRpm, BrakeAirPressure, BrakeTemperature,
    FuelRatio, OilPressure, OilTemperature, WaterTemperature, BatteryVoltage]

  /** The option that scales a gauge. */
  function FactorKey(c: Channel): (k: string)
    ensures |k| > 7 && k[..7] == "factor_"
  {
    match c
    case Speed => "factor_speed"
    case EngineRpm => "factor_engine_rpm"
    case BrakeAirPressure => "factor_brake_air_pressure"
    case BrakeTemperature => "factor_brake_temperature"
    case FuelRatio => "factor_fuel_ratio"
    case OilPressure => "factor_oil_pressure"
    case OilTemperature => "factor_oil_temperature"
    case WaterTemperature => "factor_water_temperature"
    case BatteryVoltage => "factor_battery_voltage"
  }

  /** Every gauge has an option of its own. */
  lemma FactorKeysDistinct(c: Channel, d: Channel)
    ensures FactorKey(c) == FactorKey(d) ==> c == d
  {
  }

  /** The unscaled reading of a gauge: speed as a magnitude, fuel as a fraction of the tank. */
  function Measurement(t: Telemetry.State, c: Channel): (r: real)
    requires c == FuelRatio ==> t.fuelCapacity != 0.0
    ensures c == Speed ==> r >= 0.0 && (r == t.speed || r == -t.speed)
    ensures c == FuelRatio ==> r * t.fuelCapacity == t.fuel
  {
    match c
    case Speed => AbsReal(t.speed)
    case EngineRpm => t.engineRpm
    case BrakeAirPressure => t.brakeAirPressure
    case BrakeTemperature => t.brakeTemperature
    case FuelRatio => t.fuel / t.fuelCapacity
    case OilPressure => t.oilPressure
    case OilTemperature => t.oilTemperature
    case WaterTemperature => t.waterTemperature
    case BatteryVoltage => t.batteryVoltage
  }

  /** The gauge byte: the reading times its factor (1 when the option is absent), saturated. */
  function ChannelByte(t: Telemetry.State, opts: OptionStore.Tables, c: Channel): (b: bv8)
    requires c == FuelRatio ==> t.fuelCapacity != 0.0
    ensures b != PACKET_SYNC
    ensures FactorKey(c) !in opts.floats ==> b == FloatToByte(Measurement(t, c))
  {
    FloatToByte(Measurement(t, c) * opts.GetOptionFloat(FactorKey(c), 1.0))
  }

  // ---------------------------------------------------------------------
  // The display text
  // ---------------------------------------------------------------------

  /** `int(x)` is defined: the truncated value is a 32-bit int. */
  predicate FitsInt(x: real) { -2147483649.0 < x < 2147483648.0 }

  /** `abs(int(x))` is defined as well: the truncated value is not the most negative int. */
  predicate FitsAbs(x: real) { -2147483648.0 < x < 2147483648.0 }

  lemma TruncFits(x: real)
    ensures FitsInt(x) ==> INT32_MIN <= Trunc(x) <= INT32_MAX
    ensures FitsAbs(x) ==> INT32_MIN < Trunc(x) <= INT32_MAX
  {
  }

  function MphReading(t: Telemetry.State): real { t.speed * METERS_PER_SEC_TO_MILES_PER_HOUR }

  function KphReading(t: Telemetry.State): real { t.speed * METERS_PER_SEC_TO_KM_PER_HOUR }

  function PercentReading(t: Telemetry.State): real
    requires t.fuelCapacity != 0.0
  {
    t.fuel / t.fuelCapacity * 100.0
  }

  /**
   * The C++ conversions the text needs are defined: the tank size is not
   * zero, each converted value truncates into a 32-bit int, and the values
   * passed to `abs` are not the most negative int.
   */
  predicate Displayable(t: Telemetry.State) {
    && t.fuelCapacity != 0.0
    && FitsAbs(MphReading(t))
    && FitsAbs(KphReading(t))
    && FitsInt(PercentReading(t))
    && t.engineGear != INT32_MIN
  }

  /** `abs(int(speed_mph))`: the whole miles per hour, whichever way the truck moves. */
  function Mph(t: Telemetry.State): (r: nat)
    ensures r as real <= AbsReal(MphReading(t)) < r as real + 1.0
  {
    Abs(Trunc(MphReading(t)))
  }

  /** `abs(int(speed_kph))`: the whole kilometres per hour, whichever way the truck moves. */
  function Kph(t: Telemetry.State): (r: nat)
    ensures r as real <= AbsReal(KphReading(t)) < r as real + 1.0
  {
    Abs(Trunc(KphReading(t)))
  }

  /** `int(fuel_ratio * 100.0f)`: the fuel percentage with its fraction dropped toward zero. */
  function FuelPercent(t: Telemetry.State): (r: int)
    requires t.fuelCapacity != 0.0
    ensures PercentReading(t) >= 0.0 ==> 0 <= r && r as real <= PercentReading(t) < r as real + 1.0
    ensures PercentReading(t) < 0.0 ==> r <= 0 && r as real - 1.0 < PercentReading(t) <= r as real
  {
    Trunc(PercentReading(t))
  }

  /** The gear: "D" and the gear in two columns, "N  ", or "R" and the reverse gear in two columns. */
  function GearText(g: int32): (r: string)
    requires g != INT32_MIN
    ensures |r| >= 3
    ensures (r[0] == 'D' <==> g > 0) && (r[0] == 'N' <==> g == 0) && (r[0] == 'R' <==> g < 0)
  {
    if g > 0 then "D" + Pad(IntToString(g), 2)
    else if g == 0 then "N  "
    else "R" + Pad(IntToString(-g), 2)
  }

  /** The two display lines, from the whole numbers they show. */
  function DisplayText(mph: nat, gear: int32, kph: nat, percent: int): (r: string)
    requires gear != INT32_MIN
    ensures |r| >= 36
  {
    Pad(IntToString(mph), 3) + " MPH" + "   G  " + GearText(gear) + "\n"
    + Pad(IntToString(kph), 3) + " KPH" + "   F " + Pad(IntToString(percent), 3) + "%"
    + Pad(IntToString(kph), 3)
  }

  /**
   * The text `telemetry_frame_end` builds for the display. The speed in km/h
   * is written a second time at the end of the second line, as the plugin does.
   */
  function DisplayString(t: Telemetry.State): (r: string)
    requires Displayable(t)
    ensures |r| >= 36
  {
    DisplayText(Mph(t), t.engineGear, Kph(t), FuelPercent(t))
  }

  lemma GearTextBounds(g: int32)
    requires g != INT32_MIN
    ensures 3 <= |GearText(g)| <= 11 && IsAscii(GearText(g))
    ensures -100 < g < 100 ==> |GearText(g)| == 3
  {
    if g > 0 {
      var d := Pad(IntToString(g), 2);
      GearNumberBounds(g);
      GearLetterAscii();
      AsciiConcat("D", d);
      assert GearText(g) == "D" + d;
    } else if g < 0 {
      var d := Pad(IntToString(-g), 2);
      GearNumberBounds(-g);
      GearLetterAscii();
      AsciiConcat("R", d);
      assert GearText(g) == "R" + d;
    } else {
      GearLetterAscii();
      assert GearText(g) == "N  ";
    }
  }

  lemma GearLetterAscii()
    ensures IsAscii("D") && IsAscii("R") && IsAscii("N  ") && |"N  "| == 3
  {
  }

  /** The gear number after the letter: two columns, more only past 99. */
  lemma GearNumberBounds(n: int)
    requires 0 < n <= INT32_MAX
    ensures var d := Pad(IntToString(n), 2);
      2 <= |d| <= 10 && IsAscii(d) && (n < 100 ==> |d| == 2)
  {
    IntToStringLength(n);
    if n < 100 { NatToStringLength(n, 2); }
    PadShape(IntToString(n), 2);
  }

  lemma DisplayTextLength(mph: nat, gear: int32, kph: nat, percent: int)
    requires mph <= INT32_MAX && kph <= INT32_MAX && INT32_MIN <= percent <= INT32_MAX
    requires gear != INT32_MIN
    ensures 36 <= |DisplayText(mph, gear, kph, percent)| <= 73
  {
    IntToStringLength(mph);
    IntToStringLength(kph);
    IntToStringLength(percent);
    GearTextBounds(gear);
  }

  lemma LabelsAscii()
    ensures IsAscii(" MPH") && IsAscii("   G  ") && IsAscii("\n")
    ensures IsAscii(" KPH") && IsAscii("   F ") && IsAscii("%")
  {
  }

  lemma DisplayTextAscii(mph: nat, gear: int32, kph: nat, percent: int)
    requires gear != INT32_MIN
    ensures IsAscii(DisplayText(mph, gear, kph, percent))
  {
    var a, b, c := IntToString(mph), IntToString(kph), IntToString(percent);
    GearTextBounds(gear);
    LabelsAscii();
    var pa, pb, pc := Pad(a, 3), Pad(b, 3), Pad(c, 3);
    PadShape(a, 3);
    PadShape(b, 3);
    PadShape(c, 3);
    var t1 := pa + " MPH";
    AsciiConcat(pa, " MPH");
    var t2 := t1 + "   G  ";
    AsciiConcat(t1, "   G  ");
    var t3 := t2 + GearText(gear);
    AsciiConcat(t2, GearText(gear));
    var t4 := t3 + "\n";
    AsciiConcat(t3, "\n");
    var t5 := t4 + pb;
    AsciiConcat(t4, pb);
    var t6 := t5 + " KPH";
    AsciiConcat(t5, " KPH");
    var t7 := t6 + "   F ";
    AsciiConcat(t6, "   F ");
    var t8 := t7 + pc;
    AsciiConcat(t7, pc);
    var t9 := t8 + "%";
    AsciiConcat(t8, "%");
    AsciiConcat(t9, pb);
  }

  /** The text is plain ASCII and between 36 and 73 characters long. */
  lemma DisplayBounds(t: Telemetry.State)
    requires Displayable(t)
    ensures 36 <= |DisplayString(t)| <= 73
    ensures IsAscii(DisplayString(t))
  {
    TruncFits(MphReading(t));
    TruncFits(KphReading(t));
    TruncFits(PercentReading(t));
    DisplayTextLength(Mph(t), t.engineGear, Kph(t), FuelPercent(t));
    DisplayTextAscii(Mph(t), t.engineGear, Kph(t), FuelPercent(t));
  }

  /**
   * While every value fits its column (speeds below 1000, gear within two
   * digits, fuel percent from -99 to 999) the text has a fixed layout: 36
   * characters, the line break at index 16.
   */
  lemma DisplayFixedLayout(mph: nat, gear: int32, kph: nat, percent: int)
    requires mph < 1000 && kph < 1000 && -100 < gear < 100 && -100 < percent < 1000
    ensures |DisplayText(mph, gear, kph, percent)| == 36
    ensures DisplayText(mph, gear, kph, percent)[16] == '\n'
  {
    NatToStringLength(mph, 3);
    NatToStringLength(kph, 3);
    if percent < 0 { NatToStringLength(-percent, 2); } else { NatToStringLength(percent, 3); }
    GearTextBounds(gear);
    assert |Pad(IntToString(mph), 3)| == 3 && |Pad(IntToString(kph), 3)| == 3;
    assert |Pad(IntToString(percent), 3)| == 3;
    var line1 := Pad(IntToString(mph), 3) + " MPH" + "   G  " + GearText(gear);
    assert |line1| == 16;
  }

  /** Standing still in neutral with a half-full tank. */
  lemma DisplayExample(t: Telemetry.State)
    requires t.speed == 0.0 && t.engineGear == 0 && t.fuel == 50.0 && t.fuelCapacity == 100.0
    ensures Displayable(t)
    ensures DisplayString(t) == "  0 MPH   G  N  \n  0 KPH   F  50%  0"
  {
    assert MphReading(t) == 0.0 && KphReading(t) == 0.0;
    assert PercentReading(t) == 50.0;
    assert Mph(t) == 0 && Kph(t) == 0 && FuelPercent(t) == 50;
    StillExampleText();
  }

  lemma StillExampleText()
    ensures DisplayText(0, 0, 0, 50) == "  0 MPH   G  N  \n  0 KPH   F  50%  0"
  {
    ColumnExamples();
    var zero, fifty := Pad(IntToString(0), 3), Pad(IntToString(50), 3);
    assert GearText(0) == "N  ";
    var line1 := zero + " MPH" + "   G  " + "N  " + "\n";
    assert line1 == "  0 MPH   G  N  \n";
    var line2 := line1 + zero + " KPH" + "   F " + fifty + "%" + zero;
    assert line2 == "  0 MPH   G  N  \n  0 KPH   F  50%  0";
  }

  lemma ColumnExamples()
    ensures Pad(IntToString(0), 3) == "  0"
    ensures Pad(IntToString(50), 3) == " 50"
  {
    assert IntToString(50) == "50" by {
      assert NatToString(50) == NatToString(5) + [DigitChar(0)];
    }
  }

  /** The bytes of an ASCII string. */
  function Bytes(s: string): (b: seq<bv8>)
    requires IsAscii(s)
    ensures |b| == |s| && forall i :: 0 <= i < |s| ==> b[i] as int == s[i] as int
  {
    seq(|s|, i requires 0 <= i < |s| => ByteOf(s[i] as int))
  }

  // ---------------------------------------------------------------------
  // The frame, and the reading a receiver makes of it
  // ---------------------------------------------------------------------

  /** The variable parts of a frame. */
  datatype Fields = Fields(channels: seq<bv8>, flags: seq<bv8>, text: seq<bv8>)

  predicate WellFormed(f: Fields) {
    |f.channels| == 9 && |f.flags| == 3 && |f.text| < 256
  }

  /** The byte layout: sync, version, gauges, flags, text length, text. */
  function Layout(f: Fields): (p: seq<bv8>)
    requires WellFormed(f)
    ensures |p| == HEADER_SIZE + |f.text|
  {
    [PACKET_SYNC, PACKET_VER] + f.channels + f.flags + [ByteOf(|f.text|)] + f.text
  }

  /** How a receiver takes a frame apart: header checks, then each part at its offset. */
  function Decode(p: seq<bv8>): Option<Fields> {
    if |p| >= HEADER_SIZE && p[0] == PACKET_SYNC && p[1] == PACKET_VER && |p| == HEADER_SIZE + p[14] as int
    then Some(Fields(p[2..11], p[11..14], p[15..]))
    else None
  }

  lemma DecodeLayout(f: Fields)
    requires WellFormed(f)
    ensures Decode(Layout(f)) == Some(f)
  {
    var p := Layout(f);
    assert p[2..11] == f.channels && p[11..14] == f.flags && p[15..] == f.text;
  }

  lemma LayoutDecode(p: seq<bv8>)
    requires Decode(p).Some?
    ensures WellFormed(Decode(p).value) && Layout(Decode(p).value) == p
  {
    var f := Decode(p).value;
    ByteOfValue(p[14]);
    assert p[..2] == [PACKET_SYNC, PACKET_VER];
    assert p[..11] == p[..2] + f.channels;
    assert p[..14] == p[..11] + f.flags;
    assert p[..15] == p[..14] + [p[14]];
    assert p == p[..15] + f.text;
  }

  function FrameFields(t: Telemetry.State, opts: OptionStore.Tables): (f: Fields)
    requires Displayable(t)
    ensures WellFormed(f)
  {
    DisplayBounds(t);
    Fields(seq(9, i requires 0 <= i < 9 => ChannelByte(t, opts, Channels[i])),
           [TruckLights(t), Warnings(t), EnabledFlags(t)],
           Bytes(DisplayString(t)))
  }

  /** The frame `telemetry_frame_end` writes for snapshot `t` and options `opts`. */
  function FramePacket(t: Telemetry.State, opts: OptionStore.Tables): (p: seq<bv8>)
    requires Displayable(t)
    ensures |p| == HEADER_SIZE + |DisplayString(t)| <= PACKET_MAX_SIZE
    ensures p[0] == PACKET_SYNC && p[1] == PACKET_VER
    ensures forall i :: 0 <= i < 9 ==> p[2 + i] == ChannelByte(t, opts, Channels[i])
    ensures p[11] == TruckLights(t) && p[12] == Warnings(t) && p[13] == EnabledFlags(t)
    ensures p[14] as int == |DisplayString(t)|
    ensures forall i :: 0 <= i < |DisplayString(t)| ==> p[HEADER_SIZE + i] as int == DisplayString(t)[i] as int
  {
    DisplayBounds(t);
    Layout(FrameFields(t, opts))
  }

  /** A receiver recovers gauges, flags and text from every frame. */
  lemma FrameDecodes(t: Telemetry.State, opts: OptionStore.Tables)
    requires Displayable(t)
    ensures Decode(FramePacket(t, opts)) == Some(FrameFields(t, opts))
  {
    DecodeLayout(FrameFields(t, opts));
  }

  /**
   * The sync value shows up only at offset 0 and possibly in the warning
   * byte (all eight warnings on); gauges, lamps, enable flags, the length
   * and the text never produce it.
   */
  lemma SyncOnlyAtStart(t: Telemetry.State, opts: OptionStore.Tables, i: nat)
    requires Displayable(t)
    requires 0 < i < |FramePacket(t, opts)| && i != 12
    ensures FramePacket(t, opts)[i] != PACKET_SYNC
  {
    var p := FramePacket(t, opts);
    DisplayBounds(t);
    if i == 11 {
      TruckLightsTopBitClear(t);
    } else if i == 13 {
      EnabledFlagsHighBitsClear(t);
    } else if i >= HEADER_SIZE {
      assert p[HEADER_SIZE + (i - HEADER_SIZE)] as int == DisplayString(t)[i - HEADER_SIZE] as int;
    } else if 2 <= i < 11 {
      assert p[2 + (i - 2)] == ChannelByte(t, opts, Channels[i - 2]);
    }
  }

  /** A speed of 10 m/s with `factor_speed` 2 drives the speed gauge to 20. */
  lemma SpeedFactorExample(t: Telemetry.State, opts: OptionStore.Tables)
    requires Displayable(t) && t.speed == 10.0
    requires opts.GetOptionFloat("factor_speed", 1.0) == 2.0
    ensures FramePacket(t, opts)[2] == 20
  {
    assert FramePacket(t, opts)[2 + 0] == ChannelByte(t, opts, Channels[0]);
  }

  /** The same reading, with the factor coming from the option line `factor_speed flt 2.0`. */
  lemma SpeedFactorFromLine(t: Telemetry.State)
    requires Displayable(t) && t.speed == 10.0
    ensures FramePacket(t, OptionStore.ReadLines(OptionStore.Empty, ["factor_speed flt 2.0"]))[2] == 20
  {
    OptionStore.SpeedFactorLine();
    SpeedFactorExample(t, OptionStore.ReadLines(OptionStore.Empty, ["factor_speed flt 2.0"]));
  }

  function Zeros(n: nat): (z: seq<bv8>)
    ensures |z| == n && forall i :: 0 <= i < n ==> z[i] == 0
  {
    seq(n, _ => 0)
  }

  /** `send_empty_packet`'s bytes: sync, version, fourteen zeros. */
  function EmptyPacket(): (p: seq<bv8>)
    ensures |p| == EMPTY_PACKET_SIZE
  {
    [PACKET_SYNC, PACKET_VER] + Zeros(EMPTY_PACKET_SIZE - 2)
  }

  /**
   * The blank frame reads as every gauge at zero, every lamp off and an
   * empty text, followed by one more zero byte than its length announces.
   */
  lemma EmptyPacketIsBlank()
    ensures Decode(EmptyPacket()[..HEADER_SIZE]) == Some(Fields(Zeros(9), Zeros(3), []))
    ensures EmptyPacket()[HEADER_SIZE] == 0
  {
    var e := EmptyPacket();
    assert forall i :: 2 <= i < EMPTY_PACKET_SIZE ==> e[i] == 0;
    var p := e[..HEADER_SIZE];
    assert |p| == HEADER_SIZE && p[0] == PACKET_SYNC && p[1] == PACKET_VER && p[14] == 0;
    assert p[2..11] == Zeros(9);
    assert p[11..14] == Zeros(3);
    assert p[15..] == [];
  }
}
