/**
 * The plugin's global state and its entry points: the game calls `Init`,
 * then the store callbacks and `Configuration` as values change,
 * `FrameEnd` after every simulated frame, and `Shutdown` at the end.
 */
module Plugin {
  import opened Wrappers
  import opened Decimal
  import Telemetry
  import OptionStore
  import opened Encoder
  import opened SerialPort

  /** `GetTickCount` counts milliseconds in an unsigned 32-bit word. */
  const TICKS: int := 0x1_0000_0000
  /** Frames are at least this many milliseconds apart (20 per second). */
  const FRAME_INTERVAL: int := 50
  /** The telemetry API version the plugin accepts: major 1, minor 0. */
  const TELEMETRY_VERSION_1_00: int := 0x0001_0000
  const PORT_OPTION := "comport"
  const DEFAULT_PORT := "COM3"

  datatype InitResult = Ok | Unsupported | GenericError

  /** Milliseconds from `last` to `now`, by unsigned 32-bit subtraction. */
  function Elapsed(now: int, last: int): (d: int)
    requires 0 <= now < TICKS && 0 <= last < TICKS
    ensures 0 <= d < TICKS
    ensures now >= last ==> d == now - last
    ensures now < last ==> d == TICKS - last + now
  {
    (now - last) % TICKS
  }

  predicate Due(now: int, last: int)
    requires 0 <= now < TICKS && 0 <= last < TICKS
  {
    Elapsed(now, last) >= FRAME_INTERVAL
  }

  /** The tick count `k` milliseconds after `last`, wrapping at 2^32. */
  function TickAfter(last: int, k: nat): (t: int)
    ensures 0 <= t < TICKS
  {
    (last + k) % TICKS
  }

  /**
   * A frame is held back exactly when `now` lies in the 50 milliseconds
   * starting at the last frame, counted around the wrap of the tick counter.
   */
  lemma DueOutsideWindow(now: int, last: int)
    requires 0 <= now < TICKS && 0 <= last < TICKS
    ensures !Due(now, last) <==> exists k: nat :: k < FRAME_INTERVAL && TickAfter(last, k) == now
  {
    if !Due(now, last) {
      var k: nat := Elapsed(now, last);
      assert TickAfter(last, k) == now;
    }
    forall k: nat | k < FRAME_INTERVAL && TickAfter(last, k) == now
      ensures Elapsed(now, last) == k
    {
      if last + k >= TICKS {
        assert TickAfter(last, k) == last + k - TICKS;
      }
    }
  }

  /** Shortly after the counter wraps, the time since a frame just before the wrap is still measured correctly. */
  lemma DueAcrossWrap()
    ensures Elapsed(10, TICKS - 45) == 55 && Due(10, TICKS - 45)
    ensures Elapsed(10, TICKS - 30) == 40 && !Due(10, TICKS - 30)
  {
  }

  predicate AllSucceeded(outcomes: seq<bool>) {
    forall i :: 0 <= i < |outcomes| ==> outcomes[i]
  }

  /** `packet` holding the first `n` bytes of `frame`, zeros after them. */
  function Filled(frame: seq<bv8>, n: nat): (b: seq<bv8>)
    requires n <= |frame| <= PACKET_MAX_SIZE
    ensures |b| == PACKET_MAX_SIZE
  {
    frame[..n] + Zeros(PACKET_MAX_SIZE - n)
  }

  lemma FilledStep(frame: seq<bv8>, n: nat)
    requires n < |frame| <= PACKET_MAX_SIZE
    ensures Filled(frame, n)[n := frame[n]] == Filled(frame, n + 1)
  {
    assert frame[..n + 1] == frame[..n] + [frame[n]];
  }

  lemma FilledPrefix(frame: seq<bv8>, n: nat)
    requires n == |frame| <= PACKET_MAX_SIZE
    ensures Filled(frame, n)[..n] == frame
  {
  }

  class Plugin {
    /** The snapshot the callbacks keep up to date. */
    var telemetry: Telemetry.State
    /** Tick count of the last frame sent. */
    var lastUpdate: int
    const packet: array<bv8>
    const port: Serial
    const options: OptionStore.Options

    ghost predicate Valid()
      reads this
    {
      packet.Length == PACKET_MAX_SIZE && 0 <= lastUpdate < TICKS
    }

    /** The globals as the program starts: everything zero, port closed, no options. */
    constructor ()
      ensures Valid() && fresh(packet) && fresh(port) && fresh(options)
      ensures telemetry == Telemetry.Zero && lastUpdate == 0
      ensures packet[..] == Zeros(PACKET_MAX_SIZE)
      ensures !port.open && port.sent == [] && options.Contents() == OptionStore.Empty
    {
      telemetry := Telemetry.Zero;
      lastUpdate := 0;
      packet := new bv8[PACKET_MAX_SIZE](_ => 0);
      port := new Serial();
      options := new OptionStore.Options();
    }

    /** `PUT_BYTE`: one byte at `idx`, and the index moves on. */
    method PutByte(idx: nat, x: bv8) returns (next: nat)
      requires Valid() && idx < packet.Length
      modifies packet
      ensures next == idx + 1
      ensures packet[..] == old(packet[..])[idx := x]
    {
      SetByte(idx, x);
      next := idx + 1;
    }

    method SetByte(i: nat, x: bv8)
      requires Valid() && i < packet.Length
      modifies packet
      ensures packet[..] == old(packet[..])[i := x]
    {
      packet[i] := x;
    }

    /** `send_empty_packet`: clears the buffer and writes its first sixteen bytes. */
    method SendEmptyPacket()
      requires Valid()
      modifies packet, port`sent
      ensures packet[..] == Filled(EmptyPacket(), EMPTY_PACKET_SIZE)
      ensures port.sent == if port.open then old(port.sent) + [EmptyPacket()] else old(port.sent)
    {
      forall i | 0 <= i < packet.Length {
        packet[i] := 0;
      }
      packet[0] := PACKET_SYNC;
      packet[1] := PACKET_VER;
      assert packet[..EMPTY_PACKET_SIZE] == EmptyPacket();
      assert packet[..] == Filled(EmptyPacket(), EMPTY_PACKET_SIZE);
      port.Write(packet, EMPTY_PACKET_SIZE);
    }

    /**
     * `telemetry_frame_end`: when the port is open and at least 50 ms have
     * passed since the last frame, encodes the snapshot into the buffer and
     * writes the frame; otherwise does nothing.
     */
    method FrameEnd(now: int)
      requires Valid() && 0 <= now < TICKS
      requires port.open && Due(now, lastUpdate) ==> Displayable(telemetry)
      modifies this`lastUpdate, packet, port`sent
      ensures Valid()
      ensures !(port.open && Due(now, old(lastUpdate))) ==>
        lastUpdate == old(lastUpdate) && port.sent == old(port.sent) && packet[..] == old(packet[..])
      ensures port.open && Due(now, old(lastUpdate)) ==>
        && lastUpdate == now
        && port.sent == old(port.sent) + [FramePacket(telemetry, options.Contents())]
        && packet[..] == Filled(FramePacket(telemetry, options.Contents()), |FramePacket(telemetry, options.Contents())|)
    {
      if !port.open {
        return;
      }
      var diff := Elapsed(now, lastUpdate);
      if diff < FRAME_INTERVAL {
        return;
      }
      lastUpdate := now;
      var length := EncodeFrame();
      FilledPrefix(FramePacket(telemetry, options.Contents()), length);
      port.Write(packet, length);
    }

    /** The body of `telemetry_frame_end` once a frame is due: the buffer filled with the frame. */
    method EncodeFrame() returns (length: nat)
      requires Valid() && Displayable(telemetry)
      modifies packet
      ensures length == |FramePacket(telemetry, options.Contents())|
      ensures packet[..] == Filled(FramePacket(telemetry, options.Contents()), length)
    {
      var t, opts := telemetry, options.Contents();
      ghost var frame := FramePacket(t, opts);
      forall i | 0 <= i < packet.Length {
        packet[i] := 0;
      }
      assert packet[..] == Filled(frame, 0);
      var idx := 0;
      idx := PutHeader(idx, frame);
      length := PutText(idx, frame);
    }

    /** The length of the display text, then the text itself. */
    method PutText(idx: nat, ghost frame: seq<bv8>) returns (length: nat)
      requires Valid() && idx == HEADER_SIZE - 1 && Displayable(telemetry)
      requires frame == FramePacket(telemetry, options.Contents())
      requires packet[..] == Filled(frame, idx)
      modifies packet
      ensures length == |frame|
      ensures packet[..] == Filled(frame, length)
    {
      var display := DisplayString(telemetry);
      DisplayBounds(telemetry);
      FilledStep(frame, idx);
      var next := PutByte(idx, ByteOf(|display|));
      CopyText(next, display, frame);
      length := next + |display|;
    }

    /**
     * `display_str.copy`: the text after the header, cut off at the end of
     * the buffer (the display text is always short enough to fit).
     */
    method CopyText(idx: nat, display: string, ghost frame: seq<bv8>)
      requires Valid() && idx == HEADER_SIZE && |frame| == HEADER_SIZE + |display| <= PACKET_MAX_SIZE
      requires forall k :: 0 <= k < |display| ==> frame[HEADER_SIZE + k] as int == display[k] as int
      requires packet[..] == Filled(frame, idx)
      modifies packet
      ensures packet[..] == Filled(frame, |frame|)
    {
      var room := PACKET_MAX_SIZE - idx;
      var n := if |display| < room then |display| else room;
      var k := 0;
      while k < n
        invariant 0 <= k <= n == |display|
        invariant packet[..] == Filled(frame, idx + k)
      {
        ByteOfValue(frame[idx + k]);
        FilledStep(frame, idx + k);
        SetByte(idx + k, ByteOf(display[k] as int));
        k := k + 1;
      }
    }

    /** The sync and version bytes, the nine gauges and the three lamp bytes. */
    method PutHeader(idx0: nat, ghost frame: seq<bv8>) returns (idx: nat)
      requires Valid() && idx0 == 0 && Displayable(telemetry)
      requires frame == FramePacket(telemetry, options.Contents())
      requires packet[..] == Filled(frame, 0)
      modifies packet
      ensures idx == HEADER_SIZE - 1
      ensures packet[..] == Filled(frame, idx)
    {
      idx := idx0;
      FilledStep(frame, idx);
      idx := PutByte(idx, PACKET_SYNC);
      FilledStep(frame, idx);
      idx := PutByte(idx, PACKET_VER);
      idx := PutGauges(idx, frame);
      idx := PutLamps(idx, frame);
    }

    /** The three lamp bytes: truck lights, warnings, enable flags. */
    method PutLamps(idx0: nat, ghost frame: seq<bv8>) returns (idx: nat)
      requires Valid() && idx0 == 11 && Displayable(telemetry)
      requires frame == FramePacket(telemetry, options.Contents())
      requires packet[..] == Filled(frame, idx0)
      modifies packet
      ensures idx == HEADER_SIZE - 1
      ensures packet[..] == Filled(frame, idx)
    {
      var t := telemetry;
      idx := idx0;
      FilledStep(frame, idx);
      idx := PutByte(idx, TruckLights(t));
      FilledStep(frame, idx);
      idx := PutByte(idx, Warnings(t));
      FilledStep(frame, idx);
      idx := PutByte(idx, EnabledFlags(t));
    }

    /** The nine gauge bytes, each reading scaled by its factor option. */
    method PutGauges(idx0: nat, ghost frame: seq<bv8>) returns (idx: nat)
      requires Valid() && idx0 == 2 && Displayable(telemetry)
      requires frame == FramePacket(telemetry, options.Contents())
      requires packet[..] == Filled(frame, idx0)
      modifies packet
      ensures idx == 11
      ensures packet[..] == Filled(frame, idx)
    {
      var t, opts := telemetry, options.Contents();
      idx := idx0;
      assert frame[2 + 0] == ChannelByte(t, opts, Channels[0]);
      FilledStep(frame, idx);
      idx := PutByte(idx, ChannelByte(t, opts, Speed));
      assert frame[2 + 1] == ChannelByte(t, opts, Channels[1]);
      FilledStep(frame, idx);
      idx := PutByte(idx, ChannelByte(t, opts, EngineRpm));
      assert frame[2 + 2] == ChannelByte(t, opts, Channels[2]);
      FilledStep(frame, idx);
      idx := PutByte(idx, ChannelByte(t, opts, BrakeAirPressure));
      assert frame[2 + 3] == ChannelByte(t, opts, Channels[3]);
      FilledStep(frame, idx);
      idx := PutByte(idx, ChannelByte(t, opts, BrakeTemperature));
      assert frame[2 + 4] == ChannelByte(t, opts, Channels[4]);
      FilledStep(frame, idx);
      idx := PutByte(idx, ChannelByte(t, opts, FuelRatio));
      assert frame[2 + 5] == ChannelByte(t, opts, Channels[5]);
      FilledStep(frame, idx);
      idx := PutByte(idx, ChannelByte(t, opts, OilPressure));
      assert frame[2 + 6] == ChannelByte(t, opts, Channels[6]);
      FilledStep(frame, idx);
      idx := PutByte(idx, ChannelByte(t, opts, OilTemperature));
      assert frame[2 + 7] == ChannelByte(t, opts, Channels[7]);
      FilledStep(frame, idx);
      idx := PutByte(idx, ChannelByte(t, opts, WaterTemperature));
      assert frame[2 + 8] == ChannelByte(t, opts, Channels[8]);
      FilledStep(frame, idx);
      idx := PutByte(idx, ChannelByte(t, opts, BatteryVoltage));
    }

    /** `telemetry_store_float`: the callback registered for a float channel. */
    method StoreFloat(field: Telemetry.FloatField, value: real)
      requires Telemetry.Registered(field)
      modifies this`telemetry
      ensures telemetry == old(telemetry).WithFloat(field, value)
    {
      telemetry := telemetry.WithFloat(field, value);
    }

    /** `telemetry_store_bool`: any non-zero byte is true. */
    method StoreBool(field: Telemetry.BoolField, value: bv8)
      modifies this`telemetry
      ensures telemetry == old(telemetry).WithBool(field, value != 0)
    {
      telemetry := telemetry.WithBool(field, value != 0);
    }

    /** `telemetry_store_s32`: the one signed channel is the engine gear. */
    method StoreS32(value: int32)
      modifies this`telemetry
      ensures telemetry == old(telemetry).(engineGear := value)
    {
      telemetry := telemetry.(engineGear := value);
    }

    /** `telemetry_configuration`: scans the attributes, keeping every tank size it meets. */
    method Configuration(attributes: seq<Telemetry.Attribute>)
      modifies this`telemetry
      ensures telemetry == old(telemetry).(fuelCapacity := Telemetry.ConfiguredCapacity(attributes, old(telemetry.fuelCapacity)))
    {
      var i := 0;
      while i < |attributes|
        invariant 0 <= i <= |attributes|
        invariant telemetry == old(telemetry).(fuelCapacity := Telemetry.ConfiguredCapacity(attributes[..i], old(telemetry.fuelCapacity)))
      {
        if attributes[i].name == Telemetry.FUEL_CAPACITY_ATTRIBUTE {
          telemetry := telemetry.(fuelCapacity := attributes[i].value);
        }
        assert attributes[..i + 1][..i] == attributes[..i];
        i := i + 1;
      }
      assert attributes[..i] == attributes;
    }

    /**
     * `scs_telemetry_init`: checks the API version, reads the option file,
     * opens the port it names, sends a blank frame, and clears the snapshot
     * once every callback is registered. `file` is `None` when the file
     * cannot be opened; `device` is how the port answers; `registrations`
     * holds the outcome of each registration with the game.
     */
    method Init(version: int, file: Option<seq<string>>, device: DeviceOutcome, registrations: seq<bool>)
      returns (r: InitResult)
      requires Valid()
      modifies this`telemetry, options, port`open, port`name, port`sent, packet
      ensures Valid()
      ensures version != TELEMETRY_VERSION_1_00 ==> r == Unsupported
      ensures version == TELEMETRY_VERSION_1_00 ==> r != Unsupported
      ensures r == Ok <==>
        version == TELEMETRY_VERSION_1_00 && file.Some? && !old(port.open) && device == Opens
        && AllSucceeded(registrations)
      ensures telemetry == if r == Ok then Telemetry.Zero else old(telemetry)
      ensures options.Contents() ==
        if version == TELEMETRY_VERSION_1_00 && file.Some? then OptionStore.ReadLines(old(options.Contents()), file.value)
        else old(options.Contents())
      ensures !(version == TELEMETRY_VERSION_1_00 && file.Some?) ==>
        port.open == old(port.open) && port.sent == old(port.sent) && packet[..] == old(packet[..])
      ensures version == TELEMETRY_VERSION_1_00 && file.Some? ==>
        port.open == (!old(port.open) && device == Opens)
      ensures port.open && !old(port.open) ==>
        && port.name == options.Contents().GetOptionString(PORT_OPTION, DEFAULT_PORT)
        && port.sent == old(port.sent) + [EmptyPacket()]
        && packet[..] == Filled(EmptyPacket(), EMPTY_PACKET_SIZE)
      ensures !(port.open && !old(port.open)) ==>
        port.name == old(port.name) && port.sent == old(port.sent) && packet[..] == old(packet[..])
    {
      if version != TELEMETRY_VERSION_1_00 {
        return Unsupported;
      }
      var read := options.ReadFile(file);
      if !read {
        return GenericError;
      }
      var portName := options.Contents().GetOptionString(PORT_OPTION, DEFAULT_PORT);
      var isOpen, errmsg := port.Open(portName, device);
      if !isOpen {
        return GenericError;
      }
      SendEmptyPacket();
      var registered := AllSucceeded(registrations);
      if !registered {
        return GenericError;
      }
      telemetry := Telemetry.Zero;
      return Ok;
    }

    /** `scs_telemetry_shutdown`: a blank frame, then the port is closed. */
    method Shutdown()
      requires Valid()
      modifies packet, port`open, port`sent
      ensures !port.open && port.name == old(port.name)
      ensures port.sent == if old(port.open) then old(port.sent) + [EmptyPacket()] else old(port.sent)
      ensures packet[..] == Filled(EmptyPacket(), EMPTY_PACKET_SIZE)
    {
      SendEmptyPacket();
      port.Close();
    }

    /** `DllMain` on process detach: the port is closed. */
    method Detach()
      modifies port`open
      ensures !port.open && port.name == old(port.name) && port.sent == old(port.sent)
    {
      port.Close();
    }
  }
}
