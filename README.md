# ets2_dashboard telemetry plugin, modelled in Dafny

The plugin is a DLL loaded by Euro Truck Simulator 2. The game calls its
callbacks whenever a truck channel changes. The plugin keeps the latest
values in one snapshot. After each simulated frame it encodes the snapshot
into a frame of at most 720 bytes, at most once every 50 ms, and writes the
frame to a serial port that drives a dashboard of servo gauges, LEDs and a
two-line text display. Gauge scaling factors and the port name come from a
text file of `key type value` lines.

The model has seven modules, one per file:

- `wrappers.dfy` (`Wrappers`): the `Option` type.
- `decimal.dfy` (`Decimal`): what `operator<<` writes for an `int`, and
  `width(n)` padding.
- `options.dfy` (`OptionStore`): the option file.
  - Whitespace word extraction as `std::istream >>` does it.
  - The number readers.
  - One line's directive.
  - The three maps as a value (`Tables`) with their getters.
  - The `Options` class whose methods update the maps in place.
- `telemetry.dfy` (`Telemetry`): the snapshot `telemetry_state_t` as a
  datatype, its one-field updates and the configuration attribute scan.
- `encoder.dfy` (`Encoder`): the pure side of `telemetry_frame_end`.
  - `float_to_byte` and `PACKBOOL`.
  - The gauge bytes.
  - The display text.
  - The frame layout, with a decoder as its partner.
  - The blank frame.
- `serial.dfy` (`SerialPort`): the `Serial` class. The OS handle is reduced
  to "open or not", and every block written to the line is kept in `sent`.
- `plugin.dfy` (`Plugin`): the plugin's globals as the `Plugin` class.
  - `packet` is a 720-byte array, filled in place exactly as the source
    fills it.
  - The frame callback, with its 32-bit tick throttle.
  - The store callbacks and the configuration callback.
  - `scs_telemetry_init`, `scs_telemetry_shutdown` and `DllMain`.

The methods that change state are proved against the pure functions:

- `FrameEnd` leaves the buffer equal to `FramePacket(snapshot, options)`
  followed by zeros, and appends exactly that frame to the port's output.
- `ReadFile` leaves the maps equal to `ReadLines(old maps, lines)`.
- `Configuration` stores `ConfiguredCapacity(attributes, old capacity)`.

The properties of those functions are then lemmas: last write wins, the
frame decodes back to its parts, the sync byte only shows up where
expected, and so on.

Modelling choices:

- Floating-point values are modelled as exact `real`s.
- C++'s `int(x)` is truncation toward zero (`Trunc`).
- The frame is only built when the display numbers are defined in C++
  (`Displayable`):
  - the tank size is not zero;
  - `int(...)` of each reading fits 32 bits;
  - `abs` is not applied to the most negative `int`.

  `FrameEnd` requires this only when a frame is actually built.
- The game's callbacks, the tick counter, the file system and the device
  are parameters:
  - `now` for `GetTickCount`;
  - `file` for the lines of the option file, `None` when it cannot be
    opened;
  - `device` for how the port answers;
  - `registrations` for the game's answers to each registration.
- The API version constant `SCS_TELEMETRY_VERSION_1_00` comes from the SDK
  header, which is not part of this model. It is `SCS_MAKE_VERSION(1, 0)`,
  that is `0x00010000`. The configuration attribute name for the tank size,
  `"fuel.capacity"`, is taken from the same SDK.

## Model

| member | source | states |
|---|---|---|
| Decimal.NatToString | source/ets2_plugin/plugin.cpp:209 | a natural is written as at least one ASCII decimal digit, with no leading zero unless it is 0 |
| Decimal.IntToString | source/ets2_plugin/plugin.cpp:240 | an `int` is written as at least one ASCII character, and it starts with `-` exactly when the value is negative |
| Decimal.NatToStringRoundTrip | source/ets2_plugin/plugin.cpp:209 | reading the digits written for `n` gives back `n` |
| Decimal.NatToStringLength | source/ets2_plugin/plugin.cpp:208-209 | a number below 10^k takes at most k digits |
| Decimal.IntToStringLength | source/ets2_plugin/plugin.cpp:208-240 | a 32-bit `int` takes at most 11 characters, or 10 when it is not negative |
| Decimal.Spaces | source/ets2_plugin/plugin.cpp:208 | `n` fill characters, all spaces |
| Decimal.Pad | source/ets2_plugin/plugin.cpp:208-209 | `width(w)` output is `w` characters long when the text is shorter, and exactly the text otherwise, never truncated; `PadShape` gives the contents of a padded field |
| Decimal.DigitsValueAtLeast | source/ets2_plugin/options.cpp:89-91 | digits without a leading zero denote at least 10 to the power of one less than their count |
| Decimal.Pow10Grows | source/ets2_plugin/options.cpp:89-91 | powers of ten grow with the exponent |
| Decimal.DigitsValueBelow | source/ets2_plugin/options.cpp:83-85 | k digits denote less than 10^k, so the digits after a point make a fraction below 1 |
| Decimal.PadShape | source/ets2_plugin/plugin.cpp:208-209 | padding is spaces on the left, followed by the unchanged text; ASCII stays ASCII |
| OptionStore.RunLength | source/ets2_plugin/options.cpp:80 | the word `>>` takes is the leading run of non-space characters, ended by a space or the end of the line |
| OptionStore.SpaceRun | source/ets2_plugin/options.cpp:80 | `>>` first skips the leading whitespace run, up to the first non-space character |
| OptionStore.NextWord | source/ets2_plugin/options.cpp:80 | one `>> std::string`: what is left after the word is empty or starts with a space, and word and remainder are no longer than the input; `NextWordShape` and `NextWordIsFirstWord` pin the word itself |
| OptionStore.NextWordShape | source/ets2_plugin/options.cpp:80 | one extraction yields a word with no space in it; skipped spaces, word and remainder rebuild the input; an empty word means only whitespace was left |
| OptionStore.NextWordSplits | source/ets2_plugin/options.cpp:80 | the extracted word followed by what is left equals the input after its leading spaces |
| OptionStore.NextWordFailsOnBlank | source/ets2_plugin/options.cpp:80 | an extraction fails only on an all-whitespace input, and then consumes all of it |
| OptionStore.NextWordIsFirstWord | source/ets2_plugin/options.cpp:80 | an extraction takes exactly the first word of the reference split-at-whitespace, and leaves the other words |
| OptionStore.LeadingSpaceSkipped | source/ets2_plugin/options.cpp:80 | a leading whitespace character changes neither the words of the line nor what one extraction returns |
| OptionStore.LeadingWordTaken | source/ets2_plugin/options.cpp:80 | at a non-space character one extraction takes the whole run of non-space characters, which is non-empty and is the first word, and leaves the rest of the line |
| OptionStore.WordsAfterExtraction | source/ets2_plugin/options.cpp:80 | the same, stated in index form: the first word, and the words of the remainder |
| OptionStore.FirstThreeWords | source/ets2_plugin/options.cpp:80-96 | the three extractions of a line deliver its first, second and third word, each non-empty exactly when the line has that many words |
| OptionStore.PiecesSplit | source/ets2_plugin/options.cpp:80 | the reference split's first piece is the leading non-space run, and its remaining pieces restart after the space that ends it |
| OptionStore.NonEmptyConcat | source/ets2_plugin/options.cpp:80 | dropping empty pieces distributes over concatenation |
| OptionStore.DigitRun | source/ets2_plugin/options.cpp:89-91 | the digits `>> int` consumes are the leading decimal run |
| OptionStore.DigitRunAll | source/ets2_plugin/options.cpp:89-91 | a word made only of digits is consumed whole |
| OptionStore.ParseInt | source/ets2_plugin/options.cpp:89-91 | `>> int` always stores a 32-bit value, and 0 when no digit follows the optional sign |
| OptionStore.Clamp | source/ets2_plugin/options.cpp:89-91 | a value outside the 32-bit range becomes the nearer limit; a value inside it is kept |
| OptionStore.ParseIntDigits | source/ets2_plugin/options.cpp:89-91 | a sign (none, `+` or `-`), digits, then anything that is not a digit: the signed value of the digits, clamped to the 32-bit range; what follows the digits is not read |
| OptionStore.ParseIntOverflow | source/ets2_plugin/options.cpp:89-91 | eleven or more digits without a leading zero give `INT32_MAX`, or `INT32_MIN` after a `-` |
| OptionStore.ParseIntExamples | source/ets2_plugin/options.cpp:89-91 | `+7` reads as 7 and `12x` as 12 |
| OptionStore.ParseIntNoDigits | source/ets2_plugin/options.cpp:89-91 | `abc`, `-` and `+x1` read as 0 |
| OptionStore.DigitRunStops | source/ets2_plugin/options.cpp:89-91 | the digits consumed from `d + rest` are exactly `d` when `rest` does not start with a digit |
| OptionStore.ParseFloat | source/ets2_plugin/options.cpp:83-85 | `>> float` gives a value of at most 0 after a `-` and of at least 0 otherwise. Every word is one of three cases: a sign, digits, a point and digits followed by text that is not a digit (`ParseFloatDecimalRest`); a sign and at least one digit followed by text that is neither a digit nor a point (`ParseFloatWholeRest`); or no digit after the sign nor after a point there (`ParseFloatNoNumber`). The three lemmas give the value in each case |
| OptionStore.Magnitude | source/ets2_plugin/options.cpp:83-85 | the digits before the point are the whole part of the unsigned value: the value lies between them and them plus 1 |
| OptionStore.Fraction | source/ets2_plugin/options.cpp:83-85 | the part after the point is at least 0 and below 1 |
| OptionStore.ParseFloatDecimal | source/ets2_plugin/options.cpp:83-85 | `>> float` on a sign, digits, a point and fraction digits gives the value that decimal notation denotes, negated after `-`; `.` alone gives 0 |
| OptionStore.ParseFloatWhole | source/ets2_plugin/options.cpp:83-85 | a signed whole number without a point reads as its value |
| OptionStore.ParseFloatSign | source/ets2_plugin/options.cpp:83-85 | a `-` in front of a number negates it, and a `+` changes nothing |
| OptionStore.UnsignedDecimal | source/ets2_plugin/options.cpp:83-85 | `d.f` reads as the value of `d` plus the value of `f` over 10 to the power of the length of `f` |
| OptionStore.MagnitudeSplit | source/ets2_plugin/options.cpp:83-85 | the leading digits give the whole part, and what follows them gives the fraction |
| OptionStore.PointFraction | source/ets2_plugin/options.cpp:83-85 | a point and `k` digits read as those digits' value over 10^k |
| OptionStore.ParseFloatNoDigits | source/ets2_plugin/options.cpp:83-85 | a word without a single digit reads as 0 |
| OptionStore.ParseFloatDecimalRest | source/ets2_plugin/options.cpp:83-85 | the read stops at the first character that cannot continue the number: sign, digits, a point and digits followed by any text that does not start with a digit read as that decimal value, negated after `-` |
| OptionStore.PointFractionRest | source/ets2_plugin/options.cpp:83-85 | the fraction ends at the first non-digit after the point, and what follows it adds nothing |
| OptionStore.ParseFloatWholeRest | source/ets2_plugin/options.cpp:83-85 | a sign and digits followed by text that starts with neither a digit nor a point read as the whole number, negated after `-` |
| OptionStore.ParseFloatNoNumber | source/ets2_plugin/options.cpp:83-85 | when no digit follows the sign, nor the point right after it, the read fails and stores 0, whatever digits come later (`x1`, `+x1`, `.x1`) |
| OptionStore.TrailingTextExamples | source/ets2_plugin/options.cpp:83-85 | `2.0x` reads as 2, `3x` as 3 and `x1` as 0 |
| OptionStore.ParseFloatExample | source/ets2_plugin/options.cpp:83-85 | `2.0` reads as 2 |
| OptionStore.NegativeFloatExample | source/ets2_plugin/options.cpp:83-85 | `-0.25` reads as -0.25 |
| OptionStore.PointExamples | source/ets2_plugin/options.cpp:83-85 | `.5` reads as 0.5, `7.` as 7, and `.` as 0 |
| OptionStore.ParseIntRoundTrip | source/ets2_plugin/options.cpp:89-91 | `>> int` reads back every 32-bit value that `operator<<` writes |
| OptionStore.ParseLine | source/ets2_plugin/options.cpp:74-99 | the parse in `parse_option_line`: a line that stores anything has a non-empty key without spaces, and a `str` value has no space in it; `ParseLineWords` states what is stored in terms of the line's words |
| OptionStore.ParseLineWords | source/ets2_plugin/options.cpp:74-99 | the words of a line decide what it stores:<br>• the first word is the key and the second the type;<br>• `flt` and `int` read the third word as a number, 0 when it is missing;<br>• `str` keeps only the third word, "" when it is missing;<br>• any other type, or fewer than two words, stores nothing |
| OptionStore.Tables.GetOptionFloat | source/ets2_plugin/options.cpp:55-59 | the stored float for the key, or the default when the float map has no such key |
| OptionStore.Tables.GetOptionInt | source/ets2_plugin/options.cpp:61-65 | the stored int for the key, or the default when the int map has no such key |
| OptionStore.Tables.GetOptionString | source/ets2_plugin/options.cpp:67-71 | the stored string for the key, or the default when the string map has no such key |
| OptionStore.Apply | source/ets2_plugin/options.cpp:85-97 | `map[key] = val`: a line that stores nothing leaves the maps as they were, and after any other line the lookup of its type and key gives its value |
| OptionStore.ReadLines | source/ets2_plugin/options.cpp:40-53 | the `read_file` loop as a fold over the lines: reading lines never removes a key from any of the three maps |
| OptionStore.ApplyEntry | source/ets2_plugin/options.cpp:81-98 | a line changes exactly one entry, the one of its own type at its own key; every entry of the other two maps and every other key stays the same |
| OptionStore.ReadLinesSnoc | source/ets2_plugin/options.cpp:46-51 | reading one more line applies that line to the maps the earlier lines left |
| OptionStore.UnknownTypeIgnored | source/ets2_plugin/options.cpp:81-98 | a line whose type word is not `flt`, `int` or `str` changes nothing |
| OptionStore.ShortLineIgnored | source/ets2_plugin/options.cpp:80-81 | a blank line, or a line with only a key, changes nothing |
| OptionStore.NextWordOf | source/ets2_plugin/options.cpp:80 | after spaces, a word followed by a space or the end of the line is exactly what one extraction takes, and the rest is left |
| OptionStore.SpaceRunStops | source/ets2_plugin/options.cpp:80 | the whitespace skipped is exactly the leading spaces |
| OptionStore.RunLengthStops | source/ets2_plugin/options.cpp:80 | the word taken stops at the first space |
| OptionStore.WellFormedLine | source/ets2_plugin/options.cpp:74-99 | a line `key type value` stores `value` under `key`, read as the type word says, in that type's map; any other type word stores nothing |
| OptionStore.SpeedFactorLine | source/ets2_plugin/options.cpp:80-85 | after the line `factor_speed flt 2.0`, the float lookup of `factor_speed` gives 2.0 |
| OptionStore.Untouched | source/ets2_plugin/options.cpp:46-51 | an entry that no line defines keeps the value it had before the file was read |
| OptionStore.LastWins | source/ets2_plugin/options.cpp:46-51 | of several lines that set the same type and key, the last one read decides the stored value |
| OptionStore.Options.constructor | source/ets2_plugin/options.cpp:33-38 | a new store has three empty maps |
| OptionStore.Options.ParseOptionLine | source/ets2_plugin/options.cpp:74-99 | the maps after the line are the line's directive applied to the maps before it |
| OptionStore.Options.ReadFile | source/ets2_plugin/options.cpp:40-53 | returns false exactly when the file cannot be opened, and then the maps are unchanged; otherwise every line is applied in order |
| Telemetry.State.WithFloat | source/ets2_plugin/plugin.cpp:263-269 | a float store: the field that the callback's context points to reads the new value, and the gear is untouched; `FloatAfterWithFloat` and `WithFloatIsNarrow` cover every other field |
| Telemetry.State.WithBool | source/ets2_plugin/plugin.cpp:271-277 | a flag store: the flag that the context points to reads the new value, and the gear is untouched; `BoolAfterWithBool` and `WithBoolIsNarrow` cover every other field |
| Telemetry.FloatAfterWithFloat | source/ets2_plugin/plugin.cpp:263-269 | after storing a float channel, that channel reads the new value and every other float channel is unchanged |
| Telemetry.BoolAfterWithFloat | source/ets2_plugin/plugin.cpp:263-269 | storing a float channel leaves every flag unchanged |
| Telemetry.WithFloatIsNarrow | source/ets2_plugin/plugin.cpp:263-269 | storing a float changes that one field only: the gear, every flag and every other float keep their values |
| Telemetry.BoolAfterWithBool | source/ets2_plugin/plugin.cpp:271-277 | after storing a flag, that flag reads the new value and every other flag is unchanged |
| Telemetry.FloatAfterWithBool | source/ets2_plugin/plugin.cpp:271-277 | storing a flag leaves every float channel unchanged |
| Telemetry.WithBoolIsNarrow | source/ets2_plugin/plugin.cpp:271-277 | storing a flag changes that one field only |
| Telemetry.WithGearIsNarrow | source/ets2_plugin/plugin.cpp:279-285 | storing the gear changes no float and no flag |
| Telemetry.ZeroIsBlank | source/ets2_plugin/plugin.cpp:397 | the cleared snapshot has every float at 0, the gear at 0 and every flag false |
| Telemetry.ConfiguredCapacity | source/ets2_plugin/plugin.cpp:287-301 | the tank size after a configuration event is the stored one or the value of one of the event's tank-size attributes; `LastCapacityAttributeWins` says which one |
| Telemetry.CapacityKeptWithoutAttribute | source/ets2_plugin/plugin.cpp:291-300 | a configuration with no tank-size attribute leaves the stored tank size as it was |
| Telemetry.LastCapacityAttributeWins | source/ets2_plugin/plugin.cpp:291-300 | otherwise the last tank-size attribute in the list decides the stored value |
| Encoder.Trunc | source/ets2_plugin/plugin.cpp:125 | float-to-integer conversion truncates toward zero: the result lies within 1 of the value, on the zero side |
| Encoder.TruncIsNotFloor | source/ets2_plugin/plugin.cpp:125 | on -0.5, truncation gives 0 where floor gives -1 |
| Encoder.Abs | source/ets2_plugin/plugin.cpp:209 | `abs` returns the value or its negation, never negative |
| Encoder.AbsReal | source/ets2_plugin/plugin.cpp:171 | `fabs` returns the value or its negation, never negative |
| Encoder.ByteOf | source/ets2_plugin/plugin.cpp:160 | the `(unsigned char)` cast of a value in 0..255 keeps the value |
| Encoder.ByteOfValue | source/ets2_plugin/plugin.cpp:160 | casting a byte's value back gives the same byte |
| Encoder.FloatToByte | source/ets2_plugin/plugin.cpp:120-126 | the result is never the sync value 255:<br>• above 254 gives 254;<br>• below 0 gives 0;<br>• values in between are truncated |
| Encoder.PackBool | source/ets2_plugin/plugin.cpp:63-67 | the first argument lands in bit 7 and so on down to bit 0 for the last |
| Encoder.TruckLights | source/ets2_plugin/plugin.cpp:184-189 | frame byte 11: bit 7 clear, then parking, left and right blinker, low and high beam, brake and reverse lamps in bits 6 to 0 |
| Encoder.Warnings | source/ets2_plugin/plugin.cpp:191-196 | frame byte 12: parking brake, motor brake, air pressure warning and emergency, fuel, battery, oil pressure and water temperature warnings in bits 7 to 0 |
| Encoder.EnabledFlags | source/ets2_plugin/plugin.cpp:198-201 | frame byte 13: electrics enabled in bit 1 and engine enabled in bit 0 |
| Encoder.BitsDetermineByte | source/ets2_plugin/plugin.cpp:63-67 | two bytes with the same eight bits are equal, so packing loses nothing |
| Encoder.TruckLightsTopBitClear | source/ets2_plugin/plugin.cpp:185-189 | the truck-light byte never has bit 7 set, so it is below 0x80 |
| Encoder.EnabledFlagsHighBitsClear | source/ets2_plugin/plugin.cpp:199-201 | the enable byte has bits 7..2 clear, so it is below 4 |
| Encoder.TruckLightsExample | source/ets2_plugin/plugin.cpp:185-189 | parking, right blinker and brake lamps on, everything else off, pack to 0x52 |
| Encoder.TruncFits | source/ets2_plugin/plugin.cpp:209-240 | when a reading is in the defined range, its `int(...)` is a 32-bit value, and not the most negative one when `abs` follows |
| Encoder.MphReading | source/ets2_plugin/plugin.cpp:149 | the speed in miles per hour, the speed in metres per second times 2.2369; `Mph` and `DisplayExample` state what the display makes of it |
| Encoder.KphReading | source/ets2_plugin/plugin.cpp:150 | the speed in kilometres per hour, the speed in metres per second times 3.6; `Kph` and `DisplayExample` state what the display makes of it |
| Encoder.PercentReading | source/ets2_plugin/plugin.cpp:152 | the fuel as a percentage of the tank; `FuelPercent` and `DisplayExample` state what the display makes of it |
| Encoder.Mph | source/ets2_plugin/plugin.cpp:208-209 | `abs(int(speed_mph))` is the whole part of the speed's magnitude in miles per hour, so forward and reverse show alike; `TruncFits` says when the conversion is defined |
| Encoder.Kph | source/ets2_plugin/plugin.cpp:234-235 | `abs(int(speed_kph))` is the whole part of the speed's magnitude in kilometres per hour; the same value is written again at plugin.cpp:244 |
| Encoder.FuelPercent | source/ets2_plugin/plugin.cpp:240 | `int(fuel_ratio * 100.0f)` drops the fraction of the percentage toward zero: never more than the reading when it is positive, never less when it is negative, and within 1 of it |
| Encoder.Measurement | source/ets2_plugin/plugin.cpp:149-179 | the unscaled gauge readings: the speed is its magnitude, never negative, and the fuel ratio times the tank size is the fuel |
| Encoder.FactorKey | source/ets2_plugin/plugin.cpp:171-179 | the `GETFLTOPT` key that scales each gauge, every one starting with `factor_`; `SpeedFactorExample` and `ChannelByte` state its effect |
| Encoder.FactorKeysDistinct | source/ets2_plugin/plugin.cpp:171-179 | no two gauges share a factor option, so one option line scales exactly one gauge |
| Encoder.ChannelByte | source/ets2_plugin/plugin.cpp:171-179 | a gauge byte is never the sync byte, and without a `factor_*` option it is the reading itself converted |
| Encoder.GearText | source/ets2_plugin/plugin.cpp:214-228 | the gear column is at least 3 characters and starts with `D` for a forward gear, `N` for neutral and `R` for reverse |
| Encoder.DisplayText | source/ets2_plugin/plugin.cpp:206-246 | the two display lines are at least 36 characters; `DisplayTextLength`, `DisplayTextAscii` and `DisplayFixedLayout` give the rest |
| Encoder.DisplayString | source/ets2_plugin/plugin.cpp:204-246 | the display text of a snapshot is at least 36 characters; `DisplayBounds` bounds it by 73 and shows it is ASCII |
| Encoder.GearTextBounds | source/ets2_plugin/plugin.cpp:214-228 | the gear column is ASCII and 3 to 11 characters long, exactly 3 for gears from -99 to 99 |
| Encoder.DisplayTextLength | source/ets2_plugin/plugin.cpp:204-246 | the display text is 36 to 73 characters long for any defined readings |
| Encoder.LabelsAscii | source/ets2_plugin/plugin.cpp:210-238 | the fixed labels of the display are ASCII |
| Encoder.DisplayTextAscii | source/ets2_plugin/plugin.cpp:204-246 | the display text is plain ASCII |
| Encoder.DisplayBounds | source/ets2_plugin/plugin.cpp:204-249 | for a displayable snapshot the text is ASCII and 36 to 73 characters long, so its length fits the length byte and it fits in the buffer |
| Encoder.DisplayFixedLayout | source/ets2_plugin/plugin.cpp:204-246 | while each value fits its column, the text is exactly 36 characters with the line break at index 16 |
| Encoder.DisplayExample | source/ets2_plugin/plugin.cpp:149-246 | standing in neutral with the tank half full gives `"  0 MPH   G  N  \n  0 KPH   F  50%  0"`, with the speed in km/h repeated at the end |
| Encoder.StillExampleText | source/ets2_plugin/plugin.cpp:204-246 | the text for 0 mph, gear 0, 0 km/h and 50 % is that exact string |
| Encoder.ColumnExamples | source/ets2_plugin/plugin.cpp:208-209 | 0 and 50 in a 3-wide column are `"  0"` and `" 50"` |
| Encoder.Bytes | source/ets2_plugin/plugin.cpp:251 | copying an ASCII string to the buffer keeps every character's code |
| Encoder.Layout | source/ets2_plugin/plugin.cpp:164-252 | a frame is 15 header bytes plus the text |
| Encoder.DecodeLayout | source/ets2_plugin/plugin.cpp:164-252 | a receiver decoding a frame gets back exactly the gauges, flags and text that were laid out |
| Encoder.LayoutDecode | source/ets2_plugin/plugin.cpp:164-252 | every byte string that decodes is the layout of what it decodes to |
| Encoder.FrameFields | source/ets2_plugin/plugin.cpp:164-252 | the parts of a frame have 9 gauge bytes, 3 flag bytes and a text shorter than 256 bytes |
| Encoder.FramePacket | source/ets2_plugin/plugin.cpp:156-252 | the frame is sync 0xFF, version 2, the nine scaled gauges in source order, the three flag bytes, the text length, then the text; it fits in 720 bytes |
| Encoder.FrameDecodes | source/ets2_plugin/plugin.cpp:156-252 | decoding a frame the plugin sends yields its gauges, flags and display text |
| Encoder.SyncOnlyAtStart | source/ets2_plugin/plugin.cpp:122-123 | apart from offset 0, the byte 0xFF can only appear at offset 12, the warning byte with all eight warnings on |
| Encoder.SpeedFactorExample | source/ets2_plugin/plugin.cpp:171 | at 10 m/s with `factor_speed` 2.0 the speed gauge byte is 20 |
| Encoder.SpeedFactorFromLine | source/ets2_plugin/plugin.cpp:171 | at 10 m/s, with the options read from the single line `factor_speed flt 2.0`, the speed gauge byte is 20 |
| Encoder.Zeros | source/ets2_plugin/plugin.cpp:130 | `memset(..., 0, n)` contents: n zero bytes |
| Encoder.EmptyPacket | source/ets2_plugin/plugin.cpp:128-135 | the blank frame is 16 bytes long |
| Encoder.EmptyPacketIsBlank | source/ets2_plugin/plugin.cpp:128-135 | the blank frame reads as every gauge and flag at zero and an empty text, followed by one extra zero byte |
| SerialPort.OpenError | source/ets2_plugin/serial.cpp:57-87 | `open` reports an error message exactly when a configuration step fails |
| SerialPort.Serial.constructor | source/ets2_plugin/serial.cpp:30-31 | a new port is closed and has sent nothing |
| SerialPort.Serial.Open | source/ets2_plugin/serial.cpp:43-95 | succeeds only on a closed port that the device opens and configures:<br>• it then records the name;<br>• opening a port that is already open fails with "COM port already open" and closes that port;<br>• every failure leaves the port closed |
| SerialPort.Serial.Close | source/ets2_plugin/serial.cpp:97-104 | the port is closed afterwards |
| SerialPort.Serial.Write | source/ets2_plugin/serial.cpp:106-117 | the first `length` bytes go out, in one block, exactly when the length is non-zero and the port is open |
| Plugin.Elapsed | source/ets2_plugin/plugin.cpp:142-143 | the unsigned 32-bit difference of tick counts: `now - last`, or `now - last + 2^32` once the counter has wrapped |
| Plugin.Due | source/ets2_plugin/plugin.cpp:142-145 | a frame is built once 50 ms or more have passed since the last one, by unsigned 32-bit difference; `DueOutsideWindow` and `DueAcrossWrap` pin it down, including across the wrap |
| Plugin.TickAfter | source/ets2_plugin/plugin.cpp:142 | a tick count is a 32-bit value |
| Plugin.DueOutsideWindow | source/ets2_plugin/plugin.cpp:142-145 | a frame is held back exactly when `now` is less than 50 ticks after the last frame, counting across the wrap |
| Plugin.DueAcrossWrap | source/ets2_plugin/plugin.cpp:142-145 | 45 ticks before the wrap to 10 after it is 55 ms, so a frame is due; 30 ticks before to 10 after is 40 ms, so it is not |
| Plugin.Filled | source/ets2_plugin/plugin.cpp:158 | the buffer is always 720 bytes long |
| Plugin.FilledStep | source/ets2_plugin/plugin.cpp:160 | writing the next frame byte extends the filled prefix by one |
| Plugin.FilledPrefix | source/ets2_plugin/plugin.cpp:255 | the first `length` bytes of the filled buffer are the frame |
| Plugin.Plugin.constructor | source/ets2_plugin/plugin.cpp:48-60 | at load time the snapshot is zero, `last_update` is 0, the buffer is zero, the port is closed and no options are read |
| Plugin.Plugin.PutByte | source/ets2_plugin/plugin.cpp:160 | `PUT_BYTE` writes one byte at `idx` and advances `idx` |
| Plugin.Plugin.SetByte | source/ets2_plugin/plugin.cpp:160 | one byte of the buffer is replaced |
| Plugin.Plugin.SendEmptyPacket | source/ets2_plugin/plugin.cpp:128-135 | the buffer is cleared apart from sync and version, and those 16 bytes are sent if the port is open, whatever the snapshot and the throttle |
| Plugin.Plugin.FrameEnd | source/ets2_plugin/plugin.cpp:137-256 | with a closed port, or less than 50 ms since the last frame, nothing changes; otherwise:<br>• `last_update` becomes `now`;<br>• the buffer holds the frame of the current snapshot and options, then zeros;<br>• exactly that frame is sent |
| Plugin.Plugin.EncodeFrame | source/ets2_plugin/plugin.cpp:156-252 | the buffer holds the frame then zeros, and the returned index is the frame length |
| Plugin.Plugin.PutHeader | source/ets2_plugin/plugin.cpp:164-201 | after the header writes, the buffer holds the frame's first 14 bytes |
| Plugin.Plugin.PutGauges | source/ets2_plugin/plugin.cpp:168-179 | the nine gauge bytes are written at offsets 2 to 10 |
| Plugin.Plugin.PutLamps | source/ets2_plugin/plugin.cpp:182-201 | the three lamp bytes are written at offsets 11 to 13 |
| Plugin.Plugin.PutText | source/ets2_plugin/plugin.cpp:246-252 | the length byte, then the text, complete the frame |
| Plugin.Plugin.CopyText | source/ets2_plugin/plugin.cpp:251-252 | `copy` places every character of the text after the header |
| Plugin.Plugin.StoreFloat | source/ets2_plugin/plugin.cpp:263-269 | for any float channel `Init` registers (every one but the tank size, plugin.cpp:360-388), the snapshot after the call is the old one with that channel replaced |
| Plugin.Plugin.StoreBool | source/ets2_plugin/plugin.cpp:271-277 | the flag becomes true exactly when the delivered byte is non-zero; nothing else changes |
| Plugin.Plugin.StoreS32 | source/ets2_plugin/plugin.cpp:279-285 | the gear becomes the delivered value; nothing else changes |
| Plugin.Plugin.Configuration | source/ets2_plugin/plugin.cpp:287-301 | only the tank size changes, to the value of the last tank-size attribute, if there is one |
| Plugin.Plugin.Init | source/ets2_plugin/plugin.cpp:310-400 | see below the table |
| Plugin.Plugin.Shutdown | source/ets2_plugin/plugin.cpp:402-409 | the blank frame is sent if the port was open, and the port ends closed, under the same name |
| Plugin.Plugin.Detach | source/ets2_plugin/plugin.cpp:411-418 | the port ends closed, under the same name, and nothing more is sent |

`Plugin.Plugin.Init`'s contract states:

- A wrong API version gives `unsupported` and changes nothing.
- Otherwise the options file is read.
- A file that cannot be opened gives `generic_error` before the port is
  touched.
- The port is opened under the `comport` option, with `COM3` when that
  option is absent. The port's name changes only when the port opens.
- Once the port opens, the blank frame is sent.
- The result is `ok` exactly when everything succeeded.
- The snapshot is cleared only then. After a failed registration the
  snapshot keeps its values and the port stays open.

## Left out

- The Win32 serial calls (`CreateFile`, `GetCommState`, `SetCommState`,
  `WriteFile`, `FlushFileBuffers`, `CloseHandle`) are not modelled. They
  are reduced to the `DeviceOutcome` parameter, and a write is recorded
  whole. The baud rate and framing settings are not modelled.
- The game log (`game_log` messages), `get_cwd`, and the option file path
  built from the working directory are not modelled. The model receives
  the file's lines directly.
- `read_file` splits the file into lines with `getline`, and that split is
  not modelled. The loop on `file.good()` can parse one extra empty line at
  the end, and `OptionStore.ShortLineIgnored` shows that such a line
  changes nothing.
- How the game calls the callbacks, and which channel each registration
  binds to, are not modelled. The registration calls are reduced to their
  outcomes. The source does not try the second event registration when the
  first fails; the model only keeps the conjunction of the outcomes.
- `telemetry_configuration` reads an attribute's value through the `float`
  member of a union whatever the attribute's type. The model carries only
  that float reading (`Telemetry.Attribute`).
- IEEE single-precision arithmetic is not modelled:
  - rounding of products and quotients;
  - the float constants 2.2369f and 3.6f, which are taken as exact
    decimals;
  - NaN and infinities.

  Speeds, factors and fuel values are exact reals.
- Plugin.Plugin.FrameEnd: requires `Displayable` when a frame is built.
  The source does not check this. A zero tank size (the state right after
  `Init` clears the snapshot, before the configuration event arrives) or a
  reading whose `int(...)` overflows is undefined behaviour in C++, and
  the model does not say which bytes result.
- OptionStore.ParseFloat: does not read exponents (`1e3`). It is exact
  rather than rounded to the nearest float, and a value too large for a
  float is not turned into the largest float.
- OptionStore.ParseLine: when nothing but whitespace follows the type word
  (the line ends there, or has only spaces after it), the numeric
  extraction fails before any conversion and leaves the variable
  uninitialised in C++. The model stores 0 in both cases, as it does for
  any other failed numeric read.
- Locale-dependent behaviour of the streams is not modelled; the "C"
  locale's whitespace and digits are assumed.
