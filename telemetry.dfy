/**
 * The vehicle-state snapshot: the latest value of every telemetry channel the
 * plugin follows, each field written by its own store callback.
 */
module Telemetry {

  import opened Decimal

  /** The snapshot's measurement fields. */
  datatype FloatField =
    | Speed | EngineRpm | BrakeAirPressure | BrakeTemperature | Fuel
    | FuelAverageConsumption | FuelCapacity | OilPressure | OilTemperature
    | WaterTemperature | BatteryVoltage | Odometer

  /**
   * The float fields `Init` registers a store callback for: every one but
   * the tank size, which only the configuration event writes.
   */
  predicate Registered(f: FloatField) { f != FuelCapacity }

  /** The snapshot's flag fields. */
  datatype BoolField =
    | ParkingBrake | MotorBrake | BrakeAirPressureWarning | BrakeAirPressureEmergency
    | FuelWarning | OilPressureWarning | WaterTemperatureWarning | BatteryVoltageWarning
    | ElectricEnabled | EngineEnabled | LightLblinker | LightRblinker | LightParking
    | LightLowBeam | LightHighBeam | LightBrake | LightReverse

  /** `telemetry_state_t`; the one integer field is the gear (>0 forward, 0 neutral, <0 reverse). */
  datatype State = State(
    speed: real,
    engineRpm: real,
    engineGear: int32,
    parkingBrake: bool,
    motorBrake: bool,
    brakeAirPressure: real,
    brakeAirPressureWarning: bool,
    brakeAirPressureEmergency: bool,
    brakeTemperature: real,
    fuel: real,
    fuelWarning: bool,
    fuelAverageConsumption: real,
    fuelCapacity: real,
    oilPressure: real,
    oilPressureWarning: bool,
    oilTemperature: real,
    waterTemperature: real,
    waterTemperatureWarning: bool,
    batteryVoltage: real,
    batteryVoltageWarning: bool,
    electricEnabled: bool,
    engineEnabled: bool,
    lightLblinker: bool,
    lightRblinker: bool,
    lightParking: bool,
    lightLowBeam: bool,
    lightHighBeam: bool,
    lightBrake: bool,
    lightReverse: bool,
    odometer: real)
  {
    function Float(f: FloatField): real {
      match f
      case Speed => speed
      case EngineRpm => engineRpm
      case BrakeAirPressure => brakeAirPressure
      case BrakeTemperature => brakeTemperature
      case Fuel => fuel
      case FuelAverageConsumption => fuelAverageConsumption
      case FuelCapacity => fuelCapacity
      case OilPressure => oilPressure
      case OilTemperature => oilTemperature
      case WaterTemperature => waterTemperature
      case BatteryVoltage => batteryVoltage
      case Odometer => odometer
    }

    function Bool(b: BoolField): bool {
      match b
      case ParkingBrake => parkingBrake
      case MotorBrake => motorBrake
      case BrakeAirPressureWarning => brakeAirPressureWarning
      case BrakeAirPressureEmergency => brakeAirPressureEmergency
      case FuelWarning => fuelWarning
      case OilPressureWarning => oilPressureWarning
      case WaterTemperatureWarning => waterTemperatureWarning
      case BatteryVoltageWarning => batteryVoltageWarning
      case ElectricEnabled => electricEnabled
      case EngineEnabled => engineEnabled
      case LightLblinker => lightLblinker
      case LightRblinker => lightRblinker
      case LightParking => lightParking
      case LightLowBeam => lightLowBeam
      case LightHighBeam => lightHighBeam
      case LightBrake => lightBrake
      case LightReverse => lightReverse
    }

    /** `telemetry_store_float` through the context registered for field `f`. */
    function WithFloat(f: FloatField, v: real): (r: State)
      ensures r.Float(f) == v && r.engineGear == engineGear
    {
      match f
      case Speed => this.(speed := v)
      case EngineRpm => this.(engineRpm := v)
      case BrakeAirPressure => this.(brakeAirPressure := v)
      case BrakeTemperature => this.(brakeTemperature := v)
      case Fuel => this.(fuel := v)
      case FuelAverageConsumption => this.(fuelAverageConsumption := v)
      case FuelCapacity => this.(fuelCapacity := v)
      case OilPressure => this.(oilPressure := v)
      case OilTemperature => this.(oilTemperature := v)
      case WaterTemperature => this.(waterTemperature := v)
      case BatteryVoltage => this.(batteryVoltage := v)
      case Odometer => this.(odometer := v)
    }

    /** `telemetry_store_bool` through the context registered for field `b`. */
    function WithBool(b: BoolField, v: bool): (r: State)
      ensures r.Bool(b) == v && r.engineGear == engineGear
    {
      match b
      case ParkingBrake => this.(parkingBrake := v)
      case MotorBrake => this.(motorBrake := v)
      case BrakeAirPressureWarning => this.(brakeAirPressureWarning := v)
      case BrakeAirPressureEmergency => this.(brakeAirPressureEmergency := v)
      case FuelWarning => this.(fuelWarning := v)
      case OilPressureWarning => this.(oilPressureWarning := v)
      case WaterTemperatureWarning => this.(waterTemperatureWarning := v)
      case BatteryVoltageWarning => this.(batteryVoltageWarning := v)
      case ElectricEnabled => this.(electricEnabled := v)
      case EngineEnabled => this.(engineEnabled := v)
      case LightLblinker => this.(lightLblinker := v)
      case LightRblinker => this.(lightRblinker := v)
      case LightParking => this.(lightParking := v)
      case LightLowBeam => this.(lightLowBeam := v)
      case LightHighBeam => this.(lightHighBeam := v)
      case LightBrake => this.(lightBrake := v)
      case LightReverse => this.(lightReverse := v)
    }
  }

  lemma FloatAfterWithFloat(t: State, f: FloatField, v: real, g: FloatField)
    ensures t.WithFloat(f, v).Float(g) == if g == f then v else t.Float(g)
  {
    match f
    case Speed =>
    case EngineRpm =>
    case BrakeAirPressure =>
    case BrakeTemperature =>
    case Fuel =>
    case FuelAverageConsumption =>
    case FuelCapacity =>
    case OilPressure =>
    case OilTemperature =>
    case WaterTemperature =>
    case BatteryVoltage =>
    case Odometer =>
  }

  lemma BoolAfterWithFloat(t: State, f: FloatField, v: real, b: BoolField)
    ensures t.WithFloat(f, v).Bool(b) == t.Bool(b)
  {
    match b
    case ParkingBrake =>
    case MotorBrake =>
    case BrakeAirPressureWarning =>
    case BrakeAirPressureEmergency =>
    case FuelWarning =>
    case OilPressureWarning =>
    case WaterTemperatureWarning =>
    case BatteryVoltageWarning =>
    case ElectricEnabled =>
    case EngineEnabled =>
    case LightLblinker =>
    case LightRblinker =>
    case LightParking =>
    case LightLowBeam =>
    case LightHighBeam =>
    case LightBrake =>
    case LightReverse =>
  }

  /** A float store writes its own field and leaves every other field as it was. */
  lemma WithFloatIsNarrow(t: State, f: FloatField, v: real)
    ensures t.WithFloat(f, v).Float(f) == v
    ensures forall g :: g != f ==> t.WithFloat(f, v).Float(g) == t.Float(g)
    ensures forall b :: t.WithFloat(f, v).Bool(b) == t.Bool(b)
    ensures t.WithFloat(f, v).engineGear == t.engineGear
  {
    FloatAfterWithFloat(t, f, v, f);
    forall g ensures t.WithFloat(f, v).Float(g) == if g == f then v else t.Float(g) {
      FloatAfterWithFloat(t, f, v, g);
    }
    forall b ensures t.WithFloat(f, v).Bool(b) == t.Bool(b) {
      BoolAfterWithFloat(t, f, v, b);
    }
  }

  lemma BoolAfterWithBool(t: State, b: BoolField, v: bool, c: BoolField)
    ensures t.WithBool(b, v).Bool(c) == if c == b then v else t.Bool(c)
  {
    WarningUpdateKeepsOthers(t, b, v, c);
    LampUpdateKeepsOthers(t, b, v, c);
  }

  /** Storing a brake or warning flag leaves every other flag. */
  lemma WarningUpdateKeepsOthers(t: State, b: BoolField, v: bool, c: BoolField)
    ensures c != b && (b.ParkingBrake? || b.MotorBrake? || b.BrakeAirPressureWarning? || b.BrakeAirPressureEmergency? || b.FuelWarning? || b.OilPressureWarning? || b.WaterTemperatureWarning? || b.BatteryVoltageWarning?) ==> t.WithBool(b, v).Bool(c) == t.Bool(c)
  {
    match b
    case ParkingBrake =>
    case MotorBrake =>
    case BrakeAirPressureWarning =>
    case BrakeAirPressureEmergency =>
    case FuelWarning =>
    case OilPressureWarning =>
    case WaterTemperatureWarning =>
    case BatteryVoltageWarning =>
    case _ =>
  }

  /** Storing an enabled flag or a lamp leaves every other flag. */
  lemma LampUpdateKeepsOthers(t: State, b: BoolField, v: bool, c: BoolField)
    ensures c != b && (b.ElectricEnabled? || b.EngineEnabled? || b.LightLblinker? || b.LightRblinker? || b.LightParking? || b.LightLowBeam? || b.LightHighBeam? || b.LightBrake? || b.LightReverse?) ==> t.WithBool(b, v).Bool(c) == t.Bool(c)
  {
    match b
    case ElectricEnabled =>
    case EngineEnabled =>
    case LightLblinker =>
    case LightRblinker =>
    case LightParking =>
    case LightLowBeam =>
    case LightHighBeam =>
    case LightBrake =>
    case LightReverse =>
    case _ =>
  }

  lemma FloatAfterWithBool(t: State, b: BoolField, v: bool, f: FloatField)
    ensures t.WithBool(b, v).Float(f) == t.Float(f)
  {
    match f
    case Speed =>
    case EngineRpm =>
    case BrakeAirPressure =>
    case BrakeTemperature =>
    case Fuel =>
    case FuelAverageConsumption =>
    case FuelCapacity =>
    case OilPressure =>
    case OilTemperature =>
    case WaterTemperature =>
    case BatteryVoltage =>
    case Odometer =>
  }

  /** A flag store writes its own field and leaves every other field as it was. */
  lemma WithBoolIsNarrow(t: State, b: BoolField, v: bool)
    ensures t.WithBool(b, v).Bool(b) == v
    ensures forall c :: c != b ==> t.WithBool(b, v).Bool(c) == t.Bool(c)
    ensures forall f :: t.WithBool(b, v).Float(f) == t.Float(f)
    ensures t.WithBool(b, v).engineGear == t.engineGear
  {
    BoolAfterWithBool(t, b, v, b);
    forall c ensures t.WithBool(b, v).Bool(c) == if c == b then v else t.Bool(c) {
      BoolAfterWithBool(t, b, v, c);
    }
    forall f ensures t.WithBool(b, v).Float(f) == t.Float(f) {
      FloatAfterWithBool(t, b, v, f);
    }
  }

  /** The gear store writes the gear and nothing else. */
  lemma WithGearIsNarrow(t: State, g: int32)
    ensures t.(engineGear := g).engineGear == g
    ensures forall f :: t.(engineGear := g).Float(f) == t.Float(f)
    ensures forall b :: t.(engineGear := g).Bool(b) == t.Bool(b)
  {
    var r := t.(engineGear := g);
    forall f ensures r.Float(f) == t.Float(f) {
      match f
      case Speed =>
      case EngineRpm =>
      case BrakeAirPressure =>
      case BrakeTemperature =>
      case Fuel =>
      case FuelAverageConsumption =>
      case FuelCapacity =>
      case OilPressure =>
      case OilTemperature =>
      case WaterTemperature =>
      case BatteryVoltage =>
      case Odometer =>
    }
    forall b ensures r.Bool(b) == t.Bool(b) {
      match b
      case ParkingBrake =>
      case MotorBrake =>
      case BrakeAirPressureWarning =>
      case BrakeAirPressureEmergency =>
      case FuelWarning =>
      case OilPressureWarning =>
      case WaterTemperatureWarning =>
      case BatteryVoltageWarning =>
      case ElectricEnabled =>
      case EngineEnabled =>
      case LightLblinker =>
      case LightRblinker =>
      case LightParking =>
      case LightLowBeam =>
      case LightHighBeam =>
      case LightBrake =>
      case LightReverse =>
    }
  }

  /** The baseline `memset(&telemetry, 0, ...)` leaves: every measurement 0, every flag off, neutral. */
  const Zero := State(0.0, 0.0, 0, false, false, 0.0, false, false, 0.0, 0.0, false, 0.0, 0.0,
                      0.0, false, 0.0, 0.0, false, 0.0, false, false, false, false, false, false,
                      false, false, false, false, 0.0)

  lemma ZeroIsBlank()
    ensures forall f :: Zero.Float(f) == 0.0
    ensures forall b :: !Zero.Bool(b)
    ensures Zero.engineGear == 0
  {
    forall f ensures Zero.Float(f) == 0.0 { }
    forall b ensures !Zero.Bool(b) { }
  }

  /** Name of the configuration attribute that carries the tank size. */
  const FUEL_CAPACITY_ATTRIBUTE := "fuel.capacity"

  /** One named attribute of a configuration event, seen through its float member. */
  datatype Attribute = Attribute(name: string, value: real)

  /**
   * Reference definition of what `telemetry_configuration` stores: the value
   * of the last attribute named like the tank size, or `current` when none is.
   */
  function ConfiguredCapacity(attributes: seq<Attribute>, current: real): (r: real)
    ensures r == current || exists i :: 0 <= i < |attributes| && attributes[i].name == FUEL_CAPACITY_ATTRIBUTE && attributes[i].value == r
  {
    if attributes == [] then current
    else
      var last := attributes[|attributes| - 1];
      if last.name == FUEL_CAPACITY_ATTRIBUTE then last.value
      else ConfiguredCapacity(attributes[..|attributes| - 1], current)
  }

  /** With no attribute naming the tank size, the stored capacity stays as it was. */
  lemma {:induction false} CapacityKeptWithoutAttribute(attributes: seq<Attribute>, current: real)
    requires forall i :: 0 <= i < |attributes| ==> attributes[i].name != FUEL_CAPACITY_ATTRIBUTE
    ensures ConfiguredCapacity(attributes, current) == current
  {
    if attributes != [] {
      var init := attributes[..|attributes| - 1];
      assert forall i :: 0 <= i < |init| ==> init[i] == attributes[i];
      CapacityKeptWithoutAttribute(init, current);
    }
  }

  /** Otherwise the last attribute naming the tank size wins, whatever came before it. */
  lemma {:induction false} LastCapacityAttributeWins(attributes: seq<Attribute>, current: real, j: nat)
    requires j < |attributes| && attributes[j].name == FUEL_CAPACITY_ATTRIBUTE
    requires forall i :: j < i < |attributes| ==> attributes[i].name != FUEL_CAPACITY_ATTRIBUTE
    ensures ConfiguredCapacity(attributes, current) == attributes[j].value
  {
    if j < |attributes| - 1 {
      var init := attributes[..|attributes| - 1];
      assert forall i :: 0 <= i < |init| ==> init[i] == attributes[i];
      LastCapacityAttributeWins(init, current, j);
    }
  }
}
