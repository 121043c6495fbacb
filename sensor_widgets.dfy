/** The read-only sensor widgets of a device card: how each one classifies
    the value it is given. Colours are named by the band they show. */
module SensorWidgets {
  import opened Seqs
  import opened JsValue

  /** `typeof value === 'number' ? value : fallback`. */
  function NumberOr(v: Value, fallback: real): (r: real)
    ensures v.Num? ==> r == v.n
    ensures !v.Num? ==> r == fallback
  {
    match v
    case Num(n) => n
    case _ => fallback
  }

  // ---------------------------------------------------------------------------
  // Temperature and humidity

  datatype TemperatureBand = Cold | Comfortable | Hot

  /** Below 15 degrees is cold, above 30 hot; a non-number reads as 0. */
  function TemperatureBandOf(value: Value): (b: TemperatureBand)
    ensures b == Cold <==> NumberOr(value, 0.0) < 15.0
    ensures b == Hot <==> NumberOr(value, 0.0) > 30.0
    ensures b == Comfortable <==> 15.0 <= NumberOr(value, 0.0) <= 30.0
  {
    var temp := NumberOr(value, 0.0);
    if temp < 15.0 then Cold else if temp > 30.0 then Hot else Comfortable
  }

  function TemperatureRank(b: TemperatureBand): nat
  {
    match b
    case Cold => 0
    case Comfortable => 1
    case Hot => 2
  }

  /** A warmer reading never shows a colder band. */
  lemma TemperatureMonotone(x: real, y: real)
    requires x <= y
    ensures TemperatureRank(TemperatureBandOf(Num(x))) <= TemperatureRank(TemperatureBandOf(Num(y)))
  {
  }

  datatype HumidityBand = Dry | Normal | Humid

  /** Below 30 percent is dry, above 70 humid; a non-number reads as 0. */
  function HumidityBandOf(value: Value): (b: HumidityBand)
    ensures b == Dry <==> NumberOr(value, 0.0) < 30.0
    ensures b == Humid <==> NumberOr(value, 0.0) > 70.0
    ensures b == Normal <==> 30.0 <= NumberOr(value, 0.0) <= 70.0
  {
    var humidity := NumberOr(value, 0.0);
    if humidity < 30.0 then Dry else if humidity > 70.0 then Humid else Normal
  }

  // ---------------------------------------------------------------------------
  // Motion and light

  /** Motion is detected exactly when the value is truthy. */
  function MotionStatus(value: Value): (r: string)
    ensures r == "Active" <==> Truthy(value)
    ensures r == "Clear" <==> !Truthy(value)
  {
    if Truthy(value) then "Active" else "Clear"
  }

  /** A boolean is the light's state itself; a number means on above 100
      lux; anything else means off. */
  function LightOn(value: Value): (r: bool)
    ensures value.Bool? ==> r == value.b
    ensures value.Num? ==> (r <==> value.n > 100.0)
    ensures !value.Bool? && !value.Num? ==> !r
  {
    if IsBoolean(value) then value.b else IsNumber(value) && value.n > 100.0
  }

  /** The lux shown: the number itself, else 500 for a truthy value and 0
      for a falsy one. */
  function Lux(value: Value): (r: real)
    ensures value.Num? ==> r == value.n
    ensures !value.Num? && Truthy(value) ==> r == 500.0
    ensures !value.Num? && !Truthy(value) ==> r == 0.0
  {
    if IsNumber(value) then value.n else if Truthy(value) then 500.0 else 0.0
  }

  /** A boolean shows as the word Bright or Dark instead of a number. */
  function LightLabel(value: Value): (r: Option<string>)
    ensures value.Bool? <==> r.Some?
    ensures value.Bool? ==> r == Some(if value.b then "Bright" else "Dark")
  {
    if IsBoolean(value) then Some(if value.b then "Bright" else "Dark") else None
  }

  /** A boolean light that is shown as on also reports 500 lux, and one
      shown as off reports 0. */
  lemma BooleanLightAgrees(b: bool)
    ensures LightOn(Bool(b)) == b
    ensures Lux(Bool(b)) == if b then 500.0 else 0.0
  {
  }

  // ---------------------------------------------------------------------------
  // CO2

  datatype AirQuality = Excellent | Good | Moderate | Poor | Bad

  function QualityRank(q: AirQuality): nat
  {
    match q
    case Excellent => 0
    case Good => 1
    case Moderate => 2
    case Poor => 3
    case Bad => 4
  }

  /** Five bands cut at 600, 1000, 1500 and 2500 ppm; a non-number reads as
      400 ppm, which is excellent. */
  function AirQualityOf(value: Value): (q: AirQuality)
    ensures var ppm := NumberOr(value, 400.0);
      (q == Excellent <==> ppm < 600.0)
      && (q == Good <==> 600.0 <= ppm < 1000.0)
      && (q == Moderate <==> 1000.0 <= ppm < 1500.0)
      && (q == Poor <==> 1500.0 <= ppm < 2500.0)
      && (q == Bad <==> 2500.0 <= ppm)
    ensures !value.Num? ==> q == Excellent
  {
    var ppm := NumberOr(value, 400.0);
    if ppm < 600.0 then Excellent
    else if ppm < 1000.0 then Good
    else if ppm < 1500.0 then Moderate
    else if ppm < 2500.0 then Poor
    else Bad
  }

  /** More CO2 never shows a better band. */
  lemma AirQualityMonotone(x: real, y: real)
    requires x <= y
    ensures QualityRank(AirQualityOf(Num(x))) <= QualityRank(AirQualityOf(Num(y)))
  {
  }

  // ---------------------------------------------------------------------------
  // Registry

  datatype SensorKind = TemperatureSensor | HumiditySensor | MotionSensor | LightSensor | CO2Sensor

  /** The `SensorWidgets` table: five keys, one widget each. */
  function WidgetFor(key: string): (r: Option<SensorKind>)
    ensures r.Some? <==> key in {"TEMPERATURE", "HUMIDITY", "MOTION", "LIGHT", "CO2"}
    ensures key == "CO2" ==> r == Some(CO2Sensor)
  {
    if key == "TEMPERATURE" then Some(TemperatureSensor)
    else if key == "HUMIDITY" then Some(HumiditySensor)
    else if key == "MOTION" then Some(MotionSensor)
    else if key == "LIGHT" then Some(LightSensor)
    else if key == "CO2" then Some(CO2Sensor)
    else None
  }

  /** Every kind of sensor is reachable from exactly one key. */
  lemma RegistryInjective(a: string, b: string)
    requires WidgetFor(a).Some? && WidgetFor(a) == WidgetFor(b)
    ensures a == b
  {
  }
}
