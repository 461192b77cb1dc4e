/** The settings the recorder reads: which sensors are enabled and at what rate
    the accelerometer and the location provider are asked to report. */
module Settings {
  import opened Wrappers

  /** A JavaScript number: `Number(x)` of a stored string, or a value computed from one.
      Finite values are exact reals; IEEE rounding is not modelled. */
  datatype JsNum = NaN | Infinity(negative: bool) | Finite(value: real)

  /** JavaScript truthiness of a number: only NaN and zero are falsy. */
  predicate Truthy(n: JsNum)
  {
    !n.NaN? && n != Finite(0.0)
  }

  /** JavaScript's `a || b` on numbers. */
  function Or(a: JsNum, b: JsNum): JsNum
  {
    if Truthy(a) then a else b
  }

  /** `1 / n` in JavaScript (a zero divisor gives Infinity, an infinite one gives zero). */
  function Reciprocal(n: JsNum): JsNum
  {
    match n
    case NaN => NaN
    case Infinity(_) => Finite(0.0)
    case Finite(v) => if v == 0.0 then Infinity(false) else Finite(1.0 / v)
  }

  /** `n * 1000` in JavaScript. */
  function Thousandfold(n: JsNum): JsNum
  {
    match n
    case NaN => NaN
    case Infinity(neg) => Infinity(neg)
    case Finite(v) => Finite(v * 1000.0)
  }

  /** The rates of the stored general settings, each as `Number(...)` of its stored string
      (NaN when the key is missing). */
  datatype SensorRates = SensorRates(gpsRate: JsNum, accelerometerRate: JsNum)

  /** `Number(generalSettings?.sensor.accelerometerRate)`: NaN when no settings are stored. */
  function AccelerometerRate(general: Option<SensorRates>): JsNum
  {
    match general
    case None => NaN
    case Some(rates) => rates.accelerometerRate
  }

  /** `Number(generalSettings?.sensor.gpsRate)`: NaN when no settings are stored. */
  function GpsRate(general: Option<SensorRates>): JsNum
  {
    match general
    case None => NaN
    case Some(rates) => rates.gpsRate
  }

  /** The accelerometer update interval in milliseconds, from a rate in Hz:
      `((1 / rate) * 1000) || 1000`. */
  function AccelerometerUpdateInterval(rate: JsNum): JsNum
  {
    Or(Thousandfold(Reciprocal(rate)), Finite(1000.0))
  }

  /** The accelerometer interval is never falsy; it is 1000 exactly when the rate is missing,
      unparseable, infinite or 1 Hz; a rate of zero gives an infinite interval, not the
      fallback; any other finite rate gives the interval whose product with the rate is
      one second. */
  lemma AccelerometerUpdateIntervalMeaning(rate: JsNum)
    ensures Truthy(AccelerometerUpdateInterval(rate))
    ensures AccelerometerUpdateInterval(rate) == Finite(1000.0) <==> rate.NaN? || rate.Infinity? || rate == Finite(1.0)
    ensures rate == Finite(0.0) ==> AccelerometerUpdateInterval(rate) == Infinity(false)
    ensures rate.Finite? && rate.value != 0.0 ==>
      AccelerometerUpdateInterval(rate).Finite? && AccelerometerUpdateInterval(rate).value * rate.value == 1000.0
  {
    if rate.Finite? && rate.value != 0.0 {
      ThousandOverRate(rate.value);
    }
  }

  /** `(1 / v) * 1000` times `v` is 1000, and it is 1000 only for `v` = 1. */
  lemma ThousandOverRate(v: real)
    requires v != 0.0
    ensures (1.0 / v) * 1000.0 * v == 1000.0
    ensures (1.0 / v) * 1000.0 == 1000.0 <==> v == 1.0
  {
    assert (1.0 / v) * v == 1.0;
    if (1.0 / v) * 1000.0 == 1000.0 {
      assert 1000.0 * v == 1000.0;
    }
  }

  /** A rate of 2 Hz asks the accelerometer for a reading every 500 ms. */
  lemma TwoHertzIsFiveHundredMilliseconds()
    ensures AccelerometerUpdateInterval(Finite(2.0)) == Finite(500.0)
  {
    ThousandOverRate(2.0);
  }

  /** The location watch interval in milliseconds: `Number(gpsRate) || 5000`. A missing,
      unparseable or zero rate gives 5000; any other value, negative, fractional or
      infinite, is passed on unchanged. */
  function GpsTimeInterval(rate: JsNum): (ms: JsNum)
    ensures Truthy(ms)
    ensures ms == Finite(5000.0) <==> !Truthy(rate) || rate == Finite(5000.0)
    ensures ms != Finite(5000.0) ==> ms == rate
  {
    Or(rate, Finite(5000.0))
  }

  const AccelerometerName := "ACCELEROMETER"
  const GpsName := "GPS"
  const GyroName := "GYRO"

  /** The sensor list the screen starts with before any settings are loaded. */
  const DefaultSensors: seq<string> := [AccelerometerName, GpsName, GyroName]

  /** JavaScript's `list.indexOf(name)`: the first position of `name`, or -1. */
  function IndexOf(list: seq<string>, name: string): (i: int)
    ensures -1 <= i < |list|
    ensures i == -1 <==> name !in list
    ensures 0 <= i ==> list[i] == name && name !in list[..i]
  {
    if |list| == 0 then -1
    else if list[0] == name then 0
    else
      var j := IndexOf(list[1..], name);
      if j == -1 then -1
      else
        assert list[..j + 1] == [list[0]] + list[1..][..j];
        j + 1
  }

  /** `list.indexOf(name) > -1`, the test behind each enabled flag. */
  function Enabled(list: seq<string>, name: string): bool
  {
    IndexOf(list, name) > -1
  }

  /** A sensor is enabled exactly when its exact upper-case name is in the list. */
  lemma EnabledIffListed(list: seq<string>, name: string)
    ensures Enabled(list, name) <==> name in list
  {
    var i := IndexOf(list, name);
  }

  /** Before settings are loaded, all three sensors are enabled. */
  lemma DefaultEnablesAll()
    ensures Enabled(DefaultSensors, AccelerometerName)
    ensures Enabled(DefaultSensors, GpsName)
    ensures Enabled(DefaultSensors, GyroName)
  {
    EnabledIffListed(DefaultSensors, AccelerometerName);
    EnabledIffListed(DefaultSensors, GpsName);
    EnabledIffListed(DefaultSensors, GyroName);
  }

  /** The values the sensor settings screen stores are lower-case, so a list made of
      them enables no sensor of the recorder. */
  lemma LowerCaseListEnablesNothing(list: seq<string>)
    requires forall i :: 0 <= i < |list| ==> list[i] == "accelerometer" || list[i] == "gps" || list[i] == "gyro"
    ensures !Enabled(list, AccelerometerName)
    ensures !Enabled(list, GpsName)
    ensures !Enabled(list, GyroName)
  {
    EnabledIffListed(list, AccelerometerName);
    EnabledIffListed(list, GpsName);
    EnabledIffListed(list, GyroName);
    assert AccelerometerName[0] == 'A' && GpsName[0] == 'G' && GyroName[0] == 'G';
  }
}
