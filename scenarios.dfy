/** Whole sessions driven through the recorder's contracts, as a caller sees them. */
module Scenarios {
  import opened Wrappers
  import opened Settings
  import opened Buffers
  import opened Measurement

  /** Accelerometer at 2 Hz and GPS every 1000 ms: a start subscribes the accelerometer at
      a 500 ms interval and creates a live watch every 1000 ms. */
  method RatesFromSettings(documentDirectory: string, sessionId: string, t0: string)
    returns (accelerometerInterval: Option<JsNum>, watch: Option<LocationWatch>)
    ensures accelerometerInterval == Some(Finite(500.0))
    ensures watch == Some(LocationWatch(Finite(1000.0), false))
  {
    var r := new Recorder(documentDirectory, Some([AccelerometerName, GpsName]),
                          Some(SensorRates(Finite(1000.0), Finite(2.0))));
    EnabledIffListed([AccelerometerName, GpsName], AccelerometerName);
    EnabledIffListed([AccelerometerName, GpsName], GpsName);
    var threw := r.Press(Granted, sessionId, t0);
    TwoHertzIsFiveHundredMilliseconds();
    accelerometerInterval, watch := r.accelerometerInterval, r.clientLocation;
  }

  /** A stored sensor list naming both the accelerometer and the GPS: two distinct
      accelerometer readings and one fix after a start leave each buffer holding its header
      followed by the readings in order. */
  method AccelerometerAndGpsSession(documentDirectory: string, sessionId: string, sensors: seq<string>,
                                    a1: AccelerometerReading, a2: AccelerometerReading, fix: Fix, kmh: string,
                                    t0: string, t1: string, t2: string, t3: string)
    returns (accelerometerContent: string, gpsContent: string)
    requires AccelerometerName in sensors && GpsName in sensors
    requires a1 != InitialReading && a2 != a1
    ensures accelerometerContent == Document(AccelerometerHeader, [AccelerometerFields(a1, t1), AccelerometerFields(a2, t2)])
    ensures gpsContent == Document(GpsHeader, [GpsFields(fix, kmh, t3)])
  {
    var r := new Recorder(documentDirectory, Some(sensors), None);
    EnabledIffListed(sensors, AccelerometerName);
    EnabledIffListed(sensors, GpsName);
    var threw := r.Press(Granted, sessionId, t0);
    EffectRunStartsDocument(AccelerometerHeader, AccelerometerFields(InitialReading, t0));
    EffectRunStartsDocument(GpsHeader, []);
    r.OnAccelerometerReading(a1, t1);
    EffectRunAppendsRecord(AccelerometerHeader, [], AccelerometerFields(a1, t1));
    assert [] + [AccelerometerFields(a1, t1)] == [AccelerometerFields(a1, t1)];
    r.OnAccelerometerReading(a2, t2);
    EffectRunAppendsRecord(AccelerometerHeader, [AccelerometerFields(a1, t1)], AccelerometerFields(a2, t2));
    assert [AccelerometerFields(a1, t1)] + [AccelerometerFields(a2, t2)] == [AccelerometerFields(a1, t1), AccelerometerFields(a2, t2)];
    r.OnLocationUpdate(fix, kmh, t3);
    EffectRunAppendsRecord(GpsHeader, [], GpsFields(fix, kmh, t3));
    assert [] + [GpsFields(fix, kmh, t3)] == [GpsFields(fix, kmh, t3)];
    accelerometerContent, gpsContent := r.accelerometerContent, r.gpsContent;
  }

  /** Only the accelerometer enabled, two sessions. The first stop still writes a GPS file,
      holding the GPS header alone. The second start adds no header: it appends the last
      reading of the first session, dated at the second start, and the GPS effect throws
      because its buffer is non-empty and no fix ever arrived. */
  method SecondSessionContinuesBuffers(documentDirectory: string, s1: string, s2: string, a: AccelerometerReading,
                                       t0: string, t1: string, t2: string, t3: string)
    returns (log: seq<FsOp>, accelerometerContent: string, threw: bool)
    requires a != InitialReading
    ensures threw
    ensures log == [MakeDirectory(SessionDirectory(documentDirectory, s1)),
                    WriteFile(AccelerometerPath(documentDirectory, s1), Document(AccelerometerHeader, [AccelerometerFields(a, t1)])),
                    WriteFile(GpsPath(documentDirectory, s1), GpsHeader),
                    MakeDirectory(SessionDirectory(documentDirectory, s2))]
    ensures accelerometerContent == Document(AccelerometerHeader, [AccelerometerFields(a, t1), AccelerometerFields(a, t3)])
  {
    var r := new Recorder(documentDirectory, Some([AccelerometerName]), None);
    EnabledIffListed([AccelerometerName], AccelerometerName);
    EnabledIffListed([AccelerometerName], GpsName);
    threw := r.Press(Granted, s1, t0);
    EffectRunStartsDocument(AccelerometerHeader, AccelerometerFields(InitialReading, t0));
    r.OnAccelerometerReading(a, t1);
    EffectRunAppendsRecord(AccelerometerHeader, [], AccelerometerFields(a, t1));
    assert [] + [AccelerometerFields(a, t1)] == [AccelerometerFields(a, t1)];
    threw := r.Press(Granted, s1, t2);
    assert GpsHeader == Document(GpsHeader, []);
    threw := r.Press(Granted, s2, t3);
    EffectRunAppendsRecord(AccelerometerHeader, [AccelerometerFields(a, t1)], AccelerometerFields(a, t3));
    assert [AccelerometerFields(a, t1)] + [AccelerometerFields(a, t3)] == [AccelerometerFields(a, t1), AccelerometerFields(a, t3)];
    log, accelerometerContent := r.fsLog, r.accelerometerContent;
  }

  /** Only the GPS enabled, permission granted both times. The watch made in the first
      session is removed at stop and, its handle being kept, never made again: the second
      session has no live watch and its fixes are ignored, while its start appends the last
      fix of the first session. */
  method SecondSessionHasNoWatch(documentDirectory: string, s1: string, s2: string, fix1: Fix, kmh1: string, fix2: Fix, kmh2: string,
                                 t0: string, t1: string, t2: string, t3: string, t4: string)
    returns (watch: Option<LocationWatch>, gpsContent: string, threw: bool)
    ensures !threw
    ensures watch == Some(LocationWatch(Finite(5000.0), true))
    ensures gpsContent == Document(GpsHeader, [GpsFields(fix1, kmh1, t1), GpsFields(fix1, kmh1, t3)])
  {
    var r := new Recorder(documentDirectory, Some([GpsName]), None);
    EnabledIffListed([GpsName], AccelerometerName);
    EnabledIffListed([GpsName], GpsName);
    threw := r.Press(Granted, s1, t0);
    EffectRunStartsDocument(GpsHeader, []);
    r.OnLocationUpdate(fix1, kmh1, t1);
    EffectRunAppendsRecord(GpsHeader, [], GpsFields(fix1, kmh1, t1));
    assert [] + [GpsFields(fix1, kmh1, t1)] == [GpsFields(fix1, kmh1, t1)];
    threw := r.Press(Granted, s1, t2);
    threw := r.Press(Granted, s2, t3);
    EffectRunAppendsRecord(GpsHeader, [GpsFields(fix1, kmh1, t1)], GpsFields(fix1, kmh1, t3));
    assert [GpsFields(fix1, kmh1, t1)] + [GpsFields(fix1, kmh1, t3)] == [GpsFields(fix1, kmh1, t1), GpsFields(fix1, kmh1, t3)];
    r.OnLocationUpdate(fix2, kmh2, t4);
    watch, gpsContent := r.clientLocation, r.gpsContent;
  }

  /** GPS enabled but the permission refused: the error message is set, no watch exists,
      and the stop still writes a GPS file holding the header alone. */
  method RefusedPermissionSession(documentDirectory: string, sessionId: string, t0: string, t1: string)
    returns (log: seq<FsOp>, errorMsg: Option<string>, watch: Option<LocationWatch>)
    ensures errorMsg == Some("Sem permissão")
    ensures watch == None
    ensures log == [MakeDirectory(SessionDirectory(documentDirectory, sessionId)),
                    WriteFile(AccelerometerPath(documentDirectory, sessionId), AccelerometerHeader),
                    WriteFile(GpsPath(documentDirectory, sessionId), GpsHeader)]
  {
    var r := new Recorder(documentDirectory, None, None);
    DefaultEnablesAll();
    var threw := r.Press(Denied, sessionId, t0);
    threw := r.Press(Denied, sessionId, t1);
    assert AccelerometerHeader == Document(AccelerometerHeader, []);
    assert GpsHeader == Document(GpsHeader, []);
    log, errorMsg, watch := r.fsLog, r.errorMsg, r.clientLocation;
  }
}
