/** The measurement screen's recorder: the start/stop toggle, the accelerometer and GPS
    text buffers, the elapsed-time counter, the accelerometer subscription and the location
    watch. Directory creations and file writes are recorded in a log instead of performed. */
module Measurement {
  import opened Wrappers
  import opened Settings
  import opened Buffers

  /** A file-system effect of the recorder. */
  datatype FsOp = MakeDirectory(path: string) | WriteFile(path: string, content: string)

  /** The answer of the foreground location permission request. */
  datatype PermissionStatus = Granted | Denied | Undetermined

  /** An accelerometer reading, each axis already formatted as JavaScript prints it. */
  datatype AccelerometerReading = AccelerometerReading(x: string, y: string, z: string)

  /** A location fix, each value already formatted as JavaScript prints it. */
  datatype Fix = Fix(altitude: string, latitude: string, longitude: string, timestamp: string)

  /** The location watch handle: the interval it was created with, and whether it was removed. */
  datatype LocationWatch = LocationWatch(timeInterval: JsNum, removed: bool)

  const NoPermissionMessage := "Sem permissão"

  /** The accelerometer reading before any callback. */
  const InitialReading := AccelerometerReading("0", "0", "0")

  /** The speed before any fix. */
  const InitialSpeed := "0"

  /** The session's directory: `{documentDirectory}files/{id}`. */
  function SessionDirectory(documentDirectory: string, sessionId: string): string
  {
    documentDirectory + "files/" + sessionId
  }

  function AccelerometerFileName(sessionId: string): string
  {
    sessionId + "-Acc.txt"
  }

  function GpsFileName(sessionId: string): string
  {
    sessionId + "-GPS.txt"
  }

  /** Computed at stop but never written. */
  function ConfigFileName(sessionId: string): string
  {
    sessionId + "-Config.txt"
  }

  function FilePath(directory: string, name: string): string
  {
    directory + "/" + name
  }

  function AccelerometerPath(documentDirectory: string, sessionId: string): string
  {
    FilePath(SessionDirectory(documentDirectory, sessionId), AccelerometerFileName(sessionId))
  }

  function GpsPath(documentDirectory: string, sessionId: string): string
  {
    FilePath(SessionDirectory(documentDirectory, sessionId), GpsFileName(sessionId))
  }

  /** The configuration file's path, computed at stop. */
  function ConfigPath(documentDirectory: string, sessionId: string): string
  {
    FilePath(SessionDirectory(documentDirectory, sessionId), ConfigFileName(sessionId))
  }

  /** The two writes of a stop never target the configuration file, whatever they hold. */
  lemma StopWritesNoConfigFile(documentDirectory: string, sessionId: string, accelerometerText: string, gpsText: string, content: string)
    ensures WriteFile(ConfigPath(documentDirectory, sessionId), content)
      !in [WriteFile(AccelerometerPath(documentDirectory, sessionId), accelerometerText),
           WriteFile(GpsPath(documentDirectory, sessionId), gpsText)]
  {
    var config := ConfigPath(documentDirectory, sessionId);
    assert |config| == |AccelerometerPath(documentDirectory, sessionId)| + 3;
    assert |config| == |GpsPath(documentDirectory, sessionId)| + 3;
  }

  /** Both files of a session lie directly in the session's directory, under different names. */
  lemma SessionFilesInDirectory(documentDirectory: string, sessionId: string)
    ensures SessionDirectory(documentDirectory, sessionId) + "/" <= AccelerometerPath(documentDirectory, sessionId)
    ensures SessionDirectory(documentDirectory, sessionId) + "/" <= GpsPath(documentDirectory, sessionId)
    ensures AccelerometerPath(documentDirectory, sessionId) != GpsPath(documentDirectory, sessionId)
  {
    var acc, gps := AccelerometerPath(documentDirectory, sessionId), GpsPath(documentDirectory, sessionId);
    assert acc[|acc| - 5] == 'c' && gps[|gps| - 5] == 'S';
  }

  /** A session directory determines its session id. */
  lemma SessionDirectoryDeterminesId(documentDirectory: string, id1: string, id2: string)
    requires SessionDirectory(documentDirectory, id1) == SessionDirectory(documentDirectory, id2)
    ensures id1 == id2
  {
    var prefix := documentDirectory + "files/";
    assert id1 == SessionDirectory(documentDirectory, id1)[|prefix|..];
    assert id2 == SessionDirectory(documentDirectory, id2)[|prefix|..];
  }

  /** The fields of an accelerometer line: the three axes and the date of the run. */
  function AccelerometerFields(reading: AccelerometerReading, date: string): seq<string>
  {
    [reading.x, reading.y, reading.z, date]
  }

  /** The fields of a GPS line: latitude, longitude, speed in km/h and the date of the run. */
  function GpsFields(fix: Fix, speed: string, date: string): seq<string>
  {
    [fix.latitude, fix.longitude, speed, date]
  }

  /** The values the GPS buffer effect depends on besides the monitoring flag
      (the altitude is not among them). */
  function GpsDependencies(location: Option<Fix>, speed: string): (Option<(string, string, string)>, string)
  {
    match location
    case None => (None, speed)
    case Some(fix) => (Some((fix.latitude, fix.longitude, fix.timestamp)), speed)
  }

  /** The watch after `remove()`; the handle itself stays in place. */
  function Removed(watch: Option<LocationWatch>): Option<LocationWatch>
  {
    match watch
    case None => None
    case Some(w) => Some(w.(removed := true))
  }

  class Recorder {
    const documentDirectory: string
    const sensors: seq<string>
    const general: Option<SensorRates>

    var isMonitoring: bool
    var onStartDate: string
    var time: nat
    var accelerometer: AccelerometerReading
    var location: Option<Fix>
    var speed: string
    var accelerometerContent: string
    var gpsContent: string
    var accelerometerSubscribed: bool
    var accelerometerInterval: Option<JsNum>
    var clientLocation: Option<LocationWatch>
    var errorMsg: Option<string>
    var fsLog: seq<FsOp>

    /** The enabled flags: `sensors.indexOf(name) > -1` for each sensor name. */
    const accelerometerEnabled: bool
    const gpsEnabled: bool
    const gyroEnabled: bool

    /** Whether the location watch still delivers fixes. */
    predicate WatchLive()
      reads this
    {
      clientLocation.Some? && !clientLocation.value.removed
    }

    ghost predicate Valid()
      reads this
    {
      && time % 1000 == 0
      && (!isMonitoring ==> time == 0)
      && (isMonitoring ==> accelerometerContent != "" && gpsContent != "")
      && (isMonitoring ==> MakeDirectory(SessionDirectory(documentDirectory, onStartDate)) in fsLog)
      && (accelerometerSubscribed <==> isMonitoring && accelerometerEnabled)
      && (clientLocation.Some? ==> gpsEnabled)
      && (WatchLive() ==> isMonitoring)
    }

    /** The screen after mounting, with the settings loaded from storage (the default sensor
        list when none is stored). */
    constructor (documentDirectory: string, storedSensors: Option<seq<string>>, storedGeneral: Option<SensorRates>)
      ensures Valid()
      ensures this.documentDirectory == documentDirectory && general == storedGeneral
      ensures sensors == if storedSensors.Some? then storedSensors.value else DefaultSensors
      ensures accelerometerEnabled == Enabled(sensors, AccelerometerName)
      ensures gpsEnabled == Enabled(sensors, GpsName)
      ensures gyroEnabled == Enabled(sensors, GyroName)
      ensures !isMonitoring && onStartDate == "" && time == 0
      ensures accelerometerContent == "" && gpsContent == ""
      ensures accelerometer == InitialReading && location == None && speed == InitialSpeed
      ensures !accelerometerSubscribed && accelerometerInterval == None
      ensures clientLocation == None && errorMsg == None && fsLog == []
    {
      this.documentDirectory := documentDirectory;
      var list := if storedSensors.Some? then storedSensors.value else DefaultSensors;
      sensors := list;
      general := storedGeneral;
      accelerometerEnabled := Enabled(list, AccelerometerName);
      gpsEnabled := Enabled(list, GpsName);
      gyroEnabled := Enabled(list, GyroName);
      isMonitoring := false;
      onStartDate := "";
      time := 0;
      accelerometer := InitialReading;
      location := None;
      speed := InitialSpeed;
      accelerometerContent := "";
      gpsContent := "";
      accelerometerSubscribed := false;
      accelerometerInterval := None;
      clientLocation := None;
      errorMsg := None;
      fsLog := [];
    }

    /** Sets the update interval from the configured rate and adds the listener. */
    method SubscribeToAccelerometer()
      modifies this`accelerometerSubscribed, this`accelerometerInterval
      ensures accelerometerSubscribed
      ensures accelerometerInterval == Some(AccelerometerUpdateInterval(AccelerometerRate(general)))
    {
      var updateInterval := AccelerometerUpdateInterval(AccelerometerRate(general));
      accelerometerInterval := Some(updateInterval);
      accelerometerSubscribed := true;
    }

    /** Removes the listener, if any, and forgets it. */
    method UnsubscribeFromAccelerometer()
      modifies this`accelerometerSubscribed
      ensures !accelerometerSubscribed
    {
      accelerometerSubscribed := false;
    }

    /** A refused permission only sets the error message; a granted one creates a watch
        only when no handle exists yet. */
    method StartLocationTracking(permission: PermissionStatus)
      modifies this`errorMsg, this`clientLocation
      ensures permission != Granted ==> errorMsg == Some(NoPermissionMessage) && clientLocation == old(clientLocation)
      ensures permission == Granted ==> errorMsg == old(errorMsg)
      ensures permission == Granted && old(clientLocation).None? ==>
        clientLocation == Some(LocationWatch(GpsTimeInterval(GpsRate(general)), false))
      ensures permission == Granted && old(clientLocation).Some? ==> clientLocation == old(clientLocation)
    {
      if permission != Granted {
        errorMsg := Some(NoPermissionMessage);
        return;
      }
      if clientLocation.None? {
        clientLocation := Some(LocationWatch(GpsTimeInterval(GpsRate(general)), false));
      }
    }

    /** Removes the watch if a handle exists; the handle is kept. */
    method StopLocationTracking()
      modifies this`clientLocation
      ensures clientLocation == Removed(old(clientLocation))
    {
      if clientLocation.Some? {
        clientLocation := Some(clientLocation.value.(removed := true));
      }
    }

    /** The timer effect, run when the monitoring flag changes: leaving monitoring resets the
        counter; entering it starts the ticks. */
    method RunTimerEffect()
      modifies this`time
      ensures time == if isMonitoring then old(time) else 0
    {
      if !isMonitoring {
        time := 0;
      }
    }

    /** One timer tick: adds a second while monitoring; no timer runs otherwise. */
    method Tick()
      requires Valid()
      modifies this`time
      ensures Valid()
      ensures isMonitoring ==> time == old(time) + 1000
      ensures !isMonitoring ==> time == old(time) == 0
    {
      if isMonitoring {
        time := time + 1000;
      }
    }

    /** One run of the accelerometer buffer effect. */
    method RunAccelerometerEffect(date: string)
      modifies this`accelerometerContent
      ensures accelerometerContent == EffectRun(isMonitoring, old(accelerometerContent), AccelerometerHeader, AccelerometerFields(accelerometer, date))
    {
      if isMonitoring {
        if accelerometerContent == "" {
          accelerometerContent := AccelerometerHeader;
        } else {
          var content := "\n" + Line(AccelerometerFields(accelerometer, date));
          accelerometerContent := accelerometerContent + content;
        }
      }
    }

    /** One run of the GPS buffer effect. Reading the latitude of a missing fix throws a
        TypeError: that happens when a non-empty buffer is appended to before any fix, and the
        buffer is then left as it was. */
    method RunGpsEffect(date: string) returns (threw: bool)
      modifies this`gpsContent
      ensures threw <==> isMonitoring && old(gpsContent) != "" && location.None?
      ensures threw ==> gpsContent == old(gpsContent)
      ensures location.None? && !threw ==> gpsContent == EffectRun(isMonitoring, old(gpsContent), GpsHeader, [])
      ensures location.Some? ==>
        gpsContent == EffectRun(isMonitoring, old(gpsContent), GpsHeader, GpsFields(location.value, speed, date))
    {
      threw := isMonitoring && gpsContent != "" && location.None?;
      if !threw {
        var fields := if location.Some? then GpsFields(location.value, speed, date) else [];
        if isMonitoring {
          if gpsContent == "" {
            gpsContent := GpsHeader;
          } else {
            var content := "\n" + Line(fields);
            gpsContent := gpsContent + content;
          }
        }
      }
    }

    /** `setIsMonitoring` followed by the effects that depend on the flag, in their order:
        timer, accelerometer buffer, GPS buffer. */
    method SetMonitoring(on: bool, date: string) returns (threw: bool)
      requires on != isMonitoring
      modifies this`isMonitoring, this`time, this`accelerometerContent, this`gpsContent
      ensures isMonitoring == on
      ensures time == if on then old(time) else 0
      ensures accelerometerContent == EffectRun(on, old(accelerometerContent), AccelerometerHeader, AccelerometerFields(accelerometer, date))
      ensures threw <==> on && old(gpsContent) != "" && location.None?
      ensures threw ==> gpsContent == old(gpsContent)
      ensures location.None? && !threw ==> gpsContent == EffectRun(on, old(gpsContent), GpsHeader, [])
      ensures location.Some? ==>
        gpsContent == EffectRun(on, old(gpsContent), GpsHeader, GpsFields(location.value, speed, date))
    {
      isMonitoring := on;
      RunTimerEffect();
      RunAccelerometerEffect(date);
      threw := RunGpsEffect(date);
    }

    /** The subscriptions made at start, each only for an enabled sensor. */
    method SubscribeEnabled(permission: PermissionStatus)
      modifies this`accelerometerSubscribed, this`accelerometerInterval, this`errorMsg, this`clientLocation
      ensures accelerometerSubscribed == (accelerometerEnabled || old(accelerometerSubscribed))
      ensures accelerometerInterval == (if accelerometerEnabled then Some(AccelerometerUpdateInterval(AccelerometerRate(general)))
                                        else old(accelerometerInterval))
      ensures gpsEnabled && permission != Granted ==> errorMsg == Some(NoPermissionMessage) && clientLocation == old(clientLocation)
      ensures gpsEnabled && permission == Granted ==> errorMsg == old(errorMsg)
      ensures gpsEnabled && permission == Granted && old(clientLocation).None? ==>
        clientLocation == Some(LocationWatch(GpsTimeInterval(GpsRate(general)), false))
      ensures gpsEnabled && permission == Granted && old(clientLocation).Some? ==> clientLocation == old(clientLocation)
      ensures !gpsEnabled ==> errorMsg == old(errorMsg) && clientLocation == old(clientLocation)
    {
      if accelerometerEnabled {
        SubscribeToAccelerometer();
      }
      if gpsEnabled {
        StartLocationTracking(permission);
      }
    }

    /** The unsubscriptions made at stop, each only for an enabled sensor. */
    method UnsubscribeEnabled()
      modifies this`accelerometerSubscribed, this`clientLocation
      ensures accelerometerSubscribed == (old(accelerometerSubscribed) && !accelerometerEnabled)
      ensures clientLocation == (if gpsEnabled then Removed(old(clientLocation)) else old(clientLocation))
    {
      if accelerometerEnabled {
        UnsubscribeFromAccelerometer();
      }
      if gpsEnabled {
        StopLocationTracking();
      }
    }

    /** The state after a stop, relative to the state before it: both buffers written,
        accelerometer first, into the directory of the current session id, and nothing
        cleared; the accelerometer listener removed; the location watch, if the GPS is
        enabled, removed but kept; the counter back at zero. */
    twostate predicate StoppedFrom()
      reads this
    {
      && !isMonitoring
      && accelerometer == old(accelerometer) && location == old(location) && speed == old(speed)
      && onStartDate == old(onStartDate)
      && fsLog == old(fsLog) + [WriteFile(AccelerometerPath(documentDirectory, onStartDate), old(accelerometerContent)),
                                WriteFile(GpsPath(documentDirectory, onStartDate), old(gpsContent))]
      && accelerometerContent == old(accelerometerContent)
      && gpsContent == old(gpsContent)
      && time == 0
      && !accelerometerSubscribed && accelerometerInterval == old(accelerometerInterval)
      && clientLocation == (if gpsEnabled then Removed(old(clientLocation)) else old(clientLocation))
      && errorMsg == old(errorMsg)
    }

    /** The state after a start, relative to the state before it: the new session id and its
        directory; the accelerometer listener added at the configured interval if enabled; the
        location permission asked for if the GPS is enabled, a refusal only setting the error
        message and a grant creating a watch only when no handle exists; then each buffer
        effect run once while monitoring, the GPS one throwing when its buffer is non-empty
        and no fix has arrived. */
    twostate predicate StartedFrom(permission: PermissionStatus, sessionId: string, date: string, threw: bool)
      reads this
    {
      && isMonitoring
      && accelerometer == old(accelerometer) && location == old(location) && speed == old(speed)
      && onStartDate == sessionId
      && fsLog == old(fsLog) + [MakeDirectory(SessionDirectory(documentDirectory, sessionId))]
      && time == 0
      && accelerometerSubscribed == accelerometerEnabled
      && accelerometerInterval == (if accelerometerEnabled then Some(AccelerometerUpdateInterval(AccelerometerRate(general)))
                                   else old(accelerometerInterval))
      && accelerometerContent == EffectRun(true, old(accelerometerContent), AccelerometerHeader, AccelerometerFields(accelerometer, date))
      && (threw <==> old(gpsContent) != "" && location.None?)
      && (threw ==> gpsContent == old(gpsContent))
      && (location.Some? ==> gpsContent == EffectRun(true, old(gpsContent), GpsHeader, GpsFields(location.value, speed, date)))
      && (location.None? && !threw ==> gpsContent == GpsHeader)
      && (gpsEnabled && permission != Granted ==> errorMsg == Some(NoPermissionMessage) && clientLocation == old(clientLocation))
      && (gpsEnabled && permission == Granted ==> errorMsg == old(errorMsg))
      && (gpsEnabled && permission == Granted && old(clientLocation).None? ==>
            clientLocation == Some(LocationWatch(GpsTimeInterval(GpsRate(general)), false)))
      && (gpsEnabled && permission == Granted && old(clientLocation).Some? ==> clientLocation == old(clientLocation))
      && (!gpsEnabled ==> errorMsg == old(errorMsg) && clientLocation == old(clientLocation))
    }

    /** The stop half of the button. */
    method Stop(date: string)
      requires Valid() && isMonitoring
      modifies this
      ensures Valid() && StoppedFrom()
    {
      UnsubscribeEnabled();
      var accFilename := AccelerometerFileName(onStartDate);
      var gpsFilename := GpsFileName(onStartDate);
      var dirpath := SessionDirectory(documentDirectory, onStartDate);
      fsLog := fsLog + [WriteFile(FilePath(dirpath, accFilename), accelerometerContent)];
      fsLog := fsLog + [WriteFile(FilePath(dirpath, gpsFilename), gpsContent)];
      var threw := SetMonitoring(false, date);
    }

    /** The start half of the button. */
    method Start(permission: PermissionStatus, sessionId: string, date: string) returns (threw: bool)
      requires Valid() && !isMonitoring
      modifies this
      ensures Valid() && StartedFrom(permission, sessionId, date, threw)
    {
      SubscribeEnabled(permission);
      onStartDate := sessionId;
      var dirpath := SessionDirectory(documentDirectory, onStartDate);
      fsLog := fsLog + [MakeDirectory(dirpath)];
      threw := SetMonitoring(true, date);
    }

    /** The start/stop button: each press flips the monitoring flag once, stopping when
        monitoring and starting otherwise. Only a start can throw. */
    method Press(permission: PermissionStatus, sessionId: string, date: string) returns (threw: bool)
      requires Valid()
      modifies this
      ensures Valid()
      ensures isMonitoring == !old(isMonitoring)
      ensures old(isMonitoring) ==> StoppedFrom() && !threw
      ensures !old(isMonitoring) ==> StartedFrom(permission, sessionId, date, threw)
    {
      if isMonitoring {
        Stop(date);
        threw := false;
      } else {
        threw := Start(permission, sessionId, date);
      }
    }

    /** An accelerometer callback. It arrives only while the listener is subscribed, sets the
        reading, and runs the buffer effect only when an axis value changed. */
    method OnAccelerometerReading(reading: AccelerometerReading, date: string)
      requires Valid()
      modifies this`accelerometer, this`accelerometerContent
      ensures Valid()
      ensures !accelerometerSubscribed ==> accelerometer == old(accelerometer) && accelerometerContent == old(accelerometerContent)
      ensures accelerometerSubscribed ==> accelerometer == reading
      ensures accelerometerSubscribed && reading == old(accelerometer) ==> accelerometerContent == old(accelerometerContent)
      ensures accelerometerSubscribed && reading != old(accelerometer) ==>
        accelerometerContent == EffectRun(true, old(accelerometerContent), AccelerometerHeader, AccelerometerFields(reading, date))
    {
      if accelerometerSubscribed {
        var changed := reading != accelerometer;
        accelerometer := reading;
        if changed {
          RunAccelerometerEffect(date);
        }
      }
    }

    /** A location callback. It arrives only while the watch is live, sets the fix and the
        speed, and runs the buffer effect only when latitude, longitude, timestamp or speed
        changed. */
    method OnLocationUpdate(fix: Fix, kmh: string, date: string)
      requires Valid()
      modifies this`location, this`speed, this`gpsContent
      ensures Valid()
      ensures !WatchLive() ==> location == old(location) && speed == old(speed) && gpsContent == old(gpsContent)
      ensures WatchLive() ==> location == Some(fix) && speed == kmh
      ensures WatchLive() && GpsDependencies(Some(fix), kmh) == GpsDependencies(old(location), old(speed)) ==>
        gpsContent == old(gpsContent)
      ensures WatchLive() && GpsDependencies(Some(fix), kmh) != GpsDependencies(old(location), old(speed)) ==>
        gpsContent == EffectRun(true, old(gpsContent), GpsHeader, GpsFields(fix, kmh, date))
    {
      if WatchLive() {
        var changed := GpsDependencies(Some(fix), kmh) != GpsDependencies(location, speed);
        location := Some(fix);
        speed := kmh;
        if changed {
          var threw := RunGpsEffect(date);
        }
      }
    }
  }
}
