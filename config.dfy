/** pkg/app/config/config.go: the application configuration, its defaults and
    the normalisation LoadConfig applies after the configuration file has
    been decoded. */
module Config {
  import opened Base

  datatype FlagConfig = FlagConfig(version: bool, debug: string, configFile: string)

  datatype WebserverConfig = WebserverConfig(url: string, webservices: map<string, bool>)

  datatype MQTTConfig = MQTTConfig(connection: string)

  /** Log levels of the debug package; OR-ing flags is the union of their levels. */
  datatype LogLevel = LevelWarning | LevelInfo | LevelError | LevelFatal | LevelDebug

  /** Debug.Flag: a combination of levels, or one of the debug package's
      named presets. The zero flag is `Levels({})`. */
  datatype DebugFlag = Levels(levels: set<LogLevel>) | Full | Standard

  /** Debug.File: nil, one of the standard streams, or the log file opened
      at a path. A failed os.OpenFile leaves no usable file. */
  datatype LogFile = NoLogFile | Stderr | Stdout | OpenedFile(path: string)

  datatype DebugConfig = DebugConfig(flag: DebugFlag, flagString: string, fileString: string, file: LogFile)

  /** Configuration of one meter: the fields config.go declares, and the
      fields pkg/app/measurement.go reads from it. */
  datatype MeterConfig = MeterConfig(
    scaleFactor: real,
    gpio: int,
    bounceTimeInt: int64,
    bounceTime: int64,
    unit: string,
    unitFlow: string,
    scaleFactorFlow: real,
    mqttTopic: string,
    counterConstant: real,
    precision: int,
    unitCounter: string,
    unitGauge: string)

  /** The configuration fields that come from the configuration file, as the
      YAML decoder leaves them. */
  datatype Decoded = Decoded(
    dataCollectionIntervalInt: int64,
    dataFile: string,
    backupIntervalInt: int64,
    debugFlagString: string,
    debugFileString: string,
    meter: map<string, MeterConfig>,
    webserver: WebserverConfig,
    mqtt: MQTTConfig)

  /** Outcome of opening and decoding the configuration file. */
  datatype ReadResult = ReadFailed(reason: string) | ReadOk(decoded: Decoded)

  /** The two errors LoadConfig reports: the configuration file it could not
      read, and the debug settings, as formatted into the message, whose file
      it could not open. */
  datatype LoadError = ReadConfigError(file: string, reason: string) | DebugFileError(debug: DebugConfig, reason: string)

  /** setDebugConfig's choice of Debug.Flag for the flag string `s`. */
  function SelectFlag(s: string, current: DebugFlag): (f: DebugFlag)
  {
    if s == "trace" || s == "full" then Full
    else if s == "debug" then Levels({LevelWarning, LevelInfo, LevelError, LevelFatal, LevelDebug})
    else if s == "standard" then Standard
    else current
  }

  /** The four recognised strings decide the flag whatever it was before;
      every other string keeps it; selecting twice is selecting once. */
  lemma SelectFlagTable(s: string, current: DebugFlag, other: DebugFlag)
    ensures s in {"trace", "full", "debug", "standard"} ==> SelectFlag(s, current) == SelectFlag(s, other)
    ensures s !in {"trace", "full", "debug", "standard"} ==> SelectFlag(s, current) == current
    ensures SelectFlag(s, SelectFlag(s, current)) == SelectFlag(s, current)
    ensures SelectFlag("trace", current) == SelectFlag("full", current) == Full
    ensures SelectFlag("debug", current).Levels? && SelectFlag("debug", current).levels
            == {LevelWarning, LevelInfo, LevelError, LevelFatal, LevelDebug}
    ensures SelectFlag("standard", current) == Standard
  {
  }

  /** setDebugConfig's choice of Debug.File for the file string `s`, and the
      error it returns; `open` is what os.OpenFile reports for the path `s`. */
  function SelectFile(s: string, open: Option<string>): (LogFile, Option<string>)
  {
    if s == "stderr" then (Stderr, None)
    else if s == "stdout" then (Stdout, None)
    else if open.None? then (OpenedFile(s), None)
    else (NoLogFile, open)
  }

  /** The standard streams never fail, whatever opening a file would report;
      any other string names a file that is opened at that path, and the
      selection fails exactly when opening it fails, leaving no file. */
  lemma SelectFileTable(s: string, open: Option<string>)
    ensures s == "stderr" ==> SelectFile(s, open) == (Stderr, None)
    ensures s == "stdout" ==> SelectFile(s, open) == (Stdout, None)
    ensures s != "stderr" && s != "stdout" ==>
      && SelectFile(s, open).1 == open
      && (open.None? <==> SelectFile(s, open).0 == OpenedFile(s))
      && (open.Some? <==> SelectFile(s, open).0 == NoLogFile)
  {
  }

  /** A meter's configuration after LoadConfig: the bounce time in milliseconds
      becomes a duration, nothing else changes. */
  function NormaliseMeter(m: MeterConfig): (r: MeterConfig)
    ensures r.(bounceTime := m.bounceTime) == m
    ensures Int64Min <= m.bounceTimeInt * Millisecond <= Int64Max ==> r.bounceTime == m.bounceTimeInt * Millisecond
  {
    m.(bounceTime := Scale(m.bounceTimeInt, Millisecond))
  }

  class Config {
    var flag: FlagConfig
    var dataCollectionInterval: int64
    var dataCollectionIntervalInt: int64
    var dataFile: string
    var backupInterval: int64
    var backupIntervalInt: int64
    var debug: DebugConfig
    var meter: map<string, MeterConfig>
    var webserver: WebserverConfig
    var mqtt: MQTTConfig

    /** NewConfig: the defaults. */
    constructor NewConfig()
      ensures flag == FlagConfig(false, "", "")
      ensures dataCollectionInterval == 0 && dataCollectionIntervalInt == 0
      ensures backupInterval == 0 && backupIntervalInt == 0
      ensures dataFile == "/opt/womat/data/measurement.yaml"
      ensures debug == DebugConfig(Levels({}), "standard", "stderr", NoLogFile)
      ensures meter == map[]
      ensures webserver == WebserverConfig("http://0.0.0.0:4000", map["version" := true, "currentdata" := true])
      ensures mqtt == MQTTConfig("tcp:127.0.0.1883")
    {
      flag := FlagConfig(false, "", "");
      dataCollectionInterval := 0;
      dataCollectionIntervalInt := 0;
      dataFile := "/opt/womat/data/measurement.yaml";
      backupInterval := 0;
      backupIntervalInt := 0;
      debug := DebugConfig(Levels({}), "standard", "stderr", NoLogFile);
      meter := map[];
      webserver := WebserverConfig("http://0.0.0.0:4000", map["version" := true, "currentdata" := true]);
      mqtt := MQTTConfig("tcp:127.0.0.1883");
    }

    /** setDebugConfig: Debug.Flag is selected by the flag string and
        Debug.File by the file string; `open` is what opening the file string
        as a path reports. The flag is set even when the file cannot be opened. */
    method SetDebugConfig(open: Option<string>) returns (err: Option<string>)
      modifies `debug
      ensures debug == old(debug).(flag := SelectFlag(old(debug).flagString, old(debug).flag),
                                   file := SelectFile(old(debug).fileString, open).0)
      ensures err == SelectFile(old(debug).fileString, open).1
    {
      if debug.flagString == "trace" || debug.flagString == "full" {
        debug := debug.(flag := Full);
      } else if debug.flagString == "debug" {
        debug := debug.(flag := Levels({LevelWarning, LevelInfo, LevelError, LevelFatal, LevelDebug}));
      } else if debug.flagString == "standard" {
        debug := debug.(flag := Standard);
      }

      err := None;
      if debug.fileString == "stderr" {
        debug := debug.(file := Stderr);
      } else if debug.fileString == "stdout" {
        debug := debug.(file := Stdout);
      } else if open.None? {
        debug := debug.(file := OpenedFile(debug.fileString));
      } else {
        debug := debug.(file := NoLogFile);
        err := open;
      }
    }

    /** The loop over the meters: every bounce time in milliseconds becomes
        a duration; only `meter` changes. */
    method NormaliseMeters()
      modifies `meter
      ensures meter.Keys == old(meter).Keys
      ensures forall name :: name in meter ==> meter[name] == NormaliseMeter(old(meter)[name])
    {
      var names := meter.Keys;
      while names != {}
        invariant names <= meter.Keys == old(meter).Keys
        invariant forall n :: n in meter && n !in names ==> meter[n] == NormaliseMeter(old(meter)[n])
        invariant forall n :: n in names ==> meter[n] == old(meter)[n]
        decreases names
      {
        var name :| name in names;
        meter := meter[name := NormaliseMeter(meter[name])];
        names := names - {name};
      }
    }

    /** LoadConfig: `read` is what reading and decoding the file gave, `open`
        what opening the debug file string as a path reports. A failed read
        returns before anything changes. Otherwise the decoded fields are
        taken, the command-line debug string overrides the file's when it is
        not empty, and the debug flag and file are selected. When the debug
        file cannot be opened LoadConfig returns that error, with the
        intervals and the meters as they were decoded; otherwise the
        intervals become durations in seconds and every meter's bounce time
        a duration in milliseconds. */
    method LoadConfig(read: ReadResult, open: Option<string>) returns (err: Option<LoadError>)
      modifies this
      ensures read.ReadFailed? ==>
        err == Some(ReadConfigError(old(flag.configFile), read.reason)) && unchanged(this)
      ensures read.ReadOk? ==>
        var d := read.decoded;
        var flagString := if old(flag.debug) != "" then old(flag.debug) else d.debugFlagString;
        var (file, fileErr) := SelectFile(d.debugFileString, open);
        && flag == old(flag)
        && dataFile == d.dataFile && webserver == d.webserver && mqtt == d.mqtt
        && dataCollectionIntervalInt == d.dataCollectionIntervalInt
        && backupIntervalInt == d.backupIntervalInt
        && debug == DebugConfig(SelectFlag(flagString, old(debug.flag)), flagString, d.debugFileString, file)
        && err == (if fileErr.Some? then Some(DebugFileError(debug, fileErr.value)) else None)
      ensures read.ReadOk? && err.Some? ==>
        && dataCollectionInterval == old(dataCollectionInterval)
        && backupInterval == old(backupInterval)
        && meter == read.decoded.meter
      ensures read.ReadOk? && err.None? ==>
        var d := read.decoded;
        && dataCollectionInterval == Scale(d.dataCollectionIntervalInt, Second)
        && backupInterval == Scale(d.backupIntervalInt, Second)
        && meter.Keys == d.meter.Keys
        && forall name :: name in meter ==> meter[name] == NormaliseMeter(d.meter[name])
    {
      if read.ReadFailed? {
        return Some(ReadConfigError(flag.configFile, read.reason));
      }
      var d := read.decoded;
      dataCollectionIntervalInt, dataFile, backupIntervalInt := d.dataCollectionIntervalInt, d.dataFile, d.backupIntervalInt;
      debug := debug.(flagString := d.debugFlagString, fileString := d.debugFileString);
      meter, webserver, mqtt := d.meter, d.webserver, d.mqtt;

      if flag.debug != "" {
        debug := debug.(flagString := flag.debug);
      }
      var fileErr := SetDebugConfig(open);
      if fileErr.Some? {
        return Some(DebugFileError(debug, fileErr.value));
      }

      dataCollectionInterval := Scale(dataCollectionIntervalInt, Second);
      backupInterval := Scale(backupIntervalInt, Second);

      NormaliseMeters();
      return None;
    }
  }
}
