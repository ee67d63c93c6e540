# s0counter in Dafny

This project models the core of s0counter. The program counts S0 pulses from
utility meters (electricity, water, gas) on Raspberry Pi GPIO lines. It
debounces noisy edges and turns the pulse history into a counter reading and
a rate (the "gauge"). It saves and restores the pulse counts in a data file
and parses connection strings and its configuration. The repository keeps
several revisions of this logic side by side. The model covers each of them
as the source has it:

- `meter.dfy` (module `Meter`) models `pkg/meter/meter.go`: a meter's pulse
  data and the event handler that counts rising edges.
- `rpi_port.dfy` (`RpiPort`) models `pkg/rpi/port.go`: the gate that turns
  kernel line events into rising/falling events for the installed handler.
- `rpi_windows.dfy` (`RpiWindows`) models `pkg/rpi/windows.go`: the emulated
  pin and its `TestPin` injection table.
- `edges.dfy` (`Edges`) holds the edge policies of
  `pkg/raspberry/raspberry.go` and the injection table shared by both
  `TestPin` methods, with an independent reference reading of that table.
- `debounce.dfy` (`Debounce`) is the per-line debounce state machine of
  `pkg/raspberry`, written as pure functions. The timer and the goroutine
  become two steps: a trigger, and an expiry when the window has elapsed.
- `raspberry_windows.dfy` (`RaspberryWindows`) and `raspberry_linux.dfy`
  (`RaspberryLinux`) model the two GPIO line implementations as classes whose
  methods follow those state-machine steps. The linux one evaluates the
  expiry on a value copy of the line.
- `measurement.dfy` (`Measurement`) models `pkg/app/measurement.go`:
  - `calcCounter`;
  - `calcGauge`, with its staleness correction;
  - `toFixed` rounding;
  - the save/load of the pulse counts, with the file content as a map.
- `global.dfy` (`Global`) and `s0counter.dfy` (`S0Counter`) model the earlier
  revision in `global/global.go` and `cmd/s0counter.go`:
  - its meter type;
  - `increaseImpulse`;
  - the save/load of meter readings.
- `connectionstring.dfy` (`ConnectionString`, `ConnectionStringExamples`)
  models `pkg/tools/connectionstring.go` and the examples of its test file.
- `config.dfy` (`Config`) models `pkg/app/config/config.go`: the defaults,
  the normalisation after decoding and the debug-flag selection.
- `app_version.dfy` (`AppVersion`) models `Version()` of `pkg/app/version.go`.
- `base.dfy` (`Base`) and `strings.dfy` (`Strings`) hold shared vocabulary:
  - `Option`;
  - Go's fixed-width integers and their wrap-around;
  - time units;
  - the Go library string functions the core calls (`strings.Fields`,
    `strings.Split`, `strings.TrimSpace`, `strconv.Atoi`).

Modelling conventions:

- Time is an integer number of nanoseconds; the zero `time.Time` is 0.
- `float64` quantities are `real`.
- `uint64` and `int64` increments and `time.Duration` products wrap
  explicitly at 64 bits.
- A Go callback is an opaque identity (`FuncId`), and a call to it is
  reported in a method's result.
- Every locked critical section is one method body.
- Clock readings, GPIO levels, file contents and library error results are
  parameters.

## Model

| member | source | states |
|---|---|---|
| Base.IncU64 | pkg/meter/meter.go:54 | `Tick++` on a uint64 adds one, and wraps to 0 after the largest value |
| Base.IncI64 | cmd/s0counter.go:261 | `S0.Counter++` on an int64 adds one, and wraps from the largest to the smallest value |
| Base.Wrap64 | pkg/app/config/config.go:106-107 | 64-bit truncation keeps every in-range value and stays congruent to the exact result modulo 2^64 |
| Base.Scale | pkg/app/config/config.go:110 | `time.Duration(n) * unit` is the exact product whenever that fits in 64 bits |
| Meter.StepEffect | pkg/meter/meter.go:47-57 | a rising edge adds one tick modulo 2^64, makes the old last-pulse time the penultimate one and the event time the last one; any other event changes nothing |
| Meter.RunTicks | pkg/meter/meter.go:49-55 | over any event sequence the ticks grow by the number of rising events, modulo 2^64 |
| Meter.RunTicksExact | pkg/meter/meter.go:49-55 | without overflow the final ticks are the initial ticks plus the rising events, so they never decrease |
| Meter.RunKeepsTimestampsOrdered | pkg/meter/meter.go:52-53 | events with non-decreasing timestamps keep the penultimate pulse at or before the last one |
| Meter.DeliveredRisingEdges | pkg/rpi/port.go:56-80 | a meter fed by a port with a handler counts exactly the kernel's rising edges; with no handler nothing is delivered |
| Meter.Meter.New | pkg/meter/meter.go:31-42 | a new meter has the given config, no line handler, zero ticks and zero timestamps |
| Meter.Meter.EventHandler | pkg/meter/meter.go:47-57 | only the pulse data changes, and it changes as one step of the event; config and line handler are untouched |
| RpiPort.Port.Handler | pkg/rpi/port.go:56-80 | there is a dispatch exactly when a handler is installed and the event is a rising or falling edge; it goes to the installed handler, carries the clock and not the kernel timestamp, and translates the edge kind both ways |
| RpiPort.Port.StartEventWatching | pkg/rpi/port.go:140-143 | installs the handler, passes on the reconfiguration result, and every later dispatch goes to that handler |
| RpiPort.Port.StopEventWatching | pkg/rpi/port.go:147-150 | removes the handler, passes on the reconfiguration result, and every later event is dropped |
| RpiPort.EdgeTypesDistinct | pkg/rpi/port.go:14-19 | RisingEdge and FallingEdge are the distinct values 0 and 1 |
| RpiWindows.PinEmu.constructor | pkg/rpi/windows.go:21-23 | a new emulated pin has the given pin number, no handler and the zero edge |
| RpiWindows.PinEmu.Watch | pkg/rpi/windows.go:25-30 | handler and edge are set together when the handler has type `func(*PinEmu)`; otherwise the pin is unchanged |
| RpiWindows.PinEmu.TestPin | pkg/rpi/windows.go:35-58 | the handler is called as often as the injection table says, and every call goes to the watched handler |
| RpiWindows.Rpi.NewPin | pkg/rpi/windows.go:21-23 | returns a fresh pin whose `Pin()` is the requested number, with no handler |
| Edges.TestPinCalls | pkg/raspberry/windows.go:59-82 | the injection table calls the handler at most twice |
| Edges.TestPinCallsCountsTransitions | pkg/rpi/windows.go:35-58 | the table calls the handler once per injected level transition the line watches (an injected both-edge is a falling and a rising transition) |
| Edges.TestPinNone | pkg/rpi/windows.go:37-38 | no call when the configured or the injected edge is EdgeNone, and at most one for an injected single edge |
| Debounce.ZeroWindow | pkg/raspberry/windows.go:107-111 | with a zero window every trigger calls the callback at once and records the level read |
| Debounce.AtMostOnePending | pkg/raspberry/windows.go:113-119 | with a window, an idle line becomes pending and a pending line drops the trigger without any change |
| Debounce.FiresReadsLevelAsEdge | pkg/raspberry/windows.go:131-140 | the falling and rising policies fire exactly when the level at expiry is the edge the line watches |
| Debounce.ExpireChangesLevelOnlyOnDispatch | pkg/raspberry/windows.go:122-141 | expiry clears the pending marker, changes nothing else but the remembered level, and changes that only by a dispatch, to the level read |
| Debounce.ExpireOnCopyKeepsLevel | pkg/raspberry/linux.go:107-128 | expiry on a copy only clears the stored line's pending marker |
| Debounce.BurstWhilePending | pkg/raspberry/windows.go:113-119 | any burst of triggers on a pending line changes nothing and schedules nothing |
| Debounce.BurstCollapses | pkg/raspberry/windows.go:113-141 | any non-empty burst on an idle line with a window schedules exactly one evaluation, calls nothing at once, and the expiry does not depend on the burst |
| Debounce.RisingBurstDispatchesOnce | pkg/raspberry/windows.go:113-141 | a low-high bounce inside a 50 ms window on a rising-edge line dispatches exactly once |
| Debounce.CopyLosesLastLevel | pkg/raspberry/linux.go:107-128 | two windows on a both-edge line that read high fire once when evaluated in place but twice when evaluated on a copy, and the stored line ends as it began |
| RaspberryWindows.Line.constructor | pkg/raspberry/windows.go:37 | a new line has the pin, no edge, no window, no callback and an idle timer |
| RaspberryWindows.Line.Read | pkg/raspberry/windows.go:97-99 | the emulated level is always low |
| RaspberryWindows.Line.Watch | pkg/raspberry/windows.go:41-45 | stores callback and edge and never fails; the debounce state is untouched |
| RaspberryWindows.Line.SetDebounceTimer | pkg/raspberry/windows.go:47-50 | sets the window and returns the same line |
| RaspberryWindows.Line.DebounceTimer | pkg/raspberry/windows.go:52-54 | returns the window |
| RaspberryWindows.Line.Pin | pkg/raspberry/windows.go:93-95 | returns the line's pin |
| RaspberryWindows.Line.Expire | pkg/raspberry/windows.go:121-142 | the stored line and the dispatch at expiry are those of the state machine's in-place expiry at the emulated level; a dispatch calls the line's callback and nothing is called otherwise |
| RaspberryWindows.Chip.Open | pkg/raspberry/windows.go:23-26 | starts with an empty table of lines |
| RaspberryWindows.Chip.NewPin | pkg/raspberry/windows.go:32-39 | fails exactly when the pin is already used, leaving the table alone; otherwise adds one fresh idle line for the pin and nothing else |
| RaspberryWindows.Chip.Handler | pkg/raspberry/windows.go:101-119 | an unknown pin changes nothing and calls nothing; the registered line reacts as the state machine's trigger says, with the level it reads, and its callback is called exactly when the reaction is immediate; no other line changes |
| RaspberryWindows.Chip.TestPin | pkg/raspberry/windows.go:59-82 | the handler runs as often as the injection table says, and the registered line ends as that many triggers at low level leave it |
| RaspberryWindows.LowLevelExpiry | pkg/raspberry/windows.go:97-99 | at the emulated level a rising-edge line never dispatches at expiry, a falling-edge line always does, and a both-edge line does exactly when it remembers high |
| RaspberryWindows.LowLevelStaysLow | pkg/raspberry/windows.go:107-141 | a line that remembers low keeps remembering low, so an emulated both-edge line never dispatches at expiry |
| RaspberryLinux.Line.constructor | pkg/raspberry/linux.go:43 | a new line has a fresh GPIO pin for the number, no edge, no window, no callback, an idle timer and a low level |
| RaspberryLinux.Line.Pin | pkg/raspberry/linux.go:83-85 | returns the GPIO pin's number |
| RaspberryLinux.Line.DebounceTimer | pkg/raspberry/linux.go:53-55 | returns the window |
| RaspberryLinux.Line.SetDebounceTimer | pkg/raspberry/linux.go:48-51 | sets the window and returns the same line |
| RaspberryLinux.Line.Watch | pkg/raspberry/linux.go:57-62 | stores callback and edge and returns what registering the watch reports |
| RaspberryLinux.Line.Expire | pkg/raspberry/linux.go:107-128 | the stored line and the dispatch at expiry are those of expiry on the copy taken at the trigger; a dispatch calls the callback the copy holds, even if the line has a different one since |
| RaspberryLinux.FirstLine | pkg/raspberry/linux.go:92-93 | the index of the first line on the pin, with no earlier line on it, or the length when there is none |
| RaspberryLinux.Chip.Open | pkg/raspberry/linux.go:28 | starts with an empty list of lines |
| RaspberryLinux.Chip.NewPin | pkg/raspberry/linux.go:36-46 | fails exactly when some line already has the pin, leaving the list alone; otherwise appends exactly one fresh idle line |
| RaspberryLinux.Chip.Handler | pkg/raspberry/linux.go:91-132 | with no line on the pin nothing changes and nothing is called; the first line on it reacts as the state machine's trigger says, and its callback is called exactly when the reaction is immediate; a scheduled evaluation carries a copy of the line; no other line changes |
| RaspberryLinux.StoredLevelSurvivesExpiry | pkg/raspberry/linux.go:107-128 | a whole debounce window on an idle line leaves the stored line exactly as before the trigger |
| RaspberryLinux.CopyDecides | pkg/raspberry/linux.go:111-127 | the dispatch at expiry is the policy applied with the copy's edge and remembered level, and only the three named edges dispatch |
| Measurement.Pow10 | pkg/app/measurement.go:193 | 10^p is positive, and at least 1 for p >= 0 |
| Measurement.Round | pkg/app/measurement.go:194 | `math.Round` is within one half, with halves away from zero |
| Measurement.RoundToSpec | pkg/app/measurement.go:192-195 | rounding to 1/P gives a whole number of 1/P within half a unit of the input, ties away from zero |
| Measurement.ToFixed | pkg/app/measurement.go:192-195 | `toFixed(x, p)` is a whole number of 10^-p within half of 10^-p of x, ties away from zero |
| Measurement.ToFixedMonotone | pkg/app/measurement.go:192-195 | rounding to a fixed number of places never reverses an order |
| Measurement.CalcCounter | pkg/app/measurement.go:187-190 | the counter reading times the counter constant is the tick count, without rounding, and it is not negative |
| Measurement.Rate | pkg/app/measurement.go:181 | for any non-zero interval and counter constant, of either sign, the unrounded rate times the interval in hours and the counter constant is the scale factor |
| Measurement.CalcGauge | pkg/app/measurement.go:170-183 | no finite value exactly when the effective interval or the counter constant is zero; otherwise the whole number of 10^-precision nearest to the rate for the effective interval, ties away from zero |
| Measurement.IntervalStretchedIffStale | pkg/app/measurement.go:171-178 | the interval is stretched exactly when the data is stale, and then to the time since the penultimate pulse |
| Measurement.IntervalBounds | pkg/app/measurement.go:171-178 | with ordered pulses before the clock, the effective interval is at least the time between the last two pulses and at least the time since the last one |
| Measurement.RateDecreasing | pkg/app/measurement.go:181 | a longer interval gives a strictly lower rate |
| Measurement.StaleGaugeDecays | pkg/app/measurement.go:173-182 | once stale and with no new pulse, the data stays stale, the unrounded rate strictly decreases as the clock advances and the gauge never increases |
| Measurement.ColdStartGauge | pkg/app/measurement.go:170-183 | a meter without pulses has the clock as its interval and a gauge exactly once the clock is past zero |
| Measurement.ScenarioA | pkg/app/measurement.go:170-190 | two pulses 3.6 s apart at 1000 pulses per unit read 0.002 and a gauge of 1.00 for the next 3.6 s |
| Measurement.SnapshotRecords | pkg/app/measurement.go:146-152 | saving writes exactly the registered names, each with its ticks, its counter reading and the time of its last pulse |
| Measurement.RestoreEffect | pkg/app/measurement.go:121-128 | loading keeps the names; a meter with a record takes its ticks and timestamp, one without is unchanged, the penultimate-pulse time never changes |
| Measurement.RestoreIgnoresUnknown | pkg/app/measurement.go:121-128 | records for names that are not registered have no effect |
| Measurement.SaveLoadRoundTrip | pkg/app/measurement.go:121-151 | loading what saving wrote leaves every meter's pulse data unchanged |
| Measurement.MissingFileResets | pkg/app/measurement.go:90-95 | a missing data file resets every meter's ticks and timestamp to zero |
| Measurement.RestoreIdempotent | pkg/app/measurement.go:121-128 | loading the same records twice is loading them once |
| Measurement.SaveMeasurements | pkg/app/measurement.go:143-165 | the map written is the snapshot of the meters' pulse data and configs |
| Measurement.LoadMeasurements | pkg/app/measurement.go:87-131 | a failure changes nothing and is returned; a missing file is created with zero records, which are then loaded; the pulse data becomes the restore of the records; config and line handler never change |
| Global.Meter.constructor | global/global.go:53-61 | a meter built from a config has zero reading, rate, timestamps and counters |
| S0Counter.MergeEffect | cmd/s0counter.go:202-211 | merging keeps the registered names; a name with a record takes it, one without keeps its values, unknown names are ignored |
| S0Counter.SaveLoadRoundTrip | cmd/s0counter.go:202-232 | loading what saving wrote leaves every reading and timestamp unchanged |
| S0Counter.MissingFileZeroes | cmd/s0counter.go:171-176 | a missing file resets every meter's reading and timestamp to zero |
| S0Counter.SaveMeasurements | cmd/s0counter.go:222-248 | one record per meter with its reading and the meter-level timestamp, not the time of the last pulse |
| S0Counter.LoadMeasurements | cmd/s0counter.go:169-214 | a failure changes nothing and is returned; a missing file is created with zero records, which are then loaded; readings and timestamps become the merge of the records; nothing else changes |
| S0Counter.IncreaseImpulse | cmd/s0counter.go:250-268 | no meter is updated exactly when no meter has the pin, and then nothing changes; otherwise one meter on that pin adds a pulse, its scale factor and the clock, and no other meter changes |
| ConnectionString.LastConnection | pkg/tools/connectionstring.go:58-66 | the connection is "" or one of the fields |
| ConnectionString.SerialOf | pkg/tools/connectionstring.go:19-29 | a serial field sets its port name and parity verbatim and its numbers as Atoi reads them: a baud rate below 100000, data bits 5 to 8, stop bits 1 or 2 |
| ConnectionString.GetConnectionDeviceIdTimeOut | pkg/tools/connectionstring.go:51-91 | the connection is the last connection field, and device id, time-out and retries are read from the map the fields are collected into |
| ConnectionString.ReadOptions | pkg/tools/connectionstring.go:76-88 | whatever order the map is visited in, the options are those of the three keys, the defaults otherwise |
| ConnectionString.GetPortSerialTimeOut | pkg/tools/connectionstring.go:10-49 | the serial settings are those of the last serial field, and the time-out is read from the collected map |
| ConnectionString.EntryOfPair | pkg/tools/connectionstring.go:68-71 | a `Key:Value` token contributes that key and value |
| ConnectionString.EntryOfWord | pkg/tools/connectionstring.go:72-73 | a token without a colon contributes itself with the empty value |
| ConnectionString.CollectLastWins | pkg/tools/connectionstring.go:67-74 | for a repeated key the last token with that key wins |
| ConnectionString.CollectAbsent | pkg/tools/connectionstring.go:67-74 | a key no token has is not in the map |
| ConnectionString.LastConnectionWins | pkg/tools/connectionstring.go:58-66 | the last field that names a connection is the connection |
| ConnectionString.LastConnectionNone | pkg/tools/connectionstring.go:52-66 | with no connection field the connection stays "" |
| ConnectionString.LastSerialWins | pkg/tools/connectionstring.go:16-29 | the last serial field decides the serial settings |
| ConnectionString.LastSerialNone | pkg/tools/connectionstring.go:16-29 | with no serial field the settings stay zero or empty |
| ConnectionString.DeviceIdRange | pkg/tools/connectionstring.go:79-82 | the device id is always in 1..247; it is the value exactly when that lies in range, else 1, also for a missing or non-numeric value |
| ConnectionString.TimeOutValue | pkg/tools/connectionstring.go:76-84 | without the key one second; a non-numeric or empty value 0, unless its leading digits are worth 2^64 or more: then -1 ms, or 0 with a minus sign, because the milliseconds wrap at 64 bits; otherwise the value in milliseconds |
| ConnectionString.OverflowingTimeout | pkg/tools/connectionstring.go:76-86 | `Timeout:18446744073709551616x` gives a time-out of -1 ms, and `MaxRetries` of the same text the largest int64 |
| ConnectionString.CollectBareToken | pkg/tools/connectionstring.go:72-73 | a trailing bare token leaves the empty value under its key |
| ConnectionString.IPv4EndpointAccepted | pkg/tools/connectionstring.go:61 | every endpoint of four 1-3 digit groups and a 1-5 digit port is a connection |
| ConnectionString.SerialFieldAccepted | pkg/tools/connectionstring.go:19-20 | a field written from valid parts is recognised and splits back into those parts |
| ConnectionString.SerialFieldRead | pkg/tools/connectionstring.go:19-28 | reading a field written from valid parts gives back the parts, the numbers as their decimal values |
| ConnectionString.ConnectionStart | pkg/tools/connectionstring.go:61-64 | a connection field starts with a digit or with the `h` of `http` |
| ConnectionString.SerialHasComma | pkg/tools/connectionstring.go:19 | a serial field holds a comma |
| ConnectionStringExamples.ExampleTcp | pkg/tools/connectionstring_test.go:26 | the TCP example gives "192.168.65.197:502", device 2, 100 ms and 2 retries |
| ConnectionStringExamples.ExampleHttp | pkg/tools/connectionstring_test.go:27 | the HTTP example gives "http://fritz.box", device 1, 500 ms and 0 retries |
| ConnectionStringExamples.ExampleHttps | pkg/tools/connectionstring_test.go:28 | the HTTPS example gives the whole URL, device 1, 500 ms and 1 retry |
| ConnectionStringExamples.ExampleRtu | pkg/tools/connectionstring_test.go:49 | the RTU example gives com3, 9600, 8, "O", 1 and 5000 ms |
| ConnectionStringExamples.ExampleTty | pkg/tools/connectionstring_test.go:50 | the ttyS0 example gives /dev/ttyS0, 19200, 8, "N", 2 and 1000 ms |
| Config.SelectFlagTable | pkg/app/config/config.go:134-141 | "trace" and "full" select Full, "debug" the five levels, "standard" Standard, whatever the flag was; any other string keeps it; selecting twice is selecting once |
| Config.SelectFileTable | pkg/app/config/config.go:143-152 | "stderr" and "stdout" select the standard streams and never fail; any other string selects the file at that path and fails exactly when opening it fails, then leaving no file |
| Config.NormaliseMeter | pkg/app/config/config.go:110-111 | only the bounce time changes, to the millisecond value as a duration |
| Config.Config.NewConfig | pkg/app/config/config.go:70-92 | the defaults: data file, debug file and level, URL, both webservices on, MQTT connection, no meters, zero intervals |
| Config.Config.SetDebugConfig | pkg/app/config/config.go:132-155 | only the debug flag and file change, to the selections for the flag and file strings; the error is the one opening the file gives, none for the standard streams |
| Config.Config.NormaliseMeters | pkg/app/config/config.go:109-112 | the meter names are kept and every meter is normalised |
| Config.Config.LoadConfig | pkg/app/config/config.go:94-115 | a failed read returns an error naming the file before anything changes; otherwise the decoded fields are taken, a non-empty command-line debug string overrides the file's, and flag and file are selected; a debug file that cannot be opened returns that error, carrying the debug settings as they then are, with intervals and meters left as decoded; otherwise intervals become durations in seconds and bounce times durations in milliseconds |
| AppVersion.VersionOf | pkg/app/version.go:39-41 | the version string has no white space at either end |
| AppVersion.VersionPart | pkg/app/version.go:40 | the text after " V" is the version up to its first '+', or the whole version when it has none |
| AppVersion.VersionCut | pkg/app/version.go:40 | a build suffix after '+' never reaches the result |
| AppVersion.VersionExact | pkg/app/version.go:40 | with no white space at the ends the result is exactly module, " V" and release |
| AppVersion.ShippedVersion | pkg/app/version.go:20-41 | with the shipped constants the result is "s0counter V3.0.2" |
| Strings.Fields | pkg/tools/connectionstring.go:14 | every field is non-empty and holds no white space |
| Strings.FieldsUnwords | pkg/tools/connectionstring.go:14 | the fields of words joined by single spaces are those words |
| Strings.Split | pkg/tools/connectionstring.go:32 | splitting gives at least one part |
| Strings.SplitPartsLackSeparator | pkg/tools/connectionstring.go:32 | no part holds the separator |
| Strings.JoinSplit | pkg/tools/connectionstring.go:32 | joining the parts with the separator gives back the string |
| Strings.SplitJoin | pkg/tools/connectionstring.go:20 | splitting parts joined by a separator they lack gives back the parts |
| Strings.SplitHead | pkg/app/version.go:40 | the first part is the prefix before the first separator, or the whole string |
| Strings.TrimSpace | pkg/app/version.go:40 | the result has no white space at either end |
| Strings.TrimSpaceMiddle | pkg/app/version.go:40 | the result is the slice after the leading white space |
| Strings.TrimSpaceCut | pkg/app/version.go:40 | everything cut off is white space |
| Strings.TrimSpaceUntrimmed | pkg/app/version.go:40 | a string without white space at its ends is unchanged |
| Strings.TrimSpaceIdempotent | pkg/app/version.go:40 | trimming twice is trimming once |
| Strings.Atoi | pkg/tools/connectionstring.go:77 | a string that is not an integer gives 0, unless its leading digits after the sign are worth 2^64 or more: then it saturates at the bound of its sign, whatever follows |
| Strings.AtoiSaturates | pkg/tools/connectionstring.go:77 | any prefix of digits after the sign worth 2^64 or more makes Atoi the largest int64, or the smallest with a minus sign |
| Strings.AtoiOverflowThenLetter | pkg/tools/connectionstring.go:77 | "18446744073709551616x" reads as the largest int64, and "-18446744073709551616x" as the smallest |
| Strings.AtoiDigits | pkg/tools/connectionstring.go:22-27 | a digit string in range gives its decimal value |
| Strings.AtoiItoa | pkg/tools/connectionstring.go:77 | Atoi reads back the decimal text of every non-negative int64 |
| Strings.Clamp64 | pkg/tools/connectionstring.go:77 | an out-of-range value saturates at the int64 bounds, as `strconv.Atoi` does for an integer out of range |

## Left out

- I/O: YAML encoding, file reads and writes, and the existence check. The
  data file is a value that is missing, failed or holds the decoded records.
  A failed write of the zero records and a failed read are both the failed
  case.
- The MQTT client, the periodic `calcGauge`/`publish`, `calcFlow` and
  `backupMeasurements` loops, the web handlers and the command-line wiring.
  These are network, ticker and main-program code.
- Concurrency: mutexes, goroutines and the real timers. Each locked section
  is one method. The debounce goroutine is the separate expiry step, and an
  armed timer is the `pending` marker.
- Floating point: `float64` is `real`, so a zero interval in `calcGauge` is
  no value (None) instead of IEEE infinity or NaN. `math.Pow` is exact.
- The saturation of `time.Sub` and `time.Since` at about 292 years:
  timestamps are unbounded integers.
- `calcGauge` reads the clock twice (lines 176 and 177 of
  `pkg/app/measurement.go`). The model uses one reading `now` for both.
- The linux expiry reads the pin twice, once to decide and once to remember.
  The model reads one level, which only matters for what the lost copy
  remembers.
- Calls through a nil callback, which panic in Go.
- Opening the log file in `setDebugConfig` (lines 149-151 of
  `pkg/app/config/config.go`): the outcome of `os.OpenFile` is a parameter,
  and an opened file is named by its path. A failed open leaves a typed nil
  `*os.File` in Go, which the model writes as no file.
- Opening the GPIO library in linux `Open`, `Close`, `Unwatch`, `Input`,
  `PullUp` and `PullDown`, and linux `TestPin`: these are library calls or
  empty methods with nothing to state.
- `Read` on linux: the level it reads from the hardware is a parameter of
  the handler.
- `NewPort`, the `Reconfigure`-based setters, `Close` and `Info` of
  `pkg/rpi/port.go`: these are thin wrappers over the GPIO library.
- The package-level `lines` table of `pkg/raspberry` is a field of the `Chip`
  that `Open` returns. Every `Open` starts a new table, as the source's
  reassignment does.
- The regular expressions of `pkg/tools/connectionstring.go` are written out
  as predicates (IsIPv4Endpoint, IsHttpUrl, IsSerialField). `\d` matches
  ASCII digits only.
- ConnectionStringExamples: each test string is given as its words joined by
  single spaces, which is exactly how the test strings are written.
- GetConnectionDeviceIdTimeOut returns the device id as an `int` in 1..247,
  where Go uses a `byte`. GetPortSerialTimeOut returns the `uint` results as
  `nat`. The values are the same because the patterns bound them.
- Measurement.SaveMeasurements, Measurement.Snapshot: require a positive
  counter constant for every meter, as a meter's configuration is meant to
  have. A zero constant divides by zero in the source, which in floating
  point gives an infinite or NaN counter. A negative constant gives a
  negative reading, which the model does not cover.
- Measurement.CalcCounter: requires a positive counter constant, for the
  same reasons: zero divides by zero, and a negative constant gives a
  negative reading outside the configurations the model covers.
- Measurement.LoadMeasurements, S0Counter.LoadMeasurements: require every
  name to map to its own meter object, as the program builds them.
- Config.LoadConfig: a decoding error after a partial decode leaves the
  fields decoded so far in the source. The model leaves the configuration
  unchanged.
- RpiWindows.PinEmu.Pin: carries no contract of its own; `Rpi.NewPin`
  states its value.
- S0Counter.IncreaseImpulse: the meter chosen is whichever Go's map order
  happens to visit first. The model names the chosen meter in a ghost result
  and proves that it has the pin, not which of several such meters it is.
- The first meter model (`S0.Counter`, `LastCounter`) of `global/global.go`
  is only what `increaseImpulse` and the old save/load need. The other
  declarations there are configuration types with no behaviour.

The remembered level of a debounced line changes only when the callback is
called (`pkg/raspberry/windows.go:126-140`), not at every evaluation. The
model follows the code.
