/** pkg/tools/connectionstring.go: the two parsers of connection strings. A
    connection string is split into white-space separated fields; fields of
    a fixed shape name the connection, and every field also goes into a map
    as a `Key:Value` pair, from which the numeric options are read. The
    regular expressions of the source are written out as predicates. */
module ConnectionString {
  import opened Base
  import opened Strings

  predicate HasLength(s: string, lo: nat, hi: nat) {
    lo <= |s| <= hi
  }

  /** `^[\d]{1,3}\.[\d]{1,3}\.[\d]{1,3}\.[\d]{1,3}:[\d]{1,5}$`: four groups of
      one to three ASCII digits separated by dots, a colon, and one to five
      digits. */
  predicate IsIPv4Endpoint(f: string) {
    var parts := Split(f, ':');
    && |parts| == 2
    && var host := Split(parts[0], '.');
    && |host| == 4
    && (forall i :: 0 <= i < 4 ==> HasLength(host[i], 1, 3) && IsDigits(host[i]))
    && HasLength(parts[1], 1, 5) && IsDigits(parts[1])
  }

  /** `^https?://.*$`: the scheme `http` or `https`, then `://`, then
      anything without a line break. */
  predicate IsHttpUrl(f: string) {
    || (|f| >= 7 && f[..7] == "http://" && '\n' !in f[7..])
    || (|f| >= 8 && f[..8] == "https://" && '\n' !in f[8..])
  }

  predicate IsConnection(f: string) {
    IsIPv4Endpoint(f) || IsHttpUrl(f)
  }

  predicate IsPortChar(c: char) {
    ('0' <= c <= '9') || ('A' <= c <= 'Z') || ('a' <= c <= 'z') || c == ':' || c == '/' || c == '.' || c == '-'
  }

  /** `^[0-9A-Za-z:/.\-]*,[0-9]{1,5},[5678],[NEO],[12]$`: a port name, a baud
      rate of one to five digits, the data bits, the parity and the stop
      bits, separated by commas. */
  predicate IsSerialField(f: string) {
    var p := Split(f, ',');
    && |p| == 5
    && (forall i :: 0 <= i < |p[0]| ==> IsPortChar(p[0][i]))
    && HasLength(p[1], 1, 5) && IsDigits(p[1])
    && p[2] in ["5", "6", "7", "8"]
    && p[3] in ["N", "E", "O"]
    && p[4] in ["1", "2"]
  }

  /** The map entry a field contributes: `Key:Value` gives (Key, Value); a
      field with no colon, or with more than one, gives (the part before the
      first colon, ""). */
  function Entry(field: string): (e: (string, string))
  {
    var parts := Split(field, ':');
    if |parts| == 2 then (parts[0], parts[1]) else (parts[0], "")
  }

  /** The map the fields are collected into, field by field. */
  function Collect(fields: seq<string>): (m: map<string, string>)
    decreases |fields|
  {
    if fields == [] then map[]
    else
      var e := Entry(fields[|fields| - 1]);
      Collect(fields[..|fields| - 1])[e.0 := e.1]
  }

  /** The last field that names a connection, or "" when none does. */
  function LastConnection(fields: seq<string>): (c: string)
    ensures c == "" || c in fields
    decreases |fields|
  {
    if fields == [] then ""
    else if IsConnection(fields[|fields| - 1]) then fields[|fields| - 1]
    else LastConnection(fields[..|fields| - 1])
  }

  datatype Serial = Serial(portName: string, baudRate: nat, dataBits: nat, parity: string, stopBit: nat)

  /** What a serial field sets: its five comma-separated parts, the numbers
      read with Atoi. */
  function SerialOf(f: string): (s: Serial)
    requires IsSerialField(f)
    ensures var p := Split(f, ',');
      && s.portName == p[0] && s.parity == p[3]
      && s.baudRate < 100000 && s.baudRate == Atoi(p[1])
      && s.dataBits in {5, 6, 7, 8} && s.dataBits == Atoi(p[2])
      && s.stopBit in {1, 2} && s.stopBit == Atoi(p[4])
  {
    var p := Split(f, ',');
    DigitsValueBelow(p[1], 5);
    assert Ten(5) == 100000;
    AtoiDigits(p[1]);
    AtoiDigits(p[2]);
    AtoiDigits(p[4]);
    Serial(p[0], DigitsValue(p[1]), DigitsValue(p[2]), p[3], DigitsValue(p[4]))
  }

  const NoSerial := Serial("", 0, 0, "", 0)

  /** The settings of the last serial field, or none. */
  function LastSerial(fields: seq<string>): (s: Serial)
    decreases |fields|
  {
    if fields == [] then NoSerial
    else if IsSerialField(fields[|fields| - 1]) then SerialOf(fields[|fields| - 1])
    else LastSerial(fields[..|fields| - 1])
  }

  /** `i, _ := strconv.Atoi(m[key])` for a key of the map. */
  function NumberAt(m: map<string, string>, key: string): int64
    requires key in m
  {
    Atoi(m[key])
  }

  /** DeviceId: the `DeviceId` value when it lies in 1..247, else 1. */
  function DeviceIdOf(m: map<string, string>): (d: int)
  {
    if "DeviceId" in m && 0 < NumberAt(m, "DeviceId") < 248 then NumberAt(m, "DeviceId") else 1
  }

  /** TimeOut: the `Timeout` value as milliseconds (wrapping as Go's Duration
      product does), else one second. */
  function TimeOutOf(m: map<string, string>): (t: int64)
  {
    if "Timeout" in m then Scale(NumberAt(m, "Timeout"), Millisecond) else Second
  }

  /** MaxRetries: the `MaxRetries` value, else 0. */
  function MaxRetriesOf(m: map<string, string>): (r: int64)
  {
    if "MaxRetries" in m then NumberAt(m, "MaxRetries") else 0
  }

  /** GetConnectionDeviceIdTimeOut: the last connection field, and the device
      id, time-out and retry count read from the collected map. */
  method GetConnectionDeviceIdTimeOut(config: string)
    returns (connection: string, deviceId: int, timeOut: int64, maxRetries: int64)
    ensures connection == LastConnection(Fields(config))
    ensures deviceId == DeviceIdOf(Collect(Fields(config)))
    ensures timeOut == TimeOutOf(Collect(Fields(config)))
    ensures maxRetries == MaxRetriesOf(Collect(Fields(config)))
  {
    connection := "";
    var m: map<string, string> := map[];
    var fields := Fields(config);
    var n := 0;
    while n < |fields|
      invariant 0 <= n <= |fields|
      invariant m == Collect(fields[..n])
      invariant connection == LastConnection(fields[..n])
    {
      var field := fields[n];
      assert fields[..n + 1][..n] == fields[..n];
      if IsIPv4Endpoint(field) {
        connection := field;
      }
      if IsHttpUrl(field) {
        connection := field;
      }
      var parts := Split(field, ':');
      n := n + 1;
      if |parts| == 2 {
        m := m[parts[0] := parts[1]];
        continue;
      }
      m := m[parts[0] := ""];
    }
    assert fields[..n] == fields;

    deviceId, timeOut, maxRetries := ReadOptions(m);
  }

  /** The loop over the collected map: each key is looked at once, in any
      order, and only the three option keys have an effect. */
  method ReadOptions(m: map<string, string>) returns (deviceId: int, timeOut: int64, maxRetries: int64)
    ensures deviceId == DeviceIdOf(m) && timeOut == TimeOutOf(m) && maxRetries == MaxRetriesOf(m)
  {
    deviceId := 1;
    timeOut := Second;
    maxRetries := 0;
    var keys := m.Keys;
    while keys != {}
      invariant keys <= m.Keys
      invariant deviceId == (if "DeviceId" in m && "DeviceId" !in keys then DeviceIdOf(m) else 1)
      invariant timeOut == (if "Timeout" in m && "Timeout" !in keys then TimeOutOf(m) else Second)
      invariant maxRetries == (if "MaxRetries" in m && "MaxRetries" !in keys then MaxRetriesOf(m) else 0)
      decreases keys
    {
      var p :| p in keys;
      var i := Atoi(m[p]);
      if p == "DeviceId" {
        if i > 0 && i < 248 {
          deviceId := i;
        }
      } else if p == "Timeout" {
        timeOut := Scale(i, Millisecond);
      } else if p == "MaxRetries" {
        maxRetries := i;
      }
      keys := keys - {p};
    }
  }

  /** GetPortSerialTimeOut: the settings of the last serial field, and the
      time-out read from the collected map. */
  method GetPortSerialTimeOut(config: string)
    returns (portName: string, baudRate: nat, dataBits: nat, parity: string, stopBit: nat, timeOut: int64)
    ensures Serial(portName, baudRate, dataBits, parity, stopBit) == LastSerial(Fields(config))
    ensures timeOut == TimeOutOf(Collect(Fields(config)))
  {
    timeOut := Second;
    portName, baudRate, dataBits, parity, stopBit := "", 0, 0, "", 0;
    var m: map<string, string> := map[];
    var fields := Fields(config);
    var n := 0;
    while n < |fields|
      invariant 0 <= n <= |fields|
      invariant m == Collect(fields[..n])
      invariant Serial(portName, baudRate, dataBits, parity, stopBit) == LastSerial(fields[..n])
    {
      var field := fields[n];
      assert fields[..n + 1][..n] == fields[..n];
      if IsSerialField(field) {
        var f := Split(field, ',');
        ghost var s := SerialOf(field);
        portName := f[0];
        baudRate := Atoi(f[1]);
        dataBits := Atoi(f[2]);
        parity := f[3];
        stopBit := Atoi(f[4]);
      }
      var parts := Split(field, ':');
      n := n + 1;
      if |parts| == 2 {
        m := m[parts[0] := parts[1]];
        continue;
      }
      m := m[parts[0] := ""];
    }
    assert fields[..n] == fields;

    var keys := m.Keys;
    while keys != {}
      invariant keys <= m.Keys
      invariant timeOut == (if "Timeout" in m && "Timeout" !in keys then TimeOutOf(m) else Second)
      decreases keys
    {
      var p :| p in keys;
      var i := Atoi(m[p]);
      if p == "Timeout" {
        timeOut := Scale(i, Millisecond);
      }
      keys := keys - {p};
    }
  }


  /** A `Key:Value` token with neither part holding a colon contributes
      (Key, Value). */
  lemma EntryOfPair(key: string, value: string)
    requires ':' !in key && ':' !in value
    ensures Entry(key + ":" + value) == (key, value)
  {
    SplitCons(key, value, ':');
    SplitWhole(value, ':');
  }

  /** A field without a colon contributes (field, ""). */
  lemma EntryOfWord(field: string)
    requires ':' !in field
    ensures Entry(field) == (field, "")
  {
    SplitWhole(field, ':');
  }

  /** Last token wins: a key is in the collected map exactly when some field
      has it, and its value is the one of the last field with that key. */
  lemma {:induction false} CollectLastWins(fields: seq<string>, j: nat, key: string)
    requires j < |fields| && Entry(fields[j]).0 == key
    requires forall i :: j < i < |fields| ==> Entry(fields[i]).0 != key
    ensures key in Collect(fields) && Collect(fields)[key] == Entry(fields[j]).1
    decreases |fields|
  {
    if j < |fields| - 1 {
      CollectLastWins(fields[..|fields| - 1], j, key);
    }
  }

  lemma {:induction false} CollectAbsent(fields: seq<string>, key: string)
    requires forall i :: 0 <= i < |fields| ==> Entry(fields[i]).0 != key
    ensures key !in Collect(fields)
    decreases |fields|
  {
    if fields != [] {
      CollectAbsent(fields[..|fields| - 1], key);
    }
  }

  /** The connection is the last field that names one, or "" when none does. */
  lemma {:induction false} LastConnectionWins(fields: seq<string>, j: nat)
    requires j < |fields| && IsConnection(fields[j])
    requires forall i :: j < i < |fields| ==> !IsConnection(fields[i])
    ensures LastConnection(fields) == fields[j]
    decreases |fields|
  {
    if j < |fields| - 1 {
      LastConnectionWins(fields[..|fields| - 1], j);
    }
  }

  lemma {:induction false} LastConnectionNone(fields: seq<string>)
    requires forall i :: 0 <= i < |fields| ==> !IsConnection(fields[i])
    ensures LastConnection(fields) == ""
    decreases |fields|
  {
    if fields != [] {
      LastConnectionNone(fields[..|fields| - 1]);
    }
  }

  /** The same two laws for the serial settings. */
  lemma {:induction false} LastSerialWins(fields: seq<string>, j: nat)
    requires j < |fields| && IsSerialField(fields[j])
    requires forall i :: j < i < |fields| ==> !IsSerialField(fields[i])
    ensures LastSerial(fields) == SerialOf(fields[j])
    decreases |fields|
  {
    if j < |fields| - 1 {
      LastSerialWins(fields[..|fields| - 1], j);
    }
  }

  lemma {:induction false} LastSerialNone(fields: seq<string>)
    requires forall i :: 0 <= i < |fields| ==> !IsSerialField(fields[i])
    ensures LastSerial(fields) == NoSerial
    decreases |fields|
  {
    if fields != [] {
      LastSerialNone(fields[..|fields| - 1]);
    }
  }

  /** The device id is always in 1..247; a value outside that range, a
      missing key and a non-numeric value all leave the default 1. */
  lemma DeviceIdRange(m: map<string, string>)
    ensures 1 <= DeviceIdOf(m) <= 247
    ensures "DeviceId" in m && 0 < Atoi(m["DeviceId"]) < 248 ==> DeviceIdOf(m) == Atoi(m["DeviceId"])
    ensures "DeviceId" !in m || !IsInteger(m["DeviceId"]) ==> DeviceIdOf(m) == 1
    ensures "DeviceId" in m && !(0 < Atoi(m["DeviceId"]) < 248) ==> DeviceIdOf(m) == 1
  {
  }

  /** The time-out is the `Timeout` value in milliseconds; a non-numeric
      value, including the empty value of a bare `Timeout` token, gives 0;
      without the key it is one second. Leading digits worth 2^64 or more
      saturate Atoi, and the 64-bit product then wraps: to -1 ms for the
      largest int64 and to 0 for the smallest. */
  lemma TimeOutValue(m: map<string, string>)
    ensures "Timeout" !in m ==> TimeOutOf(m) == Second
    ensures "Timeout" in m && !IsInteger(m["Timeout"]) && !Overflows(m["Timeout"]) ==> TimeOutOf(m) == 0
    ensures "Timeout" in m && Overflows(m["Timeout"]) ==>
      TimeOutOf(m) == (if m["Timeout"][0] == '-' then 0 else -Millisecond)
    ensures "Timeout" in m && IsInteger(m["Timeout"]) && 0 <= Atoi(m["Timeout"]) <= 9_223_372_036_854
      ==> TimeOutOf(m) == Atoi(m["Timeout"]) * Millisecond
  {
    assert Wrap64(Int64Max * Millisecond) == -Millisecond;
    assert Wrap64(Int64Min * Millisecond) == 0;
  }

  /** A `Timeout` of 2^64 followed by a letter is a time-out of -1 ms, and
      MaxRetries of the same text is the largest int64. */
  lemma OverflowingTimeout()
    ensures TimeOutOf(map["Timeout" := "18446744073709551616x"]) == -Millisecond
    ensures MaxRetriesOf(map["MaxRetries" := "18446744073709551616x"]) == Int64Max
  {
    AtoiOverflowThenLetter();
    TimeOutValue(map["Timeout" := "18446744073709551616x"]);
  }

  /** A bare token, without a colon, after every other token with that key
      leaves the empty value under its key. */
  lemma CollectBareToken(fields: seq<string>, j: nat, key: string)
    requires j < |fields| && fields[j] == key && ':' !in key
    requires forall i :: j < i < |fields| ==> Entry(fields[i]).0 != key
    ensures key in Collect(fields) && Collect(fields)[key] == ""
  {
    EntryOfWord(key);
    CollectLastWins(fields, j, key);
  }

  predicate IsDigitGroup(s: string, lo: nat, hi: nat) {
    HasLength(s, lo, hi) && IsDigits(s)
  }

  lemma DigitsLack(s: string, ch: char)
    requires IsDigits(s) && !IsDigit(ch)
    ensures ch !in s
  {
  }

  lemma SplitFour(a: string, b: string, c: string, d: string, sep: char)
    requires sep !in a && sep !in b && sep !in c && sep !in d
    ensures Split(a + [sep] + (b + [sep] + (c + [sep] + d)), sep) == [a, b, c, d]
  {
    SplitWhole(d, sep);
    SplitCons(c, d, sep);
    SplitCons(b, c + [sep] + d, sep);
    SplitCons(a, b + [sep] + (c + [sep] + d), sep);
  }

  /** Every endpoint of four groups of one to three digits and a port of one
      to five digits is recognised as a connection. */
  lemma IPv4EndpointAccepted(a: string, b: string, c: string, d: string, port: string)
    requires IsDigitGroup(a, 1, 3) && IsDigitGroup(b, 1, 3) && IsDigitGroup(c, 1, 3) && IsDigitGroup(d, 1, 3)
    requires IsDigitGroup(port, 1, 5)
    ensures IsIPv4Endpoint(a + ['.'] + (b + ['.'] + (c + ['.'] + d)) + [':'] + port)
  {
    DigitsLack(a, '.'); DigitsLack(b, '.'); DigitsLack(c, '.'); DigitsLack(d, '.');
    DigitsLack(a, ':'); DigitsLack(b, ':'); DigitsLack(c, ':'); DigitsLack(d, ':'); DigitsLack(port, ':');
    var host := a + ['.'] + (b + ['.'] + (c + ['.'] + d));
    assert ':' !in host;
    SplitCons(host, port, ':');
    SplitWhole(port, ':');
    SplitFour(a, b, c, d, '.');
  }

  lemma SplitFive(a: string, b: string, c: string, d: string, e: string, sep: char)
    requires sep !in a && sep !in b && sep !in c && sep !in d && sep !in e
    ensures Split(a + [sep] + (b + [sep] + (c + [sep] + (d + [sep] + e))), sep) == [a, b, c, d, e]
  {
    SplitFour(b, c, d, e, sep);
    SplitCons(a, b + [sep] + (c + [sep] + (d + [sep] + e)), sep);
  }

  lemma PortNameLacksComma(port: string)
    requires forall i :: 0 <= i < |port| ==> IsPortChar(port[i])
    ensures ',' !in port
  {
  }

  predicate SerialParts(port: string, baud: string, bits: string, parity: string, stop: string) {
    && (forall i :: 0 <= i < |port| ==> IsPortChar(port[i]))
    && IsDigitGroup(baud, 1, 5)
    && bits in ["5", "6", "7", "8"] && parity in ["N", "E", "O"] && stop in ["1", "2"]
  }

  /** A serial field written from its five parts is recognised. */
  lemma SerialFieldAccepted(port: string, baud: string, bits: string, parity: string, stop: string)
    requires SerialParts(port, baud, bits, parity, stop)
    ensures Split(port + [','] + (baud + [','] + (bits + [','] + (parity + [','] + stop))), ',')
      == [port, baud, bits, parity, stop]
    ensures IsSerialField(port + [','] + (baud + [','] + (bits + [','] + (parity + [','] + stop))))
  {
    PortNameLacksComma(port);
    DigitsLack(baud, ',');
    assert ',' !in bits && ',' !in parity && ',' !in stop;
    SplitFive(port, baud, bits, parity, stop, ',');
  }

  /** Reading a serial field written from its five parts gives back the
      parts, the numbers as their decimal values. */
  lemma SerialFieldRead(port: string, baud: string, bits: string, parity: string, stop: string)
    requires SerialParts(port, baud, bits, parity, stop)
    ensures var f := port + [','] + (baud + [','] + (bits + [','] + (parity + [','] + stop)));
      && IsSerialField(f)
      && SerialOf(f) == Serial(port, DigitsValue(baud), DigitsValue(bits), parity, DigitsValue(stop))
  {
    SerialFieldAccepted(port, baud, bits, parity, stop);
  }

  /** A connection field starts with a digit or with the `h` of `http`. */
  lemma ConnectionStart(f: string)
    requires IsConnection(f)
    ensures |f| > 0 && (IsDigit(f[0]) || f[0] == 'h')
  {
    if !IsHttpUrl(f) {
      var parts := Split(f, ':');
      var host := Split(parts[0], '.');
      JoinSplit(f, ':');
      JoinSplit(parts[0], '.');
      assert IsDigit(host[0][0]);
    }
  }

  /** A serial field holds a comma. */
  lemma SerialHasComma(f: string)
    requires IsSerialField(f)
    ensures ',' in f
  {
    if ',' !in f {
      SplitWhole(f, ',');
    }
  }
}

/** The examples of pkg/tools/connectionstring_test.go, each configuration
    written as its words separated by single spaces. */
module ConnectionStringExamples {
  import opened Base
  import opened Strings
  import opened ConnectionString

  lemma AtoiOf(n: nat, s: string)
    requires n <= Int64Max && Itoa(n) == s
    ensures Atoi(s) == n
  {
    AtoiItoa(n);
  }

  lemma NotConnection(f: string)
    requires |f| > 0 && !IsDigit(f[0]) && f[0] != 'h'
    ensures !IsConnection(f)
  {
    if IsConnection(f) {
      ConnectionStart(f);
    }
  }

  lemma HttpAccepted(rest: string)
    requires '\n' !in rest
    ensures IsHttpUrl("http://" + rest) && IsHttpUrl("https://" + rest)
  {
    assert ("http://" + rest)[..7] == "http://" && ("http://" + rest)[7..] == rest;
    assert ("https://" + rest)[..8] == "https://" && ("https://" + rest)[8..] == rest;
  }

  // "TCP 192.168.65.197:502 DeviceId:2 Timeout:100 MaxRetries:2"
  const TcpWords := ["TCP", "192.168.65.197:502", "DeviceId:2", "Timeout:100", "MaxRetries:2"]

  predicate TcpShape(f: seq<string>) {
    && |f| == 5 && f[0] == "TCP" && f[1] == "192.168.65.197:502"
    && f[2] == "DeviceId:2" && f[3] == "Timeout:100" && f[4] == "MaxRetries:2"
  }

  lemma TcpConnection(f: seq<string>)
    requires TcpShape(f)
    ensures LastConnection(f) == "192.168.65.197:502"
  {
    assert "192.168.65.197:502" == "192" + ['.'] + ("168" + ['.'] + ("65" + ['.'] + "197")) + [':'] + "502";
    IPv4EndpointAccepted("192", "168", "65", "197", "502");
    NotConnection("DeviceId:2");
    NotConnection("Timeout:100");
    NotConnection("MaxRetries:2");
    assert IsConnection(f[1]);
    assert forall i :: 1 < i < |f| ==> !IsConnection(f[i]) by {
      forall i | 1 < i < |f| ensures !IsConnection(f[i]) {
        assert i == 2 || i == 3 || i == 4;
      }
    }
    LastConnectionWins(f, 1);
  }

  lemma TcpDeviceId(f: seq<string>)
    requires TcpShape(f)
    ensures DeviceIdOf(Collect(f)) == 2
  {
    assert "DeviceId:2" == "DeviceId" + ":" + "2";
    EntryOfPair("DeviceId", "2");
    CollectLastWins(f, 2, "DeviceId");
    AtoiOf(2, "2");
  }

  lemma TcpTimeOut(f: seq<string>)
    requires TcpShape(f)
    ensures TimeOutOf(Collect(f)) == 100 * Millisecond
  {
    assert "Timeout:100" == "Timeout" + ":" + "100";
    EntryOfPair("Timeout", "100");
    CollectLastWins(f, 3, "Timeout");
    AtoiOf(100, "100");
  }

  lemma TcpMaxRetries(f: seq<string>)
    requires TcpShape(f)
    ensures MaxRetriesOf(Collect(f)) == 2
  {
    assert "MaxRetries:2" == "MaxRetries" + ":" + "2";
    EntryOfPair("MaxRetries", "2");
    CollectLastWins(f, 4, "MaxRetries");
    AtoiOf(2, "2");
  }

  lemma TcpWordsPlain()
    ensures forall i :: 0 <= i < |TcpWords| ==> |TcpWords[i]| > 0 && NoSpace(TcpWords[i])
  {
    forall i | 0 <= i < |TcpWords| ensures |TcpWords[i]| > 0 && NoSpace(TcpWords[i]) {
      assert i == 0 || i == 1 || i == 2 || i == 3 || i == 4;
    }
  }

  lemma TcpFields()
    ensures TcpShape(Fields(Unwords(TcpWords)))
  {
    assert TcpShape(TcpWords);
    TcpWordsPlain();
    FieldsUnwords(TcpWords);
  }

  /** "TCP 192.168.65.197:502 DeviceId:2 Timeout:100 MaxRetries:2" gives the
      connection 192.168.65.197:502, device 2, 100 ms and 2 retries. */
  lemma ExampleTcp()
    ensures var f := Fields(Unwords(TcpWords));
      && LastConnection(f) == "192.168.65.197:502"
      && DeviceIdOf(Collect(f)) == 2
      && TimeOutOf(Collect(f)) == 100 * Millisecond
      && MaxRetriesOf(Collect(f)) == 2
  {
    TcpFields();
    var f := Fields(Unwords(TcpWords));
    TcpConnection(f);
    TcpDeviceId(f);
    TcpTimeOut(f);
    TcpMaxRetries(f);
  }

  // "HTTP http://fritz.box Timeout:500"
  const HttpWords := ["HTTP", "http://fritz.box", "Timeout:500"]

  predicate HttpShape(f: seq<string>) {
    |f| == 3 && f[0] == "HTTP" && f[1] == "http://fritz.box" && f[2] == "Timeout:500"
  }

  lemma HttpWordsPlain()
    ensures forall i :: 0 <= i < |HttpWords| ==> |HttpWords[i]| > 0 && NoSpace(HttpWords[i])
  {
    forall i | 0 <= i < |HttpWords| ensures |HttpWords[i]| > 0 && NoSpace(HttpWords[i]) {
      assert i == 0 || i == 1 || i == 2;
    }
  }

  lemma HttpFields()
    ensures HttpShape(Fields(Unwords(HttpWords)))
  {
    assert HttpShape(HttpWords);
    HttpWordsPlain();
    FieldsUnwords(HttpWords);
  }


  lemma HttpUrlEntry()
    ensures Entry("http://fritz.box") == ("http", "//fritz.box")
  {
    assert "http://fritz.box" == "http" + ":" + "//fritz.box";
    EntryOfPair("http", "//fritz.box");
  }

  lemma HttpEntries()
    ensures Entry("HTTP") == ("HTTP", "")
    ensures Entry("Timeout:500") == ("Timeout", "500")
  {
    EntryOfWord("HTTP");
    assert "Timeout:500" == "Timeout" + ":" + "500";
    EntryOfPair("Timeout", "500");
  }

  lemma HttpConnection(f: seq<string>)
    requires HttpShape(f)
    ensures LastConnection(f) == "http://fritz.box"
  {
    assert "http://fritz.box" == "http://" + "fritz.box";
    HttpAccepted("fritz.box");
    NotConnection("Timeout:500");
    assert forall i :: 1 < i < |f| ==> !IsConnection(f[i]) by {
      forall i | 1 < i < |f| ensures !IsConnection(f[i]) {
        assert i == 2;
      }
    }
    LastConnectionWins(f, 1);
  }

  /** A key none of three fields names is not collected. */
  lemma AbsentFromThree(f: seq<string>, key: string)
    requires |f| == 3 && Entry(f[0]).0 != key && Entry(f[1]).0 != key && Entry(f[2]).0 != key
    ensures key !in Collect(f)
  {
    assert forall i :: 0 <= i < |f| ==> Entry(f[i]).0 != key by {
      forall i | 0 <= i < |f| ensures Entry(f[i]).0 != key {
        assert i == 0 || i == 1 || i == 2;
      }
    }
    CollectAbsent(f, key);
  }

  /** Neither DeviceId nor MaxRetries is given. */
  lemma HttpKeysAbsent(f: seq<string>)
    requires HttpShape(f)
    ensures "DeviceId" !in Collect(f) && "MaxRetries" !in Collect(f)
  {
    HttpEntries();
    HttpUrlEntry();
    AbsentFromThree(f, "DeviceId");
    AbsentFromThree(f, "MaxRetries");
  }

  /** The Timeout of a map whose Timeout value spells the number n. */
  lemma TimeOutIs(m: map<string, string>, s: string, n: nat)
    requires "Timeout" in m && m["Timeout"] == s
    requires Itoa(n) == s && n <= 9_223_372_036_854
    ensures TimeOutOf(m) == n * Millisecond
  {
    AtoiOf(n, s);
  }

  lemma HttpTimeoutEntry(f: seq<string>)
    requires HttpShape(f)
    ensures "Timeout" in Collect(f) && Collect(f)["Timeout"] == "500"
  {
    HttpEntries();
    CollectLastWins(f, 2, "Timeout");
  }

  lemma HttpTimeOut(f: seq<string>)
    requires HttpShape(f)
    ensures TimeOutOf(Collect(f)) == 500 * Millisecond
  {
    HttpTimeoutEntry(f);
    TimeOutIs(Collect(f), "500", 500);
  }

  /** "HTTP http://fritz.box Timeout:500" gives the URL, the default device
      1, 500 ms and no retries. */
  lemma ExampleHttp()
    ensures var f := Fields(Unwords(HttpWords));
      && LastConnection(f) == "http://fritz.box"
      && DeviceIdOf(Collect(f)) == 1
      && TimeOutOf(Collect(f)) == 500 * Millisecond
      && MaxRetriesOf(Collect(f)) == 0
  {
    HttpFields();
    var f := Fields(Unwords(HttpWords));
    HttpConnection(f);
    HttpKeysAbsent(f);
    DeviceIdRange(Collect(f));
    HttpTimeOut(f);
  }

  // "RTU com3,9600,8,O,1 Timeout:5000"
  const RtuWords := ["RTU", "com3,9600,8,O,1", "Timeout:5000"]

  predicate RtuShape(f: seq<string>) {
    |f| == 3 && f[0] == "RTU" && f[1] == "com3,9600,8,O,1" && f[2] == "Timeout:5000"
  }

  lemma RtuWordsPlain()
    ensures forall i :: 0 <= i < |RtuWords| ==> |RtuWords[i]| > 0 && NoSpace(RtuWords[i])
  {
    forall i | 0 <= i < |RtuWords| ensures |RtuWords[i]| > 0 && NoSpace(RtuWords[i]) {
      assert i == 0 || i == 1 || i == 2;
    }
  }

  lemma RtuFields()
    ensures RtuShape(Fields(Unwords(RtuWords)))
  {
    assert RtuShape(RtuWords);
    RtuWordsPlain();
    FieldsUnwords(RtuWords);
  }


  /** A field without a comma is not a serial field. */
  lemma NotSerial(f: string)
    requires ',' !in f
    ensures !IsSerialField(f)
  {
    if IsSerialField(f) {
      SerialHasComma(f);
    }
  }

  /** Of three fields, the middle one is the last serial field. */
  lemma SerialInMiddle(f: seq<string>)
    requires |f| == 3 && IsSerialField(f[1]) && !IsSerialField(f[2])
    ensures LastSerial(f) == SerialOf(f[1])
  {
    assert forall i :: 1 < i < |f| ==> !IsSerialField(f[i]) by {
      forall i | 1 < i < |f| ensures !IsSerialField(f[i]) {
        assert i == 2;
      }
    }
    LastSerialWins(f, 1);
  }

  lemma RtuNumbers()
    ensures IsDigitGroup("9600", 1, 5) && DigitsValue("9600") == 9600
    ensures DigitsValue("8") == 8 && DigitsValue("1") == 1
  {
    DigitsValueItoa(9600);
    assert Itoa(9600) == "9600";
  }

  lemma RtuSerialField()
    ensures IsSerialField("com3,9600,8,O,1")
    ensures SerialOf("com3,9600,8,O,1") == Serial("com3", 9600, 8, "O", 1)
  {
    assert "com3,9600,8,O,1" == "com3" + [','] + ("9600" + [','] + ("8" + [','] + ("O" + [','] + "1")));
    RtuNumbers();
    SerialFieldRead("com3", "9600", "8", "O", "1");
  }

  lemma RtuTimeoutNotSerial()
    ensures !IsSerialField("Timeout:5000")
  {
    NotSerial("Timeout:5000");
  }

  lemma RtuSerialAt(f: seq<string>)
    requires RtuShape(f)
    ensures IsSerialField(f[1]) && LastSerial(f) == SerialOf(f[1])
  {
    RtuSerialField();
    RtuTimeoutNotSerial();
    SerialInMiddle(f);
  }

  lemma RtuSerial(f: seq<string>)
    requires RtuShape(f)
    ensures LastSerial(f) == Serial("com3", 9600, 8, "O", 1)
  {
    RtuSerialAt(f);
    RtuSerialField();
  }

  lemma RtuTimeOut(f: seq<string>)
    requires RtuShape(f)
    ensures TimeOutOf(Collect(f)) == 5000 * Millisecond
  {
    assert "Timeout:5000" == "Timeout" + ":" + "5000";
    EntryOfPair("Timeout", "5000");
    CollectLastWins(f, 2, "Timeout");
    TimeOutIs(Collect(f), "5000", 5000);
  }

  /** "RTU com3,9600,8,O,1 Timeout:5000" gives port com3 at 9600 baud, 8
      data bits, odd parity, 1 stop bit and 5000 ms. */
  lemma ExampleRtu()
    ensures var f := Fields(Unwords(RtuWords));
      && LastSerial(f) == Serial("com3", 9600, 8, "O", 1)
      && TimeOutOf(Collect(f)) == 5000 * Millisecond
  {
    RtuFields();
    var f := Fields(Unwords(RtuWords));
    RtuSerial(f);
    RtuTimeOut(f);
  }

  // "HTTP https://fritz.box/abc?t=3 Timeout:500 MaxRetries:1"
  const HttpsWords := ["HTTP", "https://fritz.box/abc?t=3", "Timeout:500", "MaxRetries:1"]

  predicate HttpsShape(f: seq<string>) {
    && |f| == 4 && f[0] == "HTTP" && f[1] == "https://fritz.box/abc?t=3"
    && f[2] == "Timeout:500" && f[3] == "MaxRetries:1"
  }

  lemma HttpsWordsPlain()
    ensures forall i :: 0 <= i < |HttpsWords| ==> |HttpsWords[i]| > 0 && NoSpace(HttpsWords[i])
  {
    forall i | 0 <= i < |HttpsWords| ensures |HttpsWords[i]| > 0 && NoSpace(HttpsWords[i]) {
      assert i == 0 || i == 1 || i == 2 || i == 3;
    }
  }

  lemma HttpsFields()
    ensures HttpsShape(Fields(Unwords(HttpsWords)))
  {
    assert HttpsShape(HttpsWords);
    HttpsWordsPlain();
    FieldsUnwords(HttpsWords);
  }


  lemma HttpsUrlEntry()
    ensures Entry("https://fritz.box/abc?t=3") == ("https", "//fritz.box/abc?t=3")
  {
    assert "https://fritz.box/abc?t=3" == "https" + ":" + "//fritz.box/abc?t=3";
    EntryOfPair("https", "//fritz.box/abc?t=3");
  }

  lemma HttpsRetriesEntry()
    ensures Entry("MaxRetries:1") == ("MaxRetries", "1")
  {
    assert "MaxRetries:1" == "MaxRetries" + ":" + "1";
    EntryOfPair("MaxRetries", "1");
  }

  lemma HttpsConnection(f: seq<string>)
    requires HttpsShape(f)
    ensures LastConnection(f) == "https://fritz.box/abc?t=3"
  {
    assert "https://fritz.box/abc?t=3" == "https://" + "fritz.box/abc?t=3";
    HttpAccepted("fritz.box/abc?t=3");
    NotConnection("Timeout:500");
    NotConnection("MaxRetries:1");
    assert forall i :: 1 < i < |f| ==> !IsConnection(f[i]) by {
      forall i | 1 < i < |f| ensures !IsConnection(f[i]) {
        assert i == 2 || i == 3;
      }
    }
    LastConnectionWins(f, 1);
  }

  /** A key none of four fields names is not collected. */
  lemma AbsentFromFour(f: seq<string>, key: string)
    requires |f| == 4 && Entry(f[0]).0 != key && Entry(f[1]).0 != key
    requires Entry(f[2]).0 != key && Entry(f[3]).0 != key
    ensures key !in Collect(f)
  {
    assert forall i :: 0 <= i < |f| ==> Entry(f[i]).0 != key by {
      forall i | 0 <= i < |f| ensures Entry(f[i]).0 != key {
        assert i == 0 || i == 1 || i == 2 || i == 3;
      }
    }
    CollectAbsent(f, key);
  }

  lemma HttpsDeviceId(f: seq<string>)
    requires HttpsShape(f)
    ensures DeviceIdOf(Collect(f)) == 1
  {
    HttpEntries();
    HttpsUrlEntry();
    HttpsRetriesEntry();
    AbsentFromFour(f, "DeviceId");
    DeviceIdRange(Collect(f));
  }

  /** Of four fields, the third names `key` and the fourth does not. */
  lemma ThirdOfFourWins(f: seq<string>, key: string)
    requires |f| == 4 && Entry(f[2]).0 == key && Entry(f[3]).0 != key
    ensures key in Collect(f) && Collect(f)[key] == Entry(f[2]).1
  {
    assert forall i :: 2 < i < |f| ==> Entry(f[i]).0 != key by {
      forall i | 2 < i < |f| ensures Entry(f[i]).0 != key {
        assert i == 3;
      }
    }
    CollectLastWins(f, 2, key);
  }

  lemma HttpsTimeoutEntry(f: seq<string>)
    requires HttpsShape(f)
    ensures "Timeout" in Collect(f) && Collect(f)["Timeout"] == "500"
  {
    HttpEntries();
    HttpsRetriesEntry();
    ThirdOfFourWins(f, "Timeout");
  }

  lemma HttpsRetriesCollected(f: seq<string>)
    requires HttpsShape(f)
    ensures "MaxRetries" in Collect(f) && Collect(f)["MaxRetries"] == "1"
  {
    HttpsRetriesEntry();
    CollectLastWins(f, 3, "MaxRetries");
  }

  /** The MaxRetries of a map whose MaxRetries value spells the number n. */
  lemma MaxRetriesIs(m: map<string, string>, s: string, n: nat)
    requires "MaxRetries" in m && m["MaxRetries"] == s
    requires Itoa(n) == s && n <= Int64Max
    ensures MaxRetriesOf(m) == n
  {
    AtoiOf(n, s);
  }

  lemma HttpsMaxRetries(f: seq<string>)
    requires HttpsShape(f)
    ensures MaxRetriesOf(Collect(f)) == 1
  {
    HttpsRetriesCollected(f);
    MaxRetriesIs(Collect(f), "1", 1);
  }

  lemma HttpsTimeOut(f: seq<string>)
    requires HttpsShape(f)
    ensures TimeOutOf(Collect(f)) == 500 * Millisecond
  {
    HttpsTimeoutEntry(f);
    TimeOutIs(Collect(f), "500", 500);
  }

  /** "HTTP https://fritz.box/abc?t=3 Timeout:500 MaxRetries:1" gives the
      URL with its path and query, the default device 1, 500 ms and one
      retry. */
  lemma ExampleHttps()
    ensures var f := Fields(Unwords(HttpsWords));
      && LastConnection(f) == "https://fritz.box/abc?t=3"
      && DeviceIdOf(Collect(f)) == 1
      && TimeOutOf(Collect(f)) == 500 * Millisecond
      && MaxRetriesOf(Collect(f)) == 1
  {
    HttpsFields();
    var f := Fields(Unwords(HttpsWords));
    HttpsConnection(f);
    HttpsDeviceId(f);
    HttpsTimeOut(f);
    HttpsMaxRetries(f);
  }

  // "/dev/ttyS0,19200,8,N,2 Timeout:1000"
  const TtyWords := ["/dev/ttyS0,19200,8,N,2", "Timeout:1000"]

  predicate TtyShape(f: seq<string>) {
    |f| == 2 && f[0] == "/dev/ttyS0,19200,8,N,2" && f[1] == "Timeout:1000"
  }

  lemma TtyWordsPlain()
    ensures forall i :: 0 <= i < |TtyWords| ==> |TtyWords[i]| > 0 && NoSpace(TtyWords[i])
  {
    forall i | 0 <= i < |TtyWords| ensures |TtyWords[i]| > 0 && NoSpace(TtyWords[i]) {
      assert i == 0 || i == 1;
    }
  }

  lemma TtyFields()
    ensures TtyShape(Fields(Unwords(TtyWords)))
  {
    assert TtyShape(TtyWords);
    TtyWordsPlain();
    FieldsUnwords(TtyWords);
  }


  lemma TtyNumbers()
    ensures IsDigitGroup("19200", 1, 5) && DigitsValue("19200") == 19200
    ensures DigitsValue("8") == 8 && DigitsValue("2") == 2
  {
    assert "19200"[..4] == "1920" && "1920"[..3] == "192" && "192"[..2] == "19" && "19"[..1] == "1";
    assert DigitsValue("19") == 19;
  }

  lemma TtySerialField()
    ensures IsSerialField("/dev/ttyS0,19200,8,N,2")
    ensures SerialOf("/dev/ttyS0,19200,8,N,2") == Serial("/dev/ttyS0", 19200, 8, "N", 2)
  {
    assert "/dev/ttyS0,19200,8,N,2" == "/dev/ttyS0" + [','] + ("19200" + [','] + ("8" + [','] + ("N" + [','] + "2")));
    TtyNumbers();
    SerialFieldRead("/dev/ttyS0", "19200", "8", "N", "2");
  }

  lemma TtyTimeoutNotSerial()
    ensures !IsSerialField("Timeout:1000")
  {
    NotSerial("Timeout:1000");
  }

  lemma TtySerialAt(f: seq<string>)
    requires TtyShape(f)
    ensures IsSerialField(f[0]) && LastSerial(f) == SerialOf(f[0])
  {
    TtySerialField();
    TtyTimeoutNotSerial();
    assert forall i :: 0 < i < |f| ==> !IsSerialField(f[i]) by {
      forall i | 0 < i < |f| ensures !IsSerialField(f[i]) {
        assert i == 1;
      }
    }
    LastSerialWins(f, 0);
  }

  lemma TtySerial(f: seq<string>)
    requires TtyShape(f)
    ensures LastSerial(f) == Serial("/dev/ttyS0", 19200, 8, "N", 2)
  {
    TtySerialAt(f);
    TtySerialField();
  }

  lemma TtyTimeOut(f: seq<string>)
    requires TtyShape(f)
    ensures TimeOutOf(Collect(f)) == 1000 * Millisecond
  {
    assert "Timeout:1000" == "Timeout" + ":" + "1000";
    EntryOfPair("Timeout", "1000");
    CollectLastWins(f, 1, "Timeout");
    TimeOutIs(Collect(f), "1000", 1000);
  }

  /** "/dev/ttyS0,19200,8,N,2 Timeout:1000" gives the device path at 19200
      baud, 8 data bits, no parity, 2 stop bits and 1000 ms: no leading
      keyword is needed. */
  lemma ExampleTty()
    ensures var f := Fields(Unwords(TtyWords));
      && LastSerial(f) == Serial("/dev/ttyS0", 19200, 8, "N", 2)
      && TimeOutOf(Collect(f)) == 1000 * Millisecond
  {
    TtyFields();
    var f := Fields(Unwords(TtyWords));
    TtySerial(f);
    TtyTimeOut(f);
  }
}
