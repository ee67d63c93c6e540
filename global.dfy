/** global/global.go: the meter types of the earlier revision, whose pulse
    counter is a signed 64-bit integer and whose meter carries its reading
    directly. */
module Global {
  import opened Base

  datatype MeterConf = MeterConf(scaleFactor: real, gpio: int, bounceTime: int64)

  /** Pulses since program start, the count at the last average
      calculation, and the time of the last pulse. */
  datatype S0 = S0(counter: int64, lastCounter: int64, timeStamp: int)

  class Meter {
    var config: MeterConf
    /** Time of the last throughput calculation. */
    var timeStamp: int
    var meterReading: real
    var flowPerHour: real
    var s0: S0

    /** A meter as `&global.Meter{Config: c}` creates it: everything else zero. */
    constructor (c: MeterConf)
      ensures config == c && timeStamp == 0 && meterReading == 0.0 && flowPerHour == 0.0
      ensures s0 == S0(0, 0, 0)
    {
      config := c;
      timeStamp := 0;
      meterReading := 0.0;
      flowPerHour := 0.0;
      s0 := S0(0, 0, 0);
    }
  }
}
