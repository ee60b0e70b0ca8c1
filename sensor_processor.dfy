/**
 * The sensor threshold classifier. Readings are compared as exact reals
 * (see README for what this leaves out of Python's floats).
 */
module SensorProcessing {

  /** One reading: the shape of the `SensorData` record. */
  datatype SensorData = SensorData(sensorId: string, temperature: real, pressure: real)

  /** A processor holds one temperature limit, fixed when it is created. */
  datatype SensorProcessor = SensorProcessor(tempLimit: real)

  /** The limit a processor gets when none is given. */
  const DefaultTempLimit: real := 100.0

  const HighTemperature: string := "WARNING: High Temperature Detected"
  const InvalidPressure: string := "ERROR: Invalid Pressure Value"
  const Normal: string := "STATUS: Normal"

  /**
   * Classifies one reading. A temperature strictly above the limit wins
   * whatever the pressure; otherwise a negative pressure is an error;
   * otherwise (a zero pressure included) the reading is normal.
   */
  function AnalyzeData(p: SensorProcessor, data: SensorData): (r: string)
    ensures r == HighTemperature || r == InvalidPressure || r == Normal
    ensures r == HighTemperature <==> data.temperature > p.tempLimit
    ensures r == InvalidPressure <==> data.temperature <= p.tempLimit && data.pressure < 0.0
    ensures r == Normal <==> data.temperature <= p.tempLimit && data.pressure >= 0.0
  {
    if data.temperature > p.tempLimit then HighTemperature
    else if data.pressure < 0.0 then InvalidPressure
    else Normal
  }

  /** The threshold is strict: a reading exactly at the limit is never a warning. */
  lemma AtLimitIsNotWarning(p: SensorProcessor, data: SensorData)
    requires data.temperature == p.tempLimit
    ensures AnalyzeData(p, data) != HighTemperature
    ensures AnalyzeData(p, data) == if data.pressure < 0.0 then InvalidPressure else Normal
  {
  }

  /** The two threshold cases pinned by the unit tests, with the default limit. */
  lemma DefaultLimitCases()
    ensures AnalyzeData(SensorProcessor(DefaultTempLimit), SensorData("TST-01", 110.0, 2.0)) == HighTemperature
    ensures AnalyzeData(SensorProcessor(DefaultTempLimit), SensorData("TST-02", 50.0, 2.0)) == Normal
  {
  }
}
