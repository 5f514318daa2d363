/**
 * The refactored measurement_faulty validator
 * (core/healthcheck_measurement_faulty.go): a lookup of the exact
 * (sensor type, value) pair in a table of readings known to mean a broken sensor.
 */
module MeasurementFaulty {
  import opened Support
  import opened OsemApi
  import HC = HealthChecks

  const Name := "measurement_faulty"

  datatype FaultyValue = FaultyValue(sensor: string, val: real)

  const FaultyVals: set<FaultyValue> := {
    FaultyValue("BMP280", 0.0),
    FaultyValue("HDC1008", 0.0),
    FaultyValue("HDC1008", -40.0),
    FaultyValue("SDS 011", 0.0)
  }

  /** The check type's message: the check-type table's text for measurement_faulty. */
  function ToString(r: HC.CheckResult): (m: string)
    ensures m == HC.Description(Name, r.targetName, r.target, r.value)
  {
    "Sensor " + r.targetName + " (" + r.target + ") reads presumably faulty value of " + r.value
  }

  function Prefilled(e: NotifyEvent, s: Sensor): HC.CheckResult
    requires s.lastMeasurement.Some?
  {
    HC.CheckResult(HC.CheckOk, e.eventType, s.id, s.phenomenon, s.lastMeasurement.value.value, e.threshold)
  }

  /**
   * checkFunc: FAILED iff (sensor type, parsed value) is in the table; an
   * unparsable value returns the pre-filled OK result with the error. The
   * threshold is echoed, never parsed.
   */
  function CheckFunc(rt: Runtime, e: NotifyEvent, s: Sensor, b: Box): (r: (HC.CheckResult, Option<string>))
    requires s.lastMeasurement.Some?
    ensures r.0 == Prefilled(e, s).(status := r.0.status)
    ensures r.1.Some? <==> rt.parseFloat(s.lastMeasurement.value.value).Err?
    ensures r.1.Some? ==> r.0 == Prefilled(e, s) && r.1.value == rt.parseFloat(s.lastMeasurement.value.value).msg
    ensures r.1.None? ==>
              (r.0.status == HC.CheckErr <==>
                 FaultyValue(s.sensorType, rt.parseFloat(s.lastMeasurement.value.value).value) in FaultyVals) &&
              (r.0.status != HC.CheckErr ==> r.0.status == HC.CheckOk)
  {
    var result := Prefilled(e, s);
    match rt.parseFloat(s.lastMeasurement.value.value)
    case Err(msg) => (result, Some(msg))
    case Ok(val) =>
      (if FaultyValue(s.sensorType, val) in FaultyVals then result.(status := HC.CheckErr) else result, None)
  }

  /** The table has exactly four entries, and an entry needs both its type and its value to match. */
  lemma TableShape()
    ensures |FaultyVals| == 4
    ensures FaultyValue("HDC1008", -40.0) in FaultyVals && FaultyValue("BMP280", -40.0) !in FaultyVals
  {
  }

  /** The threshold and the duration parser play no part in the outcome, apart from the echoed threshold. */
  lemma ThresholdNeverParsed(rt: Runtime, pd: string -> Result<int>, e: NotifyEvent, s: Sensor, b: Box, t: string)
    requires s.lastMeasurement.Some?
    ensures var r, r' := CheckFunc(rt, e, s, b), CheckFunc(rt.(parseDuration := pd), e.(threshold := t), s, b);
            r'.1 == r.1 && r'.0 == r.0.(threshold := t)
  {
  }

  /** The validator and the engine's measurement_faulty rule agree; the two tables are the same. */
  lemma AgreesWithEngine(rt: Runtime, e: NotifyEvent, s: Sensor, b: Box)
    requires e.eventType == Name && s.lastMeasurement.Some?
    ensures var m := HC.Match(e, s, s.lastMeasurement.value);
            CheckFunc(rt, e, s, b) ==
              match HC.Evaluate(rt, m)
              case Ok(r) => (r, None)
              case Err(msg) => (Prefilled(e, s), Some(msg))
  {
    assert forall t, v :: FaultyValue(t, v) in FaultyVals <==> HC.FaultyValue(t, v) in HC.FaultyVals;
  }
}
