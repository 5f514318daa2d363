/**
 * The refactored measurement_min / measurement_max validators
 * (core/healthcheck_measurement_minmax.go): two check types with their own
 * name and message that share one check function.
 */
module MeasurementMinMax {
  import opened Support
  import opened OsemApi
  import HC = HealthChecks

  const NameMin := "measurement_min"
  const NameMax := "measurement_max"

  /** The measurement_min message: the check-type table's text for that type. */
  function MinToString(r: HC.CheckResult): (m: string)
    ensures m == HC.Description(NameMin, r.targetName, r.target, r.value)
  {
    "Sensor " + r.targetName + " (" + r.target + ") reads low value of " + r.value
  }

  /** The measurement_max message: the check-type table's text for that type. */
  function MaxToString(r: HC.CheckResult): (m: string)
    ensures m == HC.Description(NameMax, r.targetName, r.target, r.value)
  {
    "Sensor " + r.targetName + " (" + r.target + ") reads high value of " + r.value
  }

  /** The result every outcome starts from: the event and sensor echoed, the raw value, status OK. */
  function Prefilled(e: NotifyEvent, s: Sensor): HC.CheckResult
    requires s.lastMeasurement.Some?
  {
    HC.CheckResult(HC.CheckOk, e.eventType, s.id, s.phenomenon, s.lastMeasurement.value.value, e.threshold)
  }

  /**
   * validateMeasurementMinMax, the check function of both check types. A
   * threshold or value that does not parse returns the pre-filled OK result
   * with the error; otherwise the status is FAILED iff the type is max and
   * value > threshold, or the type is min and value < threshold.
   */
  function ValidateMeasurementMinMax(rt: Runtime, e: NotifyEvent, s: Sensor, b: Box): (r: (HC.CheckResult, Option<string>))
    requires s.lastMeasurement.Some?
    ensures r.0 == Prefilled(e, s).(status := r.0.status)
    ensures r.1.Some? <==> rt.parseFloat(e.threshold).Err? || rt.parseFloat(s.lastMeasurement.value.value).Err?
    ensures r.1.Some? ==>
              r.0 == Prefilled(e, s) &&
              r.1.value == (if rt.parseFloat(e.threshold).Err? then rt.parseFloat(e.threshold).msg
                            else rt.parseFloat(s.lastMeasurement.value.value).msg)
    ensures r.1.None? ==>
              var t, v := rt.parseFloat(e.threshold).value, rt.parseFloat(s.lastMeasurement.value.value).value;
              (r.0.status == HC.CheckErr <==> (e.eventType == NameMax && v > t) || (e.eventType == NameMin && v < t)) &&
              (r.0.status != HC.CheckErr ==> r.0.status == HC.CheckOk)
  {
    var result := Prefilled(e, s);
    match rt.parseFloat(e.threshold)
    case Err(msg) => (result, Some(msg))
    case Ok(thresh) =>
      match rt.parseFloat(s.lastMeasurement.value.value)
      case Err(msg) => (result, Some(msg))
      case Ok(val) =>
        if (e.eventType == NameMax && val > thresh) || (e.eventType == NameMin && val < thresh) then
          (result.(status := HC.CheckErr), None)
        else
          (result, None)
  }

  /** For an event type that is neither min nor max the status stays OK whatever the numbers. */
  lemma OtherTypeStaysOk(rt: Runtime, e: NotifyEvent, s: Sensor, b: Box)
    requires s.lastMeasurement.Some? && e.eventType !in {NameMin, NameMax}
    ensures ValidateMeasurementMinMax(rt, e, s, b).0.status == HC.CheckOk
  {
  }

  /** On min and max events the validator and the engine agree whenever the engine succeeds, and fail together. */
  lemma AgreesWithEngine(rt: Runtime, e: NotifyEvent, s: Sensor, b: Box)
    requires e.eventType in {NameMin, NameMax} && s.lastMeasurement.Some?
    ensures var m := HC.Match(e, s, s.lastMeasurement.value);
            ValidateMeasurementMinMax(rt, e, s, b) ==
              match HC.Evaluate(rt, m)
              case Ok(r) => (r, None)
              case Err(msg) => (Prefilled(e, s), Some(msg))
  {
  }
}
