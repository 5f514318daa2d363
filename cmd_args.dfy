/**
 * The argument validators and the built-in default configuration of
 * cmd/args.go.
 */
module CmdArgs {
  import opened Support
  import opened OsemApi
  import HC = HealthChecks
  import CoreBox

  predicate IsHexDigit(c: char)
  {
    '0' <= c <= '9' || 'a' <= c <= 'f' || 'A' <= c <= 'F'
  }

  /** isValidBoxId: the whole string matches ^[0-9a-fA-F]{24}$. */
  predicate IsValidBoxId(boxId: string)
  {
    |boxId| == 24 && forall i :: 0 <= i < |boxId| ==> IsHexDigit(boxId[i])
  }

  /** The error for the first id that is not valid, looking no further. */
  function FirstInvalid(boxIds: seq<string>): Option<string>
  {
    if boxIds == [] then None
    else if !IsValidBoxId(boxIds[0]) then Some("invalid boxId specified: " + boxIds[0])
    else FirstInvalid(boxIds[1..])
  }

  /** BoxIdValidator: at least one argument, and every one a valid box id; None stands for a nil error. */
  function BoxIdValidator(args: seq<string>): Option<string>
  {
    if |args| < 1 then Some("requires at least 1 argument") else FirstInvalid(args)
  }

  /** FirstInvalid names the first invalid id, and finds none exactly when all are valid. */
  lemma {:induction false} FirstInvalidSpec(boxIds: seq<string>)
    ensures FirstInvalid(boxIds).None? <==> forall k :: 0 <= k < |boxIds| ==> IsValidBoxId(boxIds[k])
    ensures FirstInvalid(boxIds).Some? ==>
              exists k :: 0 <= k < |boxIds| && !IsValidBoxId(boxIds[k]) &&
                          (forall j :: 0 <= j < k ==> IsValidBoxId(boxIds[j])) &&
                          FirstInvalid(boxIds).value == "invalid boxId specified: " + boxIds[k]
  {
    if boxIds != [] && IsValidBoxId(boxIds[0]) {
      var rest := boxIds[1..];
      FirstInvalidSpec(rest);
      assert forall k :: 0 <= k < |rest| ==> rest[k] == boxIds[k + 1];
      if FirstInvalid(rest).Some? {
        var k :| 0 <= k < |rest| && !IsValidBoxId(rest[k]) && (forall j :: 0 <= j < k ==> IsValidBoxId(rest[j])) &&
                 FirstInvalid(rest).value == "invalid boxId specified: " + rest[k];
        assert !IsValidBoxId(boxIds[k + 1]) && forall j :: 0 <= j < k + 1 ==> IsValidBoxId(boxIds[j]);
      } else {
        assert forall k :: 1 <= k < |boxIds| ==> boxIds[k] == rest[k - 1];
      }
    }
  }

  /** Ids after the first invalid one are never examined. */
  lemma {:induction false} LaterIdsIgnored(a: seq<string>, b: seq<string>)
    requires FirstInvalid(a).Some?
    ensures FirstInvalid(a + b) == FirstInvalid(a)
  {
    assert (a + b)[0] == a[0];
    if IsValidBoxId(a[0]) {
      assert (a + b)[1..] == a[1..] + b;
      LaterIdsIgnored(a[1..], b);
    }
  }

  /** The validator accepts exactly the non-empty lists of valid ids. */
  lemma BoxIdValidatorSpec(args: seq<string>)
    ensures BoxIdValidator(args).None? <==> |args| >= 1 && forall k :: 0 <= k < |args| ==> IsValidBoxId(args[k])
    ensures |args| == 0 ==> BoxIdValidator(args) == Some("requires at least 1 argument")
  {
    FirstInvalidSpec(args);
  }

  const DefaultTarget := "593bcd656ccf3b0011791f5d"

  /**
   * defaultConf as written. Only its events are set; the transport is Go's
   * zero value.
   */
  const DefaultConf := NotifyConfig(TransportConfig("", OtherValue), [NotifyEvent("measurementAge", DefaultTarget, "5h")])

  /** The evidently intended default: the same rule under the event type name the engines know. */
  const DefaultConfIntended := NotifyConfig(TransportConfig("", OtherValue), [NotifyEvent("measurement_age", DefaultTarget, "5h")])

  lemma DefaultConfShape()
    ensures |DefaultConf.events| == 1 && DefaultConf.events[0].eventType == "measurementAge"
    ensures DefaultConf.events[0].threshold == "5h" && IsValidBoxId(DefaultConf.events[0].target)
  {
  }

  /** As written, the core/Box.go engine finds no rule for the default event and never reports anything. */
  lemma DefaultConfNeverChecksOld(rt: Runtime, sensors: seq<Sensor>)
    ensures CoreBox.Checks(rt, DefaultConf.events, sensors) == Ok([])
  {
    CoreBox.NoKnownTypeNoResults(rt, DefaultConf.events, sensors);
  }

  /** As written, the core/healthchecks.go engine reports the default event as OK with an empty value, always. */
  lemma DefaultConfNeverFails(rt: Runtime, sensors: seq<Sensor>)
    ensures HC.Checks(rt, DefaultConf.events, sensors).Ok?
    ensures forall r :: r in HC.Checks(rt, DefaultConf.events, sensors).value ==> r.status == HC.CheckOk && r.value == ""
  {
    var ms := HC.Matches(DefaultConf.events, sensors);
    forall k | 0 <= k < |ms| ensures ms[k].event == DefaultConf.events[0] {
      HC.MatchesMembers(DefaultConf.events, sensors, ms[k]);
    }
    forall k | 0 <= k < |ms| ensures HC.Rule(rt)(ms[k]).Ok? {
      HC.UnknownTypeIsOk(rt, ms[k]);
    }
    EvalAllOk(HC.Rule(rt), ms);
    forall r | r in HC.Checks(rt, DefaultConf.events, sensors).value ensures r.status == HC.CheckOk && r.value == "" {
      var k :| 0 <= k < |ms| && HC.Checks(rt, DefaultConf.events, sensors).value[k] == r;
      HC.UnknownTypeIsOk(rt, ms[k]);
    }
  }

  /**
   * With the intended name, a reporting sensor with the default target id is
   * checked for age: ERROR iff its last measurement is older than five hours.
   */
  lemma DefaultConfIntendedChecksAge(rt: Runtime, s: Sensor)
    requires s.id == DefaultTarget && s.lastMeasurement.Some? && rt.parseDuration("5h").Ok?
    ensures var lm := s.lastMeasurement.value;
            CoreBox.Checks(rt, DefaultConfIntended.events, [s]) ==
              Ok([CoreBox.CheckResult(if rt.now - lm.date > rt.parseDuration("5h").value then CoreBox.CheckErr else CoreBox.CheckOk,
                                      "measurement_age", s.id, rt.formatTime(lm.date))])
  {
    var e := DefaultConfIntended.events[0];
    assert CoreBox.KnownType(e.eventType);
    CoreBox.SinglePair(rt, e, s);
  }
}
