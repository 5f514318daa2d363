/**
 * The records the openSenseMap API returns and the per-box health-check
 * configuration (core/osem_api.go). Fetching them over HTTP is not part of
 * this model; they are plain values here.
 */
module OsemApi {
  import opened Support

  /** A sensor's last reading: the value as the API sends it (a string) and its instant. */
  datatype Measurement = Measurement(value: string, date: int)

  datatype Sensor = Sensor(
    id: string,
    phenomenon: string,
    sensorType: string,
    lastMeasurement: Option<Measurement>)  // None: the sensor never reported

  /** One configured rule: its type, "all" or a sensor id, and a type-specific threshold. */
  datatype NotifyEvent = NotifyEvent(eventType: string, target: string, threshold: string)

  /**
   * The shapes the `interface{}` transport options can take: an options
   * struct built in code (its Recipients slice may be nil), or what the
   * YAML/JSON decoder produces (maps, lists, strings, anything else).
   */
  datatype Payload =
    | XmppOptions(xmppRecipients: Option<seq<string>>)
    | EmailOptions(emailRecipients: Option<seq<string>>)
    | Dict(entries: map<string, Payload>)
    | List(items: seq<Payload>)
    | Str(s: string)
    | OtherValue

  datatype TransportConfig = TransportConfig(transport: string, options: Payload)

  datatype NotifyConfig = NotifyConfig(notifications: TransportConfig, events: seq<NotifyEvent>)

  datatype Box = Box(
    id: string,
    name: string,
    sensors: seq<Sensor>,
    notifyConf: Option<NotifyConfig>)  // None: the box has no health-check config of its own

  /** The decoder's list under the "recipients" key of a map payload, if there is one. */
  predicate HasRecipientList(p: Payload)
  {
    p.Dict? && "recipients" in p.entries && p.entries["recipients"].List?
  }

  /**
   * A map payload whose "recipients" list holds a non-string makes the Go
   * code panic on its type assertion; callers must not pass one.
   */
  predicate RecipientsAreStrings(p: Payload)
  {
    HasRecipientList(p) ==> forall q :: q in p.entries["recipients"].items ==> q.Str?
  }

  /** The strings of a list of string payloads, in order. */
  function Strings(items: seq<Payload>): (r: seq<string>)
    requires forall q :: q in items ==> q.Str?
    ensures |r| == |items| && forall k :: 0 <= k < |items| ==> r[k] == items[k].s
  {
    if items == [] then [] else Strings(items[..|items| - 1]) + [items[|items| - 1].s]
  }

  /** The fallback's copy loop: the recipients of a decoded list, in order. */
  method CopyRecipients(items: seq<Payload>) returns (rs: seq<string>)
    requires forall q :: q in items ==> q.Str?
    ensures rs == Strings(items)
  {
    rs := [];
    for i := 0 to |items|
      invariant rs == Strings(items[..i])
    {
      assert items[..i + 1][..i] == items[..i];
      rs := rs + [items[i].s];
    }
    assert items[..|items|] == items;
  }

  /** The box with the default configuration put in when it carries none (what both checkBox revisions do). */
  function WithDefault(box: Box, defaultConf: NotifyConfig): (b: Box)
    ensures b.notifyConf.Some?
    ensures box.notifyConf.Some? ==> b == box
    ensures box.notifyConf.None? ==> b == box.(notifyConf := Some(defaultConf))
  {
    if box.notifyConf.None? then box.(notifyConf := Some(defaultConf)) else box
  }
}
