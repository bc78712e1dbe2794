/** What the sensor platforms show: the state values, the sensor record they update, and
    the naming every sensor shares. */
module States {
  import opened Wrappers
  import opened Errors
  import opened Ascii
  import opened Calendar
  import opened Const

  /** A sensor state. */
  datatype State =
    | Unset                                  // `None`
    | Unknown                                // `STATE_UNKNOWN`
    | Text(text: string)                     // a date rendered with `isoformat()`
    | Formatted(date: Date, format: string)  // `date.strftime(format)`, not interpreted here
    | Count(n: int)                          // the number of open recalls
    | Flag(b: bool)                          // a binary state
    | DateValue(date: Date)                  // a `datetime.date` object

  /** The fields of a sensor entity that its update rewrites or its properties read. */
  datatype Sensor = Sensor(
    kind: string,
    name: string,
    plate: string,
    icon: string,
    state: State,
    attributes: map<string, string>)

  /** A sensor after `async_update`, and the exception that escaped it, if any. */
  datatype Refresh = Refresh(sensor: Sensor, raised: Option<Exc>)

  /** How a date is shown: `isoformat()` without a date format, `strftime` with one. */
  function ShowDate(d: Date, dateformat: Option<string>): (s: State)
    requires ValidDate(d)
    ensures dateformat.None? ==> s.Text? && ValidateDateformat(s.text) && Strptime(IsoFormat, s.text) == Some(d)
    ensures dateformat.Some? ==> s == Formatted(d, dateformat.value)
  {
    IsoRoundTrip(d);
    if dateformat.None? then Text(FormatIso(d)) else Formatted(d, dateformat.value)
  }

  /** The `name` property: `'{} {}'.format(name, sensor_type)`. */
  function SensorName(name: string, kind: string): (r: string)
    ensures |r| == |name| + 1 + |kind|
    ensures StartsWith(r, name) && r[|name|] == ' ' && r[|name| + 1..] == kind
  {
    name + " " + kind
  }

  /** The `unique_id`: `'{}_{}_{}'.format(DOMAIN, plate, sensor_type)`. */
  function UniqueId(plate: string, kind: string): (r: string)
    ensures |r| == 5 + |plate| + |kind|
    ensures StartsWith(r, "rdw_") && r[4..4 + |plate|] == plate
    ensures r[4 + |plate|] == '_' && r[5 + |plate|..] == kind
  {
    DOMAIN + "_" + plate + "_" + kind
  }

  /** Unique IDs of sensors on six-character plates tell plate and sensor kind apart. */
  lemma UniqueIdsDistinct(p1: string, k1: string, p2: string, k2: string)
    requires |p1| == 6 && |p2| == 6
    requires UniqueId(p1, k1) == UniqueId(p2, k2)
    ensures p1 == p2 && k1 == k2
  {
    var u := UniqueId(p1, k1);
    assert p1 == u[4..10] == p2;
  }

  /** The `ID` state attribute: `nl_` followed by the plate in lower case. */
  function PlateId(plate: string): (r: string)
    ensures StartsWith(r, "nl_") && |r| == |plate| + 3
    ensures r[3..] == Lower(plate)
    ensures forall i :: 3 <= i < |r| ==> !IsUpper(r[i])
  {
    "nl_" + Lower(plate)
  }

  /** The ID does not depend on the case the plate is written in. */
  lemma PlateIdIgnoresCase(plate: string)
    ensures PlateId(Upper(plate)) == PlateId(plate)
  {
    var u := Upper(plate);
    forall i | 0 <= i < |plate|
      ensures Lower(u)[i] == Lower(plate)[i]
    {
      if IsLower(plate[i]) {
        assert IsUpper(u[i]);
      }
    }
  }

  /** `device_state_attributes` of the newer sensors: the attribution and the plate ID. */
  function StateAttributes(plate: string): (r: map<string, string>)
    ensures r.Keys == {ATTR_ATTRIBUTION, ATTR_ID}
    ensures r[ATTR_ATTRIBUTION] == ATTRIBUTION && r[ATTR_ID] == PlateId(plate)
  {
    map[ATTR_ATTRIBUTION := ATTRIBUTION, ATTR_ID := PlateId(plate)]
  }

  /** RDW's yes/no fields: `'Ja'` is true, `'Nee'` is false, anything else (or nothing) is
      no value. */
  function JaNee(v: Option<string>): (r: Option<bool>)
    ensures r == Some(true) <==> v == Some("Ja")
    ensures r == Some(false) <==> v == Some("Nee")
  {
    if v == Some("Ja") then Some(true)
    else if v == Some("Nee") then Some(false)
    else None
  }

  /** The device identifier `(DOMAIN, plate.lower())` the newer sensors register under. */
  function DeviceIdentifier(plate: string): (id: (string, string))
    ensures id.0 == DOMAIN && |id.1| == |plate| && id.1 == Lower(plate)
    ensures forall i :: 0 <= i < |id.1| ==> !IsUpper(id.1[i])
  {
    (DOMAIN, Lower(plate))
  }

  /** The `ID` attribute is `nl_` followed by the device identifier's plate, so a sensor and
      its device name the car the same way. */
  lemma PlateIdMatchesDevice(plate: string)
    ensures PlateId(plate)[3..] == DeviceIdentifier(plate).1
  {
  }
}
