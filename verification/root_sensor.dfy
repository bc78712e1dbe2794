/** `RDWSensor` of the 2.9 release (sensor.py at the top of the repository): the APK expiry
    sensor and the recall sensor over a 2.9 `RDWEntity`. */
module RootSensor {
  import opened Wrappers
  import opened Errors
  import opened Calendar
  import opened Const
  import opened States
  import RootEntity

  /** `RDWSensor.__init__`: the normal icon of the kind, no state, and only the attribution
      as attributes. */
  function NewSensor(kind: string, name: string, plate: string): (s: Sensor)
    requires IsSensorKind(kind)
    ensures s.kind == kind && s.name == name && s.plate == plate
    ensures s.icon == NormalIcon(kind) && s.icon != ALERT_ICON
    ensures s.state == Unset && s.attributes == map[ATTR_ATTRIBUTION := DEFAULT_ATTRIBUTION]
  {
    Sensor(kind, name, plate, NormalIcon(kind), Unset, map[ATTR_ATTRIBUTION := DEFAULT_ATTRIBUTION])
  }

  /** Whether the current data asks for the alert icon: an expiry date before now, or at
      least one open recall. `None` when the data says nothing either way. */
  function Alert(kind: string, data: RootEntity.Vehicle, now: Instant): Option<bool> {
    if kind == EXPDATE && data.expdate.Some? then
      match Strptime(RdwFormat, data.expdate.value)
      case Some(d) => Some(Expired(d, now))
      case None => None
    else if kind == RECALL && data.recall.Some? then Some(data.recall.value > 0)
    else None
  }

  /** `RDWSensor.async_update`. The state becomes unknown and the attributes empty; the
      expiry sensor then shows the date (`isoformat()` or the configured format) and the
      recall sensor the number of recalls with their links. The icon only ever switches to
      the alert icon. An expiry date `strptime` cannot read raises `ValueError`. */
  function Update(s: Sensor, data: RootEntity.Vehicle, dateformat: Option<string>, now: Instant): (r: Refresh)
    ensures r.sensor.kind == s.kind && r.sensor.name == s.name && r.sensor.plate == s.plate
    ensures r.raised.Some? <==>
      s.kind == EXPDATE && data.expdate.Some? && Strptime(RdwFormat, data.expdate.value).None?
    ensures r.raised.Some? ==> r.raised.value == ValueError && r.sensor == s.(state := Unknown, attributes := map[])
    ensures Alert(s.kind, data, now) == Some(true) ==> r.sensor.icon == ALERT_ICON
    ensures Alert(s.kind, data, now) != Some(true) ==> r.sensor.icon == s.icon
    ensures s.kind == EXPDATE && r.raised.None? ==>
      && r.sensor.attributes == map[]
      && (data.expdate.None? ==> r.sensor.state == Unknown)
      && (data.expdate.Some? ==> r.sensor.state == ShowDate(Strptime(RdwFormat, data.expdate.value).value, dateformat))
    ensures s.kind == RECALL ==>
      && (data.recall.None? ==> r.sensor.state == Unknown && r.sensor.attributes == map[])
      && (data.recall.Some? ==> r.sensor.state == Count(data.recall.value) && r.sensor.attributes == data.attrs)
    ensures s.kind != EXPDATE && s.kind != RECALL ==> r == Refresh(s.(state := Unknown, attributes := map[]), None)
  {
    var reset := s.(state := Unknown, attributes := map[]);
    if s.kind == EXPDATE then
      if data.expdate.None? then Refresh(reset, None)
      else match Strptime(RdwFormat, data.expdate.value)
        case None => Refresh(reset, Some(ValueError))
        case Some(d) =>
          var icon := if Expired(d, now) then ALERT_ICON else s.icon;
          Refresh(reset.(state := ShowDate(d, dateformat), icon := icon), None)
    else if s.kind == RECALL then
      if data.recall.None? then Refresh(reset, None)
      else
        var n := data.recall.value;
        var icon := if n > 0 then ALERT_ICON else s.icon;
        Refresh(reset.(state := Count(n), attributes := data.attrs, icon := icon), None)
    else Refresh(reset, None)
  }

  /** Without a date format the expiry sensor shows the RDW date with dashes after the year
      and the month. */
  lemma ExpdateShownIso(s: Sensor, data: RootEntity.Vehicle, now: Instant, d: Date)
    requires s.kind == EXPDATE && ValidDate(d) && data.expdate == Some(RdwText(d))
    ensures var t := RdwText(d);
      Update(s, data, None, now).sensor.state == Text(t[..4] + "-" + t[4..6] + "-" + t[6..])
  {
    RdwRoundTrip(d);
  }

  /** Once the alert icon is shown it stays: an update with nothing to alert about does not
      restore the normal icon. */
  lemma AlertIconSticks(s: Sensor, data: RootEntity.Vehicle, dateformat: Option<string>, now: Instant)
    requires IsSensorKind(s.kind) && s.icon == ALERT_ICON
    requires Alert(s.kind, data, now) == Some(false)
    ensures Update(s, data, dateformat, now).sensor.icon == ALERT_ICON
    ensures Update(s, data, dateformat, now).sensor.icon != NormalIcon(s.kind)
  {
  }

  /** `async_update` with the icon following the current data: the alert icon while there is
      something to alert about, the kind's normal icon otherwise. State, attributes and
      exceptions are as in `Update`. */
  function UpdateIconReset(s: Sensor, data: RootEntity.Vehicle, dateformat: Option<string>, now: Instant): (r: Refresh)
    requires IsSensorKind(s.kind)
    ensures r.sensor.state == Update(s, data, dateformat, now).sensor.state
    ensures r.sensor.attributes == Update(s, data, dateformat, now).sensor.attributes
    ensures r.raised == Update(s, data, dateformat, now).raised
    ensures r.raised.None? ==> (r.sensor.icon == ALERT_ICON <==> Alert(s.kind, data, now) == Some(true))
    ensures r.raised.None? ==> (r.sensor.icon == NormalIcon(s.kind) <==> Alert(s.kind, data, now) != Some(true))
  {
    var r := Update(s, data, dateformat, now);
    if r.raised.Some? then r
    else
      var icon := if Alert(s.kind, data, now) == Some(true) then ALERT_ICON else NormalIcon(s.kind);
      Refresh(r.sensor.(icon := icon), None)
  }
}
