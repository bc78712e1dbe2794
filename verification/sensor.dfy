/** `RDWSensor` of custom_components/home-assistant-rdw/sensor.py: the APK expiry sensor and
    the recall sensor over the newer `RDWEntity`. */
module Sensor {
  import opened Wrappers
  import opened Errors
  import opened Calendar
  import opened Const
  import opened States
  import Entity

  /** `RDWSensor.__init__`: the normal icon of the kind and no state. */
  function NewSensor(kind: string, name: string, plate: string): (s: Sensor)
    requires IsSensorKind(kind)
    ensures s.kind == kind && s.name == name && s.plate == plate
    ensures s.icon == NormalIcon(kind) && s.icon != ALERT_ICON
    ensures s.state == Unset && s.attributes == map[]
  {
    Sensor(kind, name, plate, NormalIcon(kind), Unset, map[])
  }

  /** The attributes Home Assistant reads: `device_state_attributes` builds them from the
      plate alone, so the attributes an update stores are never shown. */
  function ShownAttributes(s: Sensor): (a: map<string, string>)
    ensures a.Keys == {ATTR_ATTRIBUTION, ATTR_ID}
    ensures a[ATTR_ATTRIBUTION] == ATTRIBUTION && a[ATTR_ID] == PlateId(s.plate)
  {
    StateAttributes(s.plate)
  }

  /** `RDWSensor.async_update` as written. The expiry sensor takes its state from
      `get_apk_date` and then asks `is_apk_valid`, which raises `TypeError` when there is no
      expiry date; the recall sensor shows the number of recalls and their links. The icon
      only ever switches to the alert icon. */
  function Update(s: Sensor, data: Entity.Vehicle, dateformat: Option<string>, now: Instant): (r: Refresh)
    ensures r.sensor.kind == s.kind && r.sensor.name == s.name && r.sensor.plate == s.plate
    ensures s.kind == EXPDATE && data.expdate.None? ==>
      r == Refresh(s.(state := Unset, attributes := map[]), Some(TypeError))
    ensures s.kind == EXPDATE && data.expdate.Some? ==> match Strptime(RdwFormat, data.expdate.value)
      case None => r == Refresh(s.(state := Unknown, attributes := map[]), Some(ValueError))
      case Some(d) =>
        && r.raised.None?
        && r.sensor.state == ShowDate(d, dateformat)
        && r.sensor.icon == (if Expired(d, now) then ALERT_ICON else s.icon)
    ensures s.kind == RECALL ==>
      r.raised.None? &&
      (if data.recall.Some?
       then r.sensor.state == Count(data.recall.value) && r.sensor.attributes == data.attrs
            && r.sensor.icon == (if data.recall.value > 0 then ALERT_ICON else s.icon)
       else r.sensor == s.(state := Unknown, attributes := map[]))
    ensures s.kind != EXPDATE && s.kind != RECALL ==> r == Refresh(s.(state := Unknown, attributes := map[]), None)
  {
    var reset := s.(state := Unknown, attributes := map[]);
    if s.kind == EXPDATE then
      match Entity.ApkDate(data, dateformat)
      case Failure(e) => Refresh(reset, Some(e))
      case Success(state) =>
        var shown := reset.(state := state);
        match Entity.ApkValid(data, now)
        case Failure(e) => Refresh(shown, Some(e))
        case Success(valid) => Refresh(if valid then shown else shown.(icon := ALERT_ICON), None)
    else if s.kind == RECALL then
      if data.recall.None? then Refresh(reset, None)
      else
        var n := data.recall.value;
        var icon := if n > 0 then ALERT_ICON else s.icon;
        Refresh(reset.(state := Count(n), attributes := data.attrs, icon := icon), None)
    else Refresh(reset, None)
  }

  /** A vehicle without an expiry date makes every update of its expiry sensor raise. */
  lemma MissingExpdateRaises(s: Sensor, data: Entity.Vehicle, dateformat: Option<string>, now: Instant)
    requires s.kind == EXPDATE && data.expdate.None?
    ensures Update(s, data, dateformat, now).raised == Some(TypeError)
  {
  }

  /** `RDWSensor.async_update` as intended: the validity of the expiry date is only asked
      for when there is one, so a vehicle without one shows no date and keeps its icon. */
  function UpdateChecked(s: Sensor, data: Entity.Vehicle, dateformat: Option<string>, now: Instant): (r: Refresh)
    ensures r.raised.Some? ==>
      r.raised == Some(ValueError) && s.kind == EXPDATE
      && data.expdate.Some? && Strptime(RdwFormat, data.expdate.value).None?
    ensures s.kind == EXPDATE && data.expdate.None? ==>
      r == Refresh(s.(state := Unset, attributes := map[]), None)
    ensures !(s.kind == EXPDATE && data.expdate.None?) ==> r == Update(s, data, dateformat, now)
  {
    if s.kind == EXPDATE && data.expdate.None? then Refresh(s.(state := Unset, attributes := map[]), None)
    else Update(s, data, dateformat, now)
  }

  /** Without a date format the expiry sensor shows the RDW date with dashes after the year
      and the month. */
  lemma ExpdateShownIso(s: Sensor, data: Entity.Vehicle, now: Instant, d: Date)
    requires s.kind == EXPDATE && ValidDate(d) && data.expdate == Some(RdwText(d))
    ensures var t := RdwText(d);
      UpdateChecked(s, data, None, now).sensor.state == Text(t[..4] + "-" + t[4..6] + "-" + t[6..])
  {
    Entity.ApkDateIsIso(data, d);
    RdwRoundTrip(d);
  }
}
