/** `RDWBinarySensor` of custom_components/home-assistant-rdw/binary_sensor.py: the insurance
    sensor over the newer `RDWEntity`. */
module BinarySensor {
  import opened Wrappers
  import opened Const
  import opened States
  import Entity

  /** `RDWBinarySensor.__init__`: the normal icon and no state. */
  function NewSensor(kind: string, name: string, plate: string): (s: Sensor)
    requires IsBinarySensorKind(kind)
    ensures s.kind == kind && s.name == name && s.plate == plate
    ensures s.icon == NormalIcon(kind) && s.icon != ALERT_ICON
    ensures s.state == Unset && s.attributes == map[]
  {
    Sensor(kind, name, plate, NormalIcon(kind), Unset, map[])
  }

  /** `RDWBinarySensor.async_update`: for the insurance sensor, `'Ja'` is on, `'Nee'` is off
      and raises the alert icon, anything else leaves the state unknown; the icon changes
      only for `'Nee'`. */
  function Update(s: Sensor, data: Entity.Vehicle): (r: Sensor)
    ensures r.kind == s.kind && r.name == s.name && r.plate == s.plate && r.attributes == map[]
    ensures r.state == Flag(true) <==> s.kind == INSURED && data.insured == Some("Ja")
    ensures r.state == Flag(false) <==> s.kind == INSURED && data.insured == Some("Nee")
    ensures !r.state.Flag? ==> r.state == Unknown
    ensures r.icon != s.icon ==> r.icon == ALERT_ICON
    ensures r.icon == ALERT_ICON <==> s.icon == ALERT_ICON || r.state == Flag(false)
  {
    var reset := s.(state := Unknown, attributes := map[]);
    if s.kind != INSURED then reset
    else match JaNee(data.insured)
      case Some(true) => reset.(state := Flag(true))
      case Some(false) => reset.(state := Flag(false), icon := ALERT_ICON)
      case None => reset
  }

  /** An update is decided by the insurance field alone: two updates over the same field
      agree. */
  lemma UpdateReadsInsuredOnly(s: Sensor, a: Entity.Vehicle, b: Entity.Vehicle)
    requires a.insured == b.insured
    ensures Update(s, a) == Update(s, b)
  {
  }

  /** The device this sensor belongs to, keyed by the plate in lower case. */
  function Device(s: Sensor): (id: (string, string))
    ensures id.0 == DOMAIN && id.1 == PlateId(s.plate)[3..]
  {
    PlateIdMatchesDevice(s.plate);
    DeviceIdentifier(s.plate)
  }
}
