/** The constants of const.py, and the two keys the sensors take from Home Assistant's own
    constants (`ATTR_ATTRIBUTION`, `ATTR_ID`). */
module Const {

  const DOMAIN := "rdw"
  const DATA_KEY := DOMAIN

  const ATTRIBUTION := "Data provided by RDW"
  const DEFAULT_ATTRIBUTION := "Data provided by RDW"
  const ATTR_ATTRIBUTION := "attribution"
  const ATTR_ID := "id"

  const CONF_PLATE := "plate"
  const CONF_NAME := "name"
  const CONF_DATEFORMAT := "dateformat"
  const CONF_SCAN_INTERVAL := "scan_interval"
  const CONF_MANUFACTURER := "manufacturer"
  const CONF_MODEL := "model"
  const CONF_BINARY_SENSORS := "binary_sensors"
  const CONF_SENSORS := "sensors"

  /** `DEFAULT_SCAN_INTERVAL = timedelta(hours=24)`, in whole seconds. */
  const DEFAULT_SCAN_SECONDS := 24 * 60 * 60

  /** `RESOURCE_RECALLINFO` up to its `{}` placeholder, which stands at the very end. */
  const RECALL_INFO_PREFIX := "https://terugroepregister.rdw.nl/Pages/Terugroepactie.aspx?mgpnummer="

  const EXPDATE := "expdate"
  const RECALL := "recall"
  const INSURED := "insured"

  const SENSOR_DEFAULTS := [EXPDATE, RECALL]
  const BINARY_SENSOR_DEFAULTS := [INSURED]

  const ALERT_ICON := "mdi:alert-outline"

  /** `SENSOR_TYPES` and `BINARY_SENSOR_TYPES`: the kinds the component offers. */
  predicate IsSensorKind(kind: string) { kind == EXPDATE || kind == RECALL }
  predicate IsBinarySensorKind(kind: string) { kind == INSURED }

  /** The icon a sensor starts with (index 1 of its `SENSOR_TYPES` row); index 2 is `ALERT_ICON`
      for every kind. */
  function NormalIcon(kind: string): string
    requires IsSensorKind(kind) || IsBinarySensorKind(kind)
  {
    if kind == EXPDATE then "mdi:calendar"
    else if kind == RECALL then "mdi:wrench"
    else "mdi:car"
  }
}
