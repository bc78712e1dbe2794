/** The 1.0 platform custom-components/sensor/rdw.py: `RDWSensorData` reads one APK record
    over HTTP, and each `RDWSensor` shows one of its fields. */
module LegacySensor {
  import opened Wrappers
  import opened Ascii
  import opened Calendar
  import opened Const
  import opened Records
  import opened States

  const RECALL_INDICATOR := "openstaande_terugroepactie_indicator"

  /** The decoded body of an HTTP response: not JSON, or a JSON array of records. */
  datatype Body = Unparsable | Rows(rows: seq<Record>)

  /** The outcome of `Session.get`: it raised, or it returned a status code and a body. */
  datatype Response = ConnectError | Http(status: int, body: Body)

  /** `get_data_from_api`: the first record of a 200 response, and `None` when the request
      fails, the status is anything else, or the body holds no first record. */
  function GetDataFromApi(resp: Response): (rec: Option<Record>)
    ensures rec.Some? <==> resp.Http? && resp.status == 200 && resp.body.Rows? && resp.body.rows != []
    ensures rec.Some? ==> rec.value == resp.body.rows[0]
  {
    match resp
    case ConnectError => None
    case Http(status, body) =>
      if status != 200 then None
      else match body
        case Rows(rows) => if rows != [] then Some(rows[0]) else None
        case Unparsable => None
  }

  /** The fields of `RDWSensorData`. `attrs` is only ever reset. */
  datatype Data = Data(expdate: Option<Date>, insured: Option<string>, recall: Option<string>, attrs: map<string, string>)

  /** The expiry date of a record, read with `'%d/%m/%Y'`; missing or unreadable is `None`. */
  function ExpiryDate(rec: Record): (d: Option<Date>)
    ensures d.Some? ==> ValidDate(d.value)
    ensures d.Some? <==> "vervaldatum_apk" in rec && Strptime(DmyFormat, rec["vervaldatum_apk"]).Some?
  {
    if "vervaldatum_apk" in rec then Strptime(DmyFormat, rec["vervaldatum_apk"]) else None
  }

  /** The expiry date RDW wrote as `DD/MM/YYYY` is read back exactly. */
  lemma ExpiryDateRoundTrip(rec: Record, d: Date)
    requires ValidDate(d) && "vervaldatum_apk" in rec && rec["vervaldatum_apk"] == DmyText(d)
    ensures ExpiryDate(rec) == Some(d)
  {
    DmyRoundTrip(d);
  }

  /** `RDWSensorData.update` as written: every field is reset, then filled from the record
      when there is one. When the recall indicator is missing, its `except` clause clears
      `insured` instead of `recall`. */
  function RefreshData(resp: Response): (data: Data)
    ensures data.attrs == map[]
    ensures GetDataFromApi(resp).None? ==> data == Data(None, None, None, map[])
    ensures GetDataFromApi(resp).Some? ==> var rec := GetDataFromApi(resp).value;
      && data.expdate == ExpiryDate(rec)
      && (data.recall.Some? <==> RECALL_INDICATOR in rec)
      && (data.insured.Some? <==> RECALL_INDICATOR in rec && "wam_verzekerd" in rec)
  {
    match GetDataFromApi(resp)
    case None => Data(None, None, None, map[])
    case Some(rec) =>
      var insured := if "wam_verzekerd" in rec then Some(rec["wam_verzekerd"]) else None;
      if RECALL_INDICATOR in rec then Data(ExpiryDate(rec), insured, Some(rec[RECALL_INDICATOR]), map[])
      else Data(ExpiryDate(rec), None, None, map[])
  }

  /** `RDWSensorData.update` with each `except` clause clearing its own field. */
  function RefreshDataIntended(resp: Response): (data: Data)
    ensures data.attrs == map[]
    ensures GetDataFromApi(resp).None? ==> data == Data(None, None, None, map[])
    ensures GetDataFromApi(resp).Some? ==> var rec := GetDataFromApi(resp).value;
      && data.expdate == ExpiryDate(rec)
      && (data.insured.Some? <==> "wam_verzekerd" in rec)
      && (data.insured.Some? ==> data.insured.value == rec["wam_verzekerd"])
      && (data.recall.Some? <==> RECALL_INDICATOR in rec)
      && (data.recall.Some? ==> data.recall.value == rec[RECALL_INDICATOR])
    ensures GetDataFromApi(resp).Some? && RECALL_INDICATOR in GetDataFromApi(resp).value ==>
      data == RefreshData(resp)
  {
    match GetDataFromApi(resp)
    case None => Data(None, None, None, map[])
    case Some(rec) =>
      var insured := if "wam_verzekerd" in rec then Some(rec["wam_verzekerd"]) else None;
      var recall := if RECALL_INDICATOR in rec then Some(rec[RECALL_INDICATOR]) else None;
      Data(ExpiryDate(rec), insured, recall, map[])
  }

  /** A record that says the car is insured but carries no recall indicator leaves the
      insurance unknown. */
  lemma InsuranceLostWithoutIndicator()
    ensures var rec := map["wam_verzekerd" := "Ja"];
      var resp := Http(200, Rows([rec]));
      && RefreshData(resp).insured == None
      && RefreshDataIntended(resp).insured == Some("Ja")
  {
    var rec := map["wam_verzekerd" := "Ja"];
    assert RECALL_INDICATOR !in rec;
  }

  /** `setup_platform`: one sensor per configured kind, all for the upper-cased plate. */
  function SetupSensors(name: string, plate: string, kinds: seq<string>): (sensors: seq<Sensor>)
    requires forall i :: 0 <= i < |kinds| ==> IsSensorKind(kinds[i]) || IsBinarySensorKind(kinds[i])
    ensures |sensors| == |kinds|
    ensures forall i :: 0 <= i < |sensors| ==>
      && sensors[i].kind == kinds[i] && sensors[i].name == name && sensors[i].plate == Upper(plate)
      && sensors[i].icon == NormalIcon(kinds[i]) && sensors[i].state == Unset
      && sensors[i].attributes == map[ATTR_ATTRIBUTION := DEFAULT_ATTRIBUTION]
  {
    seq(|kinds|, i requires 0 <= i < |kinds| && (IsSensorKind(kinds[i]) || IsBinarySensorKind(kinds[i])) =>
      Sensor(kinds[i], name, Upper(plate), NormalIcon(kinds[i]), Unset, map[ATTR_ATTRIBUTION := DEFAULT_ATTRIBUTION]))
  }

  /** The value a sensor of the given kind reads from the data: the expiry date, or the
      insurance or recall field read as yes/no. */
  function Reading(kind: string, data: Data): (v: Option<State>)
    ensures kind == EXPDATE ==> (v.Some? <==> data.expdate.Some?)
    ensures kind == EXPDATE && data.expdate.Some? ==> v == Some(DateValue(data.expdate.value))
    ensures kind != EXPDATE ==> (v.None? <==> JaNee(if kind == INSURED then data.insured else data.recall).None?)
    ensures kind == INSURED ==>
      && (v == Some(Flag(true)) <==> data.insured == Some("Ja"))
      && (v == Some(Flag(false)) <==> data.insured == Some("Nee"))
    ensures kind == RECALL ==>
      && (v == Some(Flag(true)) <==> data.recall == Some("Ja"))
      && (v == Some(Flag(false)) <==> data.recall == Some("Nee"))
  {
    if kind == EXPDATE then (if data.expdate.Some? then Some(DateValue(data.expdate.value)) else None)
    else
      var flag := if kind == INSURED then JaNee(data.insured) else JaNee(data.recall);
      if flag.Some? then Some(Flag(flag.value)) else None
  }

  /** A sensor and the shared data after `RDWSensor.update`. */
  datatype Updated = Updated(sensor: Sensor, data: Data)

  /** `RDWSensor.update`: refreshes the shared data (unless the throttle skips it, given as
      `None`), then shows the sensor's reading. Without a reading the attributes are
      emptied and the previous state stays. */
  function Update(s: Sensor, data: Data, resp: Option<Response>): (r: Updated)
    requires IsSensorKind(s.kind) || IsBinarySensorKind(s.kind)
    ensures r.data == (if resp.Some? then RefreshData(resp.value) else data)
    ensures r.sensor.kind == s.kind && r.sensor.name == s.name && r.sensor.plate == s.plate && r.sensor.icon == s.icon
    ensures Reading(s.kind, r.data).None? ==> r.sensor.state == s.state && r.sensor.attributes == map[]
    ensures Reading(s.kind, r.data).Some? ==>
      r.sensor.state == Reading(s.kind, r.data).value && r.sensor.attributes == r.data.attrs
  {
    var current := if resp.Some? then RefreshData(resp.value) else data;
    match Reading(s.kind, current)
    case None => Updated(s.(attributes := map[]), current)
    case Some(value) => Updated(s.(state := value, attributes := current.attrs), current)
  }

  /** After any refreshed update a sensor shows no attributes: the data never fills them. */
  lemma RefreshedAttributesEmpty(s: Sensor, data: Data, resp: Response)
    requires IsSensorKind(s.kind) || IsBinarySensorKind(s.kind)
    ensures Update(s, data, Some(resp)).sensor.attributes == map[]
  {
  }

  /** An expiry date RDW wrote as `DD/MM/YYYY` becomes the expiry sensor's state. */
  lemma ExpdateShown(s: Sensor, data: Data, rec: Record, d: Date)
    requires s.kind == EXPDATE && ValidDate(d)
    requires "vervaldatum_apk" in rec && rec["vervaldatum_apk"] == DmyText(d)
    ensures Update(s, data, Some(Http(200, Rows([rec])))).sensor.state == DateValue(d)
  {
    ExpiryDateRoundTrip(rec, d);
  }
}
