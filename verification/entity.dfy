/** `RDWEntity` of custom_components/home-assistant-rdw/__init__.py: the vehicle record the
    sensors read, how a configuration entry creates it, and how one update refills it from
    the APK and recall endpoints. */
module Entity {
  import opened Wrappers
  import opened Errors
  import opened Ascii
  import opened Calendar
  import opened Const
  import opened Plates
  import opened Records
  import opened Configs
  import opened States

  const MERK := "merk"
  const HANDELSBENAMING := "handelsbenaming"
  const VERVALDATUM_APK := "vervaldatum_apk"
  const WAM_VERZEKERD := "wam_verzekerd"

  /** The fields of an `RDWEntity` that the sensors and the configuration flow read. */
  datatype Vehicle = Vehicle(
    plate: string,
    manufacturer: Option<string>,
    model: Option<string>,
    name: Option<string>,
    expdate: Option<string>,
    insured: Option<string>,
    recall: Option<nat>,
    attrs: map<string, string>)

  /** A freshly constructed entity, with the entry data and options it wrote back. */
  datatype Setup = Setup(vehicle: Vehicle, data: Config, options: Config)

  /** `RDWEntity.__init__`: reads the plate from the entry data, refuses it with
      `InvalidPlate` unless it is six letters and digits, and moves the date format from
      the data into the options when the entry has no options yet. */
  function Construct(data: Config, options: Config): (r: Result<Setup, Exc>)
    ensures CONF_PLATE !in data ==> r == Failure(KeyError(CONF_PLATE))
    ensures r.Success? <==> CONF_PLATE in data && data[CONF_PLATE].VStr? && ValidatePlate(data[CONF_PLATE].s)
    ensures CONF_PLATE in data && data[CONF_PLATE].VStr? && !ValidatePlate(data[CONF_PLATE].s)
            ==> r == Failure(InvalidPlate)
    ensures r.Success? ==> var v := r.value.vehicle;
      && v.plate == data[CONF_PLATE].s
      && v.manufacturer.None? && v.model.None? && v.name.None? && v.expdate.None?
      && v.insured.None? && v.recall.None? && v.attrs == map[]
    ensures r.Success? && options != map[] ==> r.value.data == data && r.value.options == options
    ensures r.Success? && options == map[] ==>
      && r.value.data == data - {CONF_DATEFORMAT}
      && r.value.options == map[CONF_DATEFORMAT := if CONF_DATEFORMAT in data then data[CONF_DATEFORMAT] else VNone]
  {
    if CONF_PLATE !in data then Failure(KeyError(CONF_PLATE))
    else match data[CONF_PLATE]
      case VStr(plate) =>
        if !ValidatePlate(plate) then Failure(InvalidPlate)
        else
          var v := Vehicle(plate, None, None, None, None, None, None, map[]);
          if options != map[] then Success(Setup(v, data, options))
          else
            // DEFAULT_DATEFORMAT is None
            var format := if CONF_DATEFORMAT in data then data[CONF_DATEFORMAT] else VNone;
            Success(Setup(v, data - {CONF_DATEFORMAT}, map[CONF_DATEFORMAT := format]))
      // len() of a list works, so a six-element list reaches `.isalnum()`
      case VList(items) => if |items| == 6 then Failure(AttributeError) else Failure(InvalidPlate)
      // len() of None, an int or a timedelta raises
      case _ => Failure(TypeError)
  }

  /** What `'{}'.format(x)` writes for an optional string. */
  function Show(x: Option<string>): string {
    match x
    case Some(s) => s
    case None => "None"
  }

  /** `dict.get` in the shape of the `try: x = d[k] except: x = None` blocks. */
  function Field(rec: Record, key: string): Option<string> {
    if key in rec then Some(rec[key]) else None
  }

  /** Manufacturer, model and name from the first APK row. */
  function Manufacturer(rec: Record): (m: Option<string>)
    ensures m.Some? <==> MERK in rec
    ensures m.Some? ==> IsTitled(m.value) && Lower(m.value) == Lower(rec[MERK])
  {
    if MERK in rec then
      TitleIdempotent(rec[MERK]);
      LowerTitle(rec[MERK]);
      Some(Title(rec[MERK]))
    else None
  }

  /** The trade name with every occurrence of the brand removed, in title case. */
  function Model(rec: Record): (m: Option<string>)
    ensures m.Some? <==> MERK in rec && HANDELSBENAMING in rec
    ensures m.Some? ==> IsTitled(m.value) && |m.value| <= |rec[HANDELSBENAMING]|
    ensures m.Some? ==> Lower(m.value) == Lower(RemoveAll(rec[HANDELSBENAMING], rec[MERK]))
    ensures m.Some? && !Contains(rec[HANDELSBENAMING], rec[MERK]) ==> m.value == Title(rec[HANDELSBENAMING])
  {
    if MERK in rec && HANDELSBENAMING in rec then
      var hb := rec[HANDELSBENAMING];
      TitleIdempotent(RemoveAll(hb, rec[MERK]));
      LowerTitle(RemoveAll(hb, rec[MERK]));
      assert !Contains(hb, rec[MERK]) ==> RemoveAll(hb, rec[MERK]) == hb by {
        if !Contains(hb, rec[MERK]) { RemoveAllAbsent(hb, rec[MERK]); }
      }
      Some(Title(RemoveAll(hb, rec[MERK])))
    else None
  }

  /** The brand is cut out of the trade name where it stands: the text before its first
      occurrence and the text after it are kept, and only their join is title-cased. */
  lemma ModelDropsBrand(rec: Record, before: string, after: string)
    requires MERK in rec && HANDELSBENAMING in rec && rec[MERK] != ""
    requires rec[HANDELSBENAMING] == before + rec[MERK] + after
    requires forall i :: 0 <= i < |before| ==> !OccursAt(rec[HANDELSBENAMING], rec[MERK], i)
    requires !Contains(after, rec[MERK])
    ensures Model(rec) == Some(Title(before + after))
  {
    var hb := rec[HANDELSBENAMING];
    var merk := rec[MERK];
    RemoveAllKeepsPrefix(hb, merk, |before|);
    assert hb[..|before|] == before && hb[|before|..] == merk + after;
    RemoveAllLeading(merk, after);
    RemoveAllAbsent(after, merk);
  }

  /** A trade name that starts with the brand loses it, and nothing else: with brand
      `VOLKSWAGEN`, the trade name `VOLKSWAGEN GOLF` gives ` Golf`, leading space included. */
  lemma ModelDropsLeadingBrand(rec: Record, rest: string)
    requires MERK in rec && HANDELSBENAMING in rec && rec[MERK] != ""
    requires rec[HANDELSBENAMING] == rec[MERK] + rest && !Contains(rest, rec[MERK])
    ensures Model(rec) == Some(Title(rest))
  {
    assert rec[HANDELSBENAMING] == [] + rec[MERK] + rest;
    assert [] + rest == rest;
    ModelDropsBrand(rec, [], rest);
  }

  /** `'{} {}'.format(manufacturer, model).title()` when either is known; a missing half
      is written as `None`. */
  function CarName(manufacturer: Option<string>, model: Option<string>): (n: Option<string>)
    ensures n.None? <==> manufacturer.None? && model.None?
    ensures n.Some? ==> IsTitled(n.value) && Lower(n.value) == Lower(Show(manufacturer) + " " + Show(model))
  {
    if manufacturer.Some? || model.Some? then
      TitleIdempotent(Show(manufacturer) + " " + Show(model));
      LowerTitle(Show(manufacturer) + " " + Show(model));
      Some(Title(Show(manufacturer) + " " + Show(model)))
    else None
  }

  /** The result of `RDWEntity.async_update`: the entity afterwards and how the call ended. */
  datatype Updated = Updated(vehicle: Vehicle, outcome: Outcome)

  /** `RDWEntity.async_update`. The attributes are cleared first; a failed request makes the
      call return false; an empty APK result raises `NotRegistered`; otherwise the fields are
      taken from the first APK row and the recall rows are scanned. */
  function Update(v: Vehicle, apk: Fetch, recalls: Fetch): (r: Updated)
    ensures r.vehicle.plate == v.plate
    ensures apk.FetchFailed? || recalls.FetchFailed? ==>
      r == Updated(v.(attrs := map[]), Returned(false))
    ensures apk.Fetched? && recalls.Fetched? && (apk.data.None? || apk.data.value == []) ==>
      r == Updated(v.(attrs := map[]), Raised(NotRegistered))
    ensures r.outcome != Returned(false) && r.outcome != Raised(NotRegistered) ==>
      var rec := apk.data.value[0];
      && r.vehicle.manufacturer == Manufacturer(rec)
      && r.vehicle.model == Model(rec)
      && (r.vehicle.name.None? <==> r.vehicle.manufacturer.None? && r.vehicle.model.None?)
      && r.vehicle.expdate == Field(rec, VERVALDATUM_APK)
      && r.vehicle.insured == Field(rec, WAM_VERZEKERD)
    ensures r.outcome == Returned(true) ==>
      && r.vehicle.recall == Some(|r.vehicle.attrs|)
      && (recalls.data.None? ==> r.vehicle.attrs == map[])
      && (recalls.data.Some? ==> r.vehicle.attrs.Keys == OpenKeys(recalls.data.value)
                                 && |r.vehicle.attrs| <= |OpenRows(recalls.data.value)|)
    ensures r.outcome.Raised? && r.outcome.error.KeyError? ==>
      recalls.data.Some? && exists i :: 0 <= i < |recalls.data.value| && !WellFormed(recalls.data.value[i])
    ensures apk.Fetched? && recalls.Fetched? && apk.data.Some? && apk.data.value != [] ==>
      (r.outcome == Returned(true) <==>
         recalls.data.None? || forall i :: 0 <= i < |recalls.data.value| ==> WellFormed(recalls.data.value[i]))
    ensures r.outcome != Returned(false) && r.outcome != Raised(NotRegistered) ==>
      r.vehicle.name == CarName(r.vehicle.manufacturer, r.vehicle.model)
    ensures r.outcome == Returned(true) && recalls.data.Some? ==> r.vehicle.attrs == ScanRecalls(recalls.data.value).attrs
  {
    var cleared := v.(attrs := map[]);
    if apk.FetchFailed? || recalls.FetchFailed? then Updated(cleared, Returned(false))
    else if apk.data.None? || apk.data.value == [] then Updated(cleared, Raised(NotRegistered))
    else
      var rec := apk.data.value[0];
      var manufacturer := Manufacturer(rec);
      var model := Model(rec);
      var filled := cleared.(manufacturer := manufacturer, model := model,
                             name := CarName(manufacturer, model),
                             expdate := Field(rec, VERVALDATUM_APK),
                             insured := Field(rec, WAM_VERZEKERD));
      if recalls.data.None? then Updated(filled.(recall := Some(0)), Returned(true))
      else
        var rows := recalls.data.value;
        var scan := ScanRecalls(rows);
        if scan.missing.Some? then Updated(filled.(attrs := scan.attrs), Raised(KeyError(scan.missing.value)))
        else
          ScanKeys(rows);
          ScanCount(rows);
          Updated(filled.(attrs := scan.attrs, recall := Some(|scan.attrs|)), Returned(true))
  }

  /** After a successful update the recall attributes are keyed by the lower-cased references
      of the open rows, and each holds the link of the last open row with its key. */
  lemma UpdateRecallLinks(v: Vehicle, apk: Fetch, recalls: Fetch)
    requires apk.Fetched? && apk.data.Some? && apk.data.value != []
    requires recalls.Fetched? && recalls.data.Some?
    requires forall i :: 0 <= i < |recalls.data.value| ==> WellFormed(recalls.data.value[i])
    ensures Update(v, apk, recalls).outcome == Returned(true)
    ensures var attrs := Update(v, apk, recalls).vehicle.attrs;
            var rows := recalls.data.value;
      && attrs.Keys == OpenKeys(rows)
      && forall k :: k in attrs ==> exists i :: LastWithKey(rows, i, k) && attrs[k] == RecallUrl(rows[i][REFERENCE])
  {
    ScanLastWins(recalls.data.value);
  }

  /** `get_apk_date`: no date when there is no expiry date; otherwise the RDW date read with
      `'%Y%m%d'` (a `ValueError` when it does not parse) and shown as the date format asks. */
  function ApkDate(v: Vehicle, dateformat: Option<string>): (r: Result<State, Exc>)
    ensures v.expdate.None? ==> r == Success(Unset)
    ensures v.expdate.Some? ==> match Strptime(RdwFormat, v.expdate.value)
      case None => r == Failure(ValueError)
      case Some(d) => r == Success(ShowDate(d, dateformat))
    ensures r.Success? && dateformat.None? ==> r.value.Unset? || (r.value.Text? && ValidateDateformat(r.value.text))
  {
    if v.expdate.None? then Success(Unset)
    else match Strptime(RdwFormat, v.expdate.value)
      case None => Failure(ValueError)
      case Some(d) => Success(ShowDate(d, dateformat))
  }

  /** An RDW date comes out of `get_apk_date`, without a date format, as the same digits
      with dashes after the year and the month. */
  lemma ApkDateIsIso(v: Vehicle, d: Date)
    requires ValidDate(d)
    requires v.expdate == Some(RdwText(d))
    ensures var s := RdwText(d);
      ApkDate(v, None) == Success(Text(s[..4] + "-" + s[4..6] + "-" + s[6..]))
  {
    RdwRoundTrip(d);
  }

  /** `is_apk_valid`: the expiry date has not passed. Reading a missing expiry date raises
      `TypeError`, an unreadable one `ValueError`. */
  function ApkValid(v: Vehicle, now: Instant): (r: Result<bool, Exc>)
    ensures v.expdate.None? <==> r == Failure(TypeError)
    ensures v.expdate.Some? ==> match Strptime(RdwFormat, v.expdate.value)
      case None => r == Failure(ValueError)
      case Some(d) => r == Success(!Expired(d, now))
  {
    if v.expdate.None? then Failure(TypeError)
    else match Strptime(RdwFormat, v.expdate.value)
      case None => Failure(ValueError)
      case Some(d) => Success(!Expired(d, now))
  }
}
