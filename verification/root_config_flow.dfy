/** The configuration flow of the 2.9 release (config_flow.py at the top of the repository):
    duplicate detection through the entities registered in `hass.data`, the import step, the
    user step that looks the plate up and names the car, and the details step. */
module RootConfigFlow {
  import opened Wrappers
  import opened Errors
  import opened Ascii
  import opened Calendar
  import opened Const
  import opened Plates
  import opened Records
  import opened Configs
  import RootEntity
  import Entity

  /** `configured_instances`: the keys of `hass.data[DATA_KEY]` when the component has
      registered anything there, nothing otherwise. */
  function ConfiguredInstances<V>(hassData: map<string, map<string, V>>): (ids: set<string>)
    ensures DATA_KEY in hassData ==> ids == hassData[DATA_KEY].Keys
    ensures DATA_KEY !in hassData ==> ids == {}
  {
    if DATA_KEY in hassData then set k | k in hassData[DATA_KEY] else {}
  }

  /** What the platform schema guarantees of an imported configuration. */
  predicate ImportSchema(config: Config) {
    && CONF_PLATE in config && config[CONF_PLATE].VStr?
    && CONF_SCAN_INTERVAL in config && config[CONF_SCAN_INTERVAL].VPeriod?
    && CONF_NAME in config && (config[CONF_NAME].VStr? || config[CONF_NAME].VNone?)
  }

  /** `async_step_import`: aborts for a plate that is already configured; otherwise stores
      the scan interval in whole seconds and creates the entry under the name (or the plate)
      marked as imported. */
  function ImportStep<V>(config: Config, hassData: map<string, map<string, V>>): (step: Step)
    requires ImportSchema(config)
    ensures step.Abort? <==> config[CONF_PLATE].s in ConfiguredInstances(hassData)
    ensures step.Abort? ==> step.reason == "already_configured"
    ensures !step.Abort? ==>
      && step.CreateEntry?
      && step.title == ImportTitle(config[CONF_NAME], config[CONF_PLATE].s)
      && step.data.Keys == config.Keys
      && step.data[CONF_SCAN_INTERVAL] == VInt(WholeSeconds(config[CONF_SCAN_INTERVAL].micros))
      && (forall k :: k in config && k != CONF_SCAN_INTERVAL ==> step.data[k] == config[k])
  {
    var plate := config[CONF_PLATE].s;
    if plate in ConfiguredInstances(hassData) then Abort("already_configured")
    else
      var data := config[CONF_SCAN_INTERVAL := VInt(WholeSeconds(config[CONF_SCAN_INTERVAL].micros))];
      CreateEntry(ImportTitle(config[CONF_NAME], plate), data)
  }

  /** A user step's result, and the configuration it keeps for the details step. */
  datatype UserResult = UserResult(step: Step, config: Option<Config>)

  /** What the user form can hand back: the plate as a string. */
  predicate UserInput(input: Config) {
    CONF_PLATE in input && input[CONF_PLATE].VStr?
  }

  /** The end of `async_step_user` once the update is over: an exception it raised becomes
      an error on the form, and otherwise `create_name` decides between keeping plate and
      name and an escaping exception. */
  function AfterUpdate(plate: string, u: RootEntity.Updated): (r: UserResult)
    ensures r.config.Some? <==> r.step == ShowForm("details", map[])
    ensures !r.step.Abort?
    ensures r.step.ShowForm? && r.step.stepId == "user" ==> r.step.errors.Keys == {"base"}
    ensures u.outcome.Raised? ==> r.step == ShowForm("user", BaseErrors(u.outcome.error))
    ensures !u.outcome.Raised? && u.vehicle.model.None? ==> r.step == Crash(AttributeError)
    ensures r.config.Some? <==> !u.outcome.Raised? && u.vehicle.brand.Some? && u.vehicle.model.Some?
    ensures r.config.Some? ==>
      r.config.value == map[CONF_PLATE := VStr(plate),
                            CONF_NAME := VStr(RootEntity.CreateName(u.vehicle.brand.value, u.vehicle.model.value))]
  {
    if u.outcome.Raised? then UserResult(ShowForm("user", BaseErrors(u.outcome.error)), None)
    else match RootEntity.CreateNameOf(u.vehicle.brand, u.vehicle.model)
      case Failure(e) => UserResult(Crash(e), None)
      case Success(name) =>
        UserResult(ShowForm("details", map[]), Some(map[CONF_PLATE := VStr(plate), CONF_NAME := VStr(name)]))
  }

  /** The part of `async_step_user` after the duplicate check: the entity is created and
      updated once, and an exception from either becomes an error on the form. After an
      update that did not raise, `create_name` runs outside the `try`, so a missing brand or
      type escapes as an exception; otherwise the flow keeps plate and name and moves to the
      details form. */
  function LookUp(plate: string, apk: Fetch, recalls: Fetch): (r: UserResult)
    ensures r.config.Some? <==> r.step == ShowForm("details", map[])
    ensures !r.step.Abort?
    ensures r.step.ShowForm? && r.step.stepId == "user" ==> r.step.errors.Keys == {"base"}
    ensures !ValidatePlate(plate) ==> r.step == ShowForm("user", map["base" := "invalid_plate"])
    ensures ValidatePlate(plate) && (apk.FetchFailed? || recalls.FetchFailed?) ==> r.step == Crash(AttributeError)
    ensures ValidatePlate(plate) && apk.Fetched? && recalls.Fetched?
            && apk.data.Some? && apk.data.value != []
            && (recalls.data.Some? ==> forall i :: 0 <= i < |recalls.data.value| ==> WellFormed(recalls.data.value[i]))
            && Entity.MERK in apk.data.value[0] && Entity.HANDELSBENAMING in apk.data.value[0] ==>
              r.config.Some?
    ensures ValidatePlate(plate) && apk.Fetched? && recalls.Fetched?
            && (apk.data.None? || apk.data.value == []) ==>
              r.step == ShowForm("user", map["base" := "not_registered"])
    ensures ValidatePlate(plate) && apk.Fetched? && recalls.Fetched?
            && apk.data.Some? && apk.data.value != [] && recalls.data.Some?
            && !(forall i :: 0 <= i < |recalls.data.value| ==> WellFormed(recalls.data.value[i])) ==>
              r.step == ShowForm("user", map["base" := "unknown_error"])
    ensures r.config.Some? ==>
      && ValidatePlate(plate)
      && apk.Fetched? && apk.data.Some? && apk.data.value != []
      && Entity.MERK in apk.data.value[0] && Entity.HANDELSBENAMING in apk.data.value[0]
      && r.config.value == map[CONF_PLATE := VStr(plate),
                               CONF_NAME := VStr(RootEntity.CreateName(apk.data.value[0][Entity.MERK],
                                                                       apk.data.value[0][Entity.HANDELSBENAMING]))]
  {
    match RootEntity.Construct(plate)
    case Failure(e) => UserResult(ShowForm("user", BaseErrors(e)), None)
    case Success(v) => AfterUpdate(plate, RootEntity.Update(v, apk, recalls))
  }

  /** `async_step_user`. Without input it shows the form. Otherwise the plate is normalised,
      an already configured plate aborts, and the rest is `LookUp`. */
  function UserStep<V>(input: Option<Config>, hassData: map<string, map<string, V>>, apk: Fetch, recalls: Fetch): (r: UserResult)
    requires input.Some? ==> UserInput(input.value)
    ensures input.None? ==> r == UserResult(ShowForm("user", map[]), None)
    ensures r.config.Some? <==> r.step == ShowForm("details", map[])
    ensures input.Some? ==> var plate := NormalisePlate(input.value[CONF_PLATE].s);
      && (r.step.Abort? <==> plate in ConfiguredInstances(hassData))
      && (r.step.Abort? ==> r.step.reason == "already_configured")
      && (plate !in ConfiguredInstances(hassData) ==> r == LookUp(plate, apk, recalls))
    ensures r.step.ShowForm? && r.step.stepId == "user" && input.Some? ==> r.step.errors.Keys == {"base"}
    ensures r.config.Some? ==> var name := r.config.value[CONF_NAME];
      name.VStr? && IsTitled(name.s)
  {
    match input
    case None => UserResult(ShowForm("user", map[]), None)
    case Some(form) =>
      var plate := NormalisePlate(form[CONF_PLATE].s);
      if plate in ConfiguredInstances(hassData) then UserResult(Abort("already_configured"), None)
      else LookUp(plate, apk, recalls)
  }

  /** Typing a plate with dashes or in lower case makes no difference: the step sees the
      normalised plate either way. */
  lemma UserStepNormalised<V>(form: Config, hassData: map<string, map<string, V>>, apk: Fetch, recalls: Fetch)
    requires UserInput(form)
    ensures var normal := form[CONF_PLATE := VStr(NormalisePlate(form[CONF_PLATE].s))];
      UserStep(Some(normal), hassData, apk, recalls) == UserStep(Some(form), hassData, apk, recalls)
  {
    NormaliseIdempotent(form[CONF_PLATE].s);
  }

  /** What the details form can hand back: a name, a date format only as a string, and a
      scan interval only as whole seconds. */
  predicate DetailsInput(input: Config) {
    && CONF_NAME in input && input[CONF_NAME].VStr?
    && (CONF_DATEFORMAT in input ==> input[CONF_DATEFORMAT].VStr?)
    && (CONF_SCAN_INTERVAL in input ==> input[CONF_SCAN_INTERVAL].VInt?)
  }

  /** The errors the details step collects: a name that is already configured, then a date
      format `validate_dateformat` refuses, both under `"details"` (the later one wins). */
  function DetailsErrors(input: Config, configured: set<string>): (errors: map<string, string>)
    requires DetailsInput(input)
    ensures errors == map[] <==>
      input[CONF_NAME].s !in configured && (CONF_DATEFORMAT !in input || ValidateDateformat(input[CONF_DATEFORMAT].s))
    ensures errors != map[] ==> errors.Keys == {"details"}
    ensures CONF_DATEFORMAT in input && !ValidateDateformat(input[CONF_DATEFORMAT].s) ==>
      errors == map["details" := "invalid_dateformat"]
    ensures input[CONF_NAME].s in configured && (CONF_DATEFORMAT !in input || ValidateDateformat(input[CONF_DATEFORMAT].s)) ==>
      errors == map["details" := "name_already_configured"]
  {
    var named: map<string, string> := if input[CONF_NAME].s in configured then map["details" := "name_already_configured"] else map[];
    assert input[CONF_NAME].s in configured ==> "details" in named;
    if CONF_DATEFORMAT in input && !ValidateDateformat(input[CONF_DATEFORMAT].s)
    then
      var errors := named["details" := "invalid_dateformat"];
      assert "details" in errors;
      errors
    else named
  }

  /** The configuration a submitted details form produces: the name, the date format (`None`
      when left out), the scan interval in seconds (24 hours unless given), and the default
      sensor lists. */
  function DetailsConfig(config: Config, input: Config): (data: Config)
    requires DetailsInput(input)
    ensures data.Keys == config.Keys + {CONF_NAME, CONF_DATEFORMAT, CONF_SCAN_INTERVAL, CONF_BINARY_SENSORS, CONF_SENSORS}
    ensures data[CONF_NAME] == input[CONF_NAME]
    ensures data[CONF_DATEFORMAT] == (if CONF_DATEFORMAT in input then input[CONF_DATEFORMAT] else VNone)
    ensures data[CONF_SCAN_INTERVAL] == (if CONF_SCAN_INTERVAL in input then input[CONF_SCAN_INTERVAL] else VInt(DEFAULT_SCAN_SECONDS))
    ensures data[CONF_BINARY_SENSORS] == VList([INSURED]) && data[CONF_SENSORS] == VList([EXPDATE, RECALL])
    ensures forall k :: k in config && k !in {CONF_NAME, CONF_DATEFORMAT, CONF_SCAN_INTERVAL, CONF_BINARY_SENSORS, CONF_SENSORS} ==>
      data[k] == config[k]
  {
    var dateformat := if CONF_DATEFORMAT in input then input[CONF_DATEFORMAT] else VNone;
    var seconds := if CONF_SCAN_INTERVAL in input then input[CONF_SCAN_INTERVAL].i else DEFAULT_SCAN_SECONDS;
    config[CONF_NAME := input[CONF_NAME]][CONF_DATEFORMAT := dateformat][CONF_SCAN_INTERVAL := VInt(seconds)]
          [CONF_BINARY_SENSORS := VList(BINARY_SENSOR_DEFAULTS)][CONF_SENSORS := VList(SENSOR_DEFAULTS)]
  }

  /** `async_step_details` as written: without input it shows the form; with input it
      collects errors but creates the entry whatever they are. */
  function DetailsStep<V>(config: Config, input: Option<Config>, hassData: map<string, map<string, V>>): (step: Step)
    requires input.Some? ==> DetailsInput(input.value)
    ensures input.None? <==> step == ShowForm("details", map[])
    ensures input.Some? ==> step == CreateEntry(input.value[CONF_NAME].s, DetailsConfig(config, input.value))
  {
    match input
    case None => ShowForm("details", map[])
    case Some(form) =>
      var _ := DetailsErrors(form, ConfiguredInstances(hassData));
      CreateEntry(form[CONF_NAME].s, DetailsConfig(config, form))
  }

  /** A date format `validate_dateformat` refuses still ends up in the new entry. */
  lemma DetailsStoresRefusedDateformat()
    ensures var form := map[CONF_NAME := VStr("Car"), CONF_DATEFORMAT := VStr("2020-2-03")];
      var step := DetailsStep<int>(map[], Some(form), map[]);
      && DetailsErrors(form, {}) == map["details" := "invalid_dateformat"]
      && step.CreateEntry?
      && step.data[CONF_DATEFORMAT] == VStr("2020-2-03")
  {
    UnpaddedMonthRefused();
  }

  /** `async_step_details` as its error checks intend: a form with errors is shown again
      with them, and only an error-free form creates the entry. */
  function DetailsStepChecked<V>(config: Config, input: Option<Config>, hassData: map<string, map<string, V>>): (step: Step)
    requires input.Some? ==> DetailsInput(input.value)
    ensures input.None? ==> step == ShowForm("details", map[])
    ensures step.CreateEntry? ==>
      && input.Some?
      && input.value[CONF_NAME].s !in ConfiguredInstances(hassData)
      && CONF_DATEFORMAT in step.data
      && (step.data[CONF_DATEFORMAT] == VNone
          || (step.data[CONF_DATEFORMAT].VStr? && ValidateDateformat(step.data[CONF_DATEFORMAT].s)))
    ensures input.Some? && DetailsErrors(input.value, ConfiguredInstances(hassData)) == map[] ==>
      step == DetailsStep(config, input, hassData)
    ensures input.Some? && DetailsErrors(input.value, ConfiguredInstances(hassData)) != map[] ==>
      step == ShowForm("details", DetailsErrors(input.value, ConfiguredInstances(hassData)))
  {
    match input
    case None => ShowForm("details", map[])
    case Some(form) =>
      var errors := DetailsErrors(form, ConfiguredInstances(hassData));
      if errors != map[] then ShowForm("details", errors)
      else CreateEntry(form[CONF_NAME].s, DetailsConfig(config, form))
  }
}
