/** The configuration flow of custom_components/home-assistant-rdw/config_flow.py: importing
    an entry from configuration.yaml and the details step that names the car. */
module ConfigFlow {
  import opened Wrappers
  import opened Const
  import opened Calendar
  import opened Configs

  /** What the platform schema guarantees of an imported configuration: a plate, a scan
      interval as a `timedelta`, and a name that is a string or `None`. */
  predicate ImportSchema(config: Config) {
    && CONF_PLATE in config && config[CONF_PLATE].VStr?
    && CONF_SCAN_INTERVAL in config && config[CONF_SCAN_INTERVAL].VPeriod?
    && CONF_NAME in config && (config[CONF_NAME].VStr? || config[CONF_NAME].VNone?)
  }

  /** `async_step_import`: aborts when an entry with the plate as unique ID exists; otherwise
      stores the scan interval in whole seconds, adds `None` for a missing manufacturer or
      model, and creates the entry under the name (or the plate) marked as imported. */
  function ImportStep(config: Config, configuredIds: set<string>): (step: Step)
    requires ImportSchema(config)
    ensures step.Abort? <==> config[CONF_PLATE].s in configuredIds
    ensures step.Abort? ==> step.reason == "already_configured"
    ensures !step.Abort? ==> step.CreateEntry?
    ensures step.CreateEntry? ==>
      && step.title == ImportTitle(config[CONF_NAME], config[CONF_PLATE].s)
      && step.data.Keys == config.Keys + {CONF_MANUFACTURER, CONF_MODEL}
      && step.data[CONF_SCAN_INTERVAL] == VInt(WholeSeconds(config[CONF_SCAN_INTERVAL].micros))
      && (forall k :: k in config && k != CONF_SCAN_INTERVAL ==> step.data[k] == config[k])
      && (CONF_MANUFACTURER !in config ==> step.data[CONF_MANUFACTURER] == VNone)
      && (CONF_MODEL !in config ==> step.data[CONF_MODEL] == VNone)
  {
    var plate := config[CONF_PLATE].s;
    if plate in configuredIds then Abort("already_configured")
    else
      var data := config[CONF_SCAN_INTERVAL := VInt(WholeSeconds(config[CONF_SCAN_INTERVAL].micros))];
      var data := if CONF_MANUFACTURER in data then data else data[CONF_MANUFACTURER := VNone];
      var data := if CONF_MODEL in data then data else data[CONF_MODEL := VNone];
      CreateEntry(ImportTitle(config[CONF_NAME], plate), data)
  }

  /** Importing the same configuration twice creates one entry: once the plate is among the
      configured unique IDs, the import aborts. */
  lemma ImportOnce(config: Config, configuredIds: set<string>)
    requires ImportSchema(config)
    ensures ImportStep(config, configuredIds + {config[CONF_PLATE].s}) == Abort("already_configured")
  {
  }

  /** `user_input[CONF_DATEFORMAT] = DEFAULT_DATEFORMAT` when the form left it out. */
  function FillDateformat(input: Config): (filled: Config)
    ensures filled.Keys == input.Keys + {CONF_DATEFORMAT}
    ensures forall k :: k in input ==> filled[k] == input[k]
    ensures CONF_DATEFORMAT !in input ==> filled[CONF_DATEFORMAT] == VNone
  {
    if CONF_DATEFORMAT in input then input else input[CONF_DATEFORMAT := VNone]
  }

  /** What the details form can hand back: a name, and a date format only as a string. */
  predicate DetailsInput(input: Config) {
    CONF_NAME in input && input[CONF_NAME].VStr?
    && (CONF_DATEFORMAT in input ==> input[CONF_DATEFORMAT].VStr?)
  }

  /** The errors the details step collects: a date format `validate_dateformat` refuses. */
  function DetailsErrors(input: Config): (errors: map<string, string>)
    requires DetailsInput(input)
    ensures errors == map[] <==> CONF_DATEFORMAT !in input || ValidateDateformat(input[CONF_DATEFORMAT].s)
    ensures errors != map[] ==> errors == map["details" := "invalid_dateformat"]
  {
    if CONF_DATEFORMAT in input && !ValidateDateformat(input[CONF_DATEFORMAT].s)
    then
      var errors := map["details" := "invalid_dateformat"];
      assert "details" in errors;
      errors
    else map[]
  }

  /** `async_step_details`: shows the form when called without input; otherwise creates the
      entry from the configuration the user step collected, with the chosen name. The form
      of this release has no date-format field, and the collected errors are not used. */
  function DetailsStep(config: Config, input: Option<Config>): (step: Step)
    requires input.Some? ==> DetailsInput(input.value)
    ensures input.None? <==> step == ShowForm("details", map[])
    ensures input.Some? ==>
      && step.CreateEntry?
      && step.title == input.value[CONF_NAME].s
      && step.data.Keys == config.Keys + {CONF_NAME}
      && step.data[CONF_NAME] == input.value[CONF_NAME]
      && (forall k :: k in config && k != CONF_NAME ==> step.data[k] == config[k])
  {
    match input
    case None => ShowForm("details", map[])
    case Some(form) =>
      CreateEntry(form[CONF_NAME].s, config[CONF_NAME := form[CONF_NAME]])
  }
}
