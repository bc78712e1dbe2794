/** Configuration entries as the configuration flows handle them: dictionaries of loosely
    typed values, and the results a flow step hands back to Home Assistant. */
module Configs {
  import opened Errors

  /** A value in a configuration dictionary. A `timedelta` is kept in microseconds. */
  datatype Value = VNone | VStr(s: string) | VInt(i: int) | VPeriod(micros: int) | VList(items: seq<string>)

  type Config = map<string, Value>

  /** What a flow step returns: an abort, a form (with its errors), a new entry, or an
      exception that escapes the step. */
  datatype Step =
    | Abort(reason: string)
    | ShowForm(stepId: string, errors: map<string, string>)
    | CreateEntry(title: string, data: Config)
    | Crash(error: Exc)

  /** `int(td.total_seconds())`: whole seconds, truncated toward zero. */
  function WholeSeconds(micros: int): (s: int)
    ensures micros >= 0 ==> 0 <= s && s * 1000000 <= micros < (s + 1) * 1000000
    ensures micros < 0 ==> s <= 0 && (s - 1) * 1000000 < micros <= s * 1000000
  {
    if micros >= 0 then micros / 1000000 else -((-micros) / 1000000)
  }

  /** The title of an entry imported from configuration.yaml: the name when one is set,
      the plate otherwise, followed by `" (configuration.yaml)"`. */
  function ImportTitle(name: Value, plate: string): (title: string)
    requires name.VStr? || name.VNone?
    ensures name.VStr? ==> title == name.s + " (configuration.yaml)"
    ensures name.VNone? ==> title == plate + " (configuration.yaml)"
  {
    (if name.VStr? then name.s else plate) + " (configuration.yaml)"
  }

  /** The error key a user step reports for the exception that creating or updating the
      entity raised: `InvalidPlate` and `NotRegistered` have their own keys, every other
      exception is an unknown error. */
  function ErrorKey(e: Exc): (key: string)
    ensures key == "invalid_plate" <==> e == InvalidPlate
    ensures key == "not_registered" <==> e == NotRegistered
    ensures key == "unknown_error" <==> e != InvalidPlate && e != NotRegistered
  {
    if e == InvalidPlate then "invalid_plate"
    else if e == NotRegistered then "not_registered"
    else "unknown_error"
  }

  /** The `errors` dictionary of the user form after such an exception: one entry, under
      `"base"`. */
  function BaseErrors(e: Exc): (errors: map<string, string>)
    ensures errors.Keys == {"base"}
    ensures errors["base"] in {"invalid_plate", "not_registered", "unknown_error"}
    ensures errors["base"] == "invalid_plate" <==> e == InvalidPlate
    ensures errors["base"] == "not_registered" <==> e == NotRegistered
    ensures errors["base"] == "unknown_error" <==> e != InvalidPlate && e != NotRegistered
  {
    map["base" := ErrorKey(e)]
  }
}
