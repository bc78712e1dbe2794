# RDW integration for Home Assistant — a Dafny model of its data handling

The RDW integration shows facts about cars registered in the Netherlands. It reads them
from the open-data service of the RDW, the Dutch vehicle authority. For one licence plate
it reports three things:

- the APK expiry date (the periodic road-worthiness test);
- whether the car is insured (WAM);
- the open recalls.

The repository holds three generations of the component:

- **1.0 platform** (`custom-components/sensor/rdw.py`): one HTTP request per refresh, and
  sensors that read its first record.
- **2.9 release** (`__init__.py`, `config_flow.py`, `sensor.py` at the top level): an
  `RDWEntity` that queries two Socrata datasets, a configuration flow, and an expiry and a
  recall sensor.
- **current component** (`custom_components/home-assistant-rdw/`): the same entity with
  manufacturer, model and name derived from the APK record. It adds a binary insurance
  sensor and keeps the date format in the entry options.

The model covers the pure data handling between the RDW JSON and what Home Assistant shows:

- plate validation and normalisation;
- the fields an update extracts, and the recall scan;
- `create_name` and the `str.title` casing it relies on;
- the date handling: `strptime` with `%Y%m%d`, `%Y-%m-%d` and `%d/%m/%Y`, `isoformat`, and
  the `validate_dateformat` round trip;
- the configuration-flow steps: import, user and details;
- the way each sensor maps the entity to its state, icon, name, unique ID and attributes.

Every Python operation is a pure Dafny function. Each takes the entity or record it reads
and returns the new value, together with the exception the Python code would let escape
(`Errors.Outcome`, `States.Refresh`, `Configs.Step.Crash`). These are parameters:

- the fetched data (`Records.Fetch`, `LegacySensor.Response`);
- the clock (`Calendar.Instant`);
- the entries already configured (a set of IDs, or the `hass.data` map).

## Model

| member | source | states |
|---|---|---|
| `Ascii.Upper` | custom_components/home-assistant-rdw/config_flow.py:105 | `str.upper` keeps the length, leaves no lower-case letter and capitalises exactly the lower-case letters |
| `Ascii.Lower` | custom_components/home-assistant-rdw/__init__.py:311 | `str.lower` keeps the length, leaves no capital and lower-cases exactly the capitals |
| `Ascii.UpperFixesUpperCase` | custom_components/home-assistant-rdw/config_flow.py:105 | upper-casing a string without lower-case letters changes nothing |
| `Ascii.UpperCons` | custom_components/home-assistant-rdw/config_flow.py:105 | `str.upper` works character by character: upper-casing `c + s` gives the capital of `c` followed by the upper-cased `s` |
| `Ascii.Title` | custom_components/home-assistant-rdw/__init__.py:279 | each letter of `str.title` is a capital exactly when no letter precedes it; other characters are kept |
| `Ascii.TitleFixedPointIffTitled` | custom_components/home-assistant-rdw/__init__.py:292 | `title(s) == s` holds exactly when `s` is already in title case |
| `Ascii.TitleIdempotent` | custom_components/home-assistant-rdw/__init__.py:279-292 | every `title` result is in title case, and applying `title` twice is the same as once |
| `Ascii.LowerTitle` | custom_components/home-assistant-rdw/__init__.py:279-292 | `title` changes only the case: lower-casing its result gives the lower-cased input |
| `Ascii.TitledUnique` | custom_components/home-assistant-rdw/__init__.py:279-292 | a text in title case that equals `s` up to case is `title(s)` itself |
| `Ascii.TitleAroundSpace` | __init__.py:298-299 | titling `a + " " + b` titles `a` and `b` separately, because the space starts a new word |
| `Ascii.RemoveAll` | custom_components/home-assistant-rdw/__init__.py:285 | `replace(pat, '')` never lengthens the text and adds no character; a one-character pattern leaves no copy of itself |
| `Ascii.RemoveAllAbsent` | custom_components/home-assistant-rdw/__init__.py:285 | when the pattern does not occur, `replace(pat, '')` returns the text unchanged |
| `Ascii.RemoveAllLeading` | custom_components/home-assistant-rdw/__init__.py:285 | an occurrence of the pattern at the start of the text is dropped and the scan goes on after it |
| `Ascii.RemoveAllKeepsPrefix` | custom_components/home-assistant-rdw/__init__.py:285 | a prefix in which no occurrence of the pattern starts is kept unchanged, and the scan goes on after it |
| `Ascii.RemoveAllCharCons` | custom_components/home-assistant-rdw/config_flow.py:105 | removing a one-character pattern drops each copy of that character and keeps every other character in order |
| `Plates.ValidatePlate` | custom_components/home-assistant-rdw/__init__.py:329-336 | a plate passes exactly when it has six characters, each an ASCII letter or digit; so a passing plate has no dash or space |
| `Plates.NormalisePlate` | custom_components/home-assistant-rdw/config_flow.py:105 | the normalised plate has no `-`, no lower-case letter, no character the upper-cased input lacks, and is no longer than the input |
| `Plates.NormalisePlateCons` | custom_components/home-assistant-rdw/config_flow.py:105 | the normalisation works character by character: a dash is dropped and every other character is upper-cased, in order |
| `Plates.NormaliseIdempotent` | config_flow.py:105 | normalising a normalised plate changes nothing |
| `Plates.NormalisePreservesValid` | custom_components/home-assistant-rdw/__init__.py:329-336 | a plate that passes `validate_plate` only gets capitalised by the normalisation, and still passes |
| `Calendar.DaysInMonth` | custom_components/home-assistant-rdw/config_flow.py:230 | February has 29 days exactly in Gregorian leap years and 28 otherwise; April, June, September and November have 30; every other month has 31 |
| `Calendar.FormatIso` | custom_components/home-assistant-rdw/__init__.py:344 | `isoformat()` is ten characters, digits around dashes at positions 4 and 7, and the three fields read back as year, month and day |
| `Calendar.Strptime` | custom_components/home-assistant-rdw/__init__.py:340 | a `strptime` result is always a valid calendar date with a year from 1 to 9999 |
| `Calendar.IsoRoundTrip` | custom_components/home-assistant-rdw/config_flow.py:230 | `strptime('%Y-%m-%d')` reads the ISO rendering of any valid date back as that date |
| `Calendar.IsoDigits` | custom_components/home-assistant-rdw/__init__.py:344 | each character of the ISO rendering is the digit of the year, month or day it stands for |
| `Calendar.IsoTextOf` | custom_components/home-assistant-rdw/__init__.py:344 | a ten-character text carrying a date's digits around two dashes is exactly that date's ISO rendering |
| `Calendar.RdwRoundTrip` | custom_components/home-assistant-rdw/__init__.py:340-344 | an RDW `YYYYMMDD` text reads back as its date, and its ISO rendering is the same digits with dashes after the year and the month |
| `Calendar.DmyRoundTrip` | custom-components/sensor/rdw.py:204 | a `DD/MM/YYYY` text reads back with `'%d/%m/%Y'` as its date |
| `Calendar.ValidateDateformat` | custom_components/home-assistant-rdw/config_flow.py:228-234 | an accepted text parses with `%Y-%m-%d` and is ten characters, digits around dashes at positions 4 and 7 |
| `Calendar.ValidateDateformatIsCanonical` | custom_components/home-assistant-rdw/config_flow.py:228-234 | `validate_dateformat` accepts a text exactly when it is the zero-padded `YYYY-MM-DD` rendering of a valid date |
| `Calendar.ValidatedDateformatIsLiteral` | config_flow.py:191-197 | an accepted text holds only digits and dashes, so as a `strftime` format it contains no directive |
| `Calendar.UnpaddedMonthRefused` | config_flow.py:191-197 | `validate_dateformat("2020-2-03")` is false |
| `Calendar.LeapDayAccepted` | config_flow.py:191-197 | `validate_dateformat("2020-02-29")` is true |
| `Calendar.LeapDayNeedsLeapYear` | config_flow.py:191-197 | a text naming 29 February is refused whenever its year is not a leap year |
| `Calendar.NonLeapDayRefused` | config_flow.py:191-197 | `validate_dateformat("2021-02-29")` is false |
| `Calendar.ThirtyFirstNeedsLongMonth` | custom_components/home-assistant-rdw/config_flow.py:228-234 | a text naming the 31st of April, June, September or November is refused |
| `Calendar.AprilThirtyFirstRefused` | config_flow.py:191-197 | `validate_dateformat("2021-04-31")` is false |
| `Calendar.ExpiredIffBeforeToday` | sensor.py:131-132 | an expiry date read at midnight is earlier than now exactly when it is before today, or is today and midnight has passed |
| `Calendar.ExpiredStaysExpired` | custom_components/home-assistant-rdw/__init__.py:349 | once an expiry date has passed, it stays passed at every later moment |
| `Records.RecallUrl` | const.py:34 | the recall link is `RESOURCE_RECALLINFO` followed by the reference exactly as RDW wrote it |
| `Records.ScanRecalls` | custom_components/home-assistant-rdw/__init__.py:308-312 | the recall scan raises `KeyError` exactly when a row lacks `code_status`, or lacks the reference while not `'P'` |
| `Records.ScanKeys` | custom_components/home-assistant-rdw/__init__.py:308-312 | a completed scan has exactly the lower-cased references of the rows whose status is not `'P'` as keys |
| `Records.ScanValues` | __init__.py:262-266 | every attribute maps its key to the recall link of a non-`'P'` row with that key, using that row's original-case reference |
| `Records.ScanLastWins` | __init__.py:262-266 | when several open rows share a key, the attribute holds the link of the last of them |
| `Records.ScanCount` | custom_components/home-assistant-rdw/__init__.py:314 | there are never more attributes than non-`'P'` rows, because duplicates collapse |
| `Records.ClosedRowsIgnored` | __init__.py:262-266 | rows with status `'P'` contribute nothing: scanning only the open rows gives the same attributes |
| `Configs.WholeSeconds` | custom_components/home-assistant-rdw/config_flow.py:75 | `int(td.total_seconds())` is the whole number of seconds, truncated toward zero |
| `Configs.ImportTitle` | custom_components/home-assistant-rdw/config_flow.py:88-91 | an imported entry is titled with its name, or its plate when the name is `None`, followed by ` (configuration.yaml)` |
| `Configs.ErrorKey` | config_flow.py:114-123 | `InvalidPlate` gives `invalid_plate`, `NotRegistered` gives `not_registered`, and every other exception gives `unknown_error` |
| `Configs.BaseErrors` | custom_components/home-assistant-rdw/config_flow.py:115-123 | the user form gets exactly one error, under `base`: `invalid_plate` exactly for `InvalidPlate`, `not_registered` exactly for `NotRegistered`, and `unknown_error` for every other exception |
| `States.ShowDate` | custom_components/home-assistant-rdw/__init__.py:341-344 | without a date format a date is shown as a text `validate_dateformat` accepts, which reads back as the same date |
| `States.SensorName` | sensor.py:91-94 | the sensor name is the base name, a space, and the sensor kind |
| `States.UniqueId` | sensor.py:106-109 | the unique ID is `rdw_`, the plate, `_`, and the sensor kind |
| `States.UniqueIdsDistinct` | custom_components/home-assistant-rdw/sensor.py:72 | for six-character plates, equal unique IDs mean equal plates and equal kinds |
| `States.PlateId` | custom_components/home-assistant-rdw/sensor.py:94 | the ID attribute is `nl_` followed by the plate lower-cased, character for character |
| `States.PlateIdIgnoresCase` | custom_components/home-assistant-rdw/binary_sensor.py:97 | the ID attribute is the same whatever case the plate is written in |
| `States.StateAttributes` | custom_components/home-assistant-rdw/sensor.py:88-97 | the shown attributes are exactly the attribution and the ID |
| `States.JaNee` | custom_components/home-assistant-rdw/binary_sensor.py:145-151 | `'Ja'` maps to true and `'Nee'` to false, each in both directions; anything else gives no value |
| `States.DeviceIdentifier` | custom_components/home-assistant-rdw/sensor.py:78 | the device is identified by the domain and the plate lower-cased, character for character |
| `States.PlateIdMatchesDevice` | custom_components/home-assistant-rdw/binary_sensor.py:76-97 | the ID attribute after `nl_` is the device identifier's plate |
| `Entity.Construct` | custom_components/home-assistant-rdw/__init__.py:180-218 | the entity exists exactly when the plate passes `validate_plate`, otherwise it raises `InvalidPlate`; an entry without options gets the date format moved from its data into its options |
| `Entity.Manufacturer` | custom_components/home-assistant-rdw/__init__.py:277-281 | the manufacturer exists exactly when `merk` does; it is in title case and equals `merk` up to case |
| `Entity.Model` | custom_components/home-assistant-rdw/__init__.py:283-287 | the model exists when both fields do; it is in title case, is the trade name with every copy of the brand removed up to case, and is the titled trade name when the brand does not occur in it |
| `Entity.ModelDropsBrand` | custom_components/home-assistant-rdw/__init__.py:285 | when the trade name is `before`, the brand, `after`, with no earlier copy of the brand and none inside `after`, the model is the titled `before + after` |
| `Entity.ModelDropsLeadingBrand` | custom_components/home-assistant-rdw/__init__.py:285 | a trade name that starts with the brand, such as `VOLKSWAGEN GOLF`, gives the titled rest, here ` Golf` with its leading space |
| `Entity.CarName` | custom_components/home-assistant-rdw/__init__.py:289-294 | the name is `None` exactly when manufacturer and model both are; otherwise it is in title case and equals, up to case, the manufacturer, a space and the model, with `None` shown as `None` |
| `Entity.Update` | custom_components/home-assistant-rdw/__init__.py:232-316 | a failed fetch returns false, and an empty APK result raises `NotRegistered`; after either, only the attributes changed, and they are empty. With a non-empty APK result, the update returns true exactly when there are no recall rows or every row is well formed. The fields come from the first APK record, the name is `CarName` of manufacturer and model, and the recall attributes are those of the recall scan, counted |
| `Entity.UpdateRecallLinks` | custom_components/home-assistant-rdw/__init__.py:308-312 | when both fetches worked, the APK result is non-empty and every recall row is well formed, the update succeeds; the recall attributes are keyed by the open rows' lower-cased references, and each holds the link of the last open row with its key |
| `Entity.ApkDate` | custom_components/home-assistant-rdw/__init__.py:338-346 | no expiry date gives no state; a date `strptime('%Y%m%d')` refuses raises `ValueError`; a date it reads is shown through the entry's date format, or as its ISO text without one |
| `Entity.ApkDateIsIso` | custom_components/home-assistant-rdw/__init__.py:338-346 | an RDW `YYYYMMDD` date comes out as the same digits with dashes after the year and the month |
| `Entity.ApkValid` | custom_components/home-assistant-rdw/__init__.py:348-349 | the APK is valid exactly when its expiry date has not passed; a missing date raises `TypeError`, an unreadable one `ValueError` |
| `RootEntity.Construct` | __init__.py:166-185 | the 2.9 entity exists exactly when the plate passes `validate_plate`, and then has every field unset |
| `RootEntity.Update` | __init__.py:199-270 | brand, type, expiry date and insurance are the raw fields of the first APK record, absent when missing. With a non-empty APK result, the update returns true exactly when there are no recall rows or every row is well formed; a malformed row raises `KeyError`. The recall attributes are those of the recall scan, counted |
| `RootEntity.UpdateRecallLinks` | __init__.py:262-266 | when both fetches worked, the APK result is non-empty and every recall row is well formed, the 2.9 update succeeds; the recall attributes are keyed by the open rows' lower-cased references, and each holds the link of the last open row with its key |
| `RootEntity.UpdatesAgree` | __init__.py:262-268 | the 2.9 and the current entity end every update the same way, with the same recall attributes, count, expiry date and insurance |
| `RootEntity.CreateName` | __init__.py:292-299 | `create_name` is in title case; it equals the type up to case when the type starts with the brand, and otherwise the brand, a space and the type, which also fixes its length |
| `RootEntity.CreateNameStable` | __init__.py:292-299 | `create_name` is a fixed point of `title` |
| `RootEntity.CreateNameSplits` | __init__.py:298-299 | when the type does not start with the brand, the name is the titled brand, a space, and the titled type |
| `RootEntity.CreateNameOf` | config_flow.py:127 | a missing type raises `AttributeError` and a missing brand `TypeError`; otherwise the name is `create_name` of the brand and the type |
| `ConfigFlow.ImportStep` | custom_components/home-assistant-rdw/config_flow.py:65-93 | the import aborts exactly for a configured plate; otherwise the scan interval is in whole seconds, a missing manufacturer or model becomes `None`, and nothing else changes |
| `ConfigFlow.ImportOnce` | custom_components/home-assistant-rdw/config_flow.py:71-72 | importing a plate that is already configured aborts |
| `ConfigFlow.FillDateformat` | custom_components/home-assistant-rdw/config_flow.py:164-168 | a date format left out of the form becomes `None`; every given field is kept |
| `ConfigFlow.DetailsErrors` | custom_components/home-assistant-rdw/config_flow.py:164-166 | the details step has an error exactly when a date format is given that `validate_dateformat` refuses |
| `ConfigFlow.DetailsStep` | custom_components/home-assistant-rdw/config_flow.py:153-185 | without input the details form is shown; with input the entry is created with the chosen name and otherwise the collected configuration |
| `RootConfigFlow.ConfiguredInstances` | config_flow.py:44-54 | the configured plates are the keys registered under the component's data key, or none |
| `RootConfigFlow.ImportStep` | config_flow.py:75-94 | the import aborts exactly for a configured plate; otherwise the scan interval is in whole seconds and nothing else changes |
| `RootConfigFlow.LookUp` | config_flow.py:110-134 | an invalid plate shows `invalid_plate`; a failed APK or recall fetch escapes as `AttributeError`; an empty or missing APK result shows `not_registered`; a malformed recall row shows `unknown_error`. With both fetches done, a non-empty APK result, well-formed recall rows and both `merk` and `handelsbenaming` in the first record, the configuration is kept and the details form follows; a kept configuration holds the plate and `create_name` of those two fields |
| `RootConfigFlow.UserStep` | config_flow.py:96-146 | without input the user form is shown; the plate is normalised first; a configured plate aborts with `already_configured`; any other plate gets the look-up; every error sits under `base`, and a kept name is in title case |
| `RootConfigFlow.UserStepNormalised` | config_flow.py:105 | typing the plate with dashes or in lower case gives the same result as typing it normalised |
| `RootConfigFlow.DetailsErrors` | config_flow.py:159-166 | an error is collected exactly when the name is a configured plate or the date format is refused; a clashing name alone gives `name_already_configured`, and a refused date format gives `invalid_dateformat` whether or not the name clashes |
| `RootConfigFlow.DetailsConfig` | config_flow.py:168-174 | the entry gets the name, the date format or `None`, the scan interval or 86400 seconds, and the default sensor lists |
| `RootConfigFlow.DetailsStep` | config_flow.py:148-188 | the details step creates the entry for every submitted form, whatever errors it collected |
| `RootConfigFlow.DetailsStoresRefusedDateformat` | config_flow.py:162-176 | a refused date format such as `2020-2-03` is stored in the new entry |
| `RootConfigFlow.DetailsStepChecked` | config_flow.py:155-176 | with the errors respected, an entry is created only for a name that is not a configured plate and a date format that is absent or accepted |
| `RootSensor.NewSensor` | sensor.py:60-74 | a new sensor has its kind's normal icon, no state, and only the attribution |
| `RootSensor.Update` | sensor.py:116-139 | an update resets state and attributes; the expiry sensor shows the date and the recall sensor the count with its links; the alert icon appears for a passed date or an open recall, and the icon is otherwise unchanged |
| `RootSensor.ExpdateShownIso` | sensor.py:124-130 | without a date format the expiry sensor shows the RDW date with dashes after the year and the month |
| `RootSensor.AlertIconSticks` | sensor.py:131-139 | an alert icon is not reset by an update with nothing to alert about |
| `RootSensor.UpdateIconReset` | sensor.py:131-139 | with the icon following the data, the alert icon shows exactly while there is something to alert about |
| `Sensor.NewSensor` | custom_components/home-assistant-rdw/sensor.py:59-72 | a new sensor has its kind's normal icon and no state |
| `Sensor.ShownAttributes` | custom_components/home-assistant-rdw/sensor.py:88-97 | the attributes shown are exactly the attribution, with the RDW attribution text, and the ID, with `nl_` and the lower-cased plate, whatever an update stored |
| `Sensor.Update` | custom_components/home-assistant-rdw/sensor.py:129-147 | the expiry sensor takes the entity's `get_apk_date` and raises `TypeError` when there is no expiry date; the recall sensor shows the count, and the alert icon appears for a passed date or an open recall |
| `Sensor.MissingExpdateRaises` | custom_components/home-assistant-rdw/sensor.py:137-139 | a vehicle without an expiry date makes every update of the expiry sensor raise `TypeError` |
| `Sensor.UpdateChecked` | custom_components/home-assistant-rdw/sensor.py:137-140 | with the validity only asked for an existing date, an update raises only for an unreadable expiry date |
| `Sensor.ExpdateShownIso` | custom_components/home-assistant-rdw/sensor.py:137-138 | without a date format the expiry sensor shows the RDW date with dashes after the year and the month |
| `BinarySensor.NewSensor` | custom_components/home-assistant-rdw/binary_sensor.py:57-70 | a new insurance sensor has the car icon and no state |
| `BinarySensor.Update` | custom_components/home-assistant-rdw/binary_sensor.py:137-151 | the state is on exactly for `'Ja'` and off exactly for `'Nee'`, and unknown otherwise; the icon changes only to the alert icon, only for `'Nee'` |
| `BinarySensor.UpdateReadsInsuredOnly` | custom_components/home-assistant-rdw/binary_sensor.py:145-151 | the update depends on the insurance field alone |
| `BinarySensor.Device` | custom_components/home-assistant-rdw/binary_sensor.py:72-83 | the device identifier is the domain and the plate as written after `nl_` in the ID attribute |
| `LegacySensor.GetDataFromApi` | custom-components/sensor/rdw.py:164-190 | a record comes back exactly for a 200 response whose body is a non-empty list, and it is the first element |
| `LegacySensor.ExpiryDate` | custom-components/sensor/rdw.py:203-206 | the expiry date is present exactly when the field exists and reads as `DD/MM/YYYY`, and it is then a valid date |
| `LegacySensor.ExpiryDateRoundTrip` | custom-components/sensor/rdw.py:204 | a `DD/MM/YYYY` expiry date is read back exactly |
| `LegacySensor.RefreshData` | custom-components/sensor/rdw.py:193-214 | every field is reset first; the insurance is kept only when the recall indicator is also present |
| `LegacySensor.RefreshDataIntended` | custom-components/sensor/rdw.py:207-214 | with each `except` clearing its own field, insurance and recall are exactly the record's fields, and agree with `RefreshData` whenever the indicator is present |
| `LegacySensor.InsuranceLostWithoutIndicator` | custom-components/sensor/rdw.py:211-214 | an insured car whose record lacks the recall indicator loses its insurance state |
| `LegacySensor.SetupSensors` | custom-components/sensor/rdw.py:55-70 | one sensor per configured kind, each for the upper-cased plate, with its normal icon and the attribution |
| `LegacySensor.Reading` | custom-components/sensor/rdw.py:117-132 | the expiry sensor reads the expiry date, and has a reading exactly when there is one; insurance and recall read `'Ja'` as true and `'Nee'` as false, each in both directions, and any other text or a missing field gives no reading |
| `LegacySensor.Update` | custom-components/sensor/rdw.py:113-139 | the data is refreshed unless the throttle skips it; without a reading the previous state stays and the attributes are emptied |
| `LegacySensor.RefreshedAttributesEmpty` | custom-components/sensor/rdw.py:134-139 | after a refreshed update the sensor's attributes are empty |
| `LegacySensor.ExpdateShown` | custom-components/sensor/rdw.py:117-118 | an expiry date RDW wrote as `DD/MM/YYYY` becomes the expiry sensor's state |

## Left out

- HTTP and Socrata requests, executor jobs and JSON decoding: a fetch is an input value (`Records.Fetch`, `LegacySensor.Response`). `_current_status_code` is not kept.
- The Home Assistant lifecycle is not modelled. This covers `async_setup`, `async_setup_entry`, `async_unload_entry`, option listeners, dispatcher signals, `async_track_time_interval`, entity registration, form schemas and logging. `Throttle` is reduced to the choice of refreshing or not (`LegacySensor.Update`).
- voluptuous validation is assumed through the `ImportSchema`, `UserInput` and `DetailsInput` requirements: the form and platform schemas guarantee these field types.
- The user step of the current component is left out. The set literal `{'data', user_input}` at custom_components/home-assistant-rdw/config_flow.py:101 hashes the form's dictionary, so every submitted form raises `TypeError` at line 101. Its `try` block and exception-to-error mapping (lines 115-123) are therefore never reached. `Configs.BaseErrors` states that mapping, which in that release is dead code; it is live only in the 2.9 release, through `RootConfigFlow.UserStep`. The details step of that release is dead code too: its form is shown only from the user step (line 140), after line 101 has already raised. So `ConfigFlow.DetailsStep`, `ConfigFlow.DetailsErrors` and `ConfigFlow.FillDateformat` model what that code would do if reached.
- The options flow (custom_components/home-assistant-rdw/config_flow.py:187-225) is host plumbing and is left out.
- `device_info` of the entities and sensors is not modelled beyond the identifier, because it only copies fields.
- Wall-clock `datetime.now()`: "now" is a parameter.
- `RDWEntity.apkdata` and `recalldata`, the raw responses the entity keeps, are not fields of the model.
- States.ShowDate: a user-chosen `strftime` format is not interpreted; the state records the date and the format (`Formatted`).
- Calendar.FormatIso: pads years below 1000 to four digits, as CPython documents. glibc's `strftime('%Y')` does not pad them, so for such years `validate_dateformat` may differ by platform.
- Calendar.Strptime: covers only the `%Y`, `%m`, `%d` directives and literal characters these formats use. Locale handling and whitespace folding are not modelled. Only ASCII digits are read: Python's `\d` and `int()` also accept other Unicode decimal digits, such as Arabic-Indic ones, which the model refuses.
- Ascii.RemoveAll: its own contract gives only bounds and, for a one-character pattern, that no copy is left. For longer patterns the left-to-right scan is stated by `Ascii.RemoveAllAbsent`, `Ascii.RemoveAllLeading` and `Ascii.RemoveAllKeepsPrefix`. That a longer pattern leaves no copy is not claimed, because removal can create a new one (`replace('ab', '')` turns `aabb` into `ab`).
- Ascii.Title: ASCII only. Python's `str.title` also cases non-ASCII letters and treats them as letters; so do `upper`, `lower` and `isalnum`.
- Configs.WholeSeconds: computes on integer microseconds. The floating-point rounding of `total_seconds()` for intervals beyond 2^53 microseconds is not modelled.

## Findings

| source | as written | input that shows it | evidently intended | confidence | as-written member | corrected member |
|---|---|---|---|---|---|---|
| config_flow.py:155-176 | the details step collects `name_already_configured` and `invalid_dateformat` errors, then creates the entry anyway | details form with name `Car` and date format `2020-2-03` | a form with errors is shown again with them, as the user step does | medium, not executed | `RootConfigFlow.DetailsStoresRefusedDateformat` | `RootConfigFlow.DetailsStepChecked` |
| custom_components/home-assistant-rdw/sensor.py:137-140 | the expiry sensor always calls `is_apk_valid`, and `strptime(None, ...)` raises `TypeError` when the vehicle has no expiry date | an APK record without `vervaldatum_apk` | ask for validity only when there is an expiry date, leaving the state `None` | high, not executed | `Sensor.MissingExpdateRaises` | `Sensor.UpdateChecked` |
| custom-components/sensor/rdw.py:211-214 | a missing recall indicator clears `insured` in the `except` clause | record `{"wam_verzekerd": "Ja"}` without `openstaande_terugroepactie_indicator` | clear `recall`, leaving the insurance read on line 208 | high, not executed | `LegacySensor.InsuranceLostWithoutIndicator` | `LegacySensor.RefreshDataIntended` |
| sensor.py:131-139 | the icon is only ever switched to the alert icon, never back to the normal one | a recall sensor updated with 2 open recalls, then with 0 | the icon shows the alert exactly while the expiry date has passed or recalls are open | medium, not executed | `RootSensor.AlertIconSticks` | `RootSensor.UpdateIconReset` |
