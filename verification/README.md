# SolarmanPV to PVOutput relay: the sample selection and upload decision

The relay script runs once from cron. It asks the SolarmanPV API for today's
samples, picks the most recent one, reads the outside temperature from a
Weewx station, and, when the sample's power is positive, sends one status
to PVOutput with `add_status(date, time, power_exp, vdc, temp)`. Both the
API client's methods, `getPower` (plant power) and `getInverterData` (one
inverter), sort the day's samples by their `time` field, newest first, and
take the head of the list.

This project models that pipeline under Python 3 semantics (the scripts'
`#!/usr/bin/python` line does not name a version), on the response body
and on the weather lookup's outcome, taken as given values:

- `Timestamp` holds the two fixed-width timestamp layouts the API uses:
  `YYYY-MM-DDTHH:MM:SSZ` for plant power and `YYYY-MM-DDTHH:MM:SS+10:00`
  for inverter data. It has a parser with its exact inverse, the integer
  sort key, and the `%Y%m%d` and `%H:%M` strings that are uploaded.
- `StableSort` holds a stable descending sort of key/record pairs. It is
  proved to be the only stable descending arrangement, so it computes what
  Python's `list.sort(key=..., reverse=True)` computes. Its head is the
  first record with the largest key.
- `PyJson` holds the decoded JSON document and the two Python operations
  the code applies to it, `key in value` and `value[key]`. Exceptions are
  values (`Outcome`), so a run that raises is modelled rather than excluded
  by a precondition.
- `SolarmanApi` holds `getPower` and `getInverterData` applied to a
  response body: the envelope check, the device-id check, the key pass of
  the sort, the sort, and the head.
- `Relay` holds one run of the script, lines 79-179: the mode flag, the
  temperature, the fetch, the reading of the selected record, the upload
  decision and the payload. `RelayExamples` works through a concrete
  inverter day.

How exceptions behave, as the code is written:

- A time that does not match its format raises `ValueError` out of the
  sort. The try/except around the key's `int(...)` catches only `KeyError`,
  which that call cannot raise, so no record falls back to key 0.
- In `getInverterData`, a `datas` value that is not a list reaches a debug
  line that names `most_recent_power_data`, a variable bound only in
  `getPower`. That line raises `NameError`, so the run crashes. In
  `getPower` the same case returns `None`.
- The envelope check lets a document through when it has a top-level
  `powers` (or `datas`) key but no `data`. The sample lookup then raises
  `KeyError`.
- `getPower` catches nothing around the envelope check, the sample lookup
  or the sort; its only handlers wrap the final `power_data[0]` (lines
  221-230), which cannot raise once the empty list is handled.
  `getInverterData` catches every failure of its envelope check, including
  a body that is not JSON, and returns `None` for it. It does not catch
  failures in the sample lookup or the sort.
- In inverter mode the script formats its debug messages whether or not
  debugging is on. A selected record that lacks any of `power`, `iPv1`,
  `iPv2`, `vPv1`, `vPv2`, `iac1`, `vac1`, `fac` or `time` therefore raises
  `KeyError`.

## Model

| member | source | states |
|---|---|---|
| PyJson.IndexAgreesWithContains | SolarmanPVAPI/solarmanpv_api.py:209-216 | on an object, `value[key]` succeeds exactly when `key in value` is true and otherwise raises `KeyError`; indexing a non-object raises `TypeError`; `in` raises exactly on values that support no membership test |
| Timestamp.ParseRender | SolarmanPVAPI/solarmanpv_api.py:161 | every valid timestamp, written in the layout's fixed-width format, parses back to itself |
| Timestamp.RenderParse | SolarmanPVAPI/solarmanpv_api.py:171 | every string the parser accepts is exactly the fixed-width rendering of what it parsed to, so no two accepted strings denote the same instant |
| Timestamp.ParseAcceptsExactlyRenderings | SolarmanPVAPI/solarmanpv_api.py:158-175 | the format accepts a string if and only if it is the rendering of some valid calendar timestamp |
| Timestamp.OrdinalOrder | SolarmanPVAPI/solarmanpv_api.py:159-163 | the integer sort key is smaller exactly when the timestamp is chronologically earlier, and it is equal exactly for equal timestamps |
| Timestamp.FormatDateReadsBack | SolarmanPV-to-PVoutput-inverter-data.py:107 | the uploaded date is eight digits whose year, month and day parts read back as the timestamp's fields |
| Timestamp.FormatTimeReadsBack | SolarmanPV-to-PVoutput-inverter-data.py:108 | the uploaded time is `HH:MM`, whose two parts read back as the hour and minute; the seconds are dropped |
| Timestamp.WallClockDigits | SolarmanPV-to-PVoutput-inverter-data.py:144-146 | for an accepted inverter timestamp, the uploaded date and time are the string's own date and time digits, copied from their positions |
| StableSort.SortDescending | SolarmanPVAPI/solarmanpv_api.py:219 | the sorted list is a permutation of the records and is in descending key order |
| StableSort.InsertSorted | SolarmanPVAPI/solarmanpv_api.py:219 | inserting a record into a descending list keeps it descending, and the new head is the inserted record or the old head |
| StableSort.SortKeepsTies | SolarmanPVAPI/solarmanpv_api.py:219 | for every key, the records with that key keep their original relative order, as Python's stable `sort(reverse=True)` guarantees |
| StableSort.StableDescendingIsUnique | SolarmanPVAPI/solarmanpv_api.py:295 | two descending lists that keep the same order within every group of equal keys are equal |
| StableSort.StableSortIsCanonical | SolarmanPVAPI/solarmanpv_api.py:219 | any stable descending rearrangement of the input, such as the one Python's sort produces, equals the modelled sort |
| StableSort.FirstMaxIndex | SolarmanPVAPI/solarmanpv_api.py:222 | a left-to-right scan finds an index with the largest key and no earlier record with that key |
| StableSort.SortHeadIsFirstMax | SolarmanPVAPI/solarmanpv_api.py:219-222 | the head of the sorted list is the earliest record with the largest key |
| SolarmanApi.RecordTime | SolarmanPVAPI/solarmanpv_api.py:161 | whenever a record's time is read, the record's `time` field is the fixed-width rendering of the value read |
| SolarmanApi.TimeKey | SolarmanPVAPI/solarmanpv_api.py:158-175 | what the key function raises, uncaught by its `except KeyError`: `TypeError` for a record that is not an object or whose `time` is not a string, `KeyError` for a missing `time`, and `ValueError` for a string time that does not match the format |
| SolarmanApi.TimeKeyReadsRendering | SolarmanPVAPI/solarmanpv_api.py:158-175 | a key is produced only for a record whose `time` is the fixed-width rendering of some valid timestamp, and it is that timestamp's ordinal |
| SolarmanApi.EnvelopeMissing | SolarmanPVAPI/solarmanpv_api.py:209 | on a JSON object the check is true exactly when neither `data` nor the list's own key is present; it raises exactly when the document supports no `in` test |
| SolarmanApi.TimeKeyOrder | SolarmanPVAPI/solarmanpv_api.py:158-175 | of two readable records, one has the smaller sort key exactly when its timestamp is earlier, and the keys are equal exactly when the timestamps are |
| SolarmanApi.TimeKeyAcceptsRendered | SolarmanPVAPI/solarmanpv_api.py:171 | a record whose time is a well-formed rendering is read as that timestamp and keyed by its ordinal |
| SolarmanApi.KeyAll | SolarmanPVAPI/solarmanpv_api.py:219 | the key pass yields one key per record, in list order, each the record's own key; a failure is that of the first record whose key raises, and every earlier key succeeded |
| SolarmanApi.SortAndTakeFirst | SolarmanPVAPI/solarmanpv_api.py:219-225 | an empty list gives `None`; the operation raises if and only if some record's time cannot be read; otherwise it returns one of the records |
| SolarmanApi.SelectionIsMostRecent | SolarmanPVAPI/solarmanpv_api.py:214-225 | when every time is readable, the returned record has no later record in the list and every record before it is strictly earlier, so ties go to the one first in the response |
| SolarmanApi.MostRecentIsUnique | SolarmanPVAPI/solarmanpv_api.py:295-301 | at most one position satisfies the most-recent description, so the choice depends on the timestamps and their order alone |
| SolarmanApi.GetPower | SolarmanPVAPI/solarmanpv_api.py:208-239 | without `most_recent_value` a decoded JSON object never raises, a document that passes the envelope check is returned whole, and any document returned is the response unchanged; with it, a raise on a present `data.powers` path means that value is a list whose sort failed |
| SolarmanApi.GetInverterData | SolarmanPVAPI/solarmanpv_api.py:246-315 | a raise is possible only for a numeric device id, a decoded body and `most_recent_value` set; without `most_recent_value` a document that passes the envelope check is returned whole, and any returned document is the response unchanged |
| SolarmanApi.GetPowerSelection | SolarmanPVAPI/solarmanpv_api.py:214-237 | for a `data.powers` list: empty gives `None`; all times readable gives the most recent record; any unreadable time raises |
| SolarmanApi.GetInverterDataSelection | SolarmanPVAPI/solarmanpv_api.py:290-313 | the same three outcomes for a `data.datas` list, given a numeric device id |
| SolarmanApi.GetPowerNonList | SolarmanPVAPI/solarmanpv_api.py:231-237 | a `data.powers` value that is not a list gives `None` |
| SolarmanApi.GetInverterDataNonList | SolarmanPVAPI/solarmanpv_api.py:307-313 | a `data.datas` value that is not a list raises `NameError` |
| SolarmanApi.GetPowerEnvelopeMissing | SolarmanPVAPI/solarmanpv_api.py:208-212 | a document with neither `data` nor `powers` gives `None` in both modes |
| SolarmanApi.GetInverterDataEnvelopeMissing | SolarmanPVAPI/solarmanpv_api.py:279-288 | a document with neither `data` nor `datas`, a body that is not JSON, and a document the membership test rejects all give `None` |
| SolarmanApi.GetPowerPowersWithoutData | SolarmanPVAPI/solarmanpv_api.py:209-216 | a top-level `powers` key without `data` passes the check: the whole document is returned without `most_recent_value`, and `KeyError` is raised with it |
| SolarmanApi.NonNumericDeviceId | SolarmanPVAPI/solarmanpv_api.py:246-248 | a device id that is empty or has a non-digit character gives `None`, whatever the response |
| Relay.ReadSample | SolarmanPV-to-PVoutput-inverter-data.py:104-144 | reading succeeds exactly when the mode's keys are present, `power > 0` can be evaluated and the time parses; a read sample carries the record's `power` value and parsed time, and only inverter mode also carries `vac1`; with the keys and time in place, a power that cannot be compared raises `TypeError`; an object missing any key the mode reads raises `KeyError` |
| Relay.ReadSampleOfRendered | SolarmanPV-to-PVoutput-inverter-data.py:104-144 | a record with the mode's keys, a comparable power and a well-formed time is read as exactly that power, that timestamp and, in inverter mode, that `vac1` |
| Relay.BuildPayload | SolarmanPV-to-PVoutput-inverter-data.py:103-169 | a payload exists if and only if there is a sample with positive power; it carries the power and temperature unchanged; only inverter mode sends `vac1` as the voltage; date and time are well-formed and read back as the local wall-clock fields |
| Relay.Decide | SolarmanPV-to-PVoutput-inverter-data.py:101-179 | an exception from the API call ends the run with that exception and `None` means no upload; an upload implies the call returned a record whose `power` is the uploaded, positive power; the temperature is passed through; power mode sends no voltage, and inverter mode sends the record's `vac1`; a record that cannot be read ends the run with the reading's exception; a readable record is uploaded exactly when its power is positive |
| Relay.Run | SolarmanPV-to-PVoutput-inverter-data.py:79-179 | the whole run: an upload carries a comparable, positive power and the weather lookup's temperature (`None` when the lookup failed); with `--power_data` no voltage is sent, and an inverter-mode upload always carries one |
| Relay.FetchErrorNeverUploads | SolarmanPV-to-PVoutput-inverter-data.py:102-134 | an exception from the API call ends the run with that exception and nothing is uploaded |
| Relay.NonPositivePowerIsNotAnError | SolarmanPV-to-PVoutput-inverter-data.py:120-179 | no sample, or a sample whose power is not positive, ends the run quietly without an upload |
| Relay.TemperatureFailureIsNone | SolarmanPV-to-PVoutput-inverter-data.py:93-97 | a failed weather lookup gives the same run as a station with no reading |
| Relay.PowerFlagSelectsSource | SolarmanPV-to-PVoutput-inverter-data.py:79-82 | `--power_data` selects plant power, where the device id plays no part; otherwise inverter data, where a non-numeric device id means no upload for every response |
| Relay.InverterUploadUsesWallClock | SolarmanPV-to-PVoutput-inverter-data.py:144-146 | in inverter mode the uploaded date and time are the digits of the record's own time string, with no timezone conversion |
| Relay.PowerUploadUsesLocalTime | SolarmanPV-to-PVoutput-inverter-data.py:106-108 | in power mode the uploaded date and time are formatted from `utc_to_local` of the record's time |
| RelayExamples.InverterUploadExample | SolarmanPV-to-PVoutput-inverter-data.py:165-167 | one 500 W inverter record at 2024-06-01 13:05 with no temperature uploads `20240601`, `13:05`, the power and `vac1` |
| RelayExamples.InverterZeroPowerExample | SolarmanPV-to-PVoutput-inverter-data.py:168-169 | the same record at 0 W uploads nothing, and the run does not fail |

## Left out

- The HTTP requests, authentication, SSL settings and the connectivity check (`solarmanpv_api.py` up to line 155, script lines 84-89) are left out. Each API method receives its response body as a value: a decoded JSON document or an undecodable text.
- The Weewx MySQL query is left out; the temperature lookup is an input. Only what the script does with its outcome is modelled: a failure of any kind becomes `None`.
- The PVOutput client is left out. `add_status` is represented by the payload it would receive. The client's constructor and the script's exception handlers around the upload are outside the model.
- `utc_to_local` is a parameter of the run, because it depends on the host's timezone database.
- Timestamp.OrdinalOrder: the source's key is `strftime("%s")`, the local-time epoch of the naive timestamp. The model uses a seconds count in a calendar of 12 months of 31 days instead. This agrees with the epoch's order except around daylight-saving changes, which depend on the host's timezone.
- Timestamp.RenderParse: the parser accepts only zero-padded fields with ASCII digits and the exact case of `T` and `Z`. `strptime` also accepts unpadded month, day, hour, minute and second fields, a space-padded day such as `" 1"` for `%d`, a lower-case `t` or `z`, and non-ASCII decimal digits. Those strings are outside the model.
- Timestamp.ParseAcceptsExactlyRenderings: stated for the strict parser above, so it is narrower than `strptime` by the same lenient spellings.
- Timestamp.FormatDateReadsBack: `%Y` is written as four zero-padded digits. On glibc with CPython before 3.13, `strftime("%Y")` does not pad years below 1000, so for a time such as `0999-01-01T00:00:00+10:00` the source uploads a seven-character date. Timestamp.WallClockDigits and Relay.InverterUploadUsesWallClock inherit this assumption.
- Under Python 2.7 the behaviour differs in two places the model does not follow. `power > 0` never raises, because 2.7 orders values of any two types, so Relay.ReadSample's `TypeError` case does not exist there. And 2.7's `strftime` raises `ValueError` for years before 1900, which the model's date and time formatting does not.
- SolarmanApi.NonNumericDeviceId: `str.isdigit` also accepts non-ASCII digits. The model accepts only `0`-`9`. A missing device id, which raises `AttributeError` in the source, is not modelled; the id is always a string.
- JSON numbers are exact reals. Floating-point rounding and the non-standard `NaN`/`Infinity` literals are left out. Only the sign of the power is ever used.
- The debug printing, the `sys.exit` calls, and the code after the script's `sys.exit(5)` (line 182 onward, which is unreachable) are left out.
- `getPower` and `getInverterData` are modelled only with the day's date as argument. The date only selects the HTTP request, so it does not appear.
