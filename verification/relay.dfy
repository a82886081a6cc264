/**
 * One run of the relay script: choose the data source from the command
 * line, read the outside temperature, fetch the most recent sample of the
 * day and decide whether to send it to PVOutput with `add_status`, and
 * with which arguments. The run ends in one of three ways: a Python
 * exception escapes, nothing is uploaded, or `add_status` is called with
 * a payload.
 */
module Relay {
  import opened Wrappers
  import opened Timestamp
  import opened PyJson
  import opened SolarmanApi

  /** Which API method supplies the sample. */
  datatype Mode = PowerMode | InverterMode

  /** `--power_data` selects the plant power method; without it the inverter method is used. */
  function SelectMode(powerData: bool): Mode {
    if powerData then PowerMode else InverterMode
  }

  function LayoutOf(mode: Mode): Layout {
    match mode
    case PowerMode => PlantPower
    case InverterMode => Inverter
  }

  /** The selected sample of the day, as the API client returns it. */
  function Fetch(mode: Mode, deviceId: string, body: Body): Outcome<Option<Json>> {
    match mode
    case PowerMode => GetPower(body, true)
    case InverterMode => GetInverterData(deviceId, body, true)
  }

  /**
   * The weather-station lookup: a reading (the station may have none in
   * the last 15 minutes) or a failure of any kind.
   */
  datatype TemperatureLookup = Reading(temp: Option<real>) | LookupFailed

  /** Any failure of the lookup is caught and becomes `None`. */
  function OutsideTemperature(lookup: TemperatureLookup): Option<real> {
    match lookup
    case Reading(t) => t
    case LookupFailed => None
  }

  /** The values `power > 0` accepts without raising: numbers, and booleans as 0 and 1. */
  predicate Comparable(v: Json) {
    v.JNum? || v.JBool?
  }

  /** Python's `power > 0`. */
  predicate Positive(v: Json)
    requires Comparable(v)
  {
    match v
    case JNum(n) => n > 0.0
    case JBool(b) => b
  }

  /** The fields the script takes from the selected record. */
  datatype Sample = Sample(stamp: DateTime, power: Json, vac1: Option<Json>)

  /** The arguments of `add_status(date, time, power_exp=..., vdc=..., temp=...)`. */
  datatype Payload = Payload(date: string, time: string, powerExp: Json, vdc: Option<Json>, temp: Option<real>)

  /** The keys the script reads from the selected record before it reads `time`. */
  predicate HasKeys(mode: Mode, record: Json) {
    && Index(record, "power").Returned?
    && (mode == InverterMode ==>
          && Index(record, "iPv1").Returned? && Index(record, "iPv2").Returned?
          && Index(record, "vPv1").Returned? && Index(record, "vPv2").Returned?
          && Index(record, "iac1").Returned? && Index(record, "vac1").Returned?
          && Index(record, "fac").Returned?)
  }

  /**
   * Reading the selected record. In power mode the script reads `power` and
   * `time`. In inverter mode its debug messages are formatted whether or not
   * debugging is on, so `power`, `iPv1`, `iPv2`, `vPv1`, `vPv2`, `iac1`,
   * `vac1`, `fac` and `time` must all be present. A power that `> 0`
   * cannot compare raises `TypeError` in both modes.
   */
  function ReadSample(mode: Mode, record: Json): (r: Outcome<Sample>)
    ensures r.Returned? <==> && HasKeys(mode, record)
                             && Comparable(Index(record, "power").value)
                             && RecordTime(record, LayoutOf(mode)).Returned?
    ensures r.Returned? ==> Index(record, "power") == Returned(r.value.power) && Comparable(r.value.power)
    ensures r.Returned? ==> RecordTime(record, LayoutOf(mode)) == Returned(r.value.stamp)
    ensures r.Returned? ==> (r.value.vac1.Some? <==> mode == InverterMode)
    ensures r.Returned? && mode == InverterMode ==> Index(record, "vac1") == Returned(r.value.vac1.value)
    ensures r.Raised? && HasKeys(mode, record) && RecordTime(record, LayoutOf(mode)).Returned?
            ==> r.error == TypeError
    ensures record.JObj? && !HasKeys(mode, record) ==> r == Raised(KeyError)
  {
    match mode
    case PowerMode =>
      var power :- Index(record, "power");
      var stamp :- RecordTime(record, PlantPower);
      if Comparable(power) then Returned(Sample(stamp, power, None)) else Raised(TypeError)
    case InverterMode =>
      var power :- Index(record, "power");
      var currentIn1 :- Index(record, "iPv1");
      var currentIn2 :- Index(record, "iPv2");
      var voltageIn1 :- Index(record, "vPv1");
      var voltageIn2 :- Index(record, "vPv2");
      var currentOut :- Index(record, "iac1");
      var vac1 :- Index(record, "vac1");
      var frequency :- Index(record, "fac");
      var stamp :- RecordTime(record, Inverter);
      if Comparable(power) then Returned(Sample(stamp, power, Some(vac1))) else Raised(TypeError)
  }

  /**
   * A record with every key the mode reads, a comparable power and a
   * rendered timestamp reads as that timestamp and its power (and, in
   * inverter mode, its `vac1`).
   */
  lemma ReadSampleOfRendered(mode: Mode, record: Json, t: DateTime)
    requires HasKeys(mode, record) && Comparable(Index(record, "power").value)
    requires Index(record, "time") == Returned(JStr(Render(t, LayoutOf(mode))))
    ensures ReadSample(mode, record)
            == Returned(Sample(t, Index(record, "power").value,
                               if mode == InverterMode then Some(Index(record, "vac1").value) else None))
  {
    TimeKeyAcceptsRendered(record, LayoutOf(mode), t);
  }

  /**
   * The local wall-clock time of a sample: plant power times are UTC and go
   * through `utc_to_local`; inverter times are already local and are used as
   * written, with no timezone shift.
   */
  function LocalStamp(mode: Mode, utcToLocal: DateTime -> DateTime, stamp: DateTime): DateTime {
    match mode
    case PowerMode => utcToLocal(stamp)
    case InverterMode => stamp
  }

  /**
   * The upload decision: a payload exactly when there is a sample and its
   * power is positive. Power and temperature are passed through; only
   * inverter mode sends a voltage, the sample's `vac1`.
   */
  function BuildPayload(mode: Mode, utcToLocal: DateTime -> DateTime, sample: Option<Sample>,
                        temperature: Option<real>): (r: Option<Payload>)
    requires sample.Some? ==> Comparable(sample.value.power)
    ensures r.Some? <==> sample.Some? && Positive(sample.value.power)
    ensures r.Some? ==> r.value.powerExp == sample.value.power && r.value.temp == temperature
    ensures r.Some? && mode == PowerMode ==> r.value.vdc == None
    ensures r.Some? && mode == InverterMode ==> r.value.vdc == sample.value.vac1
    ensures r.Some? ==> |r.value.date| == 8 && AllDigits(r.value.date)
    ensures r.Some? ==> (|r.value.time| == 5 && r.value.time[2] == ':'
                         && AllDigits(r.value.time[..2]) && AllDigits(r.value.time[3..]))
    ensures r.Some? ==> var local := LocalStamp(mode, utcToLocal, sample.value.stamp);
              && DecimalValue(r.value.date[..4]) == local.year
              && DecimalValue(r.value.date[4..6]) == local.month
              && DecimalValue(r.value.date[6..]) == local.day
              && DecimalValue(r.value.time[..2]) == local.hour
              && DecimalValue(r.value.time[3..]) == local.minute
  {
    match sample
    case None => None
    case Some(s) =>
      var local := LocalStamp(mode, utcToLocal, s.stamp);
      FormatDateReadsBack(local);
      FormatTimeReadsBack(local);
      if !Positive(s.power) then None
      else
        var vdc := if mode == InverterMode then s.vac1 else None;
        Some(Payload(FormatDate(local), FormatTime(local), s.power, vdc, temperature))
  }

  /** How a run ends. */
  datatype RunResult = Crashed(error: Exception) | NoUpload | Uploaded(payload: Payload)

  /**
   * What the script does with the outcome of the API call: an exception
   * ends the run, `None` is a quiet run, and a record is read and, when its
   * power is positive, uploaded.
   */
  function Decide(mode: Mode, fetched: Outcome<Option<Json>>, temperature: Option<real>,
                  utcToLocal: DateTime -> DateTime): (r: RunResult)
    ensures fetched.Raised? ==> r == Crashed(fetched.error)
    ensures fetched == Returned(None) ==> r == NoUpload
    ensures r.Uploaded? ==> (&& fetched.Returned? && fetched.value.Some?
                             && Index(fetched.value.value, "power") == Returned(r.payload.powerExp)
                             && Comparable(r.payload.powerExp) && Positive(r.payload.powerExp))
    ensures r.Uploaded? ==> r.payload.temp == temperature
    ensures r.Uploaded? && mode == PowerMode ==> r.payload.vdc == None
    ensures r.Uploaded? && mode == InverterMode ==>
              r.payload.vdc.Some? && Index(fetched.value.value, "vac1") == Returned(r.payload.vdc.value)
    ensures fetched.Returned? && fetched.value.Some? && ReadSample(mode, fetched.value.value).Raised?
            ==> r == Crashed(ReadSample(mode, fetched.value.value).error)
    ensures fetched.Returned? && fetched.value.Some? && ReadSample(mode, fetched.value.value).Returned?
            ==> (r.Uploaded? <==> Positive(ReadSample(mode, fetched.value.value).value.power))
  {
    match fetched
    case Raised(e) => Crashed(e)
    case Returned(None) =>
      (match BuildPayload(mode, utcToLocal, None, temperature)
       case None => NoUpload
       case Some(p) => Uploaded(p))
    case Returned(Some(record)) =>
      match ReadSample(mode, record)
      case Raised(e) => Crashed(e)
      case Returned(s) =>
        match BuildPayload(mode, utcToLocal, Some(s), temperature)
        case None => NoUpload
        case Some(p) => Uploaded(p)
  }

  /**
   * One run of the script, lines 79-179, with the HTTP response, the
   * weather lookup and `utc_to_local` given as inputs.
   */
  function Run(powerData: bool, deviceId: string, body: Body, lookup: TemperatureLookup,
               utcToLocal: DateTime -> DateTime): (r: RunResult)
    ensures r.Uploaded? ==> Comparable(r.payload.powerExp) && Positive(r.payload.powerExp)
    ensures r.Uploaded? ==> r.payload.temp == OutsideTemperature(lookup)
    ensures r.Uploaded? && powerData ==> r.payload.vdc == None
    ensures r.Uploaded? && !powerData ==> r.payload.vdc.Some?
  {
    var mode := SelectMode(powerData);
    Decide(mode, Fetch(mode, deviceId, body), OutsideTemperature(lookup), utcToLocal)
  }

  /** A failed fetch ends the run with the fetch's exception and no upload. */
  lemma FetchErrorNeverUploads(powerData: bool, deviceId: string, body: Body, lookup: TemperatureLookup,
                               utcToLocal: DateTime -> DateTime)
    requires Fetch(SelectMode(powerData), deviceId, body).Raised?
    ensures Run(powerData, deviceId, body, lookup, utcToLocal)
            == Crashed(Fetch(SelectMode(powerData), deviceId, body).error)
  {
  }

  /** No sample, or a sample whose power is not positive, is a quiet run without upload. */
  lemma NonPositivePowerIsNotAnError(mode: Mode, record: Json, temperature: Option<real>,
                                     utcToLocal: DateTime -> DateTime)
    ensures Decide(mode, Returned(None), temperature, utcToLocal) == NoUpload
    ensures ReadSample(mode, record).Returned? && !Positive(ReadSample(mode, record).value.power)
            ==> Decide(mode, Returned(Some(record)), temperature, utcToLocal) == NoUpload
  {
  }

  /** A failing weather lookup changes nothing but the temperature, which is then absent. */
  lemma TemperatureFailureIsNone(powerData: bool, deviceId: string, body: Body,
                                 utcToLocal: DateTime -> DateTime)
    ensures Run(powerData, deviceId, body, LookupFailed, utcToLocal)
            == Run(powerData, deviceId, body, Reading(None), utcToLocal)
  {
  }

  /**
   * `--power_data` selects `getPower`, which ignores the device id; without
   * it `getInverterData` is used, which refuses a device id that is not
   * numeric before any request.
   */
  lemma PowerFlagSelectsSource(deviceId: string, deviceId': string, body: Body, body': Body,
                               lookup: TemperatureLookup, utcToLocal: DateTime -> DateTime)
    ensures SelectMode(true) == PowerMode && SelectMode(false) == InverterMode
    ensures Run(true, deviceId, body, lookup, utcToLocal) == Run(true, deviceId', body, lookup, utcToLocal)
    ensures !IsDigitString(deviceId) ==>
              Run(false, deviceId, body, lookup, utcToLocal) == NoUpload
              && Run(false, deviceId, body', lookup, utcToLocal) == NoUpload
  {
  }

  /**
   * In inverter mode the uploaded date and time are the digits of the
   * record's own timestamp text, `YYYYMMDD` and `HH:MM`, seconds dropped.
   */
  lemma InverterUploadUsesWallClock(record: Json, text: string, temperature: Option<real>,
                                    utcToLocal: DateTime -> DateTime)
    requires Index(record, "time") == Returned(JStr(text))
    ensures var r := Decide(InverterMode, Returned(Some(record)), temperature, utcToLocal);
            r.Uploaded? ==> && r.payload.date == text[0..4] + text[5..7] + text[8..10]
                            && r.payload.time == text[11..13] + ":" + text[14..16]
  {
    if ReadSample(InverterMode, record).Returned? {
      var sample := ReadSample(InverterMode, record).value;
      assert Parse(text, Inverter) == Some(sample.stamp);
      WallClockDigits(text, Inverter);
    }
  }

  /** In power mode the uploaded date and time are those of the converted timestamp. */
  lemma PowerUploadUsesLocalTime(record: Json, utc: DateTime, temperature: Option<real>,
                                 utcToLocal: DateTime -> DateTime)
    requires Index(record, "time") == Returned(JStr(Render(utc, PlantPower)))
    ensures var r := Decide(PowerMode, Returned(Some(record)), temperature, utcToLocal);
            r.Uploaded? ==> r.payload.date == FormatDate(utcToLocal(utc)) && r.payload.time == FormatTime(utcToLocal(utc))
  {
    TimeKeyAcceptsRendered(record, PlantPower, utc);
  }
}

module RelayExamples {
  import opened Wrappers
  import opened Timestamp
  import opened PyJson
  import opened SolarmanApi
  import opened Relay

  function InverterRecord(power: real, time: string): Json {
    JObj(map["power" := JNum(power), "iPv1" := JNum(3.1), "iPv2" := JNum(0.0), "vPv1" := JNum(310.0),
             "vPv2" := JNum(0.0), "iac1" := JNum(2.1), "vac1" := JNum(240.2), "fac" := JNum(50.0),
             "time" := JStr(time)])
  }

  function InverterResponse(records: seq<Json>): Body {
    Decoded(JObj(map["data" := JObj(map["datas" := JArr(records)])]))
  }

  const ExampleStamp: DateTime := Fields(2024, 6, 1, 13, 5, 0)

  lemma YearDigits()
    ensures PadDecimal(2024, 4) == "2024"
  {
  }

  lemma TwoDigits()
    ensures PadDecimal(6, 2) == "06" && PadDecimal(1, 2) == "01" && PadDecimal(13, 2) == "13"
    ensures PadDecimal(5, 2) == "05" && PadDecimal(0, 2) == "00"
  {
  }

  lemma ExampleFormatting()
    ensures FormatDate(ExampleStamp) == "20240601" && FormatTime(ExampleStamp) == "13:05"
  {
    YearDigits();
    TwoDigits();
  }

  lemma ExampleDeviceId()
    ensures IsDigitString("1234")
  {
  }

  /** A response holding one readable record is answered with that record. */
  lemma SingleRecordFetch(deviceId: string, record: Json, t: DateTime, body: Body)
    requires IsDigitString(deviceId)
    requires Index(record, "time") == Returned(JStr(Render(t, Inverter)))
    requires body == InverterResponse([record])
    ensures Fetch(InverterMode, deviceId, body) == Returned(Some(record))
  {
    TimeKeyAcceptsRendered(record, Inverter, t);
    assert EnvelopeMissing(body.json, "datas") == Returned(false);
    assert Index(body.json, "data") == Returned(JObj(map["datas" := JArr([record])]));
    assert KeyAll([record], Inverter).Returned?;
  }

  /** Every key the inverter branch reads is present, so the record reads as a sample. */
  lemma ExampleRead(power: real, t: DateTime, record: Json)
    requires record == InverterRecord(power, Render(t, Inverter))
    ensures ReadSample(InverterMode, record) == Returned(Sample(t, JNum(power), Some(JNum(240.2))))
  {
    ExampleFields(power, Render(t, Inverter));
    TimeKeyAcceptsRendered(record, Inverter, t);
  }

  lemma ExampleFields(power: real, text: string)
    ensures var record := InverterRecord(power, text);
      && Index(record, "power") == Returned(JNum(power))
      && Index(record, "iPv1").Returned? && Index(record, "iPv2").Returned?
      && Index(record, "vPv1").Returned? && Index(record, "vPv2").Returned?
      && Index(record, "iac1").Returned? && Index(record, "vac1") == Returned(JNum(240.2))
      && Index(record, "fac").Returned? && Index(record, "time") == Returned(JStr(text))
  {
  }

  /**
   * A day with one 500 W inverter sample at 13:05 local time and no
   * temperature reading uploads date `20240601`, time `13:05`, the power and
   * `vac1` as the voltage.
   */
  lemma InverterUploadExample(record: Json, body: Body, utcToLocal: DateTime -> DateTime)
    requires record == InverterRecord(500.0, Render(ExampleStamp, Inverter))
    requires body == InverterResponse([record])
    ensures Run(false, "1234", body, Reading(None), utcToLocal)
            == Uploaded(Payload("20240601", "13:05", JNum(500.0), Some(JNum(240.2)), None))
  {
    ExampleRead(500.0, ExampleStamp, record);
    ExampleDeviceId();
    SingleRecordFetch("1234", record, ExampleStamp, body);
    ExampleFormatting();
  }

  /** The same sample with zero power is not uploaded, and the run does not fail. */
  lemma InverterZeroPowerExample(record: Json, body: Body, utcToLocal: DateTime -> DateTime)
    requires record == InverterRecord(0.0, Render(ExampleStamp, Inverter))
    requires body == InverterResponse([record])
    ensures Run(false, "1234", body, Reading(Some(21.5)), utcToLocal) == NoUpload
  {
    ExampleRead(0.0, ExampleStamp, record);
    ExampleDeviceId();
    SingleRecordFetch("1234", record, ExampleStamp, body);
  }
}
