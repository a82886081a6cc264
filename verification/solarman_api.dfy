/**
 * The response handling of the SolarmanPV API client: `getPower` (plant
 * power for a day) and `getInverterData` (one inverter's samples for a
 * day). The HTTP request itself is replaced by its response body; what
 * the model computes is what the methods do with that body: validate the
 * envelope, sort the day's samples by time, newest first, and return the
 * first one.
 */
module SolarmanApi {
  import opened Wrappers
  import opened Timestamp
  import opened StableSort
  import opened PyJson

  /** The body of an HTTP response: a JSON document, or text `response.json()` rejects. */
  datatype Body = Decoded(json: Json) | Undecodable

  /** `response.json()`. */
  function ResponseJson(body: Body): Outcome<Json> {
    match body
    case Decoded(j) => Returned(j)
    case Undecodable => Raised(DecodeError)
  }

  /** `datetime.strptime(value, format)` for the layout's format. */
  function Strptime(value: Json, layout: Layout): Outcome<DateTime> {
    match value
    case JStr(s) => (match Parse(s, layout) case Some(t) => Returned(t) case None => Raised(ValueError))
    case _ => Raised(TypeError)
  }

  /**
   * The timestamp of one record, `strptime(record['time'], format)`. A
   * record's time is read exactly when it is the fixed-width rendering of
   * a valid timestamp.
   */
  function RecordTime(record: Json, layout: Layout): (r: Outcome<DateTime>)
    ensures r.Returned? ==> Index(record, "time") == Returned(JStr(Render(r.value, layout)))
  {
    var text :- Index(record, "time");
    var t :- Strptime(text, layout);
    RenderParse(text.s, layout);
    Returned(t)
  }

  /**
   * `__extractTimePowerData` (plant power layout) and
   * `__extractTimeInverterData` (inverter layout): the sort key of a record.
   * Nothing is caught: a missing `time` key, a non-string time or a format
   * mismatch raises out of the sort.
   */
  function TimeKey(record: Json, layout: Layout): (r: Outcome<int>)
    ensures !record.JObj? ==> r == Raised(TypeError)
    ensures record.JObj? && "time" !in record.fields ==> r == Raised(KeyError)
    ensures record.JObj? && "time" in record.fields && !record.fields["time"].JStr? ==> r == Raised(TypeError)
    ensures record.JObj? && "time" in record.fields && record.fields["time"].JStr? && r.Raised?
            ==> r.error == ValueError
  {
    var t :- RecordTime(record, layout);
    Returned(Ordinal(t))
  }

  /**
   * A key is produced only for a record whose `time` is the fixed-width
   * rendering of a valid timestamp, and it is that timestamp's ordinal.
   */
  lemma TimeKeyReadsRendering(record: Json, layout: Layout)
    ensures TimeKey(record, layout).Returned? ==> exists t: DateTime ::
              Index(record, "time") == Returned(JStr(Render(t, layout))) && TimeKey(record, layout).value == Ordinal(t)
  {
  }

  /** The sort key tells which of two records is newer. */
  lemma TimeKeyOrder(a: Json, b: Json, layout: Layout, ta: DateTime, tb: DateTime)
    requires Index(a, "time") == Returned(JStr(Render(ta, layout)))
    requires Index(b, "time") == Returned(JStr(Render(tb, layout)))
    ensures TimeKey(a, layout).Returned? && TimeKey(b, layout).Returned?
    ensures TimeKey(a, layout).value < TimeKey(b, layout).value <==> Before(ta, tb)
    ensures TimeKey(a, layout).value == TimeKey(b, layout).value <==> ta == tb
  {
    TimeKeyAcceptsRendered(a, layout, ta);
    TimeKeyAcceptsRendered(b, layout, tb);
    OrdinalOrder(ta, tb);
  }

  /** A record whose time is a rendered timestamp gets that timestamp's key. */
  lemma TimeKeyAcceptsRendered(record: Json, layout: Layout, t: DateTime)
    requires Index(record, "time") == Returned(JStr(Render(t, layout)))
    ensures RecordTime(record, layout) == Returned(t)
    ensures TimeKey(record, layout) == Returned(Ordinal(t))
  {
    ParseRender(t, layout);
  }

  /**
   * The key pass of `list.sort(key=...)`: keys are computed for every record
   * in list order before any comparison, and the first failure propagates.
   */
  function KeyAll(records: seq<Json>, layout: Layout): (r: Outcome<seq<(int, Json)>>)
    ensures r.Returned? ==> |r.value| == |records|
    ensures r.Returned? ==> forall i :: 0 <= i < |records| ==>
              TimeKey(records[i], layout) == Returned(r.value[i].0) && r.value[i].1 == records[i]
    ensures r.Raised? ==> exists i :: (0 <= i < |records| && TimeKey(records[i], layout) == Raised(r.error)
              && forall j :: 0 <= j < i ==> TimeKey(records[j], layout).Returned?)
  {
    if |records| == 0 then Returned([])
    else
      match TimeKey(records[0], layout)
      case Raised(e) => Raised(e)
      case Returned(k) =>
        match KeyAll(records[1..], layout)
        case Raised(e) =>
          var i :| 0 <= i < |records[1..]| && TimeKey(records[1..][i], layout) == Raised(e)
                  && forall j :: 0 <= j < i ==> TimeKey(records[1..][j], layout).Returned?;
          KeyFailureShifts(records, layout, i, e);
          Raised(e)
        case Returned(rest) => Returned([(k, records[0])] + rest)
  }

  /** A key failure in the tail, after a successful head key, is a first failure of the whole list. */
  lemma KeyFailureShifts(records: seq<Json>, layout: Layout, i: nat, e: Exception)
    requires 0 <= i < |records| - 1 && TimeKey(records[0], layout).Returned?
    requires TimeKey(records[1..][i], layout) == Raised(e)
    requires forall j :: 0 <= j < i ==> TimeKey(records[1..][j], layout).Returned?
    ensures TimeKey(records[i + 1], layout) == Raised(e)
    ensures forall j :: 0 <= j < i + 1 ==> TimeKey(records[j], layout).Returned?
  {
  }

  /**
   * `data.sort(key=..., reverse=True)` followed by `data[0]`, whose
   * `IndexError` on an empty list becomes `None`.
   */
  function SortAndTakeFirst(records: seq<Json>, layout: Layout): (r: Outcome<Option<Json>>)
    ensures |records| == 0 ==> r == Returned(None)
    ensures r.Raised? <==> exists i :: 0 <= i < |records| && RecordTime(records[i], layout).Raised?
    ensures r.Returned? && |records| > 0 ==> r.value.Some? && r.value.value in records
  {
    match KeyAll(records, layout)
    case Raised(e) => Raised(e)
    case Returned(keyed) =>
      if |keyed| == 0 then Returned(None)
      else
        var head := SortDescending(keyed)[0];
        assert head in multiset(keyed);
        var i :| 0 <= i < |keyed| && keyed[i] == head;
        assert head.1 == records[i];
        Returned(Some(head.1))
  }

  /**
   * Record `i` is the most recent of the day: every record has a timestamp,
   * none is later than record `i`'s, and every record before it is earlier.
   */
  ghost predicate IsMostRecent(records: seq<Json>, layout: Layout, i: int) {
    && 0 <= i < |records|
    && (forall j :: 0 <= j < |records| ==> RecordTime(records[j], layout).Returned?)
    && (forall j :: 0 <= j < |records| ==>
          !Before(RecordTime(records[i], layout).value, RecordTime(records[j], layout).value))
    && (forall j :: 0 <= j < i ==>
          Before(RecordTime(records[j], layout).value, RecordTime(records[i], layout).value))
  }

  /**
   * Sorting newest first and taking the head selects the most recent
   * record, and among records with the same timestamp the one that came
   * first in the response.
   */
  lemma SelectionIsMostRecent(records: seq<Json>, layout: Layout)
    requires |records| > 0
    requires forall j :: 0 <= j < |records| ==> RecordTime(records[j], layout).Returned?
    ensures exists i :: IsMostRecent(records, layout, i)
                        && SortAndTakeFirst(records, layout) == Returned(Some(records[i]))
  {
    var keyed := KeyAll(records, layout).value;
    var i := FirstMaxIndex(keyed);
    forall j | 0 <= j < |records|
      ensures !Before(RecordTime(records[i], layout).value, RecordTime(records[j], layout).value)
      ensures j < i ==> Before(RecordTime(records[j], layout).value, RecordTime(records[i], layout).value)
    {
      var ti, tj := RecordTime(records[i], layout).value, RecordTime(records[j], layout).value;
      TimeKeyOrder(records[i], records[j], layout, ti, tj);
      TimeKeyOrder(records[j], records[i], layout, tj, ti);
    }
    SortHeadIsFirstMax(keyed, i);
    assert IsMostRecent(records, layout, i);
  }

  /** The record the selection returns is determined by the timestamps alone. */
  lemma MostRecentIsUnique(records: seq<Json>, layout: Layout, i: int, i': int)
    requires IsMostRecent(records, layout, i) && IsMostRecent(records, layout, i')
    ensures i == i'
  {
    var t, t' := RecordTime(records[i], layout).value, RecordTime(records[i'], layout).value;
    assert !Before(t, t') && !Before(t', t);
  }

  // ---------------------------------------------------------------------
  // The two API methods
  // ---------------------------------------------------------------------

  /**
   * The envelope check `'data' not in j and inner not in j`, evaluated left
   * to right: the second test runs only when `data` is absent.
   */
  function EnvelopeMissing(j: Json, inner: string): (r: Outcome<bool>)
    ensures j.JObj? ==> r == Returned("data" !in j.fields && inner !in j.fields)
    ensures r.Raised? <==> !(j.JObj? || j.JArr? || j.JStr?)
  {
    match Contains(j, "data")
    case Raised(e) => Raised(e)
    case Returned(hasData) =>
      if hasData then Returned(false)
      else
        match Contains(j, inner)
        case Raised(e) => Raised(e)
        case Returned(hasInner) => Returned(!hasInner)
  }

  /** The day's sample list `response.json()['data'][inner]`, when that lookup succeeds. */
  ghost predicate SampleList(body: Body, inner: string, v: Json) {
    && body.Decoded?
    && Index(body.json, "data").Returned?
    && Index(Index(body.json, "data").value, inner) == Returned(v)
  }

  /**
   * `getPower(date, most_recent_value)` given the response body. Nothing
   * around it is caught: an undecodable body or a non-container document
   * raises, and so does an envelope that passes the check without the
   * `data.powers` path.
   */
  function GetPower(body: Body, mostRecent: bool): (r: Outcome<Option<Json>>)
    ensures !mostRecent && r.Returned? && r.value.Some? ==> body == Decoded(r.value.value)
    ensures !mostRecent && body.Decoded? && body.json.JObj? ==> r.Returned?
    ensures !mostRecent && body.Decoded? && EnvelopeMissing(body.json, "powers") == Returned(false)
            ==> r == Returned(Some(body.json))
    ensures r.Raised? && mostRecent && body.Decoded? && body.json.JObj? && "data" in body.json.fields
            && body.json.fields["data"].JObj? && "powers" in body.json.fields["data"].fields
            ==> body.json.fields["data"].fields["powers"].JArr?
  {
    var j :- ResponseJson(body);
    var missing :- EnvelopeMissing(j, "powers");
    if missing then Returned(None)
    else if !mostRecent then Returned(Some(j))
    else
      var data :- Index(j, "data");
      var powerData :- Index(data, "powers");
      if powerData.JArr? then SortAndTakeFirst(powerData.items, PlantPower)
      else Returned(None)
  }

  /** Python's `str.isdigit()`: non-empty and every character a decimal digit. */
  predicate IsDigitString(s: string) {
    |s| > 0 && AllDigits(s)
  }

  /**
   * `getInverterData(date, device_id, most_recent_value)` given the response
   * body. The envelope check sits in a `try` whose bare `except` returns
   * `None`; the sample lookup and the sort do not. The branch for a sample
   * value that is not a list refers to a name bound only in `getPower`, so it
   * raises `NameError`.
   */
  function GetInverterData(deviceId: string, body: Body, mostRecent: bool): (r: Outcome<Option<Json>>)
    ensures r.Raised? ==> IsDigitString(deviceId) && body.Decoded? && mostRecent
    ensures IsDigitString(deviceId) && !mostRecent && body.Decoded?
            && EnvelopeMissing(body.json, "datas") == Returned(false)
            ==> r == Returned(Some(body.json))
    ensures !mostRecent && r.Returned? && r.value.Some? ==> body == Decoded(r.value.value)
  {
    if !IsDigitString(deviceId) then Returned(None)
    else
      match body
      case Undecodable => Returned(None)
      case Decoded(j) =>
        match EnvelopeMissing(j, "datas")
        case Raised(_) => Returned(None)
        case Returned(missing) =>
          if missing then Returned(None)
          else if !mostRecent then Returned(Some(j))
          else
            var data :- Index(j, "data");
            var inverterData :- Index(data, "datas");
            if inverterData.JArr? then SortAndTakeFirst(inverterData.items, Inverter)
            else Raised(NameError)
  }

  /**
   * With `most_recent_value` set, `getPower` returns the most recent sample of
   * a well-formed day, `None` for an empty day, and raises when any sample's
   * time cannot be read.
   */
  lemma GetPowerSelection(body: Body, records: seq<Json>)
    requires SampleList(body, "powers", JArr(records))
    ensures |records| == 0 ==> GetPower(body, true) == Returned(None)
    ensures |records| > 0 && (forall j :: 0 <= j < |records| ==> RecordTime(records[j], PlantPower).Returned?)
            ==> exists i :: IsMostRecent(records, PlantPower, i) && GetPower(body, true) == Returned(Some(records[i]))
    ensures (exists j :: 0 <= j < |records| && RecordTime(records[j], PlantPower).Raised?)
            ==> GetPower(body, true).Raised?
  {
    if |records| > 0 && (forall j :: 0 <= j < |records| ==> RecordTime(records[j], PlantPower).Returned?) {
      SelectionIsMostRecent(records, PlantPower);
    }
  }

  /** The same selection for `getInverterData`, once the device id is numeric. */
  lemma GetInverterDataSelection(deviceId: string, body: Body, records: seq<Json>)
    requires IsDigitString(deviceId)
    requires SampleList(body, "datas", JArr(records))
    ensures |records| == 0 ==> GetInverterData(deviceId, body, true) == Returned(None)
    ensures |records| > 0 && (forall j :: 0 <= j < |records| ==> RecordTime(records[j], Inverter).Returned?)
            ==> exists i :: IsMostRecent(records, Inverter, i)
                            && GetInverterData(deviceId, body, true) == Returned(Some(records[i]))
    ensures (exists j :: 0 <= j < |records| && RecordTime(records[j], Inverter).Raised?)
            ==> GetInverterData(deviceId, body, true).Raised?
  {
    if |records| > 0 && (forall j :: 0 <= j < |records| ==> RecordTime(records[j], Inverter).Returned?) {
      SelectionIsMostRecent(records, Inverter);
    }
  }

  /** A `powers` value that is not a list makes `getPower` return `None`. */
  lemma GetPowerNonList(body: Body, v: Json)
    requires SampleList(body, "powers", v) && !v.JArr?
    ensures GetPower(body, true) == Returned(None)
  {
  }

  /** A `datas` value that is not a list makes `getInverterData` raise `NameError`. */
  lemma GetInverterDataNonList(deviceId: string, body: Body, v: Json)
    requires IsDigitString(deviceId)
    requires SampleList(body, "datas", v) && !v.JArr?
    ensures GetInverterData(deviceId, body, true) == Raised(NameError)
  {
  }

  /** A document with neither `data` nor `powers` gives `None`, whatever the mode. */
  lemma GetPowerEnvelopeMissing(j: Json, mostRecent: bool)
    requires Contains(j, "data") == Returned(false) && Contains(j, "powers") == Returned(false)
    ensures GetPower(Decoded(j), mostRecent) == Returned(None)
  {
  }

  /**
   * A document with neither `data` nor `datas`, a body that is not JSON and
   * a document the membership test rejects all give `None`.
   */
  lemma GetInverterDataEnvelopeMissing(deviceId: string, body: Body, mostRecent: bool)
    requires IsDigitString(deviceId)
    requires body.Decoded? ==> EnvelopeMissing(body.json, "datas") != Returned(false)
    ensures GetInverterData(deviceId, body, mostRecent) == Returned(None)
  {
  }

  /**
   * A top-level `powers` key satisfies the envelope check, but the sample
   * lookup goes through `data` and raises `KeyError`.
   */
  lemma GetPowerPowersWithoutData(fields: map<string, Json>)
    requires "powers" in fields && "data" !in fields
    ensures GetPower(Decoded(JObj(fields)), false) == Returned(Some(JObj(fields)))
    ensures GetPower(Decoded(JObj(fields)), true) == Raised(KeyError)
  {
  }

  /** A device id that is not all digits, the empty one included, returns `None` for every response. */
  lemma NonNumericDeviceId(deviceId: string, body: Body, mostRecent: bool)
    requires !IsDigitString(deviceId)
    ensures GetInverterData(deviceId, body, mostRecent) == Returned(None)
    ensures GetInverterData("", body, mostRecent) == Returned(None)
  {
  }
}
