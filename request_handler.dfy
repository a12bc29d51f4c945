/**
 The `/generate_map` endpoint: validate `roi` and `feature`, build the map
 layer with `filterDate('2023-01-01', today)`, then the monthly series
 starting at 2023-01-01 and stepping while the month start is not after
 today; a ValueError becomes a 400 reply and any other exception escapes
 the handler.
 */
module RequestHandler {
  import opened Wrappers
  import opened Calendar
  import opened DateFormat
  import opened EarthEngine
  import opened MonthlyValues
  import opened SeriesProperties

  /** A decoded JSON value. */
  datatype Json =
    | JNull
    | JBool(b: bool)
    | JNumber(n: real)
    | JString(s: string)
    | JArray(items: seq<Json>)
    | JObject(fields: map<string, Json>)

  /** Python's truth value of a decoded JSON value: null, false, zero and empty values are false. */
  predicate Truthy(v: Json) {
    match v
    case JNull => false
    case JBool(b) => b
    case JNumber(n) => n != 0.0
    case JString(s) => |s| > 0
    case JArray(items) => |items| > 0
    case JObject(fields) => |fields| > 0
  }

  /** `data.get(key)`: a missing key reads as null. */
  function Field(data: map<string, Json>, key: string): (v: Json)
    ensures key in data ==> v == data[key]
    ensures key !in data ==> v == JNull && !Truthy(v)
  {
    if key in data then data[key] else JNull
  }

  /** The comparisons `feature == 'NDVI'`, `'SM'` and `'LST'`. */
  function FeatureOf(v: Json): (f: Feature)
    ensures f == NDVI <==> v == JString("NDVI")
    ensures f == SM <==> v == JString("SM")
    ensures f == LST <==> v == JString("LST")
  {
    if v == JString("NDVI") then NDVI
    else if v == JString("SM") then SM
    else if v == JString("LST") then LST
    else Unsupported
  }

  /** The fixed start of the analysis window. */
  const AnalysisStartText: string := "2023-01-01"
  const AnalysisStart: Date := Date(2023, 1, 1)

  const RoiRequired: string := "ROI is required"
  const FeatureRequired: string := "Feature is required"
  const NoSmData: string := "No SM data available for the given ROI and date range."
  const NoLstData: string := "No LST data available for the given ROI and date range."

  datatype MapConfig = MapConfig(roi: Json, startDate: string, endDate: string, feature: Json, visualization: Visualization)

  /** The analysis window's two arguments to `filterDate`: the fixed start and today. */
  function AnalysisWindow(today: Date): Window
    requires ValidDate(today) && InRange(today)
  {
    Window(AnalysisStartText, Format(today))
  }

  /** The map layer half of `generate_map_and_values`; `today` is `utcnow()`. */
  function BuildMap(roi: Json, feature: Json, today: Date, svc: Service): (r: Result<MapConfig, Error>)
    requires ValidDate(today) && InRange(today)
    ensures r.Ok? <==>
      FeatureOf(feature) != Unsupported &&
      !(FeatureOf(feature) == SM && svc.isEmpty(SmapCollection, AnalysisWindow(today))) &&
      !(FeatureOf(feature) == LST && svc.isEmpty(ModisLstCollection, AnalysisWindow(today)))
    ensures r.Ok? ==>
      r.value.roi == roi && r.value.feature == feature &&
      r.value.startDate == AnalysisStartText && r.value.endDate == Format(today)
    ensures r.Err? ==> r.error.ValueError? || r.error == UnboundLocalError("image")
  {
    var w := AnalysisWindow(today);
    var f := FeatureOf(feature);
    if f == SM && svc.isEmpty(SmapCollection, w) then Err(ValueError(NoSmData))
    else if f == LST && svc.isEmpty(ModisLstCollection, w) then Err(ValueError(NoLstData))
    else if f == Unsupported then Err(UnboundLocalError("image"))
    else Ok(MapConfig(roi, AnalysisStartText, Format(today), feature, svc.mapId(MapImage(f, w))))
  }

  /**
   `generate_map_and_values`: the map layer first, then the monthly series
   over the same window; a ValueError can only come from the map layer.
   */
  function GenerateMapAndValues(roi: Json, feature: Json, today: Date, svc: Service): (r: Result<(MapConfig, seq<MonthlyValue>), Error>)
    requires ValidDate(today) && InRange(today)
    ensures r.Err? && r.error.ValueError? ==> BuildMap(roi, feature, today, svc) == Err(r.error)
    ensures r.Err? ==> r.error.ValueError? || r.error == OverflowError || r.error == UnboundLocalError("image")
  {
    SeriesErrors(AnalysisStart, today, FeatureOf(feature), svc);
    match BuildMap(roi, feature, today, svc)
    case Err(e) => Err(e)
    case Ok(config) =>
      match SeriesFrom(AnalysisStart, today, FeatureOf(feature), svc)
      case Err(e) => Err(e)
      case Ok(values) => Ok((config, values))
  }

  datatype Body = ErrorBody(error: string) | Generated(mapConfig: MapConfig, monthlyValues: seq<MonthlyValue>)

  datatype Reply = Reply(status: int, body: Body)

  /** Either a reply, or an exception the handler does not catch. */
  datatype Outcome = Replied(reply: Reply) | Raised(error: Error)

  /**
   The `/generate_map` handler on the decoded request body: it replies 200
   with the generated data or 400 with a message, and lets every exception
   but ValueError escape.
   */
  function GenerateMap(data: map<string, Json>, today: Date, svc: Service): (o: Outcome)
    requires ValidDate(today) && InRange(today)
    ensures o.Replied? ==> (o.reply.status == 200 && o.reply.body.Generated?) || (o.reply.status == 400 && o.reply.body.ErrorBody?)
    ensures o.Raised? ==> o.error == OverflowError || o.error == UnboundLocalError("image")
  {
    var roi := Field(data, "roi");
    var feature := Field(data, "feature");
    if !Truthy(roi) then Replied(Reply(400, ErrorBody(RoiRequired)))
    else if !Truthy(feature) then Replied(Reply(400, ErrorBody(FeatureRequired)))
    else
      match GenerateMapAndValues(roi, feature, today, svc)
      case Ok((config, values)) => Replied(Reply(200, Generated(config, values)))
      case Err(ValueError(message)) => Replied(Reply(400, ErrorBody(message)))
      case Err(e) => Raised(e)
  }

  // ---------------------------------------------------------------------------

  /** The literal start date is the text of 2023-01-01 and parses back to it. */
  lemma AnalysisStartIsFormatted()
    ensures Format(AnalysisStart) == AnalysisStartText
    ensures Parse(AnalysisStartText) == Some(AnalysisStart)
  {
    ParseFormat(AnalysisStart);
  }

  /**
   The map builder raises ValueError exactly when the selected SM or LST
   collection is empty for the analysis window, with the feature's message;
   then there is no map layer.
   */
  lemma MapBuilderNoData(roi: Json, feature: Json, today: Date, svc: Service, message: string)
    requires ValidDate(today) && InRange(today)
    ensures BuildMap(roi, feature, today, svc) == Err(ValueError(message)) <==>
      (feature == JString("SM") && svc.isEmpty(SmapCollection, AnalysisWindow(today)) && message == NoSmData) ||
      (feature == JString("LST") && svc.isEmpty(ModisLstCollection, AnalysisWindow(today)) && message == NoLstData)
  {
  }

  /** A supported feature with data yields the map layer of the request's ROI and feature for the analysis window. */
  lemma MapBuilderLayer(roi: Json, feature: Json, today: Date, svc: Service)
    requires ValidDate(today) && InRange(today)
    requires FeatureOf(feature) != Unsupported
    requires FeatureOf(feature) == SM ==> !svc.isEmpty(SmapCollection, AnalysisWindow(today))
    requires FeatureOf(feature) == LST ==> !svc.isEmpty(ModisLstCollection, AnalysisWindow(today))
    ensures BuildMap(roi, feature, today, svc).Ok?
    ensures var c := BuildMap(roi, feature, today, svc).value;
      c.roi == roi && c.feature == feature &&
      Parse(c.startDate) == Some(AnalysisStart) && Parse(c.endDate) == Some(today) &&
      c.visualization == svc.mapId(MapImage(FeatureOf(feature), AnalysisWindow(today)))
  {
    AnalysisStartIsFormatted();
    ParseFormat(today);
  }

  /**
   Every 400 reply and its message: a missing ROI is reported before the
   feature is looked at, then a missing feature, then the map builder's
   no-data ValueError; nothing else leads to a 400.
   */
  lemma BadRequest(data: map<string, Json>, today: Date, svc: Service, message: string)
    requires ValidDate(today) && InRange(today)
    ensures GenerateMap(data, today, svc) == Replied(Reply(400, ErrorBody(message))) <==>
      var roi, feature := Field(data, "roi"), Field(data, "feature");
      (!Truthy(roi) && message == RoiRequired) ||
      (Truthy(roi) && !Truthy(feature) && message == FeatureRequired) ||
      (Truthy(roi) && Truthy(feature) && BuildMap(roi, feature, today, svc) == Err(ValueError(message)))
  {
    var roi, feature := Field(data, "roi"), Field(data, "feature");
    if !Truthy(roi) {
      assert GenerateMap(data, today, svc) == Replied(Reply(400, ErrorBody(RoiRequired)));
    } else if !Truthy(feature) {
      assert GenerateMap(data, today, svc) == Replied(Reply(400, ErrorBody(FeatureRequired)));
    } else if BuildMap(roi, feature, today, svc).Err? {
      assert GenerateMapAndValues(roi, feature, today, svc) == Err(BuildMap(roi, feature, today, svc).error);
    } else {
      SeriesErrors(AnalysisStart, today, FeatureOf(feature), svc);
      assert GenerateMapAndValues(roi, feature, today, svc).Err? ==> !GenerateMapAndValues(roi, feature, today, svc).error.ValueError?;
    }
  }

  /** A request that names no supported feature escapes the handler with UnboundLocalError. */
  lemma UnsupportedFeatureRaises(data: map<string, Json>, today: Date, svc: Service)
    requires ValidDate(today) && InRange(today)
    requires Truthy(Field(data, "roi")) && Truthy(Field(data, "feature"))
    requires FeatureOf(Field(data, "feature")) == Unsupported
    ensures GenerateMap(data, today, svc) == Raised(UnboundLocalError("image"))
  {
  }

  /**
   A valid request for a supported feature with data gets a 200 reply: the
   map layer, and one entry per calendar month from January 2023 through
   today's month.
   */
  lemma SuccessfulReply(data: map<string, Json>, today: Date, svc: Service)
    requires ValidDate(today) && InRange(today) && BeforeLastMonth(today)
    requires Truthy(Field(data, "roi")) && Truthy(Field(data, "feature"))
    requires FeatureOf(Field(data, "feature")) != Unsupported
    requires FeatureOf(Field(data, "feature")) == SM ==> !svc.isEmpty(SmapCollection, AnalysisWindow(today))
    requires FeatureOf(Field(data, "feature")) == LST ==> !svc.isEmpty(ModisLstCollection, AnalysisWindow(today))
    ensures GenerateMap(data, today, svc).Replied?
    ensures var reply := GenerateMap(data, today, svc).reply;
      reply.status == 200 && reply.body.Generated? &&
      reply.body.mapConfig == BuildMap(Field(data, "roi"), Field(data, "feature"), today, svc).value &&
      IsMonthlySeries(reply.body.monthlyValues, AnalysisStart, today, FeatureOf(Field(data, "feature")), svc)
    ensures |GenerateMap(data, today, svc).reply.body.monthlyValues| == MonthCount(AnalysisStart, today)
  {
    var f := FeatureOf(Field(data, "feature"));
    MapBuilderLayer(Field(data, "roi"), Field(data, "feature"), today, svc);
    MonthlySeries(AnalysisStart, today, f, svc);
  }
}
