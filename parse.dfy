/**
 * parse.js: `parseFitData` of the first iteration, after the decoder has run.
 * The records are passed through as decoded; one pass collects the GPS points
 * and folds their bounding box, a second collects the chartable field keys.
 */
module Parse {
  import opened JsValue
  import opened Text
  import opened Activity
  import SrcParse

  /** The ignore set as built (parse.js:41-50), before `altitude` is deleted from it. */
  const DeclaredIgnore: set<string> :=
    {"timestamp", "position_lat", "position_long", "timer_time", "elapsed_time", "distance", "temperature", "altitude"}

  /** `ignoreFields` after `ignoreFields.delete("altitude")`. */
  const IgnoreFields: set<string> := DeclaredIgnore - {"altitude"}

  /** The object this `parseFitData` resolves to; `raw` is the decoder's output itself. */
  datatype ParsedFit = ParsedFit(
    raw: FitFile,
    records: seq<Record>,
    laps: seq<Record>,
    sessions: seq<Record>,
    gps: seq<GpsPoint>,
    bounds: Option<Bounds>,
    fields: seq<string>)

  method ParseFitData(fit: FitFile, parseDate: DateParser) returns (out: ParsedFit)
    ensures out.raw == fit && out.records == OrEmpty(fit.records)
    ensures out.laps == OrEmpty(fit.laps) && out.sessions == OrEmpty(fit.sessions)
    ensures out.gps == GpsTrack(OrEmpty(fit.records), parseDate)
    ensures out.bounds == TrackBounds(out.gps)
    ensures StrictlySorted(out.fields) && Elems(out.fields) == NumericKeys(out.records, IgnoreFields)
  {
    var records := OrEmpty(fit.records);
    var gps: seq<GpsPoint> := [];
    var minLat, maxLat, minLon, maxLon := 90.0, -90.0, 180.0, -180.0;

    var index := 0;
    while index < |records|
      invariant 0 <= index <= |records|
      invariant gps == GpsTrack(records[..index], parseDate)
      invariant minLat == FoldMin(90.0, Lats(gps)) && maxLat == FoldMax(-90.0, Lats(gps))
      invariant minLon == FoldMin(180.0, Lons(gps)) && maxLon == FoldMax(-180.0, Lons(gps))
    {
      var r := records[index];
      GpsTrackStep(records, index, parseDate);
      if HasPosition(r) {
        var ts := EpochSeconds(r, parseDate);
        var lat, lon := Get(r, "position_lat").n.v, Get(r, "position_long").n.v;
        var p := GpsPoint(index, lat, lon, ts);
        FoldStep(gps, p);
        gps := gps + [p];
        if lat < minLat { minLat := lat; }
        if lat > maxLat { maxLat := lat; }
        if lon < minLon { minLon := lon; }
        if lon > maxLon { maxLon := lon; }
      }
      index := index + 1;
    }
    assert records[..index] == records;

    var fieldSet := CollectNumericKeys(records, IgnoreFields);
    SortStringsCorrect(fieldSet);
    out := ParsedFit(
      fit, records, OrEmpty(fit.laps), OrEmpty(fit.sessions), gps,
      if |gps| > 0 then Some(Bounds(minLat, minLon, maxLat, maxLon)) else None,
      SortStrings(fieldSet));
  }

  /** Altitude was declared ignored and then deleted: it is charted whenever a record carries it as a number. */
  lemma AltitudeCharted(records: seq<Record>, j: nat)
    requires j < |records| && "altitude" in records[j] && IsNumber(records[j]["altitude"])
    ensures "altitude" in DeclaredIgnore && "altitude" in NumericKeys(records, IgnoreFields)
  {
    NumericKeysSpec(records, IgnoreFields, "altitude");
  }

  /**
   * The later parser (src/parse.js) offers the same chart fields as this one,
   * except for `ts` and `i`, which it adds to every record and ignores.
   */
  lemma SameCatalogAsLaterParser(raw: seq<Record>, parseDate: DateParser)
    ensures NumericKeys(SrcParse.Normalized(raw, parseDate), SrcParse.Ignore) ==
            NumericKeys(raw, IgnoreFields) - {"ts", "i"}
  {
    forall key
      ensures key in NumericKeys(SrcParse.Normalized(raw, parseDate), SrcParse.Ignore) <==>
              key in NumericKeys(raw, IgnoreFields) - {"ts", "i"}
    {
      SrcParse.FieldsSpec(raw, parseDate, key);
      NumericKeysSpec(raw, IgnoreFields, key);
    }
  }
}
