/**
 * src/parse.js: `parseFitData` after the decoder has run. One pass over the
 * raw records gives each a canonical `ts` (seconds) and its index `i`,
 * collects the GPS points, folds the bounding box and the start and end
 * times; a second pass collects the chartable field keys.
 */
module SrcParse {
  import opened JsValue
  import opened Text
  import opened Activity

  /** Keys never offered as chart fields (src/parse.js:53-63). */
  const Ignore: set<string> :=
    {"timestamp", "ts", "i", "position_lat", "position_long", "timer_time", "elapsed_time", "distance", "temperature"}

  /** The object `parseFitData` resolves to. */
  datatype ParsedFit = ParsedFit(
    records: seq<Record>,
    gps: seq<GpsPoint>,
    laps: seq<Record>,
    sessions: seq<Record>,
    bounds: Option<Bounds>,
    fields: seq<string>,
    startTime: Extended,
    endTime: Extended)

  /** `{ ...r, ts: ts, i: i }` */
  function Normalize(r: Record, i: nat, parseDate: DateParser): Record
  {
    r["ts" := Num(EpochSeconds(r, parseDate))]["i" := Num(Finite(i as real))]
  }

  function Normalized(raw: seq<Record>, parseDate: DateParser): seq<Record>
  {
    seq(|raw|, k requires 0 <= k < |raw| => Normalize(raw[k], k, parseDate))
  }

  function Times(raw: seq<Record>, parseDate: DateParser): seq<Number>
  {
    seq(|raw|, k requires 0 <= k < |raw| => EpochSeconds(raw[k], parseDate))
  }

  /** `ts < m`, for a running minimum that starts at `Infinity`. */
  predicate Below(t: Number, m: Extended)
  {
    t.Finite? && (m.PosInfinity? || (m.Real? && t.v < m.r))
  }

  /** `ts > m`, for a running maximum that starts at `-Infinity`. */
  predicate Above(t: Number, m: Extended)
  {
    t.Finite? && (m.NegInfinity? || (m.Real? && t.v > m.r))
  }

  /** `startTime`: `Infinity`, lowered by every time below it; NaN never is. */
  function Earliest(ts: seq<Number>): Extended
    decreases |ts|
  {
    if ts == [] then PosInfinity
    else
      var m := Earliest(ts[..|ts| - 1]);
      var t := ts[|ts| - 1];
      if Below(t, m) then Real(t.v) else m
  }

  /** `endTime`: `-Infinity`, raised by every time above it. */
  function Latest(ts: seq<Number>): Extended
    decreases |ts|
  {
    if ts == [] then NegInfinity
    else
      var m := Latest(ts[..|ts| - 1]);
      var t := ts[|ts| - 1];
      if Above(t, m) then Real(t.v) else m
  }

  method ParseFitData(fit: FitFile, parseDate: DateParser) returns (out: ParsedFit)
    ensures out.records == Normalized(OrEmpty(fit.records), parseDate)
    ensures out.gps == GpsTrack(OrEmpty(fit.records), parseDate)
    ensures out.bounds == TrackBounds(out.gps)
    ensures out.startTime == Earliest(Times(OrEmpty(fit.records), parseDate))
    ensures out.endTime == Latest(Times(OrEmpty(fit.records), parseDate))
    ensures StrictlySorted(out.fields) && Elems(out.fields) == NumericKeys(out.records, Ignore)
    ensures out.laps == OrEmpty(fit.laps) && out.sessions == OrEmpty(fit.sessions)
    ensures fit.records.None? ==>
      out.records == [] && out.gps == [] && out.bounds.None? && out.fields == [] &&
      out.startTime == PosInfinity && out.endTime == NegInfinity
  {
    var raw := OrEmpty(fit.records);
    var records: seq<Record> := [];
    var gps: seq<GpsPoint> := [];
    var minLat, maxLat, minLon, maxLon := 90.0, -90.0, 180.0, -180.0;
    var hasGps := false;
    var startTime, endTime := PosInfinity, NegInfinity;

    var k := 0;
    while k < |raw|
      invariant 0 <= k <= |raw|
      invariant records == Normalized(raw[..k], parseDate)
      invariant gps == GpsTrack(raw[..k], parseDate)
      invariant hasGps == (gps != [])
      invariant minLat == FoldMin(90.0, Lats(gps)) && maxLat == FoldMax(-90.0, Lats(gps))
      invariant minLon == FoldMin(180.0, Lons(gps)) && maxLon == FoldMax(-180.0, Lons(gps))
      invariant startTime == Earliest(Times(raw[..k], parseDate))
      invariant endTime == Latest(Times(raw[..k], parseDate))
    {
      var r := raw[k];
      var ts := EpochSeconds(r, parseDate);
      PrefixStep(raw, k, parseDate);
      records := records + [r["ts" := Num(ts)]["i" := Num(Finite(k as real))]];

      if Below(ts, startTime) { startTime := Real(ts.v); }
      if Above(ts, endTime) { endTime := Real(ts.v); }

      if HasPosition(r) {
        var lat, lon := Get(r, "position_lat").n.v, Get(r, "position_long").n.v;
        var p := GpsPoint(k, lat, lon, ts);
        FoldStep(gps, p);
        gps := gps + [p];
        if lat < minLat { minLat := lat; }
        if lat > maxLat { maxLat := lat; }
        if lon < minLon { minLon := lon; }
        if lon > maxLon { maxLon := lon; }
        hasGps := true;
      }
      k := k + 1;
    }
    assert raw[..k] == raw;

    var fields := CollectNumericKeys(records, Ignore);
    SortStringsCorrect(fields);
    assert fields != [] ==> fields[0] in Elems(fields);
    out := ParsedFit(
      records, gps, OrEmpty(fit.laps), OrEmpty(fit.sessions),
      if hasGps then Some(Bounds(minLat, minLon, maxLat, maxLon)) else None,
      SortStrings(fields), startTime, endTime);
  }

  /** How each reference definition grows by one record. */
  lemma PrefixStep(raw: seq<Record>, k: nat, parseDate: DateParser)
    requires k < |raw|
    ensures Normalized(raw[..k + 1], parseDate) == Normalized(raw[..k], parseDate) + [Normalize(raw[k], k, parseDate)]
    ensures GpsTrack(raw[..k + 1], parseDate) ==
      GpsTrack(raw[..k], parseDate) + (if HasPosition(raw[k]) then [PointAt(raw[k], k, parseDate)] else [])
    ensures Earliest(Times(raw[..k + 1], parseDate)) ==
      (var m := Earliest(Times(raw[..k], parseDate)); var t := EpochSeconds(raw[k], parseDate);
       if Below(t, m) then Real(t.v) else m)
    ensures Latest(Times(raw[..k + 1], parseDate)) ==
      (var m := Latest(Times(raw[..k], parseDate)); var t := EpochSeconds(raw[k], parseDate);
       if Above(t, m) then Real(t.v) else m)
  {
    assert raw[..k + 1][..k] == raw[..k];
    assert Times(raw[..k + 1], parseDate)[..k] == Times(raw[..k], parseDate);
  }

  /**
   * Record k of the output is raw record k with `i = k` and its canonical
   * `ts` added; every other property is kept.
   */
  lemma NormalizedSpec(raw: seq<Record>, parseDate: DateParser)
    ensures |Normalized(raw, parseDate)| == |raw|
    ensures forall k :: 0 <= k < |raw| ==>
      var r := Normalized(raw, parseDate)[k];
      && r.Keys == raw[k].Keys + {"ts", "i"}
      && r["i"] == Num(Finite(k as real))
      && r["ts"] == Num(EpochSeconds(raw[k], parseDate))
      && (forall key :: key in raw[k] && key != "ts" && key != "i" ==> r[key] == raw[k][key])
  {
  }

  /** Adding `ts` and `i` to every record leaves the catalog as the raw records would give it. */
  lemma CatalogIgnoresAddedKeys(raw: seq<Record>, parseDate: DateParser)
    ensures NumericKeys(Normalized(raw, parseDate), Ignore) == NumericKeys(raw, Ignore)
  {
    var rs := Normalized(raw, parseDate);
    forall key
      ensures key in NumericKeys(rs, Ignore) <==> key in NumericKeys(raw, Ignore)
    {
      NumericKeysSpec(rs, Ignore, key);
      NumericKeysSpec(raw, Ignore, key);
      if key !in Ignore {
        assert forall j :: 0 <= j < |raw| ==> (key in rs[j] <==> key in raw[j]);
        assert forall j :: 0 <= j < |raw| && key in raw[j] ==> rs[j][key] == raw[j][key];
      }
    }
  }

  /** A key is in `fields` iff it is not ignored and some raw record holds a number under it. */
  lemma FieldsSpec(raw: seq<Record>, parseDate: DateParser, key: string)
    ensures key in NumericKeys(Normalized(raw, parseDate), Ignore) <==>
      key !in Ignore && exists j :: 0 <= j < |raw| && key in raw[j] && IsNumber(raw[j][key])
  {
    CatalogIgnoresAddedKeys(raw, parseDate);
    NumericKeysSpec(raw, Ignore, key);
  }

  /**
   * Each GPS point carries the `i` and the `ts` of the normalised record it
   * comes from, and that record's coordinates.
   */
  lemma GpsAlignedWithRecords(raw: seq<Record>, parseDate: DateParser)
    ensures var gps := GpsTrack(raw, parseDate); var records := Normalized(raw, parseDate);
      forall n :: 0 <= n < |gps| ==>
        && gps[n].i < |records|
        && records[gps[n].i]["i"] == Num(Finite(gps[n].i as real))
        && records[gps[n].i]["ts"] == Num(gps[n].ts)
        && Get(records[gps[n].i], "position_lat") == Num(Finite(gps[n].lat))
        && Get(records[gps[n].i], "position_long") == Num(Finite(gps[n].lon))
  {
    GpsTrackSound(raw, parseDate);
  }

  lemma {:induction false} EarliestSpec(ts: seq<Number>)
    ensures !Earliest(ts).NegInfinity?
    ensures Earliest(ts).PosInfinity? <==> forall k :: 0 <= k < |ts| ==> ts[k].NaN?
    ensures Earliest(ts).Real? ==>
      (forall k :: 0 <= k < |ts| && ts[k].Finite? ==> Earliest(ts).r <= ts[k].v) &&
      (exists k :: 0 <= k < |ts| && ts[k] == Finite(Earliest(ts).r))
    decreases |ts|
  {
    if ts != [] {
      var init := ts[..|ts| - 1];
      EarliestSpec(init);
      assert forall k :: 0 <= k < |init| ==> ts[k] == init[k];
    }
  }

  lemma {:induction false} LatestSpec(ts: seq<Number>)
    ensures !Latest(ts).PosInfinity?
    ensures Latest(ts).NegInfinity? <==> forall k :: 0 <= k < |ts| ==> ts[k].NaN?
    ensures Latest(ts).Real? ==>
      (forall k :: 0 <= k < |ts| && ts[k].Finite? ==> Latest(ts).r >= ts[k].v) &&
      (exists k :: 0 <= k < |ts| && ts[k] == Finite(Latest(ts).r))
    decreases |ts|
  {
    if ts != [] {
      var init := ts[..|ts| - 1];
      LatestSpec(init);
      assert forall k :: 0 <= k < |init| ==> ts[k] == init[k];
    }
  }
}
