/**
 * src/app.js: the application state of the later iteration (`APP.data`, the
 * map and chart managers, and what the summary and detail tables show) and
 * the selection logic that keeps them in step: `updateSelectionState`, the
 * aggregates of `renderAvgTable`, `handleUpload` and the wiring of the chart
 * callbacks to the selection and the map marker.
 */
module SrcApp {
  import opened JsValue
  import opened Text
  import opened Labels
  import opened Activity
  import opened Stats
  import SrcParse
  import SrcMap
  import SrcCharts

  // ---------------------------------------------------------------------------
  // Selection
  // ---------------------------------------------------------------------------

  /** `minTs === null || maxTs === null`; `None` stands for `null`. */
  predicate IsReset(minTs: Option<Number>, maxTs: Option<Number>)
  {
    minTs.None? || maxTs.None?
  }

  /** The records `updateSelectionState` selects: all of them on a reset, else those with `minTs <= r.ts <= maxTs`. */
  function SelectionSubset(records: seq<Record>, minTs: Option<Number>, maxTs: Option<Number>): seq<Record>
  {
    if IsReset(minTs, maxTs) then records else Window(records, TsOf, minTs.value, maxTs.value)
  }

  /**
   * A reset selects every record unchanged; a range keeps a record iff its `ts`
   * is a number in the inclusive range, so a record whose `ts` is NaN is never
   * selected.
   */
  lemma SelectionSubsetSpec(records: seq<Record>, minTs: Option<Number>, maxTs: Option<Number>)
    ensures IsReset(minTs, maxTs) ==> SelectionSubset(records, minTs, maxTs) == records
    ensures !IsReset(minTs, maxTs) ==>
      && |SelectionSubset(records, minTs, maxTs)| <= |records|
      && (forall r :: r in SelectionSubset(records, minTs, maxTs) <==>
            r in records && InRange(TsOf(r), minTs.value, maxTs.value))
      && (forall r :: r in SelectionSubset(records, minTs, maxTs) ==> TsOf(r).Finite?)
  {
    if !IsReset(minTs, maxTs) {
      WindowSpec(records, TsOf, minTs.value, maxTs.value);
    }
  }

  /**
   * A selection depends on its own bounds only: narrowing a range and
   * selecting again from the result gives what the narrower range gives on
   * all records.
   */
  lemma SelectionNarrowing(records: seq<Record>, lo: Number, hi: Number, lo': Number, hi': Number)
    requires Le(lo, lo') && Le(hi', hi)
    ensures SelectionSubset(SelectionSubset(records, Some(lo), Some(hi)), Some(lo'), Some(hi')) ==
            SelectionSubset(records, Some(lo'), Some(hi'))
  {
    WindowNarrowing(records, TsOf, lo, hi, lo', hi');
  }

  // ---------------------------------------------------------------------------
  // The summary row
  // ---------------------------------------------------------------------------

  /** `last.ts - first.ts` */
  function Duration(subset: seq<Record>): Number
    requires subset != []
  {
    Sub(TsOf(subset[|subset| - 1]), TsOf(subset[0]))
  }

  /** `(last.distance || 0) - (first.distance || 0)` */
  function Distance(subset: seq<Record>): Number
    requires subset != []
  {
    Sub(OrZero(Get(subset[|subset| - 1], "distance")), OrZero(Get(subset[0], "distance")))
  }

  /** The mean of field `k` over the records holding a number there, 0 when none does. */
  function FieldAverage(subset: seq<Record>, k: string): Number
  {
    match Mean(subset, k)
    case None => Finite(0.0)
    case Some(m) => m
  }

  /**
   * The row `renderAvgTable` shows: none for an empty subset; otherwise the
   * duration and distance and each field's average, a field named `duration`
   * or `dist` overwriting the value computed under that name.
   */
  predicate IsSummary(row: Option<map<string, Number>>, subset: seq<Record>, fields: seq<string>)
  {
    if subset == [] then row.None?
    else
      && row.Some?
      && row.value.Keys == {"duration", "dist"} + Elems(fields)
      && (forall k :: k in fields ==> k in row.value && row.value[k] == FieldAverage(subset, k))
      && ("duration" !in fields ==> row.value["duration"] == Duration(subset))
      && ("dist" !in fields ==> row.value["dist"] == Distance(subset))
  }

  /** The averages of `keys`, each under its own key. */
  function Averages(subset: seq<Record>, keys: set<string>): map<string, Number>
  {
    map k | k in keys :: FieldAverage(subset, k)
  }

  lemma AveragesStep(base: map<string, Number>, subset: seq<Record>, done: set<string>, k: string)
    ensures (base + Averages(subset, done))[k := FieldAverage(subset, k)] == base + Averages(subset, done + {k})
  {
    var lhs := (base + Averages(subset, done))[k := FieldAverage(subset, k)];
    var rhs := base + Averages(subset, done + {k});
    assert lhs.Keys == rhs.Keys;
    forall j | j in lhs.Keys
      ensures lhs[j] == rhs[j]
    {
    }
  }

  /** The two computed entries with every field's average laid over them make the summary row. */
  lemma AveragesSummary(subset: seq<Record>, fields: seq<string>, base: map<string, Number>)
    requires subset != []
    requires base == map["duration" := Duration(subset), "dist" := Distance(subset)]
    ensures IsSummary(Some(base + Averages(subset, Elems(fields))), subset, fields)
  {
    var row := base + Averages(subset, Elems(fields));
    assert row.Keys == {"duration", "dist"} + Elems(fields);
  }

  /** `renderAvgTable`'s `rowData`, filled field by field. */
  method AverageRow(subset: seq<Record>, fields: seq<string>) returns (row: Option<map<string, Number>>)
    ensures IsSummary(row, subset, fields)
  {
    if |subset| == 0 {
      return None;
    }
    var first := subset[0];
    var last := subset[|subset| - 1];
    var duration := Sub(TsOf(last), TsOf(first));
    var dist := Sub(OrZero(Get(last, "distance")), OrZero(Get(first, "distance")));
    var base := map["duration" := duration, "dist" := dist];
    var rowData := base;
    assert Averages(subset, {}) == map[];
    assert rowData == base + Averages(subset, Elems(fields[..0]));
    var n := 0;
    while n < |fields|
      invariant 0 <= n <= |fields|
      invariant rowData == base + Averages(subset, Elems(fields[..n]))
    {
      var k := fields[n];
      assert Elems(fields[..n + 1]) == Elems(fields[..n]) + {k} by {
        assert fields[..n + 1] == fields[..n] + [k];
      }
      AveragesStep(base, subset, Elems(fields[..n]), k);
      rowData := rowData[k := FieldAverage(subset, k)];
      n := n + 1;
    }
    assert fields[..n] == fields;
    AveragesSummary(subset, fields, base);
    return Some(rowData);
  }

  /**
   * The duration of a range selection is a number no larger in magnitude than
   * the range, and not negative when the records are in time order.
   */
  lemma DurationWithinRange(records: seq<Record>, lo: Number, hi: Number)
    requires SelectionSubset(records, Some(lo), Some(hi)) != []
    ensures var d := Duration(SelectionSubset(records, Some(lo), Some(hi)));
      d.Finite? && lo.Finite? && hi.Finite? && lo.v - hi.v <= d.v <= hi.v - lo.v
    ensures SortedBy(records, TsOf) ==> Duration(SelectionSubset(records, Some(lo), Some(hi))).v >= 0.0
  {
    var subset := SelectionSubset(records, Some(lo), Some(hi));
    WindowSpec(records, TsOf, lo, hi);
    assert subset[0] in subset && subset[|subset| - 1] in subset;
    if SortedBy(records, TsOf) {
      WindowSorted(records, TsOf, lo, hi);
    }
  }

  /**
   * A field's average is 0 when no selected record holds a number there, NaN
   * when one holds NaN, and otherwise lies within the bounds of its values.
   */
  lemma FieldAverageSpec(subset: seq<Record>, k: string, lo: real, hi: real)
    ensures (forall j :: 0 <= j < |subset| ==> !IsNumber(Get(subset[j], k))) ==> FieldAverage(subset, k) == Finite(0.0)
    ensures (exists j :: 0 <= j < |subset| && Get(subset[j], k) == Num(NaN)) ==> FieldAverage(subset, k) == NaN
    ensures (forall j :: 0 <= j < |subset| && IsNumber(Get(subset[j], k)) ==>
               Get(subset[j], k).n.Finite? && lo <= Get(subset[j], k).n.v <= hi) &&
            (exists j :: 0 <= j < |subset| && IsNumber(Get(subset[j], k))) ==>
              FieldAverage(subset, k).Finite? && lo <= FieldAverage(subset, k).v <= hi
  {
    MeanDefined(subset, k);
    if forall j :: 0 <= j < |subset| && IsNumber(Get(subset[j], k)) ==>
         Get(subset[j], k).n.Finite? && lo <= Get(subset[j], k).n.v <= hi {
      MeanWithin(subset, k, lo, hi);
    }
  }

  // ---------------------------------------------------------------------------
  // The map highlight of a selection
  // ---------------------------------------------------------------------------

  /**
   * For a file whose records are in time order, the red line of a range
   * selection covers exactly the GPS points of the selected records: a point
   * is highlighted iff its time lies in the range iff its record was selected.
   */
  lemma HighlightCoversSelection(raw: seq<Record>, parseDate: DateParser, lo: Number, hi: Number)
    requires SortedBy(SrcParse.Normalized(raw, parseDate), TsOf)
    requires SelectionSubset(SrcParse.Normalized(raw, parseDate), Some(lo), Some(hi)) != []
    ensures var records := SrcParse.Normalized(raw, parseDate);
      var subset := SelectionSubset(records, Some(lo), Some(hi));
      var gps := GpsTrack(raw, parseDate);
      forall p :: p in gps ==>
        && p.i < |records|
        && (p in SrcMap.Segment(gps, subset) <==> InRange(p.ts, lo, hi))
        && (InRange(p.ts, lo, hi) <==> records[p.i] in subset)
  {
    var records := SrcParse.Normalized(raw, parseDate);
    var subset := SelectionSubset(records, Some(lo), Some(hi));
    var gps := GpsTrack(raw, parseDate);
    forall p | p in gps
      ensures p.i < |records|
      ensures p in SrcMap.Segment(gps, subset) <==> InRange(p.ts, lo, hi)
      ensures InRange(p.ts, lo, hi) <==> records[p.i] in subset
    {
      var n :| 0 <= n < |gps| && gps[n] == p;
      HighlightCoversPoint(raw, parseDate, lo, hi, n);
    }
  }

  /** `HighlightCoversSelection` for the n-th GPS point. */
  lemma HighlightCoversPoint(raw: seq<Record>, parseDate: DateParser, lo: Number, hi: Number, n: nat)
    requires SortedBy(SrcParse.Normalized(raw, parseDate), TsOf)
    requires SelectionSubset(SrcParse.Normalized(raw, parseDate), Some(lo), Some(hi)) != []
    requires n < |GpsTrack(raw, parseDate)|
    ensures var records := SrcParse.Normalized(raw, parseDate);
      var subset := SelectionSubset(records, Some(lo), Some(hi));
      var gps := GpsTrack(raw, parseDate);
      && gps[n].i < |records|
      && (gps[n] in SrcMap.Segment(gps, subset) <==> InRange(gps[n].ts, lo, hi))
      && (InRange(gps[n].ts, lo, hi) <==> records[gps[n].i] in subset)
  {
    var records := SrcParse.Normalized(raw, parseDate);
    var subset := SelectionSubset(records, Some(lo), Some(hi));
    var gps := GpsTrack(raw, parseDate);
    var p := gps[n];
    var first, last := TsOf(subset[0]), TsOf(subset[|subset| - 1]);
    PointTimeIsRecordTime(raw, parseDate, n);
    SelectedBetweenEnds(records, lo, hi, p.i);
    assert InRange(p.ts, first, last) <==> InRange(p.ts, lo, hi);
    WindowSpec(gps, SrcMap.PointTime, first, last);
    assert p in SrcMap.Segment(gps, subset) <==> InRange(p.ts, first, last);
  }

  /** A GPS point carries the `ts` of the normalised record it was taken from. */
  lemma PointTimeIsRecordTime(raw: seq<Record>, parseDate: DateParser, n: nat)
    requires n < |GpsTrack(raw, parseDate)|
    ensures var p := GpsTrack(raw, parseDate)[n];
      p.i < |SrcParse.Normalized(raw, parseDate)| && TsOf(SrcParse.Normalized(raw, parseDate)[p.i]) == p.ts
  {
    GpsTrackSound(raw, parseDate);
  }

  /**
   * In time-ordered records, a record's time lies between the times of the
   * first and last selected records iff it lies in the range iff the record
   * is selected.
   */
  lemma SelectedBetweenEnds(records: seq<Record>, lo: Number, hi: Number, j: nat)
    requires SortedBy(records, TsOf)
    requires Window(records, TsOf, lo, hi) != [] && j < |records|
    ensures var subset := Window(records, TsOf, lo, hi);
      var t := TsOf(records[j]);
      && (InRange(t, TsOf(subset[0]), TsOf(subset[|subset| - 1])) <==> InRange(t, lo, hi))
      && (InRange(t, lo, hi) <==> records[j] in subset)
  {
    var subset := Window(records, TsOf, lo, hi);
    var t := TsOf(records[j]);
    WindowSpec(records, TsOf, lo, hi);
    WindowSorted(records, TsOf, lo, hi);
    assert subset[0] in subset && subset[|subset| - 1] in subset;
    if InRange(t, lo, hi) {
      assert records[j] in subset;
      var m :| 0 <= m < |subset| && subset[m] == records[j];
      assert Le(TsOf(subset[0]), TsOf(subset[m]));
      assert Le(TsOf(subset[m]), TsOf(subset[|subset| - 1]));
    }
  }

  // ---------------------------------------------------------------------------
  // Labels
  // ---------------------------------------------------------------------------

  const LabelAbbreviations: seq<(string, string)> := [("Heart Rate", "HR")]

  /** `formatLabel(str)`: title case, then HR only. */
  function FormatLabel(s: string): (r: string)
    ensures NoUnderscore(r) && Capitalized(r)
  {
    assert Abbreviation("HR");
    Label(s, LabelAbbreviations)
  }

  /** Only heart rate is abbreviated: cadence and altitude are spelled out. */
  lemma FormatLabelExamples()
    ensures FormatLabel("heart_rate") == "HR"
    ensures FormatLabel("cadence") == "Cadence"
    ensures FormatLabel("altitude") == "Altitude"
  {
    TitledHeartRate();
    LabelAbbreviated("heart_rate", LabelAbbreviations, 0);
    TitledCadence();
    LabelUnabbreviated("cadence", "Cadence", LabelAbbreviations);
    TitledAltitude();
    LabelUnabbreviated("altitude", "Altitude", LabelAbbreviations);
  }

  // ---------------------------------------------------------------------------
  // Application state
  // ---------------------------------------------------------------------------

  const ActivitySummary := "Activity Summary"
  const SelectionSummary := "Selection Summary"

  /** What the file input delivers: nothing, a decoded file, or a decoder error. */
  datatype Upload = NoFile | Decoded(fit: FitFile) | Failed(message: string)

  class AppState {
    var data: Option<SrcParse.ParsedFit>
    const mapManager: SrcMap.MapManager
    const chartManager: SrcCharts.ChartManager
    /** The summary card (`#selectionStats`) is shown. */
    var statsVisible: bool
    var summaryTitle: string
    var summaryRow: Option<map<string, Number>>
    /** The detail table (`#selectionTableContainer`) is shown. */
    var detailVisible: bool
    var detailBadge: string
    var detailRows: seq<Record>
    /** The text of the last `alert`. */
    var alert: Option<string>

    constructor()
      ensures data.None? && fresh(mapManager) && fresh(chartManager)
      ensures mapManager.gpsData == [] && mapManager.highlight == [] && !mapManager.markerShown && chartManager.charts == []
      ensures !statsVisible && summaryRow.None? && !detailVisible && detailRows == [] && alert.None?
    {
      data := None;
      mapManager := new SrcMap.MapManager();
      chartManager := new SrcCharts.ChartManager();
      statsVisible := false;
      summaryTitle := ActivitySummary;
      summaryRow := None;
      detailVisible := false;
      detailBadge := "";
      detailRows := [];
      alert := None;
    }

    /** The summary card shows `subset`: its title says which kind of selection it is. */
    predicate ShowsSummary(subset: seq<Record>, isReset: bool)
      reads this
    {
      && data.Some?
      && statsVisible
      && summaryTitle == (if isReset then ActivitySummary else SelectionSummary)
      && IsSummary(summaryRow, subset, data.value.fields)
    }

    /**
     * `updateSelectionState(minTs, maxTs)`: nothing without data; otherwise the
     * summary, the map highlight and, for a range only, the detail table.
     */
    method UpdateSelectionState(minTs: Option<Number>, maxTs: Option<Number>)
      modifies this, mapManager
      ensures data == old(data) && alert == old(alert)
      ensures old(data).None? ==> unchanged(this, mapManager)
      ensures old(data).Some? ==>
        var subset := SelectionSubset(data.value.records, minTs, maxTs);
        var isReset := IsReset(minTs, maxTs);
        && ShowsSummary(subset, isReset)
        && mapManager.highlight == SrcMap.HighlightAfter(old(mapManager.gpsData), old(mapManager.highlight), subset, isReset)
        && (isReset ==> !detailVisible && detailBadge == old(detailBadge) && detailRows == old(detailRows))
        && (!isReset ==> detailVisible && detailBadge == NatToString(|subset|) + " records" && detailRows == subset)
      ensures mapManager.gpsData == old(mapManager.gpsData) && mapManager.fullBounds == old(mapManager.fullBounds)
      ensures mapManager.baseTrace == old(mapManager.baseTrace) && mapManager.containerHidden == old(mapManager.containerHidden)
      ensures mapManager.markerPos == old(mapManager.markerPos) && mapManager.markerShown == old(mapManager.markerShown)
    {
      if data.None? {
        return;
      }
      var isReset := minTs.None? || maxTs.None?;
      var subset;
      if isReset {
        subset := data.value.records;
      } else {
        subset := Window(data.value.records, TsOf, minTs.value, maxTs.value);
      }

      statsVisible := true;
      summaryTitle := if isReset then ActivitySummary else SelectionSummary;
      summaryRow := AverageRow(subset, data.value.fields);

      mapManager.UpdateHighlight(subset, isReset);

      if isReset {
        detailVisible := false;
      } else {
        detailVisible := true;
        detailBadge := NatToString(|subset|) + " records";
        detailRows := subset;
      }
    }

    /**
     * `handleUpload`: a decoded file replaces the data, reloads the map,
     * selects everything and redraws the charts; a decoder error raises an
     * alert and changes nothing else.
     */
    method HandleUpload(upload: Upload, parseDate: DateParser)
      modifies this, mapManager, chartManager
      ensures upload.NoFile? ==> unchanged(this, mapManager, chartManager)
      ensures upload.Failed? ==>
        && alert == Some("Error: " + upload.message) && data == old(data)
        && statsVisible == old(statsVisible) && summaryTitle == old(summaryTitle) && summaryRow == old(summaryRow)
        && detailVisible == old(detailVisible) && detailBadge == old(detailBadge) && detailRows == old(detailRows)
        && unchanged(mapManager, chartManager)
      ensures upload.Decoded? ==>
        var raw := OrEmpty(upload.fit.records);
        && data.Some? && alert == old(alert)
        && data.value.records == SrcParse.Normalized(raw, parseDate)
        && data.value.gps == GpsTrack(raw, parseDate)
        && data.value.bounds == TrackBounds(data.value.gps)
        && data.value.startTime == SrcParse.Earliest(SrcParse.Times(raw, parseDate))
        && data.value.endTime == SrcParse.Latest(SrcParse.Times(raw, parseDate))
        && StrictlySorted(data.value.fields) && Elems(data.value.fields) == NumericKeys(data.value.records, SrcParse.Ignore)
        && data.value.laps == OrEmpty(upload.fit.laps) && data.value.sessions == OrEmpty(upload.fit.sessions)
        && mapManager.gpsData == data.value.gps && mapManager.fullBounds == data.value.bounds
        && (mapManager.containerHidden <==> data.value.gps == [])
        && (data.value.gps != [] ==> mapManager.highlight == [] && mapManager.baseTrace == SrcMap.Trace(data.value.gps))
        && ShowsSummary(data.value.records, true)
        && !detailVisible
        && |chartManager.charts| == |data.value.fields|
        && (forall i :: 0 <= i < |chartManager.charts| ==>
              chartManager.charts[i] == SrcCharts.ChartFor(data.value.records, data.value.fields[i], i))
    {
      match upload
      case NoFile =>
        return;
      case Failed(message) =>
        alert := Some("Error: " + message);
      case Decoded(fit) =>
        var parsed := SrcParse.ParseFitData(fit, parseDate);
        data := Some(parsed);
        // resetViews()
        chartManager.Clear();
        detailVisible := false;
        statsVisible := false;
        mapManager.Load(parsed.gps, parsed.bounds);
        UpdateSelectionState(None, None);
        chartManager.Render(parsed);
    }

    /**
     * The callbacks `render` is given: a selection goes to
     * `updateSelectionState`, a hover to the map marker.
     */
    method OnChartEvent(e: SrcCharts.Event)
      modifies this, mapManager
      ensures SrcCharts.Dispatch(e).None? ==> unchanged(this, mapManager)
      ensures SrcCharts.Dispatch(e).Some? && SrcCharts.Dispatch(e).value.OnHover? ==>
        var idx := SrcCharts.Dispatch(e).value.idx;
        && unchanged(this)
        && (SrcMap.FindPoint(mapManager.gpsData, idx).Some? ==>
              mapManager.markerShown &&
              mapManager.markerPos == SrcMap.LatLng(SrcMap.FindPoint(mapManager.gpsData, idx).value.lat, SrcMap.FindPoint(mapManager.gpsData, idx).value.lon))
        && (SrcMap.FindPoint(mapManager.gpsData, idx).None? ==>
              mapManager.markerPos == old(mapManager.markerPos) && mapManager.markerShown == old(mapManager.markerShown))
        && mapManager.highlight == old(mapManager.highlight)
      ensures SrcCharts.Dispatch(e).Some? && SrcCharts.Dispatch(e).value.OnSelect? && old(data).None? ==>
        unchanged(this, mapManager)
      ensures SrcCharts.Dispatch(e).Some? && SrcCharts.Dispatch(e).value.OnSelect? && old(data).Some? ==>
        var cb := SrcCharts.Dispatch(e).value;
        var subset := SelectionSubset(old(data).value.records, cb.min, cb.max);
        var isReset := IsReset(cb.min, cb.max);
        && alert == old(alert)
        && ShowsSummary(subset, isReset)
        && mapManager.highlight == SrcMap.HighlightAfter(old(mapManager.gpsData), old(mapManager.highlight), subset, isReset)
        && (isReset ==> !detailVisible && detailBadge == old(detailBadge) && detailRows == old(detailRows))
        && (!isReset ==> detailVisible && detailBadge == NatToString(|subset|) + " records" && detailRows == subset)
        && mapManager.markerPos == old(mapManager.markerPos) && mapManager.markerShown == old(mapManager.markerShown)
      ensures data == old(data) && mapManager.gpsData == old(mapManager.gpsData)
      ensures mapManager.fullBounds == old(mapManager.fullBounds) && mapManager.containerHidden == old(mapManager.containerHidden)
      ensures mapManager.baseTrace == old(mapManager.baseTrace)
    {
      var cb := SrcCharts.Dispatch(e);
      if cb.None? {
        return;
      }
      match cb.value
      case OnSelect(min, max) =>
        UpdateSelectionState(min, max);
      case OnHover(idx) =>
        mapManager.SetMarker(idx);
    }
  }
}
