/**
 * app.js: the single-page iteration that keeps its whole state in one `APP`
 * object. Switching to a file builds a GPS index straight from the raw
 * records (keeping the points whose coordinates are truthy), draws the
 * charts of the first record's numeric keys, and keeps the map and the
 * summary in step with what the user hovers over or drags across.
 */
module App {
  import opened JsValue
  import opened Text
  import opened Activity
  import opened Stats
  import AppUtils
  import SrcApp
  import PropertyOrder

  // ---------------------------------------------------------------------------
  // The GPS index of `switchFile`
  // ---------------------------------------------------------------------------

  /** `{ i, lat, lon, ts }`: the coordinates are whatever truthy values the record holds. */
  datatype Point = Point(i: nat, lat: Value, lon: Value, ts: Number)

  /** `r.position_lat && r.position_long` */
  predicate HasTruthyPosition(r: Record)
  {
    Truthy(Get(r, "position_lat")) && Truthy(Get(r, "position_long"))
  }

  /** `new Date(r.timestamp).getTime() / 1000` */
  function Seconds(r: Record, parseDate: DateParser): Number
  {
    Div(DateTime(Get(r, "timestamp"), parseDate), 1000.0)
  }

  function PointOf(r: Record, i: nat, parseDate: DateParser): Point
  {
    Point(i, Get(r, "position_lat"), Get(r, "position_long"), Seconds(r, parseDate))
  }

  /** The points `switchFile` pushes, in record order. */
  function GpsIndex(records: seq<Record>, parseDate: DateParser): seq<Point>
    decreases |records|
  {
    if records == [] then []
    else
      var k := |records| - 1;
      GpsIndex(records[..k], parseDate) + (if HasTruthyPosition(records[k]) then [PointOf(records[k], k, parseDate)] else [])
  }

  lemma GpsIndexStep(records: seq<Record>, k: nat, parseDate: DateParser)
    requires k < |records|
    ensures GpsIndex(records[..k + 1], parseDate) ==
      GpsIndex(records[..k], parseDate) + (if HasTruthyPosition(records[k]) then [PointOf(records[k], k, parseDate)] else [])
  {
    assert records[..k + 1][..k] == records[..k];
  }

  /** Every indexed point is built from the record its `i` names, and the `i`s strictly increase. */
  lemma {:induction false} GpsIndexSound(records: seq<Record>, parseDate: DateParser)
    ensures var t := GpsIndex(records, parseDate);
      && |t| <= |records|
      && (forall n :: 0 <= n < |t| ==>
            t[n].i < |records| && HasTruthyPosition(records[t[n].i]) && t[n] == PointOf(records[t[n].i], t[n].i, parseDate))
      && (forall m, n :: 0 <= m < n < |t| ==> t[m].i < t[n].i)
    decreases |records|
  {
    if records != [] {
      var k := |records| - 1;
      var init := records[..k];
      GpsIndexSound(init, parseDate);
      var t0 := GpsIndex(init, parseDate);
      var t := GpsIndex(records, parseDate);
      forall n | 0 <= n < |t0|
        ensures t[n] == t0[n] && t[n].i < k && records[t[n].i] == init[t[n].i]
      {
      }
    }
  }

  /** No record with truthy coordinates is missed. */
  lemma {:induction false} GpsIndexComplete(records: seq<Record>, parseDate: DateParser, j: nat)
    requires j < |records| && HasTruthyPosition(records[j])
    ensures exists n :: 0 <= n < |GpsIndex(records, parseDate)| && GpsIndex(records, parseDate)[n].i == j
    decreases |records|
  {
    var k := |records| - 1;
    var init := records[..k];
    var t0 := GpsIndex(init, parseDate);
    var t := GpsIndex(records, parseDate);
    if j < k {
      assert init[j] == records[j];
      GpsIndexComplete(init, parseDate, j);
      var n :| 0 <= n < |t0| && t0[n].i == j;
      assert t[n].i == j;
    } else {
      assert t[|t| - 1].i == j;
    }
  }

  /** A record on the equator or the prime meridian (a coordinate of 0) never enters the index. */
  lemma ZeroCoordinateExcluded(records: seq<Record>, parseDate: DateParser, j: nat)
    requires j < |records|
    requires Get(records[j], "position_lat") == Num(Finite(0.0)) || Get(records[j], "position_long") == Num(Finite(0.0))
    ensures forall n :: 0 <= n < |GpsIndex(records, parseDate)| ==> GpsIndex(records, parseDate)[n].i != j
  {
    GpsIndexSound(records, parseDate);
  }

  /**
   * The truthiness test and the numeric test of the parsers disagree both
   * ways: a point at latitude 0 has a valid position but is not indexed, and
   * a pair of non-empty strings is indexed without being a valid position.
   */
  lemma TruthyTestDiffers(parseDate: DateParser)
    ensures var r := map["position_lat" := Num(Finite(0.0)), "position_long" := Num(Finite(8.5))];
      HasPosition(r) && GpsTrack([r], parseDate) != [] && GpsIndex([r], parseDate) == []
    ensures var r := map["position_lat" := Str("47.4"), "position_long" := Str("8.5")];
      !HasPosition(r) && GpsTrack([r], parseDate) == [] && GpsIndex([r], parseDate) != []
  {
    var r := map["position_lat" := Num(Finite(0.0)), "position_long" := Num(Finite(8.5))];
    assert [r][..0] == [];
    var s := map["position_lat" := Str("47.4"), "position_long" := Str("8.5")];
    assert [s][..0] == [];
  }

  // ---------------------------------------------------------------------------
  // Selections
  // ---------------------------------------------------------------------------

  /** `APP.records.filter(r => { const t = new Date(r.timestamp).getTime() / 1000; return t >= minX && t <= maxX; })` */
  function Selected(records: seq<Record>, parseDate: DateParser, minX: Number, maxX: Number): seq<Record>
  {
    Window(records, (r: Record) => Seconds(r, parseDate), minX, maxX)
  }

  /** `APP.currentSelection` after a select of the given width. */
  function SelectionAfter(records: seq<Record>, current: seq<Record>, width: real, parseDate: DateParser,
                          minX: Number, maxX: Number): seq<Record>
  {
    if width == 0.0 then []
    else if Selected(records, parseDate, minX, maxX) == [] then current
    else Selected(records, parseDate, minX, maxX)
  }

  /**
   * A zero-width select clears the selection; otherwise the selection holds
   * exactly the records whose time lies in the range, in order, and a range
   * that holds no record keeps the previous selection.
   */
  lemma SelectionAfterSpec(records: seq<Record>, current: seq<Record>, width: real, parseDate: DateParser,
                           minX: Number, maxX: Number)
    ensures width == 0.0 ==> SelectionAfter(records, current, width, parseDate, minX, maxX) == []
    ensures width != 0.0 && (forall j :: 0 <= j < |records| ==> !InRange(Seconds(records[j], parseDate), minX, maxX)) ==>
      SelectionAfter(records, current, width, parseDate, minX, maxX) == current
    ensures width != 0.0 && (exists j :: 0 <= j < |records| && InRange(Seconds(records[j], parseDate), minX, maxX)) ==>
      var s := SelectionAfter(records, current, width, parseDate, minX, maxX);
      && s != []
      && |s| <= |records|
      && (forall r :: r in s <==> r in records && InRange(Seconds(r, parseDate), minX, maxX))
  {
    var time := (r: Record) => Seconds(r, parseDate);
    WindowSpec(records, time, minX, maxX);
    if forall j :: 0 <= j < |records| ==> !InRange(Seconds(records[j], parseDate), minX, maxX) {
      WindowNone(records, time, minX, maxX);
    }
    if exists j :: 0 <= j < |records| && InRange(Seconds(records[j], parseDate), minX, maxX) {
      var j :| 0 <= j < |records| && InRange(Seconds(records[j], parseDate), minX, maxX);
      assert records[j] in Selected(records, parseDate, minX, maxX);
    }
  }

  // ---------------------------------------------------------------------------
  // The summary row of `renderAvgTable`
  // ---------------------------------------------------------------------------

  /** `rowData[0]` without its constant `index: "AVG"`. */
  datatype AvgRow = AvgRow(
    duration: Number,
    dist: Number,
    avgHeartRate: Option<Number>,
    avgSpeed: Option<Number>,
    avgPower: Option<Number>,
    avgCadence: Option<Number>)

  /** `(new Date(last.timestamp) - new Date(first.timestamp)) / 1000` */
  function Duration(subset: seq<Record>, parseDate: DateParser): Number
    requires subset != []
  {
    var first, last := subset[0], subset[|subset| - 1];
    Div(Sub(DateTime(Get(last, "timestamp"), parseDate), DateTime(Get(first, "timestamp"), parseDate)), 1000.0)
  }

  /** `last.distance && first.distance ? last.distance - first.distance : 0` */
  function Distance(subset: seq<Record>): Number
    requires subset != []
  {
    var d0, d1 := Get(subset[0], "distance"), Get(subset[|subset| - 1], "distance");
    if Truthy(d1) && Truthy(d0) then Sub(ToNumber(d1), ToNumber(d0)) else Finite(0.0)
  }

  function SummaryRow(subset: seq<Record>, parseDate: DateParser): AvgRow
    requires subset != []
  {
    AvgRow(Duration(subset, parseDate), Distance(subset),
      Mean(subset, "heart_rate"), Mean(subset, "speed"), Mean(subset, "power"), Mean(subset, "cadence"))
  }

  /**
   * The duration of a selection is the time from its first to its last
   * record, and is no longer than the selected range is wide.
   */
  lemma DurationWithinRange(records: seq<Record>, parseDate: DateParser, minX: Number, maxX: Number)
    requires Selected(records, parseDate, minX, maxX) != []
    ensures var s := Selected(records, parseDate, minX, maxX); var d := Duration(s, parseDate);
      && d.Finite?
      && d == Sub(Seconds(s[|s| - 1], parseDate), Seconds(s[0], parseDate))
      && minX.Finite? && maxX.Finite?
      && minX.v - maxX.v <= d.v <= maxX.v - minX.v
  {
    var s := Selected(records, parseDate, minX, maxX);
    SelectedInRange(records, parseDate, minX, maxX, 0);
    SelectedInRange(records, parseDate, minX, maxX, |s| - 1);
    DurationBetween(s, parseDate, minX, maxX);
  }

  lemma DurationBetween(s: seq<Record>, parseDate: DateParser, lo: Number, hi: Number)
    requires s != []
    requires InRange(Seconds(s[0], parseDate), lo, hi) && InRange(Seconds(s[|s| - 1], parseDate), lo, hi)
    ensures var d := Duration(s, parseDate);
      && d.Finite?
      && d == Sub(Seconds(s[|s| - 1], parseDate), Seconds(s[0], parseDate))
      && lo.Finite? && hi.Finite?
      && lo.v - hi.v <= d.v <= hi.v - lo.v
  {
    DurationOfEnds(s, parseDate);
  }

  lemma SelectedInRange(records: seq<Record>, parseDate: DateParser, minX: Number, maxX: Number, k: nat)
    requires k < |Selected(records, parseDate, minX, maxX)|
    ensures InRange(Seconds(Selected(records, parseDate, minX, maxX)[k], parseDate), minX, maxX)
  {
    var time := (r: Record) => Seconds(r, parseDate);
    var s := Window(records, time, minX, maxX);
    WindowSpec(records, time, minX, maxX);
    assert s[k] in s;
    assert InRange(time(s[k]), minX, maxX);
  }

  /** The duration is the difference of the end records' times in seconds. */
  lemma DurationOfEnds(s: seq<Record>, parseDate: DateParser)
    requires s != []
    ensures Duration(s, parseDate) == Sub(Seconds(s[|s| - 1], parseDate), Seconds(s[0], parseDate))
  {
    var a := DateTime(Get(s[|s| - 1], "timestamp"), parseDate);
    var b := DateTime(Get(s[0], "timestamp"), parseDate);
    if a.Finite? && b.Finite? {
      assert (a.v - b.v) / 1000.0 == a.v / 1000.0 - b.v / 1000.0;
    }
  }

  /**
   * The distance is 0 unless both end records hold a truthy distance; with
   * two non-zero numbers it is their difference, as in src/app.js.
   */
  lemma DistanceSpec(subset: seq<Record>)
    requires subset != []
    ensures !Truthy(Get(subset[0], "distance")) || !Truthy(Get(subset[|subset| - 1], "distance")) ==>
      Distance(subset) == Finite(0.0)
    ensures Truthy(Get(subset[0], "distance")) && Truthy(Get(subset[|subset| - 1], "distance")) ==>
      Distance(subset) == SrcApp.Distance(subset)
  {
  }

  /**
   * The two iterations part ways on a selection starting at distance 0: here
   * the distance is 0, while src/app.js reports the distance of the last record.
   */
  lemma DistanceFromStartDiffers(subset: seq<Record>, d: real)
    requires |subset| >= 2 && d != 0.0
    requires Get(subset[0], "distance") == Num(Finite(0.0))
    requires Get(subset[|subset| - 1], "distance") == Num(Finite(d))
    ensures Distance(subset) == Finite(0.0)
    ensures SrcApp.Distance(subset) == Finite(d)
  {
  }

  /** A field that no selected record holds a number in. */
  predicate NoNumbers(subset: seq<Record>, k: string)
  {
    forall j :: 0 <= j < |subset| ==> !IsNumber(Get(subset[j], k))
  }

  /** Each average is `null` exactly when no selected record holds a number in its field. */
  lemma SummaryRowAverages(subset: seq<Record>, parseDate: DateParser)
    requires subset != []
    ensures var row := SummaryRow(subset, parseDate);
      && (row.avgHeartRate.None? <==> NoNumbers(subset, "heart_rate"))
      && (row.avgSpeed.None? <==> NoNumbers(subset, "speed"))
      && (row.avgPower.None? <==> NoNumbers(subset, "power"))
      && (row.avgCadence.None? <==> NoNumbers(subset, "cadence"))
  {
    MeanDefined(subset, "heart_rate");
    MeanDefined(subset, "speed");
    MeanDefined(subset, "power");
    MeanDefined(subset, "cadence");
  }

  // ---------------------------------------------------------------------------
  // Charts
  // ---------------------------------------------------------------------------

  /** The keys `renderCharts` never charts. */
  const ChartIgnore: set<string> :=
    {"timestamp", "position_lat", "position_long", "elapsed_time", "distance", "timer_time"}

  /**
   * `Object.keys(records[0]).filter(k => !ignore.includes(k) && records.some(r => typeof r[k] === "number"))`,
   * as a set: the first record's keys that are in the catalog under this ignore list.
   */
  function ChartKeys(records: seq<Record>): set<string>
    requires records != []
  {
    records[0].Keys * NumericKeys(records, ChartIgnore)
  }

  /**
   * A key is charted iff the first record has it, it is not ignored and some
   * record holds a number under it: a field that first appears in a later
   * record is never charted.
   */
  lemma ChartKeysSpec(records: seq<Record>, k: string)
    requires records != []
    ensures k in ChartKeys(records) <==>
      k in records[0] && k !in ChartIgnore && exists j :: 0 <= j < |records| && IsNumber(Get(records[j], k))
  {
    NumericKeysSpec(records, ChartIgnore, k);
  }

  /** One chart: its axis title, its colour and its two series. */
  datatype Chart = Chart(title: string, color: string, xs: seq<Number>, ys: seq<Value>)

  /** `records.map(r => new Date(r.timestamp).getTime() / 1000)` */
  function XData(records: seq<Record>, parseDate: DateParser): seq<Number>
  {
    seq(|records|, k requires 0 <= k < |records| => Seconds(records[k], parseDate))
  }

  /** `records.map(r => r[key] ?? null)` */
  function YData(records: seq<Record>, key: string): seq<Value>
  {
    seq(|records|, k requires 0 <= k < |records| => OrElse(Get(records[k], key), Null))
  }

  function ChartFor(records: seq<Record>, parseDate: DateParser, key: string): Chart
  {
    Chart(AppUtils.FormatLabel(key), AppUtils.GetChartColor(key), XData(records, parseDate), YData(records, key))
  }

  /**
   * Both series of a chart are indexed like the records, so the cursor index
   * a chart reports is a record index.
   */
  lemma ChartAlignedWithRecords(records: seq<Record>, parseDate: DateParser, key: string)
    ensures var c := ChartFor(records, parseDate, key);
      && |c.xs| == |c.ys| == |records|
      && (forall k :: 0 <= k < |records| ==> c.xs[k] == Seconds(records[k], parseDate))
      && (forall k :: 0 <= k < |records| ==> (c.ys[k] == Null <==> Get(records[k], key).Undefined? || Get(records[k], key).Null?))
      && (forall k :: 0 <= k < |records| && !Get(records[k], key).Undefined? && !Get(records[k], key).Null? ==>
            c.ys[k] == Get(records[k], key))
  {
  }

  // ---------------------------------------------------------------------------
  // The map
  // ---------------------------------------------------------------------------

  /** A polyline vertex or the marker position, `[p.lat, p.lon]`. */
  datatype Vertex = Vertex(lat: Value, lon: Value)

  /** The position marker: where it is and whether it is drawn (opacity 1) or not (opacity 0). */
  datatype Marker = Marker(pos: Vertex, shown: bool)

  function Trace(pts: seq<Point>): seq<Vertex>
  {
    seq(|pts|, k requires 0 <= k < |pts| => Vertex(pts[k].lat, pts[k].lon))
  }

  function PointTime(p: Point): Number
  {
    p.ts
  }

  /** The highlight layer after `syncMapSelection(minX, maxX)`, given the one before. */
  function HighlightAfter(gps: seq<Point>, highlight: Option<seq<Vertex>>, minX: Option<Number>, maxX: Option<Number>)
    : Option<seq<Vertex>>
  {
    if gps == [] then highlight
    else if minX.None? || maxX.None? then Some([])
    else if Window(gps, PointTime, minX.value, maxX.value) == [] then highlight
    else Some(Trace(Window(gps, PointTime, minX.value, maxX.value)))
  }

  /**
   * On a track with points, a reset empties the highlight, and a range draws
   * exactly the vertices of the points whose time lies in it, in track
   * order, or leaves the highlight as it was when there are none.
   */
  lemma HighlightAfterSpec(gps: seq<Point>, highlight: Option<seq<Vertex>>, lo: Number, hi: Number)
    requires gps != []
    ensures HighlightAfter(gps, highlight, None, None) == Some([])
    ensures (forall n :: 0 <= n < |gps| ==> !InRange(gps[n].ts, lo, hi)) ==>
      HighlightAfter(gps, highlight, Some(lo), Some(hi)) == highlight
    ensures (exists n :: 0 <= n < |gps| && InRange(gps[n].ts, lo, hi)) ==>
      var h := HighlightAfter(gps, highlight, Some(lo), Some(hi));
      && h.Some? && h.value != []
      && (forall k :: 0 <= k < |h.value| ==> exists p :: p in gps && InRange(p.ts, lo, hi) && h.value[k] == Vertex(p.lat, p.lon))
      && (forall p :: p in gps && InRange(p.ts, lo, hi) ==> Vertex(p.lat, p.lon) in h.value)
  {
    if forall n :: 0 <= n < |gps| ==> !InRange(gps[n].ts, lo, hi) {
      WindowNone(gps, PointTime, lo, hi);
    }
    if exists n :: 0 <= n < |gps| && InRange(gps[n].ts, lo, hi) {
      TraceOfWindow(gps, lo, hi);
    }
  }

  /** The trace of a non-empty window draws exactly the vertices of the points in it. */
  lemma TraceOfWindow(gps: seq<Point>, lo: Number, hi: Number)
    requires exists n :: 0 <= n < |gps| && InRange(gps[n].ts, lo, hi)
    ensures var t := Trace(Window(gps, PointTime, lo, hi));
      && t != []
      && (forall k :: 0 <= k < |t| ==> exists p :: p in gps && InRange(p.ts, lo, hi) && t[k] == Vertex(p.lat, p.lon))
      && (forall p :: p in gps && InRange(p.ts, lo, hi) ==> Vertex(p.lat, p.lon) in t)
  {
    var w := Window(gps, PointTime, lo, hi);
    WindowSpec(gps, PointTime, lo, hi);
    var n :| 0 <= n < |gps| && InRange(gps[n].ts, lo, hi);
    assert gps[n] in w;
    forall p | p in gps && InRange(p.ts, lo, hi)
      ensures Vertex(p.lat, p.lon) in Trace(w)
    {
      assert p in w;
      var k :| 0 <= k < |w| && w[k] == p;
      assert Trace(w)[k] == Vertex(p.lat, p.lon);
    }
    forall k | 0 <= k < |w|
      ensures exists p :: p in gps && InRange(p.ts, lo, hi) && Trace(w)[k] == Vertex(p.lat, p.lon)
    {
      assert w[k] in w;
    }
  }

  /**
   * On the index of a file, a range highlights the GPS points of exactly the
   * records the same range selects.
   */
  lemma HighlightMatchesSelection(records: seq<Record>, parseDate: DateParser, lo: Number, hi: Number)
    ensures var gps := GpsIndex(records, parseDate);
      forall n :: 0 <= n < |gps| ==>
        (gps[n].i < |records| &&
         (gps[n] in Window(gps, PointTime, lo, hi) <==> records[gps[n].i] in Selected(records, parseDate, lo, hi)))
  {
    var gps := GpsIndex(records, parseDate);
    GpsIndexSound(records, parseDate);
    WindowSpec(gps, PointTime, lo, hi);
    WindowSpec(records, (r: Record) => Seconds(r, parseDate), lo, hi);
    forall n | 0 <= n < |gps|
      ensures gps[n].i < |records|
      ensures gps[n] in Window(gps, PointTime, lo, hi) <==> records[gps[n].i] in Selected(records, parseDate, lo, hi)
    {
      assert gps[n] in gps;
      assert records[gps[n].i] in records;
    }
  }

  /** `arr.find(pred)` */
  function Find<T>(xs: seq<T>, pred: T -> bool): Option<T>
    decreases |xs|
  {
    if xs == [] then None
    else if pred(xs[0]) then Some(xs[0])
    else Find(xs[1..], pred)
  }

  /** `find` reports the first element that satisfies the test, and nothing exactly when none does. */
  lemma {:induction false} FindSpec<T>(xs: seq<T>, pred: T -> bool)
    ensures Find(xs, pred).None? <==> forall n :: 0 <= n < |xs| ==> !pred(xs[n])
    ensures Find(xs, pred).Some? ==>
      exists n :: 0 <= n < |xs| && xs[n] == Find(xs, pred).value && pred(xs[n]) &&
        forall m :: 0 <= m < n ==> !pred(xs[m])
    decreases |xs|
  {
    if xs != [] && !pred(xs[0]) {
      var tail := xs[1..];
      FindSpec(tail, pred);
      assert forall n :: 0 < n < |xs| ==> xs[n] == tail[n - 1];
      if Find(tail, pred).Some? {
        var n :| 0 <= n < |tail| && tail[n] == Find(tail, pred).value && pred(tail[n]) &&
          forall m :: 0 <= m < n ==> !pred(tail[m]);
        assert xs[n + 1] == tail[n];
      }
    }
  }

  /** `APP.gpsData.find(p => p.i === idx) || APP.gpsData.find(p => p.i > idx - 5 && p.i < idx + 5)` */
  function CursorPoint(gps: seq<Point>, idx: int): Option<Point>
  {
    match Find(gps, (p: Point) => p.i == idx)
    case Some(p) => Some(p)
    case None => Find(gps, (p: Point) => idx - 5 < p.i < idx + 5)
  }

  /**
   * The cursor lands on the point of record `idx` when there is one, else on
   * the first point fewer than five records away, else nowhere.
   */
  lemma CursorPointSpec(gps: seq<Point>, idx: int)
    ensures (exists n :: 0 <= n < |gps| && gps[n].i == idx) ==>
      CursorPoint(gps, idx).Some? && CursorPoint(gps, idx).value.i == idx
    ensures CursorPoint(gps, idx).None? <==> forall n :: 0 <= n < |gps| ==> !(idx - 5 < gps[n].i < idx + 5)
    ensures CursorPoint(gps, idx).Some? ==>
      CursorPoint(gps, idx).value in gps && idx - 5 < CursorPoint(gps, idx).value.i < idx + 5
  {
    var exact := (p: Point) => p.i == idx;
    var near := (p: Point) => idx - 5 < p.i < idx + 5;
    FindSpec(gps, exact);
    FindSpec(gps, near);
  }

  /** Hovering a record with truthy coordinates puts the marker on that record's own position. */
  lemma CursorOnRecord(records: seq<Record>, parseDate: DateParser, idx: nat)
    requires idx < |records| && HasTruthyPosition(records[idx])
    ensures CursorPoint(GpsIndex(records, parseDate), idx) == Some(PointOf(records[idx], idx, parseDate))
  {
    var gps := GpsIndex(records, parseDate);
    GpsIndexComplete(records, parseDate, idx);
    GpsIndexSound(records, parseDate);
    CursorPointSpec(gps, idx);
    var p := CursorPoint(gps, idx).value;
    var n :| 0 <= n < |gps| && gps[n] == p;
  }

  /** The marker after `syncMapCursor(idx)`, given the one before. */
  function MarkerAfter(gps: seq<Point>, marker: Option<Marker>, idx: int): Option<Marker>
  {
    if gps == [] || marker.None? then marker
    else match CursorPoint(gps, idx)
      case Some(p) => Some(Marker(Vertex(p.lat, p.lon), true))
      case None => Some(Marker(marker.value.pos, false))
  }

  // ---------------------------------------------------------------------------
  // Uploads
  // ---------------------------------------------------------------------------

  /** What decoding one chosen file gave: its data, or the error it was rejected with. */
  datatype Decoded = Parsed(data: FitFile) | Rejected(message: string)

  datatype FileUpload = FileUpload(name: string, result: Decoded)

  /** How many of the chosen files decode before the first one that fails. */
  function Loaded(uploads: seq<FileUpload>): (n: nat)
    ensures n <= |uploads|
    ensures forall j :: 0 <= j < n ==> uploads[j].result.Parsed?
    ensures n < |uploads| ==> uploads[n].result.Rejected?
    decreases |uploads|
  {
    if uploads == [] || uploads[0].result.Rejected? then 0 else 1 + Loaded(uploads[1..])
  }

  /** `APP.files` after storing each decoded file under its name; a later file of the same name wins. */
  function FilesOf(uploads: seq<FileUpload>): map<string, FitFile>
    decreases |uploads|
  {
    if uploads == [] then map[]
    else
      var u := uploads[|uploads| - 1];
      var m := FilesOf(uploads[..|uploads| - 1]);
      if u.result.Parsed? then m[u.name := u.result.data] else m
  }

  /** The order in which the keys of `APP.files` were created: each stored name once, when first stored. */
  function CreationOrder(uploads: seq<FileUpload>): seq<string>
    decreases |uploads|
  {
    if uploads == [] then []
    else
      var u := uploads[|uploads| - 1];
      var ns := CreationOrder(uploads[..|uploads| - 1]);
      if u.result.Parsed? && u.name !in ns then ns + [u.name] else ns
  }

  /**
   * The creation order lists every stored file once, and the first decoded
   * file's name comes first.
   */
  lemma {:induction false} CreationOrderSpec(uploads: seq<FileUpload>)
    ensures Elems(CreationOrder(uploads)) == FilesOf(uploads).Keys
    ensures forall a, b :: 0 <= a < b < |CreationOrder(uploads)| ==> CreationOrder(uploads)[a] != CreationOrder(uploads)[b]
    ensures uploads != [] && uploads[0].result.Parsed? ==> CreationOrder(uploads) != [] && CreationOrder(uploads)[0] == uploads[0].name
    decreases |uploads|
  {
    if uploads != [] {
      var k := |uploads| - 1;
      var init := uploads[..k];
      CreationOrderSpec(init);
      var u := uploads[k];
      var ns := CreationOrder(init);
      if u.result.Parsed? && u.name !in ns {
        assert Elems(ns + [u.name]) == Elems(ns) + {u.name};
      }
      if k > 0 && uploads[0].result.Parsed? {
        assert init[0] == uploads[0];
      }
    }
  }

  /** `Object.keys(APP.files)`: array-index names first, in numeric order, then the others in creation order. */
  function NamesOf(uploads: seq<FileUpload>): seq<string>
  {
    PropertyOrder.Keys(CreationOrder(uploads))
  }

  /**
   * The names list every stored file once, array-index names ahead of the
   * others and in ascending numeric order. The name shown first is the first
   * decoded file's when no stored name is an array index, and otherwise the
   * numerically smallest such name.
   */
  lemma NamesOfSpec(uploads: seq<FileUpload>)
    ensures Elems(NamesOf(uploads)) == FilesOf(uploads).Keys
    ensures forall a, b :: 0 <= a < b < |NamesOf(uploads)| ==> NamesOf(uploads)[a] != NamesOf(uploads)[b]
    ensures forall a, b :: 0 <= a < b < |NamesOf(uploads)| && PropertyOrder.IsArrayIndex(NamesOf(uploads)[b]) ==>
      PropertyOrder.IsArrayIndex(NamesOf(uploads)[a]) && ParseNat(NamesOf(uploads)[a]) < ParseNat(NamesOf(uploads)[b])
    ensures uploads != [] && uploads[0].result.Parsed? ==>
      && NamesOf(uploads) != []
      && ((forall k :: k in FilesOf(uploads) ==> !PropertyOrder.IsArrayIndex(k)) ==> NamesOf(uploads)[0] == uploads[0].name)
      && ((exists k :: k in FilesOf(uploads) && PropertyOrder.IsArrayIndex(k)) ==>
            && PropertyOrder.IsArrayIndex(NamesOf(uploads)[0])
            && forall k :: k in FilesOf(uploads) && PropertyOrder.IsArrayIndex(k) ==> ParseNat(NamesOf(uploads)[0]) <= ParseNat(k))
  {
    var order := CreationOrder(uploads);
    CreationOrderSpec(uploads);
    PropertyOrder.KeysElems(order);
    PropertyOrder.KeysDistinct(order);
    PropertyOrder.KeysIndexFirst(order);
    if uploads != [] && uploads[0].result.Parsed? {
      PropertyOrder.KeysHead(order);
      forall k | k in FilesOf(uploads)
        ensures exists j :: 0 <= j < |order| && order[j] == k
      {
        assert k in Elems(order);
      }
    }
  }

  /** When the first file decodes there is a first name, and a file is stored under it. */
  lemma FirstNameStored(uploads: seq<FileUpload>)
    requires uploads != [] && uploads[0].result.Parsed?
    ensures NamesOf(uploads) != [] && NamesOf(uploads)[0] in FilesOf(uploads)
  {
    NamesOfSpec(uploads);
    assert NamesOf(uploads)[0] in Elems(NamesOf(uploads));
  }

  /** A file named "7" is listed ahead of "b.fit" although it was stored after it. */
  lemma IndexNameListedFirst(first: FitFile, second: FitFile)
    ensures NamesOf([FileUpload("b.fit", Parsed(first)), FileUpload("7", Parsed(second))]) == ["7", "b.fit"]
  {
    var uploads := [FileUpload("b.fit", Parsed(first)), FileUpload("7", Parsed(second))];
    assert uploads[..1] == [uploads[0]] && uploads[..1][..0] == [];
    assert CreationOrder(uploads[..1]) == ["b.fit"];
    assert "7" != "b.fit";
    assert CreationOrder(uploads) == ["b.fit", "7"];
    PropertyOrder.IndexKeyFirst();
  }

  /** Each name holds the data of the last file decoded under it. */
  lemma {:induction false} FilesOfLatest(uploads: seq<FileUpload>, j: nat)
    requires j < |uploads| && uploads[j].result.Parsed?
    requires forall m :: j < m < |uploads| ==> uploads[m].name != uploads[j].name
    ensures uploads[j].name in FilesOf(uploads) && FilesOf(uploads)[uploads[j].name] == uploads[j].result.data
    decreases |uploads|
  {
    var k := |uploads| - 1;
    if j < k {
      var init := uploads[..k];
      assert init[j] == uploads[j];
      assert forall m :: j < m < |init| ==> init[m] == uploads[m];
      FilesOfLatest(init, j);
    }
  }

  lemma UploadStep(uploads: seq<FileUpload>, k: nat)
    requires k < |uploads|
    ensures var u := uploads[k];
      && FilesOf(uploads[..k + 1]) == (if u.result.Parsed? then FilesOf(uploads[..k])[u.name := u.result.data] else FilesOf(uploads[..k]))
      && CreationOrder(uploads[..k + 1]) ==
           (if u.result.Parsed? && u.name !in CreationOrder(uploads[..k]) then CreationOrder(uploads[..k]) + [u.name] else CreationOrder(uploads[..k]))
  {
    assert uploads[..k + 1][..k] == uploads[..k];
  }

  /** An upload that stops at file `k` loaded the `k` files before it. */
  lemma {:induction false} LoadedAt(uploads: seq<FileUpload>, k: nat)
    requires k <= |uploads|
    requires forall j :: 0 <= j < k ==> uploads[j].result.Parsed?
    requires k == |uploads| || uploads[k].result.Rejected?
    ensures Loaded(uploads) == k
    decreases k
  {
    if k > 0 {
      LoadedAt(uploads[1..], k - 1);
    }
  }

  /**
   * The loop of `handleUpload`: each decoded file is stored under its name,
   * and the first failure ends the loop with its message.
   */
  method StoreFiles(uploads: seq<FileUpload>) returns (files: map<string, FitFile>, order: seq<string>, error: Option<string>)
    ensures var n := Loaded(uploads);
      && files == FilesOf(uploads[..n]) && order == CreationOrder(uploads[..n])
      && (error.None? <==> n == |uploads|)
      && (error.Some? ==> error.value == uploads[n].result.message)
  {
    files := map[];
    order := [];
    var k := 0;
    while k < |uploads|
      invariant 0 <= k <= |uploads|
      invariant forall j :: 0 <= j < k ==> uploads[j].result.Parsed?
      invariant files == FilesOf(uploads[..k]) && order == CreationOrder(uploads[..k])
    {
      var u := uploads[k];
      UploadStep(uploads, k);
      match u.result
      case Rejected(message) =>
        LoadedAt(uploads, k);
        return files, order, Some(message);
      case Parsed(data) =>
        if u.name !in order {
          order := order + [u.name];
        }
        files := files[u.name := data];
      k := k + 1;
    }
    LoadedAt(uploads, k);
    error := None;
  }

  /** The loop of `switchFile` that builds `APP.gpsData`. */
  method IndexGps(records: seq<Record>, parseDate: DateParser) returns (gps: seq<Point>)
    ensures gps == GpsIndex(records, parseDate)
  {
    gps := [];
    var k := 0;
    while k < |records|
      invariant 0 <= k <= |records|
      invariant gps == GpsIndex(records[..k], parseDate)
    {
      var r := records[k];
      GpsIndexStep(records, k, parseDate);
      if Truthy(Get(r, "position_lat")) && Truthy(Get(r, "position_long")) {
        gps := gps + [Point(k, Get(r, "position_lat"), Get(r, "position_long"),
                            Div(DateTime(Get(r, "timestamp"), parseDate), 1000.0))];
      }
      k := k + 1;
    }
    assert records[..k] == records;
  }

  /** The `keys.forEach` loop of `renderCharts`: one chart per key. */
  method BuildCharts(records: seq<Record>, parseDate: DateParser, keys: set<string>) returns (cs: map<string, Chart>)
    ensures cs == ChartsOf(records, parseDate, keys)
  {
    cs := map[];
    var todo := keys;
    assert ChartsOf(records, parseDate, {}) == map[];
    while todo != {}
      invariant todo <= keys
      invariant cs == ChartsOf(records, parseDate, keys - todo)
      decreases todo
    {
      var key :| key in todo;
      ChartsStep(records, parseDate, keys - todo, key);
      assert keys - (todo - {key}) == (keys - todo) + {key};
      cs := cs[key := ChartFor(records, parseDate, key)];
      todo := todo - {key};
    }
    assert keys - todo == keys;
  }

  // ---------------------------------------------------------------------------
  // Application state
  // ---------------------------------------------------------------------------

  /** What a chart hook receives: the cursor index (`null` as `None`), or a selection and its ends on the time axis. */
  datatype ChartEvent = SetCursor(idx: Option<int>) | SetSelect(width: real, minX: Number, maxX: Number)

  /** The keys `renderSelectionTable` turns into columns. */
  const DetailKeys: set<string> := {"timestamp", "distance", "speed", "power", "heart_rate", "cadence", "altitude"}

  /** The selection table: whether it is shown, its badge, its rows and its columns. */
  datatype SelectionTable = SelectionTable(visible: bool, badge: string, rows: seq<Record>, columns: set<string>)

  /** The map: whether its container is hidden, and the blue trace, the red highlight and the marker when they exist. */
  class MapView {
    var hidden: bool
    var baseTrace: Option<seq<Vertex>>
    var highlight: Option<seq<Vertex>>
    var marker: Option<Marker>

    constructor()
      ensures !hidden && baseTrace.None? && highlight.None? && marker.None?
    {
      hidden := false;
      baseTrace := None;
      highlight := None;
      marker := None;
    }
  }

  /** `L.circleMarker([0, 0], { opacity: 0, fillOpacity: 0 })` */
  const NewMarker := Marker(Vertex(Num(Finite(0.0)), Num(Finite(0.0))), false)

  /** One chart for each of `keys`. */
  function ChartsOf(records: seq<Record>, parseDate: DateParser, keys: set<string>): map<string, Chart>
  {
    map k | k in keys :: ChartFor(records, parseDate, k)
  }

  /** One chart per charted key of a non-empty record list. */
  function ChartsFor(records: seq<Record>, parseDate: DateParser): map<string, Chart>
    requires records != []
  {
    ChartsOf(records, parseDate, ChartKeys(records))
  }

  /** Adding the chart of one more key. */
  lemma ChartsStep(records: seq<Record>, parseDate: DateParser, done: set<string>, key: string)
    ensures ChartsOf(records, parseDate, done)[key := ChartFor(records, parseDate, key)] ==
      ChartsOf(records, parseDate, done + {key})
  {
    var lhs := ChartsOf(records, parseDate, done)[key := ChartFor(records, parseDate, key)];
    var rhs := ChartsOf(records, parseDate, done + {key});
    assert lhs.Keys == rhs.Keys;
    forall k | k in lhs.Keys
      ensures lhs[k] == rhs[k]
    {
    }
  }

  /** The `APP` object and the parts of the page the model follows. */
  class AppState {
    var files: map<string, FitFile>
    var fileNames: seq<string>
    var activeFile: Option<string>
    var records: seq<Record>
    var gpsData: seq<Point>
    var currentSelection: seq<Record>
    /** `APP.charts`, keyed by the field each chart draws. */
    var charts: map<string, Chart>
    var placeholderShown: bool
    const mapView: MapView
    /** The summary card and its row. */
    var statsVisible: bool
    var avgRow: Option<AvgRow>
    var table: SelectionTable
    /** The text of the last `alert`. */
    var alert: Option<string>

    /** The map layers exist whenever there is a track to draw them for. */
    predicate Valid()
      reads this, mapView
    {
      gpsData != [] ==> mapView.baseTrace.Some? && mapView.highlight.Some? && mapView.marker.Some?
    }

    constructor()
      ensures Valid() && fresh(mapView)
      ensures files == map[] && fileNames == [] && activeFile.None?
      ensures records == [] && gpsData == [] && currentSelection == [] && charts == map[]
      ensures mapView.baseTrace.None? && mapView.highlight.None? && mapView.marker.None?
      ensures avgRow.None? && alert.None?
    {
      files := map[];
      fileNames := [];
      activeFile := None;
      records := [];
      gpsData := [];
      currentSelection := [];
      charts := map[];
      placeholderShown := true;
      mapView := new MapView();
      statsVisible := false;
      avgRow := None;
      table := SelectionTable(false, "", [], {});
      alert := None;
    }

    /**
     * The file `name` is on show: its records and their GPS index, no
     * selection, the summary and the selection table hidden, and one chart
     * per charted key (the placeholder instead when there are no records).
     */
    predicate Showing(name: string, parseDate: DateParser)
      reads this
    {
      && activeFile == Some(name)
      && name in files
      && records == OrEmpty(files[name].records)
      && gpsData == GpsIndex(records, parseDate)
      && currentSelection == []
      && !statsVisible && !table.visible
      && (records == [] ==> placeholderShown && charts == map[])
      && (records != [] ==> !placeholderShown && charts == ChartsFor(records, parseDate))
    }

    /** `initMap(APP.gpsData)` */
    method InitMap()
      modifies mapView
      ensures Valid()
      ensures gpsData == [] ==>
        mapView.hidden && mapView.baseTrace.None? && mapView.highlight.None? && mapView.marker == old(mapView.marker)
      ensures gpsData != [] ==>
        && !mapView.hidden && mapView.baseTrace == Some(Trace(gpsData)) && mapView.highlight == Some([])
        && mapView.marker == Some(NewMarker)
    {
      mapView.baseTrace := None;
      mapView.highlight := None;
      if gpsData == [] {
        mapView.hidden := true;
        return;
      }
      mapView.hidden := false;
      mapView.baseTrace := Some(Trace(gpsData));
      mapView.highlight := Some([]);
      mapView.marker := Some(NewMarker);
    }

    /** `renderCharts(APP.records)`: one chart per key, added to those there are. */
    method RenderCharts(parseDate: DateParser)
      modifies this
      ensures records == [] ==> placeholderShown == old(placeholderShown) && charts == old(charts)
      ensures records != [] ==> !placeholderShown && charts == old(charts) + ChartsFor(records, parseDate)
      ensures files == old(files) && fileNames == old(fileNames) && activeFile == old(activeFile)
      ensures records == old(records) && gpsData == old(gpsData) && currentSelection == old(currentSelection)
      ensures statsVisible == old(statsVisible) && avgRow == old(avgRow) && table == old(table) && alert == old(alert)
    {
      if records == [] {
        return;
      }
      placeholderShown := false;
      var cs := BuildCharts(records, parseDate, ChartKeys(records));
      charts := charts + cs;
    }

    /**
     * The part of `switchFile` before the views are drawn: the file's
     * records, their GPS index, no selection, no charts, and the tables
     * hidden behind the placeholder.
     */
    method LoadFile(name: string, parseDate: DateParser)
      requires name in files
      modifies this
      ensures files == old(files) && fileNames == old(fileNames) && alert == old(alert) && avgRow == old(avgRow)
      ensures activeFile == Some(name) && records == OrEmpty(files[name].records)
      ensures gpsData == GpsIndex(records, parseDate) && currentSelection == []
      ensures charts == map[] && placeholderShown && !statsVisible && table == old(table).(visible := false)
    {
      activeFile := Some(name);
      var data := files[name];
      records := OrEmpty(data.records);
      currentSelection := [];

      gpsData := IndexGps(records, parseDate);
      ClearViews();
    }

    /** The chart area reset by `switchFile`: no charts, the placeholder shown, the summary and the table hidden. */
    method ClearViews()
      modifies this
      ensures charts == map[] && placeholderShown && !statsVisible && table == old(table).(visible := false)
      ensures files == old(files) && fileNames == old(fileNames) && alert == old(alert) && avgRow == old(avgRow)
      ensures activeFile == old(activeFile) && records == old(records) && gpsData == old(gpsData)
      ensures currentSelection == old(currentSelection)
    {
      charts := map[];
      table := table.(visible := false);
      statsVisible := false;
      placeholderShown := true;
    }

    /** `switchFile(name)` */
    method SwitchFile(name: string, parseDate: DateParser)
      requires name in files
      modifies this, mapView
      ensures Valid() && Showing(name, parseDate)
      ensures gpsData == [] ==>
        mapView.hidden && mapView.baseTrace.None? && mapView.highlight.None? && mapView.marker == old(mapView.marker)
      ensures gpsData != [] ==>
        && !mapView.hidden && mapView.baseTrace == Some(Trace(gpsData)) && mapView.highlight == Some([])
        && mapView.marker == Some(NewMarker)
      ensures files == old(files) && fileNames == old(fileNames) && alert == old(alert) && avgRow == old(avgRow)
    {
      LoadFile(name, parseDate);
      InitMap();
      RenderCharts(parseDate);
      if records != [] {
        var cs := ChartsFor(records, parseDate);
        assert map[] + cs == cs;
      }
    }

    /**
     * `handleUpload`: store every chosen file under its name until one fails
     * to decode; an error raises an alert, otherwise the first file is shown.
     */
    method HandleUpload(uploads: seq<FileUpload>, parseDate: DateParser)
      requires Valid()
      modifies this, mapView
      ensures Valid()
      ensures uploads == [] ==> unchanged(this, mapView)
      ensures uploads != [] ==>
        var n := Loaded(uploads);
        && files == FilesOf(uploads[..n])
        && fileNames == NamesOf(uploads[..n])
        && (n < |uploads| ==>
              && alert == Some("Error: " + uploads[n].result.message)
              && activeFile == old(activeFile) && records == old(records) && gpsData == old(gpsData)
              && currentSelection == old(currentSelection) && charts == old(charts)
              && statsVisible == old(statsVisible) && avgRow == old(avgRow) && table == old(table)
              && placeholderShown == old(placeholderShown)
              && unchanged(mapView))
        && (n == |uploads| ==> alert == old(alert) && avgRow == old(avgRow) && fileNames != [] && Showing(fileNames[0], parseDate))
        && (n == |uploads| && gpsData == [] ==>
              mapView.hidden && mapView.baseTrace.None? && mapView.highlight.None? && mapView.marker == old(mapView.marker))
        && (n == |uploads| && gpsData != [] ==>
              && !mapView.hidden && mapView.baseTrace == Some(Trace(gpsData)) && mapView.highlight == Some([])
              && mapView.marker == Some(NewMarker))
    {
      if |uploads| == 0 {
        return;
      }
      var stored, order, error := StoreFiles(uploads);
      files := stored;
      fileNames := PropertyOrder.Keys(order);
      if error.Some? {
        alert := Some("Error: " + error.value);
        return;
      }
      assert uploads[..|uploads|] == uploads;
      FirstNameStored(uploads);
      if |fileNames| > 0 {
        SwitchFile(fileNames[0], parseDate);
      }
    }

    /** `syncMapSelection(minX, maxX)`, with `None` for `null`. */
    method SyncMapSelection(minX: Option<Number>, maxX: Option<Number>)
      requires Valid()
      modifies mapView
      ensures Valid()
      ensures mapView.highlight == HighlightAfter(gpsData, old(mapView.highlight), minX, maxX)
      ensures mapView.hidden == old(mapView.hidden) && mapView.baseTrace == old(mapView.baseTrace)
      ensures mapView.marker == old(mapView.marker)
    {
      if gpsData == [] {
        return;
      }
      if minX.None? || maxX.None? {
        mapView.highlight := Some([]);
        return;
      }
      var selected := Window(gpsData, PointTime, minX.value, maxX.value);
      if selected != [] {
        mapView.highlight := Some(Trace(selected));
      }
    }

    /** `syncMapCursor(idx)` */
    method SyncMapCursor(idx: int)
      requires Valid()
      modifies mapView
      ensures Valid()
      ensures mapView.marker == MarkerAfter(gpsData, old(mapView.marker), idx)
      ensures mapView.hidden == old(mapView.hidden) && mapView.baseTrace == old(mapView.baseTrace)
      ensures mapView.highlight == old(mapView.highlight)
    {
      if gpsData == [] || mapView.marker.None? {
        return;
      }
      var point := CursorPoint(gpsData, idx);
      if point.Some? {
        mapView.marker := Some(Marker(Vertex(point.value.lat, point.value.lon), true));
      } else {
        mapView.marker := Some(Marker(mapView.marker.value.pos, false));
      }
    }

    /**
     * `updateSelectionStats(u)` for a selection `width` pixels wide whose
     * ends read `minX` and `maxX` on the time axis.
     */
    method UpdateSelectionStats(width: real, minX: Number, maxX: Number, parseDate: DateParser)
      requires Valid()
      modifies this, mapView
      ensures Valid()
      ensures currentSelection == SelectionAfter(records, old(currentSelection), width, parseDate, minX, maxX)
      ensures records == old(records) && gpsData == old(gpsData) && files == old(files) && fileNames == old(fileNames)
      ensures activeFile == old(activeFile) && charts == old(charts) && placeholderShown == old(placeholderShown)
      ensures alert == old(alert)
      ensures mapView.hidden == old(mapView.hidden) && mapView.baseTrace == old(mapView.baseTrace)
      ensures mapView.marker == old(mapView.marker)
      ensures width == 0.0 ==>
        && !statsVisible && avgRow == old(avgRow) && table == old(table).(visible := false)
        && mapView.highlight == HighlightAfter(gpsData, old(mapView.highlight), None, None)
      ensures width != 0.0 && Selected(records, parseDate, minX, maxX) == [] ==>
        statsVisible == old(statsVisible) && avgRow == old(avgRow) && table == old(table) &&
        mapView.highlight == old(mapView.highlight)
      ensures width != 0.0 && Selected(records, parseDate, minX, maxX) != [] ==>
        var s := Selected(records, parseDate, minX, maxX);
        && statsVisible && avgRow == Some(SummaryRow(s, parseDate))
        && table == SelectionTable(true, NatToString(|s|) + " records", s, s[0].Keys * DetailKeys)
        && mapView.highlight == HighlightAfter(gpsData, old(mapView.highlight), Some(minX), Some(maxX))
    {
      if width == 0.0 {
        statsVisible := false;
        table := table.(visible := false);
        currentSelection := [];
        SyncMapSelection(None, None);
        return;
      }
      var subset := Selected(records, parseDate, minX, maxX);
      if subset == [] {
        return;
      }
      ShowSelection(subset, parseDate);
      SyncMapSelection(Some(minX), Some(maxX));
    }

    /** The non-empty selection becomes current, with its summary row and its table. */
    method ShowSelection(subset: seq<Record>, parseDate: DateParser)
      requires subset != []
      modifies this
      ensures currentSelection == subset && statsVisible
      ensures avgRow == Some(SummaryRow(subset, parseDate))
      ensures table == SelectionTable(true, NatToString(|subset|) + " records", subset, subset[0].Keys * DetailKeys)
      ensures records == old(records) && gpsData == old(gpsData) && files == old(files) && fileNames == old(fileNames)
      ensures activeFile == old(activeFile) && charts == old(charts) && placeholderShown == old(placeholderShown)
      ensures alert == old(alert)
    {
      currentSelection := subset;
      // renderAvgTable(subset)
      statsVisible := true;
      avgRow := Some(SummaryRow(subset, parseDate));
      // renderSelectionTable(subset)
      table := SelectionTable(true, NatToString(|subset|) + " records", subset, subset[0].Keys * DetailKeys);
    }

    /**
     * The hooks every chart is given: a cursor on any index, 0 included,
     * moves the marker; a selection updates the summary and the map.
     */
    method OnChartEvent(e: ChartEvent, parseDate: DateParser)
      requires Valid()
      modifies this, mapView
      ensures Valid()
      ensures e.SetCursor? ==>
        && unchanged(this)
        && mapView.marker == (if e.idx.Some? then MarkerAfter(gpsData, old(mapView.marker), e.idx.value) else old(mapView.marker))
        && mapView.highlight == old(mapView.highlight)
      ensures mapView.hidden == old(mapView.hidden) && mapView.baseTrace == old(mapView.baseTrace)
      ensures e.SetSelect? ==>
        && records == old(records) && gpsData == old(gpsData) && files == old(files) && fileNames == old(fileNames)
        && activeFile == old(activeFile) && charts == old(charts) && placeholderShown == old(placeholderShown)
        && alert == old(alert) && mapView.marker == old(mapView.marker)
        && currentSelection == SelectionAfter(records, old(currentSelection), e.width, parseDate, e.minX, e.maxX)
      ensures e.SetSelect? && e.width == 0.0 ==>
        && !statsVisible && avgRow == old(avgRow) && table == old(table).(visible := false)
        && mapView.highlight == HighlightAfter(gpsData, old(mapView.highlight), None, None)
      ensures e.SetSelect? && e.width != 0.0 && Selected(records, parseDate, e.minX, e.maxX) == [] ==>
        statsVisible == old(statsVisible) && avgRow == old(avgRow) && table == old(table) &&
        mapView.highlight == old(mapView.highlight)
      ensures e.SetSelect? && e.width != 0.0 && Selected(records, parseDate, e.minX, e.maxX) != [] ==>
        var s := Selected(records, parseDate, e.minX, e.maxX);
        && statsVisible && avgRow == Some(SummaryRow(s, parseDate))
        && table == SelectionTable(true, NatToString(|s|) + " records", s, s[0].Keys * DetailKeys)
        && mapView.highlight == HighlightAfter(gpsData, old(mapView.highlight), Some(e.minX), Some(e.maxX))
    {
      match e
      case SetCursor(idx) =>
        if idx.Some? {
          SyncMapCursor(idx.value);
        }
      case SetSelect(width, minX, maxX) =>
        UpdateSelectionStats(width, minX, maxX, parseDate);
    }
  }
}
