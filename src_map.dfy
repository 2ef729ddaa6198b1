/**
 * src/map.js: the `MapManager` that keeps the map in step with the data. Its
 * state is the loaded GPS track and bounds, the full blue trace, the red
 * highlight of the current selection and the position marker. Leaflet itself
 * (tiles, zoom, `fitBounds`) is not modelled; the layers are their vertices.
 */
module SrcMap {
  import opened JsValue
  import opened Activity
  import opened Stats

  /** One vertex of a polyline, or the marker position: `[lat, lon]`. */
  datatype LatLng = LatLng(lat: real, lon: real)

  /** `gps.map(p => [p.lat, p.lon])` */
  function Trace(gps: seq<GpsPoint>): seq<LatLng>
  {
    seq(|gps|, k requires 0 <= k < |gps| => LatLng(gps[k].lat, gps[k].lon))
  }

  function PointTime(p: GpsPoint): Number
  {
    p.ts
  }

  /** `gpsData.filter(p => p.ts >= subset[0].ts && p.ts <= subset[subset.length - 1].ts)` */
  function Segment(gps: seq<GpsPoint>, subset: seq<Record>): seq<GpsPoint>
    requires subset != []
  {
    Window(gps, PointTime, TsOf(subset[0]), TsOf(subset[|subset| - 1]))
  }

  /** The highlight after `updateHighlight(subset, isReset)`, given the one before. */
  function HighlightAfter(gps: seq<GpsPoint>, highlight: seq<LatLng>, subset: seq<Record>, isReset: bool): seq<LatLng>
  {
    if gps == [] then highlight
    else if isReset then []
    else if subset == [] then highlight
    else if Segment(gps, subset) == [] then highlight
    else Trace(Segment(gps, subset))
  }

  /** `gpsData.find(g => g.i === idx)` */
  function FindPoint(gps: seq<GpsPoint>, idx: int): Option<GpsPoint>
    decreases |gps|
  {
    if gps == [] then None
    else if gps[0].i == idx then Some(gps[0])
    else FindPoint(gps[1..], idx)
  }

  /** `find` reports the first point with the index, and nothing exactly when no point has it. */
  lemma {:induction false} FindPointSpec(gps: seq<GpsPoint>, idx: int)
    ensures FindPoint(gps, idx).None? <==> forall n :: 0 <= n < |gps| ==> gps[n].i != idx
    ensures FindPoint(gps, idx).Some? ==>
      exists n :: 0 <= n < |gps| && gps[n] == FindPoint(gps, idx).value && gps[n].i == idx &&
        forall m :: 0 <= m < n ==> gps[m].i != idx
    decreases |gps|
  {
    if gps != [] && gps[0].i != idx {
      var tail := gps[1..];
      FindPointSpec(tail, idx);
      assert forall n :: 0 < n < |gps| ==> gps[n] == tail[n - 1];
      if FindPoint(tail, idx).Some? {
        var n :| 0 <= n < |tail| && tail[n] == FindPoint(tail, idx).value && tail[n].i == idx &&
          forall m :: 0 <= m < n ==> tail[m].i != idx;
        assert gps[n + 1] == tail[n];
      }
    }
  }

  /**
   * Hovering record `idx` of a parsed file finds that record's own GPS point,
   * and finds nothing when the record has no valid position.
   */
  lemma MarkerFollowsRecord(raw: seq<Record>, parseDate: DateParser, idx: int)
    ensures FindPoint(GpsTrack(raw, parseDate), idx) ==
      if 0 <= idx < |raw| && HasPosition(raw[idx]) then Some(PointAt(raw[idx], idx, parseDate)) else None
  {
    var gps := GpsTrack(raw, parseDate);
    GpsTrackSound(raw, parseDate);
    FindPointSpec(gps, idx);
    if 0 <= idx < |raw| && HasPosition(raw[idx]) {
      GpsTrackComplete(raw, parseDate, idx);
    }
  }

  /**
   * The highlight of a range is exactly the track points whose time lies
   * between the times of the selection's first and last records, when there
   * is one; otherwise the highlight is what it was. A reset clears it, and
   * nothing changes while no track is loaded.
   */
  lemma HighlightAfterSpec(gps: seq<GpsPoint>, highlight: seq<LatLng>, subset: seq<Record>, isReset: bool)
    ensures gps == [] ==> HighlightAfter(gps, highlight, subset, isReset) == highlight
    ensures gps != [] && isReset ==> HighlightAfter(gps, highlight, subset, isReset) == []
    ensures gps != [] && !isReset && subset != [] ==>
      var lo, hi := TsOf(subset[0]), TsOf(subset[|subset| - 1]);
      var h := HighlightAfter(gps, highlight, subset, isReset);
      if exists n :: 0 <= n < |gps| && InRange(gps[n].ts, lo, hi) then
        h != [] && forall v :: v in h <==> exists n :: 0 <= n < |gps| && InRange(gps[n].ts, lo, hi) && v == LatLng(gps[n].lat, gps[n].lon)
      else
        h == highlight
    ensures gps != [] && !isReset && subset == [] ==> HighlightAfter(gps, highlight, subset, isReset) == highlight
  {
    if gps != [] && !isReset && subset != [] {
      var lo, hi := TsOf(subset[0]), TsOf(subset[|subset| - 1]);
      var seg := Segment(gps, subset);
      WindowSpec(gps, PointTime, lo, hi);
      if exists n :: 0 <= n < |gps| && InRange(gps[n].ts, lo, hi) {
        var n :| 0 <= n < |gps| && InRange(gps[n].ts, lo, hi);
        assert gps[n] in seg;
        var h := Trace(seg);
        forall v
          ensures v in h <==> exists n :: 0 <= n < |gps| && InRange(gps[n].ts, lo, hi) && v == LatLng(gps[n].lat, gps[n].lon)
        {
          if v in h {
            var k :| 0 <= k < |h| && h[k] == v;
            assert seg[k] in seg;
            var n :| 0 <= n < |gps| && gps[n] == seg[k];
          }
          if exists n :: 0 <= n < |gps| && InRange(gps[n].ts, lo, hi) && v == LatLng(gps[n].lat, gps[n].lon) {
            var n :| 0 <= n < |gps| && InRange(gps[n].ts, lo, hi) && v == LatLng(gps[n].lat, gps[n].lon);
            assert gps[n] in seg;
            var k :| 0 <= k < |seg| && seg[k] == gps[n];
            assert h[k] == v;
          }
        }
      } else {
        WindowNone(gps, PointTime, lo, hi);
      }
    }
  }

  /** Repeating the same selection leaves the highlight as the first call set it. */
  lemma HighlightIdempotent(gps: seq<GpsPoint>, highlight: seq<LatLng>, subset: seq<Record>, isReset: bool)
    ensures var h := HighlightAfter(gps, highlight, subset, isReset);
      HighlightAfter(gps, h, subset, isReset) == h
  {
  }

  class MapManager {
    var gpsData: seq<GpsPoint>
    var fullBounds: Option<Bounds>
    /** The map container carries `d-none`. */
    var containerHidden: bool
    /** The blue polyline: the whole track. */
    var baseTrace: seq<LatLng>
    /** The red polyline: the part of the track in the current selection. */
    var highlight: seq<LatLng>
    var markerPos: LatLng
    /** The marker's opacity is 1 rather than 0. */
    var markerShown: bool

    /** Empty layers, the marker at `[0, 0]` and transparent. */
    constructor()
      ensures gpsData == [] && fullBounds.None? && !containerHidden
      ensures baseTrace == [] && highlight == []
      ensures markerPos == LatLng(0.0, 0.0) && !markerShown
    {
      gpsData := [];
      fullBounds := None;
      containerHidden := false;
      baseTrace := [];
      highlight := [];
      markerPos := LatLng(0.0, 0.0);
      markerShown := false;
    }

    /**
     * `load(gpsData, bounds)`: stores both; without GPS the container is
     * hidden and the layers are left as they were, otherwise the trace is
     * drawn and the highlight cleared.
     */
    method Load(gps: seq<GpsPoint>, bounds: Option<Bounds>)
      modifies this
      ensures gpsData == gps && fullBounds == bounds
      ensures gps == [] ==> containerHidden && baseTrace == old(baseTrace) && highlight == old(highlight)
      ensures gps != [] ==> !containerHidden && baseTrace == Trace(gps) && highlight == []
      ensures markerPos == old(markerPos) && markerShown == old(markerShown)
    {
      gpsData := gps;
      fullBounds := bounds;
      if |gps| == 0 {
        containerHidden := true;
        return;
      }
      containerHidden := false;
      baseTrace := Trace(gps);
      highlight := [];
    }

    /** `updateHighlight(subset, isReset)` */
    method UpdateHighlight(subset: seq<Record>, isReset: bool)
      modifies this
      ensures highlight == HighlightAfter(old(gpsData), old(highlight), subset, isReset)
      ensures gpsData == old(gpsData) && fullBounds == old(fullBounds) && containerHidden == old(containerHidden)
      ensures baseTrace == old(baseTrace) && markerPos == old(markerPos) && markerShown == old(markerShown)
    {
      if |gpsData| == 0 {
        return;
      }
      if isReset {
        highlight := [];
      } else {
        if |subset| == 0 {
          return;
        }
        var minTs := TsOf(subset[0]);
        var maxTs := TsOf(subset[|subset| - 1]);
        var segment := Window(gpsData, PointTime, minTs, maxTs);
        var latlngs := Trace(segment);
        if |latlngs| > 0 {
          highlight := latlngs;
        }
      }
    }

    /** `setMarker(idx)`: moves and shows the marker on the point of record `idx`, if there is one. */
    method SetMarker(idx: int)
      modifies this
      ensures FindPoint(gpsData, idx).Some? ==>
        markerPos == LatLng(FindPoint(gpsData, idx).value.lat, FindPoint(gpsData, idx).value.lon) && markerShown
      ensures FindPoint(gpsData, idx).None? ==> markerPos == old(markerPos) && markerShown == old(markerShown)
      ensures gpsData == old(gpsData) && fullBounds == old(fullBounds) && containerHidden == old(containerHidden)
      ensures baseTrace == old(baseTrace) && highlight == old(highlight)
    {
      var p := FindPoint(gpsData, idx);
      if p.Some? {
        markerPos := LatLng(p.value.lat, p.value.lon);
        markerShown := true;
      }
    }
  }
}
