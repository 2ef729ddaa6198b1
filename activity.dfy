/**
 * The shapes shared by every iteration of the application and the reference
 * definitions of what record normalisation computes: the epoch-seconds time of
 * a record, the GPS sub-track and its bounding box, and the set of chartable
 * (numeric, not ignored) field keys.
 */
module Activity {
  import opened JsValue
  import opened Text

  /** `{ i, lat, lon, ts }`: a record index, its position and its time in seconds. */
  datatype GpsPoint = GpsPoint(i: nat, lat: real, lon: real, ts: Number)

  /** `[[minLat, minLon], [maxLat, maxLon]]` */
  datatype Bounds = Bounds(minLat: real, minLon: real, maxLat: real, maxLon: real)

  /** What the FIT decoder hands over; any of the three arrays may be missing. */
  datatype FitFile = FitFile(records: Option<seq<Record>>, laps: Option<seq<Record>>, sessions: Option<seq<Record>>)

  /** `a || []` */
  function OrEmpty(a: Option<seq<Record>>): seq<Record>
  {
    if a.Some? then a.value else []
  }

  /**
   * `r.timestamp instanceof Date ? r.timestamp.getTime() / 1000
   *                              : new Date(r.timestamp).getTime() / 1000`
   */
  function EpochSeconds(r: Record, parseDate: DateParser): Number
  {
    var t := Get(r, "timestamp");
    if t.Date? then Div(t.time, 1000.0) else Div(DateTime(t, parseDate), 1000.0)
  }

  /** The `instanceof Date` branch agrees with `new Date(...)`, so every iteration reads the same time. */
  lemma EpochSecondsIsNewDate(r: Record, parseDate: DateParser)
    ensures EpochSeconds(r, parseDate) == Div(DateTime(Get(r, "timestamp"), parseDate), 1000.0)
  {
  }

  /** `r.ts` of a normalised record, as an operand of `>=` and `<=`. */
  function TsOf(r: Record): Number
  {
    ToNumber(Get(r, "ts"))
  }

  /** `isValid(r.position_lat) && isValid(r.position_long)` */
  predicate HasPosition(r: Record)
  {
    IsValidNumber(Get(r, "position_lat")) && IsValidNumber(Get(r, "position_long"))
  }

  function PointAt(r: Record, i: nat, parseDate: DateParser): GpsPoint
    requires HasPosition(r)
  {
    GpsPoint(i, Get(r, "position_lat").n.v, Get(r, "position_long").n.v, EpochSeconds(r, parseDate))
  }

  /** The GPS points of `raw`, in record order, each tagged with its record's position. */
  function GpsTrack(raw: seq<Record>, parseDate: DateParser): seq<GpsPoint>
    decreases |raw|
  {
    if raw == [] then []
    else
      var k := |raw| - 1;
      GpsTrack(raw[..k], parseDate) + (if HasPosition(raw[k]) then [PointAt(raw[k], k, parseDate)] else [])
  }

  /** The track of one more record: its point is appended when it has a position. */
  lemma GpsTrackStep(raw: seq<Record>, k: nat, parseDate: DateParser)
    requires k < |raw|
    ensures GpsTrack(raw[..k + 1], parseDate) ==
      GpsTrack(raw[..k], parseDate) + (if HasPosition(raw[k]) then [PointAt(raw[k], k, parseDate)] else [])
  {
    assert raw[..k + 1][..k] == raw[..k];
  }

  /** Every point of the track is built from the record its `i` names, and the `i`s strictly increase. */
  lemma {:induction false} GpsTrackSound(raw: seq<Record>, parseDate: DateParser)
    ensures var t := GpsTrack(raw, parseDate);
      && |t| <= |raw|
      && (forall n :: 0 <= n < |t| ==>
            t[n].i < |raw| && HasPosition(raw[t[n].i]) && t[n] == PointAt(raw[t[n].i], t[n].i, parseDate))
      && (forall m, n :: 0 <= m < n < |t| ==> t[m].i < t[n].i)
    decreases |raw|
  {
    if raw != [] {
      var k := |raw| - 1;
      var init := raw[..k];
      GpsTrackSound(init, parseDate);
      var t0 := GpsTrack(init, parseDate);
      var t := GpsTrack(raw, parseDate);
      assert t == t0 + (if HasPosition(raw[k]) then [PointAt(raw[k], k, parseDate)] else []);
      forall n | 0 <= n < |t0|
        ensures t[n] == t0[n] && t[n].i < k && raw[t[n].i] == init[t[n].i]
      {
      }
    }
  }

  /** No record with a valid position is missed by the track. */
  lemma {:induction false} GpsTrackComplete(raw: seq<Record>, parseDate: DateParser, j: nat)
    requires j < |raw| && HasPosition(raw[j])
    ensures exists n :: 0 <= n < |GpsTrack(raw, parseDate)| && GpsTrack(raw, parseDate)[n].i == j
    decreases |raw|
  {
    var k := |raw| - 1;
    var init := raw[..k];
    var t0 := GpsTrack(init, parseDate);
    var t := GpsTrack(raw, parseDate);
    assert t == t0 + (if HasPosition(raw[k]) then [PointAt(raw[k], k, parseDate)] else []);
    if j < k {
      assert init[j] == raw[j];
      GpsTrackComplete(init, parseDate, j);
      var n :| 0 <= n < |t0| && t0[n].i == j;
      assert t[n].i == j;
    } else {
      assert t[|t| - 1].i == j;
    }
  }

  // ---------------------------------------------------------------------------
  // Bounds
  // ---------------------------------------------------------------------------

  function Lats(pts: seq<GpsPoint>): seq<real>
  {
    seq(|pts|, k requires 0 <= k < |pts| => pts[k].lat)
  }

  function Lons(pts: seq<GpsPoint>): seq<real>
  {
    seq(|pts|, k requires 0 <= k < |pts| => pts[k].lon)
  }

  /** `m = init; for x of xs: if (x < m) m = x` */
  function FoldMin(init: real, xs: seq<real>): real
    decreases |xs|
  {
    if xs == [] then init
    else
      var m := FoldMin(init, xs[..|xs| - 1]);
      if xs[|xs| - 1] < m then xs[|xs| - 1] else m
  }

  /** `m = init; for x of xs: if (x > m) m = x` */
  function FoldMax(init: real, xs: seq<real>): real
    decreases |xs|
  {
    if xs == [] then init
    else
      var m := FoldMax(init, xs[..|xs| - 1]);
      if xs[|xs| - 1] > m then xs[|xs| - 1] else m
  }

  /** `m` is the least of `init` and the elements of `xs`. */
  predicate IsMin(m: real, init: real, xs: seq<real>)
  {
    && m <= init
    && (forall k :: 0 <= k < |xs| ==> m <= xs[k])
    && (m == init || exists k :: 0 <= k < |xs| && m == xs[k])
  }

  /** `m` is the greatest of `init` and the elements of `xs`. */
  predicate IsMax(m: real, init: real, xs: seq<real>)
  {
    && m >= init
    && (forall k :: 0 <= k < |xs| ==> m >= xs[k])
    && (m == init || exists k :: 0 <= k < |xs| && m == xs[k])
  }

  lemma {:induction false} FoldMinIsMin(init: real, xs: seq<real>)
    ensures IsMin(FoldMin(init, xs), init, xs)
    decreases |xs|
  {
    if xs != [] {
      var init' := xs[..|xs| - 1];
      FoldMinIsMin(init, init');
      assert forall k :: 0 <= k < |init'| ==> xs[k] == init'[k];
    }
  }

  lemma {:induction false} FoldMaxIsMax(init: real, xs: seq<real>)
    ensures IsMax(FoldMax(init, xs), init, xs)
    decreases |xs|
  {
    if xs != [] {
      var init' := xs[..|xs| - 1];
      FoldMaxIsMax(init, init');
      assert forall k :: 0 <= k < |init'| ==> xs[k] == init'[k];
    }
  }

  /** How the four running folds change when one point is appended. */
  lemma FoldStep(pts: seq<GpsPoint>, p: GpsPoint)
    ensures var m := FoldMin(90.0, Lats(pts)); FoldMin(90.0, Lats(pts + [p])) == if p.lat < m then p.lat else m
    ensures var m := FoldMax(-90.0, Lats(pts)); FoldMax(-90.0, Lats(pts + [p])) == if p.lat > m then p.lat else m
    ensures var m := FoldMin(180.0, Lons(pts)); FoldMin(180.0, Lons(pts + [p])) == if p.lon < m then p.lon else m
    ensures var m := FoldMax(-180.0, Lons(pts)); FoldMax(-180.0, Lons(pts + [p])) == if p.lon > m then p.lon else m
  {
    assert Lats(pts + [p])[..|pts|] == Lats(pts);
    assert Lons(pts + [p])[..|pts|] == Lons(pts);
  }

  /** The bounds both parsers report: null without GPS, otherwise the four folds from their sentinels. */
  function TrackBounds(pts: seq<GpsPoint>): Option<Bounds>
  {
    if pts == [] then None
    else Some(Bounds(FoldMin(90.0, Lats(pts)), FoldMin(180.0, Lons(pts)),
                     FoldMax(-90.0, Lats(pts)), FoldMax(-180.0, Lons(pts))))
  }

  /**
   * The bounds are null exactly when there is no GPS point; otherwise each
   * corner is the minimum or maximum of the sentinel and every point's coordinate.
   */
  lemma TrackBoundsSpec(pts: seq<GpsPoint>)
    ensures TrackBounds(pts).None? <==> pts == []
    ensures TrackBounds(pts).Some? ==>
      var b := TrackBounds(pts).value;
      && IsMin(b.minLat, 90.0, Lats(pts)) && IsMax(b.maxLat, -90.0, Lats(pts))
      && IsMin(b.minLon, 180.0, Lons(pts)) && IsMax(b.maxLon, -180.0, Lons(pts))
  {
    FoldMinIsMin(90.0, Lats(pts));
    FoldMaxIsMax(-90.0, Lats(pts));
    FoldMinIsMin(180.0, Lons(pts));
    FoldMaxIsMax(-180.0, Lons(pts));
  }

  /** Every GPS point lies inside the reported box. */
  lemma TrackBoundsContainPoints(pts: seq<GpsPoint>)
    requires pts != []
    ensures forall n :: 0 <= n < |pts| ==>
      var b := TrackBounds(pts).value;
      b.minLat <= pts[n].lat <= b.maxLat && b.minLon <= pts[n].lon <= b.maxLon
  {
    TrackBoundsSpec(pts);
    assert forall n :: 0 <= n < |pts| ==> Lats(pts)[n] == pts[n].lat && Lons(pts)[n] == pts[n].lon;
  }

  // ---------------------------------------------------------------------------
  // Field catalog
  // ---------------------------------------------------------------------------

  /** The keys of one record that are not ignored and hold a number (NaN included). */
  function NumericKeysOf(r: Record, ignore: set<string>): set<string>
  {
    set k | k in r && k !in ignore && IsNumber(r[k])
  }

  /** The keys that qualify on at least one of `rs`. */
  function NumericKeys(rs: seq<Record>, ignore: set<string>): set<string>
    decreases |rs|
  {
    if rs == [] then {} else NumericKeys(rs[..|rs| - 1], ignore) + NumericKeysOf(rs[|rs| - 1], ignore)
  }

  /** A key is in the catalog iff it is not ignored and some record holds a number under it. */
  lemma {:induction false} NumericKeysSpec(rs: seq<Record>, ignore: set<string>, k: string)
    ensures k in NumericKeys(rs, ignore) <==>
      k !in ignore && exists j :: 0 <= j < |rs| && k in rs[j] && IsNumber(rs[j][k])
    decreases |rs|
  {
    if rs != [] {
      var init := rs[..|rs| - 1];
      NumericKeysSpec(init, ignore, k);
      assert forall j :: 0 <= j < |init| ==> rs[j] == init[j];
    }
  }

  /**
   * `records.forEach(r => Object.keys(r).forEach(k => { if (!ignore.has(k) &&
   * typeof r[k] === "number") fields.add(k) }))`, with the Set kept as a
   * sequence in insertion order.
   */
  method CollectNumericKeys(records: seq<Record>, ignore: set<string>) returns (fields: seq<string>)
    ensures Elems(fields) == NumericKeys(records, ignore)
    ensures forall a, b :: 0 <= a < b < |fields| ==> fields[a] != fields[b]
  {
    fields := [];
    var n := 0;
    while n < |records|
      invariant 0 <= n <= |records|
      invariant Elems(fields) == NumericKeys(records[..n], ignore)
      invariant forall a, b :: 0 <= a < b < |fields| ==> fields[a] != fields[b]
    {
      var r := records[n];
      var keys := r.Keys;
      while keys != {}
        invariant keys <= r.Keys
        invariant Elems(fields) == NumericKeys(records[..n], ignore) + (NumericKeysOf(r, ignore) - keys)
        invariant forall a, b :: 0 <= a < b < |fields| ==> fields[a] != fields[b]
        decreases keys
      {
        var key :| key in keys;
        if key !in ignore && IsNumber(r[key]) && key !in fields {
          assert Elems(fields + [key]) == Elems(fields) + {key};
          fields := fields + [key];
        }
        keys := keys - {key};
      }
      assert records[..n + 1][..n] == records[..n];
      n := n + 1;
    }
    assert records[..n] == records;
  }
}
