/**
 * src/charts.js: the `ChartManager` of the later iteration. `render` builds
 * one chart per catalog field over the normalised records, each chart's
 * series indexed exactly like the records; uPlot's `setSelect`, double-click
 * and `setCursor` hooks are translated into `onSelect` and `onHover` calls.
 */
module SrcCharts {
  import opened JsValue
  import opened Text
  import opened Labels
  import opened Activity
  import SrcParse

  const Palette: seq<string> := ["#2563eb", "#dc2626", "#d97706", "#059669", "#7c3aed", "#db2777"]

  /** `getColor(i)` */
  function GetColor(i: nat): string
  {
    Palette[i % 6]
  }

  /** The colours repeat every six charts, and six neighbouring charts never share one. */
  lemma GetColorCycle(i: nat)
    ensures GetColor(i + 6) == GetColor(i)
    ensures forall j :: i < j < i + 6 ==> GetColor(j) != GetColor(i)
  {
    forall j | i < j < i + 6
      ensures GetColor(j) != GetColor(i)
    {
      assert j % 6 != i % 6;
    }
  }

  const LabelAbbreviations: seq<(string, string)> := [("Heart Rate", "HR"), ("Cadence", "Cad"), ("Altitude", "Alt")]

  /** `formatLabel(str)`: title case, then HR, Cad and Alt. */
  function FormatLabel(s: string): (r: string)
    ensures NoUnderscore(r) && Capitalized(r)
  {
    assert Abbreviation("HR") && Abbreviation("Cad") && Abbreviation("Alt");
    Label(s, LabelAbbreviations)
  }

  /** The three abbreviations at work: heart rate, cadence and altitude become HR, Cad and Alt. */
  lemma FormatLabelExamples()
    ensures FormatLabel("heart_rate") == "HR"
    ensures FormatLabel("cadence") == "Cad"
    ensures FormatLabel("altitude") == "Alt"
  {
    TitledHeartRate();
    LabelAbbreviated("heart_rate", LabelAbbreviations, 0);
    TitledCadence();
    LabelAbbreviated("cadence", LabelAbbreviations, 1);
    TitledAltitude();
    AltitudeMissesCadence();
    LabelAbbreviated("altitude", LabelAbbreviations, 2);
  }

  /** One uPlot chart: its field, colour and the `[xData, yData]` it plots; the axis label is `Title()`. */
  datatype Chart = Chart(field: string, color: string, xs: seq<Value>, ys: seq<Value>)
  {
    /** The chart's title: its field run through `formatLabel`. */
    function Title(): string
    {
      FormatLabel(field)
    }
  }

  /** `data.records.map(r => r.ts)` */
  function XData(records: seq<Record>): seq<Value>
  {
    seq(|records|, k requires 0 <= k < |records| => Get(records[k], "ts"))
  }

  /** `data.records.map(r => r[field] ?? null)` */
  function YData(records: seq<Record>, field: string): seq<Value>
  {
    seq(|records|, k requires 0 <= k < |records| => OrElse(Get(records[k], field), Null))
  }

  /** The chart built for the `i`-th field. */
  function ChartFor(records: seq<Record>, field: string, i: nat): Chart
  {
    Chart(field, GetColor(i), XData(records), YData(records, field))
  }

  /**
   * Over the records of a parsed file, position `k` of every chart is record
   * `k`: the x value is that record's time in seconds, the record's `i` is
   * `k`, and the y value is what the raw record holds under the field, or null.
   */
  lemma HoverIndexIsRecordIndex(raw: seq<Record>, parseDate: DateParser, field: string, n: nat, k: nat)
    requires k < |raw| && field != "ts" && field != "i"
    ensures var records := SrcParse.Normalized(raw, parseDate);
      var c := ChartFor(records, field, n);
      && |c.xs| == |c.ys| == |records| == |raw|
      && c.xs[k] == Num(EpochSeconds(raw[k], parseDate))
      && records[k]["i"] == Num(Finite(k as real))
      && c.ys[k] == OrElse(Get(raw[k], field), Null)
  {
    SrcParse.NormalizedSpec(raw, parseDate);
  }

  /** Every GPS point sits at the x value of the chart position its `i` names. */
  lemma TrackOnChartAxis(raw: seq<Record>, parseDate: DateParser, field: string, n: nat)
    ensures var gps := GpsTrack(raw, parseDate);
      var c := ChartFor(SrcParse.Normalized(raw, parseDate), field, n);
      forall m :: 0 <= m < |gps| ==> gps[m].i < |c.xs| && c.xs[gps[m].i] == Num(gps[m].ts)
  {
    GpsTrackSound(raw, parseDate);
    SrcParse.NormalizedSpec(raw, parseDate);
  }

  /** What uPlot reports through the hooks and the double-click listener. */
  datatype Event =
    | SetSelect(width: real, min: real, max: real)
    | DoubleClick
    | SetCursor(idx: Option<int>)

  /** A call of one of the callbacks `render` was given; `None` stands for `null`. */
  datatype Callback = OnSelect(min: Option<Number>, max: Option<Number>) | OnHover(idx: int)

  /** The callback an event triggers, if any. `min` and `max` are already `posToVal` results. */
  function Dispatch(e: Event): Option<Callback>
  {
    match e
    case SetSelect(width, min, max) => if width > 0.0 then Some(OnSelect(Some(Finite(min)), Some(Finite(max)))) else None
    case DoubleClick => Some(OnSelect(None, None))
    case SetCursor(idx) => if idx.Some? && idx.value != 0 then Some(OnHover(idx.value)) else None
  }

  /**
   * Only a double-click resets; a drag of positive width selects its own two
   * ends and one of width 0 sends nothing; the cursor index is forwarded as it
   * is, but only when truthy, so index 0 never reaches the map.
   */
  lemma DispatchSpec(e: Event)
    ensures (Dispatch(e) == Some(OnSelect(None, None))) <==> e.DoubleClick?
    ensures e.SetSelect? ==> (Dispatch(e).Some? <==> e.width > 0.0)
    ensures e.SetSelect? && Dispatch(e).Some? ==> Dispatch(e).value.min.Some? && Dispatch(e).value.max.Some?
    ensures e.SetSelect? && e.width > 0.0 ==> Dispatch(e) == Some(OnSelect(Some(Finite(e.min)), Some(Finite(e.max))))
    ensures e.SetCursor? && e.idx.Some? && e.idx.value != 0 ==> Dispatch(e) == Some(OnHover(e.idx.value))
    ensures (exists i :: Dispatch(e) == Some(OnHover(i))) <==> e.SetCursor? && e.idx.Some? && e.idx.value != 0
    ensures Dispatch(SetCursor(Some(0))).None?
  {
    if e.SetCursor? && e.idx.Some? && e.idx.value != 0 {
      assert Dispatch(e) == Some(OnHover(e.idx.value));
    }
  }

  /** The charts of the first `n` fields, the `i`-th on colour `i`. */
  function ChartsUpTo(records: seq<Record>, fields: seq<string>, n: nat): (cs: seq<Chart>)
    requires n <= |fields|
    ensures |cs| == n
    ensures forall i :: 0 <= i < n ==> cs[i] == ChartFor(records, fields[i], i)
  {
    if n == 0 then [] else ChartsUpTo(records, fields, n - 1) + [ChartFor(records, fields[n - 1], n - 1)]
  }

  class ChartManager {
    var charts: seq<Chart>
    /** The "no file loaded" placeholder carries `d-flex` rather than `d-none`. */
    var placeholderShown: bool

    constructor()
      ensures charts == [] && placeholderShown
    {
      charts := [];
      placeholderShown := true;
    }

    /** `clear()` */
    method Clear()
      modifies this
      ensures charts == [] && placeholderShown
    {
      charts := [];
      placeholderShown := true;
    }

    /** `render(data, onSelect, onHover)`: one chart per field, in catalog order. */
    method Render(data: SrcParse.ParsedFit)
      modifies this
      ensures |charts| == |data.fields|
      ensures forall i :: 0 <= i < |charts| ==> charts[i] == ChartFor(data.records, data.fields[i], i)
      ensures placeholderShown <==> data.fields == []
    {
      Clear();
      if |data.fields| == 0 {
        return;
      }
      placeholderShown := false;
      charts := BuildCharts(data.records, data.fields);
    }

    /** The loop of `render`: one chart per field, each on the shared x data. */
    static method BuildCharts(records: seq<Record>, fields: seq<string>) returns (cs: seq<Chart>)
      ensures |cs| == |fields|
      ensures forall i :: 0 <= i < |cs| ==> cs[i] == ChartFor(records, fields[i], i)
    {
      cs := [];
      var i := 0;
      while i < |fields|
        invariant 0 <= i <= |fields|
        invariant cs == ChartsUpTo(records, fields, i)
      {
        cs := cs + [ChartFor(records, fields[i], i)];
        i := i + 1;
      }
    }
  }
}
