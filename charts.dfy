/**
 * charts.js: the `ChartManager` of the first iteration. It plots the records
 * as decoded, so the x axis is computed from each record's `timestamp`; a
 * selection of width 0 is the reset, and the palette has seven colours.
 */
module Charts {
  import opened JsValue
  import opened Text
  import opened Labels
  import opened Activity
  import Parse

  const Palette: seq<string> := ["#2563eb", "#dc2626", "#d97706", "#059669", "#7c3aed", "#db2777", "#4f46e5"]

  /** `colors[i % colors.length]` */
  function GetColor(i: nat): string
  {
    Palette[i % 7]
  }

  /** The colours repeat every seven charts, and seven neighbouring charts never share one. */
  lemma GetColorCycle(i: nat)
    ensures GetColor(i + 7) == GetColor(i)
    ensures forall j :: i < j < i + 7 ==> GetColor(j) != GetColor(i)
  {
    forall j | i < j < i + 7
      ensures GetColor(j) != GetColor(i)
    {
      assert j % 7 != i % 7;
    }
  }

  const LabelAbbreviations: seq<(string, string)> := [("Heart Rate", "HR"), ("Cadence", "Cad"), ("Altitude", "Alt")]

  /** `formatLabel(str)`: title case, then HR, Cad and Alt. */
  function FormatLabel(s: string): (r: string)
    ensures NoUnderscore(r) && Capitalized(r)
  {
    assert Abbreviation("HR") && Abbreviation("Cad") && Abbreviation("Alt");
    Label(s, LabelAbbreviations)
  }

  /** The three abbreviations at work: heart rate, cadence and altitude become HR, Cad and Alt. */
  lemma FormatLabelExamples()
    ensures FormatLabel("heart_rate") == "HR"
    ensures FormatLabel("cadence") == "Cad"
    ensures FormatLabel("altitude") == "Alt"
  {
    TitledHeartRate();
    LabelAbbreviated("heart_rate", LabelAbbreviations, 0);
    TitledCadence();
    LabelAbbreviated("cadence", LabelAbbreviations, 1);
    TitledAltitude();
    AltitudeMissesCadence();
    LabelAbbreviated("altitude", LabelAbbreviations, 2);
  }

  /** One uPlot chart; the x values are numbers of seconds and the title is `Title()`. */
  datatype Chart = Chart(field: string, color: string, xs: seq<Number>, ys: seq<Value>)
  {
    /** The chart's title: its field run through `formatLabel`. */
    function Title(): string
    {
      FormatLabel(field)
    }
  }

  /** `data.records.map(r => r.timestamp instanceof Date ? ... : new Date(r.timestamp).getTime() / 1000)` */
  function XData(records: seq<Record>, parseDate: DateParser): seq<Number>
  {
    seq(|records|, k requires 0 <= k < |records| => EpochSeconds(records[k], parseDate))
  }

  /** `data.records.map(r => r[field] ?? null)` */
  function YData(records: seq<Record>, field: string): seq<Value>
  {
    seq(|records|, k requires 0 <= k < |records| => OrElse(Get(records[k], field), Null))
  }

  function ChartFor(records: seq<Record>, parseDate: DateParser, field: string, i: nat): Chart
  {
    Chart(field, GetColor(i), XData(records, parseDate), YData(records, field))
  }

  /**
   * The x value at a GPS point's index is that point's time, and both series
   * are as long as the records: the charts and the track share one index.
   */
  lemma TrackOnChartAxis(records: seq<Record>, parseDate: DateParser, field: string, n: nat)
    ensures var c := ChartFor(records, parseDate, field, n);
      |c.xs| == |c.ys| == |records|
    ensures var gps := GpsTrack(records, parseDate);
      var c := ChartFor(records, parseDate, field, n);
      forall m :: 0 <= m < |gps| ==> gps[m].i < |c.xs| && c.xs[gps[m].i] == gps[m].ts
  {
    GpsTrackSound(records, parseDate);
  }

  datatype Event = SetSelect(width: real, min: real, max: real) | SetCursor(idx: Option<int>)

  datatype Callback = OnSelect(min: Option<Number>, max: Option<Number>) | OnHover(idx: int)

  /** The callback each hook calls; there is no separate double-click listener. */
  function Dispatch(e: Event): Option<Callback>
  {
    match e
    case SetSelect(width, min, max) =>
      if width == 0.0 then Some(OnSelect(None, None)) else Some(OnSelect(Some(Finite(min)), Some(Finite(max))))
    case SetCursor(idx) => if idx.Some? && idx.value != 0 then Some(OnHover(idx.value)) else None
  }

  /**
   * Every selection calls `onSelect`: with nulls exactly when the width is 0,
   * otherwise with the selection's own two ends. The cursor index is
   * forwarded as it is, but only when truthy.
   */
  lemma DispatchSpec(e: Event)
    ensures e.SetSelect? ==> Dispatch(e).Some? && Dispatch(e).value.OnSelect?
    ensures e.SetSelect? ==> (Dispatch(e).value.min.None? <==> e.width == 0.0)
    ensures e.SetSelect? && e.width == 0.0 ==> Dispatch(e) == Some(OnSelect(None, None))
    ensures e.SetSelect? && e.width != 0.0 ==> Dispatch(e) == Some(OnSelect(Some(Finite(e.min)), Some(Finite(e.max))))
    ensures e.SetCursor? && e.idx.Some? && e.idx.value != 0 ==> Dispatch(e) == Some(OnHover(e.idx.value))
    ensures (exists i :: Dispatch(e) == Some(OnHover(i))) <==> e.SetCursor? && e.idx.Some? && e.idx.value != 0
  {
    if e.SetCursor? && e.idx.Some? && e.idx.value != 0 {
      assert Dispatch(e) == Some(OnHover(e.idx.value));
    }
  }

  /** The charts of the first `n` fields, the `i`-th on colour `i`. */
  function ChartsUpTo(records: seq<Record>, parseDate: DateParser, fields: seq<string>, n: nat): (cs: seq<Chart>)
    requires n <= |fields|
    ensures |cs| == n
    ensures forall i :: 0 <= i < n ==> cs[i] == ChartFor(records, parseDate, fields[i], i)
  {
    if n == 0 then [] else ChartsUpTo(records, parseDate, fields, n - 1) + [ChartFor(records, parseDate, fields[n - 1], n - 1)]
  }

  /** The text `render` puts in the container when there is nothing to chart. */
  const NoDataNotice := "No chartable data found."

  class ChartManager {
    var charts: seq<Chart>
    var placeholderShown: bool
    /** The text content of the charts container besides the charts. */
    var notice: string

    constructor()
      ensures charts == [] && placeholderShown && notice == ""
    {
      charts := [];
      placeholderShown := true;
      notice := "";
    }

    /** `clear()` */
    method Clear()
      modifies this
      ensures charts == [] && placeholderShown && notice == ""
    {
      charts := [];
      placeholderShown := true;
      notice := "";
    }

    /** `render(data, onSelect, onHover)`: a notice when there is no field, otherwise one chart per field. */
    method Render(data: Parse.ParsedFit, parseDate: DateParser)
      modifies this
      ensures |charts| == |data.fields|
      ensures forall i :: 0 <= i < |charts| ==> charts[i] == ChartFor(data.records, parseDate, data.fields[i], i)
      ensures data.fields == [] ==> placeholderShown && notice == NoDataNotice
      ensures data.fields != [] ==> !placeholderShown && notice == ""
    {
      Clear();
      if |data.fields| == 0 {
        notice := NoDataNotice;
        return;
      }
      placeholderShown := false;
      charts := BuildCharts(data.records, parseDate, data.fields);
    }

    /** The loop of `render`: one chart per field, each on the shared x data. */
    static method BuildCharts(records: seq<Record>, parseDate: DateParser, fields: seq<string>) returns (cs: seq<Chart>)
      ensures |cs| == |fields|
      ensures forall i :: 0 <= i < |cs| ==> cs[i] == ChartFor(records, parseDate, fields[i], i)
    {
      cs := [];
      var i := 0;
      while i < |fields|
        invariant 0 <= i <= |fields|
        invariant cs == ChartsUpTo(records, parseDate, fields, i)
      {
        cs := cs + [ChartFor(records, parseDate, fields[i], i)];
        i := i + 1;
      }
    }
  }
}
