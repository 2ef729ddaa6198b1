/**
 * The pure helpers of app.js: `toCSV`, which quotes every value and doubles
 * the quotes inside it, joins with a configurable delimiter and ends lines
 * with a bare line feed; `formatLabel` with its own abbreviations; and
 * `getChartColor`, which picks a colour by substring.
 */
module AppUtils {
  import opened JsValue
  import opened Text
  import opened Labels

  // ---------------------------------------------------------------------------
  // toCSV
  // ---------------------------------------------------------------------------

  /** `s.replace(/"/g, '""')` */
  function Escape(s: string): string
    decreases |s|
  {
    if s == [] then []
    else (if s[0] == '"' then "\"\"" else [s[0]]) + Escape(s[1..])
  }

  /**
   * `String(v ?? "")`: a string is itself, a nullish value the empty string;
   * numbers and dates are rendered by `show`, which the model leaves open.
   */
  function CellText(v: Value, show: Value -> string): string
  {
    match OrElse(v, Str(""))
    case Str(s) => s
    case other => show(other)
  }

  /** `"${...}"` around the escaped text. */
  function Quote(s: string): string
  {
    "\"" + Escape(s) + "\""
  }

  function Cells(obj: Record, headers: seq<string>, show: Value -> string): seq<string>
  {
    seq(|headers|, j requires 0 <= j < |headers| => CellText(Get(obj, headers[j]), show))
  }

  function QuoteAll(cells: seq<string>): seq<string>
  {
    seq(|cells|, j requires 0 <= j < |cells| => Quote(cells[j]))
  }

  /** `headers.map(h => "..." ).join(delimiter)` for one object. */
  function Row(obj: Record, headers: seq<string>, delimiter: string, show: Value -> string): string
  {
    Join(QuoteAll(Cells(obj, headers, show)), delimiter)
  }

  /**
   * `toCSV(arr, delimiter)`. `headers` is `Object.keys(arr[0])`: the first
   * object's keys, each once, in the object's own order.
   */
  function ToCSV(arr: seq<Record>, headers: seq<string>, delimiter: string, show: Value -> string): string
    requires arr != [] ==> Elems(headers) == arr[0].Keys
  {
    if arr == [] then ""
    else
      var rows := seq(|arr|, i requires 0 <= i < |arr| => Row(arr[i], headers, delimiter, show));
      Join([Join(headers, delimiter)] + rows, "\n")
  }

  /**
   * Reads an escaped cell up to its closing quote: the unescaped text and
   * what follows the quote.
   */
  function Unescape(t: string): (r: Option<(string, string)>)
    ensures r.Some? ==> |r.value.1| < |t|
    decreases |t|
  {
    if t == [] then None
    else if t[0] == '"' then
      if |t| >= 2 && t[1] == '"' then
        match Unescape(t[2..])
        case None => None
        case Some(p) => Some(("\"" + p.0, p.1))
      else Some(("", t[1..]))
    else
      match Unescape(t[1..])
      case None => None
      case Some(p) => Some(([t[0]] + p.0, p.1))
  }

  /** Reads quoted cells separated by `d` until the text ends. */
  function ReadCells(t: string, d: char): Option<seq<string>>
    decreases |t|
  {
    if t == [] || t[0] != '"' then None
    else
      match Unescape(t[1..])
      case None => None
      case Some(p) =>
        if p.1 == [] then Some([p.0])
        else if p.1[0] != d then None
        else
          match ReadCells(p.1[1..], d)
          case None => None
          case Some(cs) => Some([p.0] + cs)
  }

  /** Reads one data line back into its cell texts; the empty line has no cells. */
  function ReadRow(t: string, d: char): Option<seq<string>>
  {
    if t == [] then Some([]) else ReadCells(t, d)
  }

  /** The closing quote is found right after the escaped text, whatever the text holds. */
  lemma {:induction false} UnescapeEscape(s: string, rest: string)
    requires rest == [] || rest[0] != '"'
    ensures Unescape(Escape(s) + "\"" + rest) == Some((s, rest))
    decreases |s|
  {
    if s == [] {
      var t := Escape(s) + "\"" + rest;
      assert t == ['"'] + rest;
      assert t[1..] == rest;
      assert !(|t| >= 2 && t[1] == '"');
    } else {
      var u := Escape(s[1..]) + "\"" + rest;
      var t := Escape(s) + "\"" + rest;
      UnescapeEscape(s[1..], rest);
      assert Unescape(u) == Some((s[1..], rest));
      if s[0] == '"' {
        assert Escape(s) == "\"\"" + Escape(s[1..]);
        assert t == "\"\"" + u;
        assert t[0] == '"' && t[1] == '"' && t[2..] == u;
        assert Unescape(t) == Some(("\"" + s[1..], rest));
        assert "\"" + s[1..] == s;
      } else {
        assert Escape(s) == [s[0]] + Escape(s[1..]);
        assert t == [s[0]] + u;
        assert t[0] == s[0] && t[1..] == u;
        assert Unescape(t) == Some(([s[0]] + s[1..], rest));
        assert [s[0]] + s[1..] == s;
      }
    }
  }

  /**
   * With a one-character delimiter other than the quote, a data line reads
   * back as exactly the cell texts it was made from, whatever quotes,
   * delimiters or line feeds they contain.
   */
  lemma {:induction false} ReadRowQuoted(cells: seq<string>, d: char)
    requires d != '"'
    ensures ReadRow(Join(QuoteAll(cells), [d]), d) == Some(cells)
    decreases |cells|
  {
    if cells != [] {
      var q := QuoteAll(cells);
      var c := cells[0];
      if |cells| == 1 {
        var t := Join(q, [d]);
        assert t == "\"" + (Escape(c) + "\"" + []);
        assert t[1..] == Escape(c) + "\"" + [];
        UnescapeEscape(c, []);
        assert ReadCells(t, d) == Some([c]);
        assert cells == [c];
      } else {
        var rest := Join(QuoteAll(cells[1..]), [d]);
        assert q[1..] == QuoteAll(cells[1..]);
        assert Join(q, [d]) == "\"" + (Escape(c) + "\"" + ([d] + rest));
        UnescapeEscape(c, [d] + rest);
        ReadRowQuoted(cells[1..], d);
        assert QuoteAll(cells[1..])[0] == Quote(cells[1]);
        assert rest[0] == '"';
        assert ([d] + rest)[1..] == rest;
        assert [c] + cells[1..] == cells;
      }
    }
  }

  /**
   * Every data line of the export reads back as the object's values under
   * the header keys, nullish values as empty texts; the export is empty
   * exactly when the array is.
   */
  lemma ToCSVSpec(arr: seq<Record>, headers: seq<string>, d: char, show: Value -> string)
    requires d != '"'
    requires arr != [] ==> Elems(headers) == arr[0].Keys
    ensures ToCSV(arr, headers, [d], show) == "" <==> arr == []
    ensures forall i :: 0 <= i < |arr| ==>
      ReadRow(Row(arr[i], headers, [d], show), d) == Some(Cells(arr[i], headers, show))
    ensures forall i, j :: 0 <= i < |arr| && 0 <= j < |headers| && (headers[j] !in arr[i] || arr[i][headers[j]].Null?) ==>
      Cells(arr[i], headers, show)[j] == ""
  {
    forall i | 0 <= i < |arr|
      ensures ReadRow(Row(arr[i], headers, [d], show), d) == Some(Cells(arr[i], headers, show))
    {
      ReadRowQuoted(Cells(arr[i], headers, show), d);
    }
    if arr != [] {
      var rows := seq(|arr|, i requires 0 <= i < |arr| => Row(arr[i], headers, [d], show));
      var lines := [Join(headers, [d])] + rows;
      assert |lines| >= 2;
      assert Join(lines, "\n") == lines[0] + "\n" + Join(lines[1..], "\n");
    }
  }

  // ---------------------------------------------------------------------------
  // formatLabel and getChartColor
  // ---------------------------------------------------------------------------

  const LabelAbbreviations: seq<(string, string)> := [("Heart Rate", "HR"), ("Cadence", "Cad")]

  /** `formatLabel(str)`: title case, then HR and Cad. */
  function FormatLabel(s: string): (r: string)
    ensures NoUnderscore(r) && Capitalized(r)
  {
    assert Abbreviation("HR") && Abbreviation("Cad");
    Label(s, LabelAbbreviations)
  }

  /** Heart rate and cadence are abbreviated; altitude is spelled out. */
  lemma FormatLabelExamples()
    ensures FormatLabel("heart_rate") == "HR"
    ensures FormatLabel("cadence") == "Cad"
    ensures FormatLabel("altitude") == "Altitude"
  {
    TitledHeartRate();
    LabelAbbreviated("heart_rate", LabelAbbreviations, 0);
    TitledCadence();
    LabelAbbreviated("cadence", LabelAbbreviations, 1);
    TitledAltitude();
    AltitudeMissesCadence();
    LabelUnabbreviated("altitude", "Altitude", LabelAbbreviations);
  }

  const Red := "#ef4444"
  const Blue := "#3b82f6"
  const Amber := "#f59e0b"
  const Violet := "#8b5cf6"
  const Green := "#10b981"
  const Grey := "#6b7280"

  /** `getChartColor(key)`: the first of heart, speed, power, cadence, alt that the key contains decides. */
  function GetChartColor(key: string): string
  {
    if Contains(key, "heart") then Red
    else if Contains(key, "speed") then Blue
    else if Contains(key, "power") then Amber
    else if Contains(key, "cadence") then Violet
    else if Contains(key, "alt") then Green
    else Grey
  }

  /**
   * Each colour is chosen exactly when its word is the first of the five the
   * key contains; grey exactly when it contains none of them.
   */
  lemma GetChartColorSpec(key: string)
    ensures GetChartColor(key) == Red <==> Contains(key, "heart")
    ensures GetChartColor(key) == Blue <==> !Contains(key, "heart") && Contains(key, "speed")
    ensures GetChartColor(key) == Amber <==> !Contains(key, "heart") && !Contains(key, "speed") && Contains(key, "power")
    ensures GetChartColor(key) == Violet <==>
      !Contains(key, "heart") && !Contains(key, "speed") && !Contains(key, "power") && Contains(key, "cadence")
    ensures GetChartColor(key) == Green <==>
      !Contains(key, "heart") && !Contains(key, "speed") && !Contains(key, "power") && !Contains(key, "cadence") &&
      Contains(key, "alt")
    ensures GetChartColor(key) == Grey <==>
      !Contains(key, "heart") && !Contains(key, "speed") && !Contains(key, "power") && !Contains(key, "cadence") &&
      !Contains(key, "alt")
  {
  }
}
