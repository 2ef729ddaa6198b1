/**
 * Turning a field key such as `heart_rate` into a column or axis label:
 * `str.replace(/_/g, " ").replace(/\b\w/g, l => l.toUpperCase())`, followed by
 * each variant's own abbreviations (`.replace("Heart Rate", "HR")`, ...).
 * The common part is defined here; the variants live with the files that
 * declare them.
 */
module Labels {
  import opened Text

  /** `\w` without the `u` flag: ASCII letters, digits and underscore. */
  predicate IsWordChar(c: char)
  {
    'a' <= c <= 'z' || 'A' <= c <= 'Z' || '0' <= c <= '9' || c == '_'
  }

  predicate IsLower(c: char)
  {
    'a' <= c <= 'z'
  }

  /** `toUpperCase` on a character `\w` can match. */
  function ToUpper(c: char): char
  {
    if IsLower(c) then (c as int - 32) as char else c
  }

  /** `\b\w` matches the character at `i`: a word character not preceded by one. */
  predicate WordStart(s: string, i: int)
    requires 0 <= i < |s|
  {
    IsWordChar(s[i]) && (i == 0 || !IsWordChar(s[i - 1]))
  }

  /** `s.replace(/_/g, " ")` */
  function SpaceUnderscores(s: string): string
  {
    seq(|s|, i requires 0 <= i < |s| => if s[i] == '_' then ' ' else s[i])
  }

  /**
   * `s.replace(/\b\w/g, l => l.toUpperCase())`: every match is found in the
   * string before any replacement, so each position is decided on `s` itself.
   */
  function CapitalizeWords(s: string): string
  {
    seq(|s|, i requires 0 <= i < |s| => if WordStart(s, i) then ToUpper(s[i]) else s[i])
  }

  /** The part every `formatLabel` variant shares. */
  function Titled(s: string): string
  {
    CapitalizeWords(SpaceUnderscores(s))
  }

  predicate NoUnderscore(s: string)
  {
    forall i :: 0 <= i < |s| ==> s[i] != '_'
  }

  /** Every word of `s` begins with something other than a lower-case letter. */
  predicate Capitalized(s: string)
  {
    forall i :: 0 <= i < |s| && WordStart(s, i) ==> !IsLower(s[i])
  }

  /** What each variant substitutes: a non-empty run of word characters, not starting lower-case. */
  predicate Abbreviation(rep: string)
  {
    rep != [] && !IsLower(rep[0]) && forall i :: 0 <= i < |rep| ==> IsWordChar(rep[i]) && rep[i] != '_'
  }

  lemma TitledShape(s: string)
    ensures |Titled(s)| == |s|
    ensures NoUnderscore(Titled(s)) && Capitalized(Titled(s))
  {
    var t := SpaceUnderscores(s);
    var c := CapitalizeWords(t);
    assert forall i :: 0 <= i < |t| ==> IsWordChar(c[i]) == IsWordChar(t[i]);
    forall i | 0 <= i < |c| && WordStart(c, i)
      ensures !IsLower(c[i])
    {
      assert WordStart(t, i);
    }
  }

  /** `s` with the `n` characters from `j` on replaced by `rep`. */
  function Splice(s: string, j: nat, n: nat, rep: string): string
    requires j + n <= |s|
  {
    s[..j] + rep + s[j + n..]
  }

  /** What `Capitalized` and `NoUnderscore` ask of one position. */
  predicate TitleAt(r: string, i: int)
    requires 0 <= i < |r|
  {
    r[i] != '_' && (WordStart(r, i) ==> !IsLower(r[i]))
  }

  lemma SpliceBefore(s: string, j: nat, n: nat, rep: string, i: nat)
    requires j + n <= |s| && NoUnderscore(s) && Capitalized(s)
    requires i < j
    ensures TitleAt(Splice(s, j, n, rep), i)
  {
    var r := Splice(s, j, n, rep);
    assert r[i] == s[i];
    if i > 0 {
      assert r[i - 1] == s[i - 1];
    }
    assert WordStart(r, i) ==> WordStart(s, i);
  }

  lemma SpliceWithin(s: string, j: nat, n: nat, rep: string, i: nat)
    requires j + n <= |s| && Abbreviation(rep)
    requires j <= i < j + |rep|
    ensures TitleAt(Splice(s, j, n, rep), i)
  {
    var r := Splice(s, j, n, rep);
    assert r[i] == rep[i - j];
    if i > j {
      assert r[i - 1] == rep[i - 1 - j];
    }
  }

  lemma SpliceAfter(s: string, j: nat, n: nat, rep: string, i: nat)
    requires j + n <= |s| && NoUnderscore(s) && Capitalized(s) && Abbreviation(rep)
    requires j + |rep| <= i < |Splice(s, j, n, rep)|
    ensures TitleAt(Splice(s, j, n, rep), i)
  {
    var r := Splice(s, j, n, rep);
    var d := n - |rep|;
    assert r[i] == s[i + d];
    assert r[i - 1] == if i == j + |rep| then rep[|rep| - 1] else s[i - 1 + d];
    assert WordStart(r, i) ==> WordStart(s, i + d);
  }

  lemma SpliceTitled(s: string, j: nat, n: nat, rep: string)
    requires j + n <= |s| && NoUnderscore(s) && Capitalized(s) && Abbreviation(rep)
    ensures NoUnderscore(Splice(s, j, n, rep)) && Capitalized(Splice(s, j, n, rep))
  {
    var r := Splice(s, j, n, rep);
    forall i | 0 <= i < |r|
      ensures TitleAt(r, i)
    {
      if i < j {
        SpliceBefore(s, j, n, rep, i);
      } else if i < j + |rep| {
        SpliceWithin(s, j, n, rep, i);
      } else {
        SpliceAfter(s, j, n, rep, i);
      }
    }
  }

  /**
   * Replacing the first occurrence of any pattern by an abbreviation keeps a
   * label free of underscores and keeps every word capitalised.
   */
  lemma ReplacePreserves(s: string, pat: string, rep: string)
    requires NoUnderscore(s) && Capitalized(s)
    requires Abbreviation(rep)
    ensures NoUnderscore(ReplaceFirst(s, pat, rep)) && Capitalized(ReplaceFirst(s, pat, rep))
  {
    if IndexOf(s, pat).Some? {
      SpliceTitled(s, IndexOf(s, pat).value, |pat|, rep);
    }
  }

  /** `.replace(p1, r1).replace(p2, r2)...`, each with a string pattern, in order. */
  function ReplaceEach(s: string, abbreviations: seq<(string, string)>): string
    decreases |abbreviations|
  {
    if abbreviations == [] then s
    else ReplaceEach(ReplaceFirst(s, abbreviations[0].0, abbreviations[0].1), abbreviations[1..])
  }

  /** Every replacement text is an abbreviation. */
  predicate Abbreviations(abbreviations: seq<(string, string)>)
  {
    forall k :: 0 <= k < |abbreviations| ==> Abbreviation(abbreviations[k].1)
  }

  lemma {:induction false} ReplaceEachPreserves(s: string, abbreviations: seq<(string, string)>)
    requires NoUnderscore(s) && Capitalized(s) && Abbreviations(abbreviations)
    ensures NoUnderscore(ReplaceEach(s, abbreviations)) && Capitalized(ReplaceEach(s, abbreviations))
    decreases |abbreviations|
  {
    if abbreviations != [] {
      ReplacePreserves(s, abbreviations[0].0, abbreviations[0].1);
      ReplaceEachPreserves(ReplaceFirst(s, abbreviations[0].0, abbreviations[0].1), abbreviations[1..]);
    }
  }

  /**
   * A `formatLabel` variant: the title-cased key followed by that variant's
   * abbreviations. With abbreviations as replacement texts the label has no
   * underscore and every word starts with a capital.
   */
  function Label(s: string, abbreviations: seq<(string, string)>): (r: string)
    ensures Abbreviations(abbreviations) ==> NoUnderscore(r) && Capitalized(r)
  {
    TitledShape(s);
    var r := ReplaceEach(Titled(s), abbreviations);
    if Abbreviations(abbreviations) then ReplaceEachPreserves(Titled(s), abbreviations); r else r
  }

  // ---------------------------------------------------------------------------
  // Worked labels
  // ---------------------------------------------------------------------------

  /** `heart_rate` becomes two capitalised words. */
  lemma TitledHeartRate()
    ensures Titled("heart_rate") == "Heart Rate"
  {
    var t := SpaceUnderscores("heart_rate");
    assert t == "heart rate";
    assert forall i :: 0 <= i < |t| ==> (WordStart(t, i) <==> i == 0 || i == 6);
  }

  /** A single lower-case word gets its first letter capitalised and nothing else. */
  lemma TitledWord(w: string)
    requires w != [] && forall i :: 0 <= i < |w| ==> IsLower(w[i])
    ensures Titled(w) == [ToUpper(w[0])] + w[1..]
  {
    var t := SpaceUnderscores(w);
    assert t == w;
    assert forall i :: 0 <= i < |t| ==> (WordStart(t, i) <==> i == 0);
  }

  lemma TitledCadence()
    ensures Titled("cadence") == "Cadence"
  {
    TitledWord("cadence");
  }

  lemma TitledAltitude()
    ensures Titled("altitude") == "Altitude"
  {
    TitledWord("altitude");
  }

  /** A label that is exactly the pattern is replaced as a whole. */
  lemma ReplaceWhole(pat: string, rep: string)
    ensures ReplaceFirst(pat, pat, rep) == rep
  {
    assert OccursAt(pat, pat, 0);
    IndexOfAt(pat, pat, 0);
  }

  /** A label the pattern cannot occur in is left alone. */
  lemma ReplaceMissing(s: string, pat: string, rep: string)
    requires Misses(s, pat)
    ensures ReplaceFirst(s, pat, rep) == s
  {
    forall k | OccursAt(s, pat, k)
      ensures false
    {
    }
    IndexOfSpec(s, pat);
  }

  /** `pat` cannot occur in `s`: it is longer, or it starts with a character `s` lacks. */
  predicate Misses(s: string, pat: string)
  {
    |s| < |pat| || (pat != [] && pat[0] !in s)
  }

  lemma AltitudeMissesCadence()
    ensures Misses("Altitude", "Cadence")
  {
  }

  /** None of the patterns can occur in `s`. */
  predicate Untouched(s: string, abbreviations: seq<(string, string)>)
  {
    forall k :: 0 <= k < |abbreviations| ==> Misses(s, abbreviations[k].0)
  }

  lemma {:induction false} ReplaceEachUntouched(s: string, abbreviations: seq<(string, string)>)
    requires Untouched(s, abbreviations)
    ensures ReplaceEach(s, abbreviations) == s
    decreases |abbreviations|
  {
    if abbreviations != [] {
      ReplaceMissing(s, abbreviations[0].0, abbreviations[0].1);
      ReplaceEachUntouched(s, abbreviations[1..]);
    }
  }

  lemma {:induction false} ReplaceEachAppend(s: string, xs: seq<(string, string)>, ys: seq<(string, string)>)
    ensures ReplaceEach(s, xs + ys) == ReplaceEach(ReplaceEach(s, xs), ys)
    decreases |xs|
  {
    if xs == [] {
      assert xs + ys == ys;
    } else {
      assert (xs + ys)[0] == xs[0];
      assert (xs + ys)[1..] == xs[1..] + ys;
      ReplaceEachAppend(ReplaceFirst(s, xs[0].0, xs[0].1), xs[1..], ys);
    }
  }

  /** A key whose title is no pattern's start is labelled by its title alone. */
  lemma LabelUnabbreviated(key: string, title: string, abbreviations: seq<(string, string)>)
    requires Titled(key) == title && Untouched(title, abbreviations)
    ensures Label(key, abbreviations) == title
  {
    ReplaceEachUntouched(title, abbreviations);
  }

  /**
   * A key whose title is exactly the k-th pattern is labelled by that
   * pattern's abbreviation, provided no earlier pattern touches the title and
   * no later one touches the abbreviation.
   */
  lemma LabelAbbreviated(key: string, abbreviations: seq<(string, string)>, k: nat)
    requires k < |abbreviations| && Titled(key) == abbreviations[k].0
    requires forall j :: 0 <= j < k ==> Misses(abbreviations[k].0, abbreviations[j].0)
    requires forall j :: k < j < |abbreviations| ==> Misses(abbreviations[k].1, abbreviations[j].0)
    ensures Label(key, abbreviations) == abbreviations[k].1
  {
    var (pat, rep) := abbreviations[k];
    var after := abbreviations[k + 1..];
    assert Untouched(pat, abbreviations[..k]);
    assert Untouched(rep, after);
    assert abbreviations == abbreviations[..k] + ([(pat, rep)] + after);
    ReplaceEachAppend(pat, abbreviations[..k], [(pat, rep)] + after);
    ReplaceEachUntouched(pat, abbreviations[..k]);
    ReplaceWhole(pat, rep);
    assert ([(pat, rep)] + after)[1..] == after;
    ReplaceEachUntouched(rep, after);
  }
}
