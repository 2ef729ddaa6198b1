/**
 * The string operations the application borrows from JavaScript: the default
 * order of `Array.prototype.sort`, `indexOf`/`includes`, `replace` with a
 * string pattern (first occurrence only), `join`, decimal rendering of
 * integers and `padStart(2, "0")`.
 */
module Text {
  import opened JsValue

  // ---------------------------------------------------------------------------
  // Ordering and sorting
  // ---------------------------------------------------------------------------

  /** The default sort order: lexicographic by character code. */
  predicate Less(a: string, b: string)
    decreases |a|
  {
    if a == [] then b != []
    else if b == [] then false
    else if a[0] != b[0] then a[0] < b[0]
    else Less(a[1..], b[1..])
  }

  lemma {:induction false} LessIrreflexive(a: string)
    ensures !Less(a, a)
  {
    if a != [] {
      LessIrreflexive(a[1..]);
    }
  }

  lemma {:induction false} LessTransitive(a: string, b: string, c: string)
    requires Less(a, b) && Less(b, c)
    ensures Less(a, c)
  {
    if a != [] && b != [] && c != [] && a[0] == b[0] && b[0] == c[0] {
      LessTransitive(a[1..], b[1..], c[1..]);
    }
  }

  lemma {:induction false} LessTotal(a: string, b: string)
    requires a != b
    ensures Less(a, b) || Less(b, a)
  {
    if a != [] && b != [] && a[0] == b[0] {
      assert a == [a[0]] + a[1..] && b == [b[0]] + b[1..];
      LessTotal(a[1..], b[1..]);
    }
  }

  lemma LessAsymmetric(a: string, b: string)
    requires Less(a, b)
    ensures !Less(b, a)
  {
    if Less(b, a) {
      LessTransitive(a, b, a);
      LessIrreflexive(a);
    }
  }

  function Elems(s: seq<string>): set<string>
  {
    set e | e in s
  }

  /** Sorted ascending with no two equal elements. */
  predicate StrictlySorted(s: seq<string>)
  {
    forall i, j :: 0 <= i < j < |s| ==> Less(s[i], s[j])
  }

  lemma SortedCons(x: string, s: seq<string>)
    requires StrictlySorted(s)
    requires forall e :: e in s ==> Less(x, e)
    ensures StrictlySorted([x] + s)
  {
    var r := [x] + s;
    forall i, j | 0 <= i < j < |r|
      ensures Less(r[i], r[j])
    {
      if i == 0 {
        assert r[j] == s[j - 1];
      } else {
        assert r[i] == s[i - 1] && r[j] == s[j - 1];
      }
    }
  }

  /** Inserting one string into a strictly sorted sequence, keeping it so. */
  function Insert(s: seq<string>, x: string): seq<string>
    decreases |s|
  {
    if s == [] then [x]
    else if x == s[0] then s
    else if Less(x, s[0]) then [x] + s
    else [s[0]] + Insert(s[1..], x)
  }

  lemma {:induction false} InsertCorrect(s: seq<string>, x: string)
    requires StrictlySorted(s)
    ensures StrictlySorted(Insert(s, x))
    ensures Elems(Insert(s, x)) == Elems(s) + {x}
    decreases |s|
  {
    if s == [] {
    } else if x == s[0] {
    } else if Less(x, s[0]) {
      forall e | e in s
        ensures Less(x, e)
      {
        var k :| 0 <= k < |s| && s[k] == e;
        if k > 0 {
          LessTransitive(x, s[0], e);
        }
      }
      SortedCons(x, s);
      assert Elems([x] + s) == Elems(s) + {x};
    } else {
      LessTotal(x, s[0]);
      var t := s[1..];
      assert StrictlySorted(t);
      InsertCorrect(t, x);
      assert Elems(s) == {s[0]} + Elems(t) by {
        assert s == [s[0]] + t;
      }
      forall e | e in Insert(t, x)
        ensures Less(s[0], e)
      {
        assert e in Elems(Insert(t, x));
        if e != x {
          var k :| 0 <= k < |t| && t[k] == e;
          assert s[k + 1] == e;
        }
      }
      SortedCons(s[0], Insert(t, x));
      assert Elems([s[0]] + Insert(t, x)) == {s[0]} + Elems(Insert(t, x));
    }
  }

  /** `Array.from(set).sort()` over the set's elements in insertion order. */
  function SortStrings(xs: seq<string>): seq<string>
    decreases |xs|
  {
    if xs == [] then [] else Insert(SortStrings(xs[..|xs| - 1]), xs[|xs| - 1])
  }

  lemma {:induction false} SortStringsCorrect(xs: seq<string>)
    ensures StrictlySorted(SortStrings(xs))
    ensures Elems(SortStrings(xs)) == Elems(xs)
    decreases |xs|
  {
    if xs != [] {
      var init := xs[..|xs| - 1];
      SortStringsCorrect(init);
      InsertCorrect(SortStrings(init), xs[|xs| - 1]);
      assert xs == init + [xs[|xs| - 1]];
      assert Elems(xs) == Elems(init) + {xs[|xs| - 1]};
    }
  }

  /**
   * A strictly sorted sequence is determined by its elements: two sorts of the
   * same set of strings are the same sequence, whatever order they came in.
   */
  lemma {:induction false} SortedUnique(a: seq<string>, b: seq<string>)
    requires StrictlySorted(a) && StrictlySorted(b)
    requires Elems(a) == Elems(b)
    ensures a == b
    decreases |a|
  {
    if a == [] {
      assert forall i :: 0 <= i < |b| ==> b[i] in Elems(b);
    } else {
      assert a[0] in Elems(b);
      assert b != [];
      assert b[0] in Elems(a);
      var k :| 0 <= k < |b| && b[k] == a[0];
      var m :| 0 <= m < |a| && a[m] == b[0];
      if k > 0 && m > 0 {
        LessAsymmetric(b[0], a[0]);
        assert false;
      }
      assert a[0] == b[0];
      forall e
        ensures e in Elems(a[1..]) <==> e in Elems(b[1..])
      {
        if e in Elems(a[1..]) {
          var i :| 0 <= i < |a[1..]| && a[1..][i] == e;
          assert Less(a[0], a[i + 1]);
          LessIrreflexive(e);
          assert e in Elems(b);
          var j :| 0 <= j < |b| && b[j] == e;
          assert j != 0;
          assert b[1..][j - 1] == e;
        }
        if e in Elems(b[1..]) {
          var i :| 0 <= i < |b[1..]| && b[1..][i] == e;
          assert Less(b[0], b[i + 1]);
          LessIrreflexive(e);
          assert e in Elems(a);
          var j :| 0 <= j < |a| && a[j] == e;
          assert j != 0;
          assert a[1..][j - 1] == e;
        }
      }
      SortedUnique(a[1..], b[1..]);
      assert a == [a[0]] + a[1..] && b == [b[0]] + b[1..];
    }
  }

  // ---------------------------------------------------------------------------
  // Searching and replacing
  // ---------------------------------------------------------------------------

  predicate OccursAt(s: string, pat: string, j: int)
  {
    0 <= j && j + |pat| <= |s| && s[j..j + |pat|] == pat
  }

  function IndexFrom(s: string, pat: string, from: nat): (r: Option<nat>)
    ensures r.Some? ==> from <= r.value && OccursAt(s, pat, r.value)
    decreases |s| - from
  {
    if from + |pat| > |s| then None
    else if s[from..from + |pat|] == pat then Some(from)
    else IndexFrom(s, pat, from + 1)
  }

  /** `s.indexOf(pat)`, with `None` for -1. */
  function IndexOf(s: string, pat: string): Option<nat>
  {
    IndexFrom(s, pat, 0)
  }

  lemma {:induction false} IndexFromFirst(s: string, pat: string, from: nat)
    ensures IndexFrom(s, pat, from).Some? ==>
      forall k :: from <= k < IndexFrom(s, pat, from).value ==> !OccursAt(s, pat, k)
    ensures IndexFrom(s, pat, from).None? ==> forall k :: from <= k ==> !OccursAt(s, pat, k)
    decreases |s| - from
  {
    if from + |pat| <= |s| && s[from..from + |pat|] != pat {
      IndexFromFirst(s, pat, from + 1);
    }
  }

  /** `indexOf` finds the first occurrence, and finds none exactly when there is none. */
  lemma IndexOfSpec(s: string, pat: string)
    ensures IndexOf(s, pat).Some? ==>
      OccursAt(s, pat, IndexOf(s, pat).value) &&
      forall k :: 0 <= k < IndexOf(s, pat).value ==> !OccursAt(s, pat, k)
    ensures IndexOf(s, pat).None? <==> forall k :: !OccursAt(s, pat, k)
  {
    IndexFromFirst(s, pat, 0);
  }

  /** An occurrence with none before it is the one `indexOf` reports. */
  lemma IndexOfAt(s: string, pat: string, j: nat)
    requires OccursAt(s, pat, j)
    requires forall k :: 0 <= k < j ==> !OccursAt(s, pat, k)
    ensures IndexOf(s, pat) == Some(j)
  {
    IndexOfSpec(s, pat);
  }

  /** `s.includes(pat)` */
  predicate Contains(s: string, pat: string)
  {
    IndexOf(s, pat).Some?
  }

  /** `s.replace(pat, rep)` with a string pattern: only the first occurrence is replaced. */
  function ReplaceFirst(s: string, pat: string, rep: string): string
  {
    match IndexOf(s, pat)
    case None => s
    case Some(j) => s[..j] + rep + s[j + |pat|..]
  }

  /** `parts.join(sep)` */
  function Join(parts: seq<string>, sep: string): string
    decreases |parts|
  {
    if parts == [] then ""
    else if |parts| == 1 then parts[0]
    else parts[0] + sep + Join(parts[1..], sep)
  }

  // ---------------------------------------------------------------------------
  // Decimal rendering of integers
  // ---------------------------------------------------------------------------

  predicate IsDigit(c: char)
  {
    '0' <= c <= '9'
  }

  predicate AllDigits(s: string)
  {
    forall i :: 0 <= i < |s| ==> IsDigit(s[i])
  }

  function DigitChar(d: nat): char
    requires d < 10
  {
    ('0' as int + d) as char
  }

  function DigitValue(c: char): nat
    requires IsDigit(c)
  {
    c as int - '0' as int
  }

  /** `n.toString()` for a non-negative integer. */
  function NatToString(n: nat): string
    decreases n
  {
    if n < 10 then [DigitChar(n)] else NatToString(n / 10) + [DigitChar(n % 10)]
  }

  /** `n.toString()` for an integer. */
  function IntToString(n: int): string
  {
    if n < 0 then "-" + NatToString(-n) else NatToString(n)
  }

  /** Reading a string of decimal digits back as a number. */
  function ParseNat(s: string): nat
    requires AllDigits(s)
    decreases |s|
  {
    if s == [] then 0 else ParseNat(s[..|s| - 1]) * 10 + DigitValue(s[|s| - 1])
  }

  /** Decimal rendering is inverted by reading the digits back. */
  lemma {:induction false} NatToStringReadsBack(n: nat)
    ensures |NatToString(n)| >= 1 && AllDigits(NatToString(n))
    ensures ParseNat(NatToString(n)) == n
    ensures n < 10 <==> |NatToString(n)| == 1
    ensures n < 100 ==> |NatToString(n)| <= 2
    decreases n
  {
    if n >= 10 {
      NatToStringReadsBack(n / 10);
      var s := NatToString(n);
      assert s[..|s| - 1] == NatToString(n / 10);
    }
  }

  /** `s.padStart(2, "0")` */
  function PadStart2(s: string): string
  {
    if |s| >= 2 then s else seq(2 - |s|, _ => '0') + s
  }
}
