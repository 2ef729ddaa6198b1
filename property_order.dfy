/**
 * The order in which `Object.keys` lists the keys of an ordinary object
 * (OrdinaryOwnPropertyKeys, section 10.1.11.1 of ECMA-262): first the keys
 * that are array indices, in ascending numeric order, then every other
 * string key in the order it was created.
 */
module PropertyOrder {
  import opened Text

  /** 2^32 - 1: array indices lie below it. */
  const ArrayIndexLimit: nat := 0xFFFF_FFFF

  /** A decimal numeral without a leading zero, "0" itself included. */
  predicate Canonical(s: string)
  {
    s != [] && AllDigits(s) && (|s| == 1 || s[0] != '0')
  }

  /** A key that is an array index: the canonical numeral of an integer below 2^32 - 1. */
  predicate IsArrayIndex(s: string)
  {
    Canonical(s) && ParseNat(s) < ArrayIndexLimit
  }

  /** The values of the array-index keys among `keys`, in the order they appear. */
  function IndexValues(keys: seq<string>): seq<nat>
    decreases |keys|
  {
    if keys == [] then []
    else
      var vs := IndexValues(keys[..|keys| - 1]);
      var k := keys[|keys| - 1];
      if IsArrayIndex(k) then vs + [ParseNat(k)] else vs
  }

  /** The keys that are not array indices, in the order they appear. */
  function OtherKeys(keys: seq<string>): seq<string>
    decreases |keys|
  {
    if keys == [] then []
    else
      var ks := OtherKeys(keys[..|keys| - 1]);
      var k := keys[|keys| - 1];
      if IsArrayIndex(k) then ks else ks + [k]
  }

  predicate Increasing(s: seq<nat>)
  {
    forall i, j :: 0 <= i < j < |s| ==> s[i] < s[j]
  }

  /** Inserting one number into an increasing sequence, keeping it so. */
  function InsertNat(s: seq<nat>, x: nat): seq<nat>
    decreases |s|
  {
    if s == [] then [x]
    else if x == s[0] then s
    else if x < s[0] then [x] + s
    else [s[0]] + InsertNat(s[1..], x)
  }

  lemma {:induction false} InsertNatCorrect(s: seq<nat>, x: nat)
    requires Increasing(s)
    ensures Increasing(InsertNat(s, x))
    ensures forall v :: v in InsertNat(s, x) <==> v == x || v in s
    decreases |s|
  {
    if s != [] && x > s[0] {
      var t := s[1..];
      InsertNatCorrect(t, x);
      var r := InsertNat(t, x);
      assert forall v :: v in s <==> v == s[0] || v in t;
      forall i | 0 <= i < |r|
        ensures s[0] < r[i]
      {
        assert r[i] in r;
        if r[i] != x {
          var k :| 0 <= k < |t| && t[k] == r[i];
          assert s[k + 1] == r[i];
        }
      }
      var q := [s[0]] + r;
      forall i, j | 0 <= i < j < |q|
        ensures q[i] < q[j]
      {
        if i == 0 {
          assert q[j] == r[j - 1];
        } else {
          assert q[i] == r[i - 1] && q[j] == r[j - 1];
        }
      }
    } else if s != [] && x < s[0] {
      var q := [x] + s;
      forall i, j | 0 <= i < j < |q|
        ensures q[i] < q[j]
      {
        if i == 0 {
          assert q[j] == s[j - 1];
          assert s[0] <= s[j - 1];
        } else {
          assert q[i] == s[i - 1] && q[j] == s[j - 1];
        }
      }
    }
  }

  /** The numbers of `xs` in ascending order, each once. */
  function SortNats(xs: seq<nat>): seq<nat>
    decreases |xs|
  {
    if xs == [] then [] else InsertNat(SortNats(xs[..|xs| - 1]), xs[|xs| - 1])
  }

  lemma {:induction false} SortNatsCorrect(xs: seq<nat>)
    ensures Increasing(SortNats(xs))
    ensures forall v :: v in SortNats(xs) <==> v in xs
    decreases |xs|
  {
    if xs != [] {
      var init := xs[..|xs| - 1];
      SortNatsCorrect(init);
      InsertNatCorrect(SortNats(init), xs[|xs| - 1]);
      assert xs == init + [xs[|xs| - 1]];
    }
  }

  function Numerals(vs: seq<nat>): seq<string>
  {
    seq(|vs|, k requires 0 <= k < |vs| => NatToString(vs[k]))
  }

  /** `Object.keys` of an object whose keys were created in the order `created`. */
  function Keys(created: seq<string>): seq<string>
  {
    Numerals(SortNats(IndexValues(created))) + OtherKeys(created)
  }

  predicate Distinct(s: seq<string>)
  {
    forall a, b :: 0 <= a < b < |s| ==> s[a] != s[b]
  }

  // ---------------------------------------------------------------------------
  // Numerals
  // ---------------------------------------------------------------------------

  lemma {:induction false} LeadingDigitPositive(s: string)
    requires s != [] && AllDigits(s) && s[0] != '0'
    ensures ParseNat(s) > 0
    decreases |s|
  {
    if |s| > 1 {
      LeadingDigitPositive(s[..|s| - 1]);
    }
  }

  /** A canonical numeral is the decimal rendering of the number it reads as. */
  lemma {:induction false} CanonicalReadsBack(s: string)
    requires Canonical(s)
    ensures NatToString(ParseNat(s)) == s
    decreases |s|
  {
    var init := s[..|s| - 1];
    var d := DigitValue(s[|s| - 1]);
    if |s| == 1 {
      assert init == [];
    } else {
      assert Canonical(init);
      CanonicalReadsBack(init);
      LeadingDigitPositive(init);
      var n := ParseNat(s);
      assert n == ParseNat(init) * 10 + d;
      assert n / 10 == ParseNat(init) && n % 10 == d;
      assert s == init + [s[|s| - 1]];
    }
  }

  /** The numbers read off the array-index keys are exactly those keys' values. */
  lemma {:induction false} IndexValuesSpec(keys: seq<string>)
    ensures forall v :: v in IndexValues(keys) <==> exists k :: 0 <= k < |keys| && IsArrayIndex(keys[k]) && ParseNat(keys[k]) == v
    decreases |keys|
  {
    if keys != [] {
      var init := keys[..|keys| - 1];
      IndexValuesSpec(init);
      assert forall k :: 0 <= k < |init| ==> init[k] == keys[k];
    }
  }

  /** The other keys are the keys of `keys` that are not array indices. */
  lemma {:induction false} OtherKeysElems(keys: seq<string>)
    ensures forall x :: x in OtherKeys(keys) <==> x in keys && !IsArrayIndex(x)
    decreases |keys|
  {
    if keys != [] {
      var init := keys[..|keys| - 1];
      OtherKeysElems(init);
      assert keys == init + [keys[|keys| - 1]];
    }
  }

  /** Keys without repeats give other keys without repeats. */
  lemma {:induction false} OtherKeysDistinct(keys: seq<string>)
    requires Distinct(keys)
    ensures Distinct(OtherKeys(keys))
    decreases |keys|
  {
    if keys != [] {
      var n := |keys| - 1;
      var init := keys[..n];
      OtherKeysDistinct(init);
      OtherKeysElems(init);
      assert keys[n] !in init;
    }
  }

  /** Two keys that are not array indices keep their order among the other keys. */
  lemma {:induction false} OtherKeysOrderAt(keys: seq<string>, i: nat, j: nat)
    requires i < j < |keys| && !IsArrayIndex(keys[i]) && !IsArrayIndex(keys[j])
    ensures exists a, b :: 0 <= a < b < |OtherKeys(keys)| && OtherKeys(keys)[a] == keys[i] && OtherKeys(keys)[b] == keys[j]
    decreases |keys|
  {
    var n := |keys| - 1;
    var init := keys[..n];
    var os := OtherKeys(init);
    var ok := OtherKeys(keys);
    assert init[i] == keys[i];
    if j == n {
      assert ok == os + [keys[n]];
      OtherKeysElems(init);
      assert keys[i] in init;
      var a :| 0 <= a < |os| && os[a] == keys[i];
      assert ok[a] == keys[i] && ok[|os|] == keys[j];
    } else {
      assert init[j] == keys[j];
      OtherKeysOrderAt(init, i, j);
      var a, b :| 0 <= a < b < |os| && os[a] == keys[i] && os[b] == keys[j];
      assert ok[..|os|] == os;
      assert ok[a] == keys[i] && ok[b] == keys[j];
    }
  }

  /** The numerals of the sorted values are the array-index keys, in ascending numeric order. */
  lemma IndexPartSpec(keys: seq<string>)
    ensures var ns := Numerals(SortNats(IndexValues(keys)));
      && (forall x :: x in ns <==> x in keys && IsArrayIndex(x))
      && (forall a :: 0 <= a < |ns| ==> IsArrayIndex(ns[a]))
      && (forall a, b :: 0 <= a < b < |ns| ==> ParseNat(ns[a]) < ParseNat(ns[b]))
  {
    var vs := SortNats(IndexValues(keys));
    var ns := Numerals(vs);
    SortNatsCorrect(IndexValues(keys));
    IndexValuesSpec(keys);
    forall a | 0 <= a < |ns|
      ensures ns[a] in keys && IsArrayIndex(ns[a]) && ParseNat(ns[a]) == vs[a]
    {
      assert vs[a] in vs;
      var k :| 0 <= k < |keys| && IsArrayIndex(keys[k]) && ParseNat(keys[k]) == vs[a];
      CanonicalReadsBack(keys[k]);
    }
    forall x | x in keys && IsArrayIndex(x)
      ensures x in ns
    {
      var k :| 0 <= k < |keys| && keys[k] == x;
      assert ParseNat(x) in vs;
      var a :| 0 <= a < |vs| && vs[a] == ParseNat(x);
      CanonicalReadsBack(x);
      assert ns[a] == x;
    }
  }

  lemma SevenIsIndex()
    ensures IsArrayIndex("7") && ParseNat("7") == 7
  {
    assert "7"[..0] == [];
  }

  lemma NameIsNotIndex()
    ensures !IsArrayIndex("b.fit")
  {
    assert !IsDigit("b.fit"[0]);
  }

  /** A key "7" created after "b.fit" is still listed ahead of it. */
  lemma IndexKeyFirst()
    ensures Keys(["b.fit", "7"]) == ["7", "b.fit"]
  {
    var created := ["b.fit", "7"];
    SevenIsIndex();
    NameIsNotIndex();
    assert created[..1] == ["b.fit"] && created[..1][..0] == [];
    assert IndexValues(created) == [7] && OtherKeys(created) == ["b.fit"];
    assert SortNats([7]) == [7] by { assert [7][..0] == []; }
    assert Numerals([7]) == ["7"];
  }

  /** `Object.keys` lists exactly the keys created. */
  lemma KeysElems(created: seq<string>)
    ensures Elems(Keys(created)) == Elems(created)
  {
    var ns := Numerals(SortNats(IndexValues(created)));
    var os := OtherKeys(created);
    IndexPartSpec(created);
    OtherKeysElems(created);
    forall x
      ensures x in Elems(ns + os) <==> x in Elems(created)
    {
      if x in Elems(created) {
        if IsArrayIndex(x) { assert x in ns; } else { assert x in os; }
      }
    }
  }

  /** Array indices come first, in ascending numeric order. */
  lemma KeysIndexFirst(created: seq<string>)
    ensures forall a, b :: 0 <= a < b < |Keys(created)| && IsArrayIndex(Keys(created)[b]) ==>
      IsArrayIndex(Keys(created)[a]) && ParseNat(Keys(created)[a]) < ParseNat(Keys(created)[b])
  {
    var ns := Numerals(SortNats(IndexValues(created)));
    var os := OtherKeys(created);
    var ks := Keys(created);
    IndexPartSpec(created);
    OtherKeysElems(created);
    forall b | |ns| <= b < |ks|
      ensures !IsArrayIndex(ks[b])
    {
      assert ks[b] == os[b - |ns|] && ks[b] in os;
    }
    forall a, b | 0 <= a < b < |ns|
      ensures ks[a] == ns[a] && ks[b] == ns[b]
    {
    }
  }

  /** No key is listed twice. */
  lemma KeysDistinct(created: seq<string>)
    requires Distinct(created)
    ensures Distinct(Keys(created))
  {
    var ns := Numerals(SortNats(IndexValues(created)));
    var os := OtherKeys(created);
    var ks := Keys(created);
    IndexPartSpec(created);
    OtherKeysElems(created);
    OtherKeysDistinct(created);
    forall a, b | 0 <= a < b < |ks|
      ensures ks[a] != ks[b]
    {
      if b < |ns| {
        assert ks[a] == ns[a] && ks[b] == ns[b];
      } else if a < |ns| {
        assert IsArrayIndex(ks[a]) && ks[b] == os[b - |ns|] && ks[b] in os;
      } else {
        assert ks[a] == os[a - |ns|] && ks[b] == os[b - |ns|];
      }
    }
  }

  /** The keys that are not array indices keep their creation order. */
  lemma KeysCreationOrder(created: seq<string>)
    ensures forall i, j :: 0 <= i < j < |created| && !IsArrayIndex(created[i]) && !IsArrayIndex(created[j]) ==>
      exists a, b :: 0 <= a < b < |Keys(created)| && Keys(created)[a] == created[i] && Keys(created)[b] == created[j]
  {
    var ns := Numerals(SortNats(IndexValues(created)));
    var os := OtherKeys(created);
    var ks := Keys(created);
    forall i, j | 0 <= i < j < |created| && !IsArrayIndex(created[i]) && !IsArrayIndex(created[j])
      ensures exists a, b :: 0 <= a < b < |ks| && ks[a] == created[i] && ks[b] == created[j]
    {
      OtherKeysOrderAt(created, i, j);
      var a, b :| 0 <= a < b < |os| && os[a] == created[i] && os[b] == created[j];
      assert ks[|ns| + a] == created[i] && ks[|ns| + b] == created[j];
    }
  }

  /**
   * The first key `Object.keys` reports: the smallest array index when there
   * is one, otherwise the key created first.
   */
  lemma KeysHead(created: seq<string>)
    requires Distinct(created) && created != []
    ensures Keys(created) != []
    ensures (forall k :: 0 <= k < |created| ==> !IsArrayIndex(created[k])) ==> Keys(created)[0] == created[0]
    ensures (exists k :: 0 <= k < |created| && IsArrayIndex(created[k])) ==>
      && IsArrayIndex(Keys(created)[0])
      && forall k :: 0 <= k < |created| && IsArrayIndex(created[k]) ==> ParseNat(Keys(created)[0]) <= ParseNat(created[k])
  {
    var ks := Keys(created);
    KeysElems(created);
    KeysDistinct(created);
    KeysIndexFirst(created);
    KeysCreationOrder(created);
    assert created[0] in Elems(created);
    assert ks != [];
    assert ks[0] in Elems(ks);
    if forall k :: 0 <= k < |created| ==> !IsArrayIndex(created[k]) {
      forall i | 0 < i < |created|
        ensures ks[0] != created[i]
      {
        var a, b :| 0 <= a < b < |ks| && ks[a] == created[0] && ks[b] == created[i];
      }
    }
    if exists k :: 0 <= k < |created| && IsArrayIndex(created[k]) {
      forall m | 0 <= m < |created| && IsArrayIndex(created[m])
        ensures IsArrayIndex(ks[0]) && ParseNat(ks[0]) <= ParseNat(created[m])
      {
        assert created[m] in Elems(created);
        var c :| 0 <= c < |ks| && ks[c] == created[m];
      }
    }
  }
}
