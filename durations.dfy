/**
 * `formatDuration`, which both application iterations define identically
 * (src/app.js and app.js): a number of seconds as `minutes:seconds`, with the
 * seconds padded to two digits, or "-" for a falsy input.
 */
module Durations {
  import opened JsValue
  import opened Text

  /** JavaScript's `%` on numbers: the remainder takes the sign of the dividend. */
  function JsRem(x: real, d: real): real
    requires d != 0.0
  {
    x - d * Trunc(x / d) as real
  }

  /**
   * `` `${Math.floor(s / 60)}:${Math.floor(s % 60).toString().padStart(2, "0")}` ``,
   * or "-" when `s` is falsy (0 or NaN).
   */
  function FormatDuration(s: Number): string
  {
    if !Truthy(Num(s)) then "-"
    else
      var minutes := (s.v / 60.0).Floor;
      var seconds := JsRem(s.v, 60.0).Floor;
      IntToString(minutes) + ":" + PadStart2(IntToString(seconds))
  }

  /** Reading `m:ss` back as a number of whole seconds. */
  function ReadDuration(t: string): Option<int>
  {
    match IndexOf(t, ":")
    case None => None
    case Some(j) => ReadMinutesSeconds(t[..j], t[j + 1..])
  }

  /** The whole seconds in `m` minutes and `ss` seconds, when `m` is digits and `ss` two digits. */
  function ReadMinutesSeconds(m: string, ss: string): Option<int>
  {
    if m != [] && AllDigits(m) && |ss| == 2 && AllDigits(ss) then Some(ParseNat(m) * 60 + ParseNat(ss))
    else None
  }

  /** The dash appears exactly for a falsy input. */
  lemma FormatDurationDash(s: Number)
    ensures FormatDuration(s) == "-" <==> s.NaN? || s.v == 0.0
  {
    if Truthy(Num(s)) {
      assert |FormatDuration(s)| >= 2;
    }
  }

  /**
   * For a positive duration the rendering is `m:ss` with `ss` below 60, and
   * reading it back gives the whole seconds of the input.
   */
  lemma FormatDurationReadsBack(s: real)
    requires s > 0.0
    ensures ReadDuration(FormatDuration(Finite(s))) == Some(s.Floor)
  {
    var q, sec := DurationParts(s);
    ReadDurationOf(q, sec);
  }

  /** For positive `s` the two parts are the whole minutes and the remaining whole seconds. */
  lemma DurationParts(s: real) returns (q: nat, sec: nat)
    requires s > 0.0
    ensures sec < 60 && q * 60 + sec == s.Floor
    ensures FormatDuration(Finite(s)) == NatToString(q) + ":" + PadStart2(NatToString(sec))
  {
    q := (s / 60.0).Floor;
    assert Trunc(s / 60.0) == q;
    var r := JsRem(s, 60.0);
    assert 0.0 <= r < 60.0;
    sec := r.Floor;
  }

  lemma ReadDurationOf(q: nat, sec: nat)
    requires sec < 60
    ensures ReadDuration(NatToString(q) + ":" + PadStart2(NatToString(sec))) == Some(q * 60 + sec)
  {
    var m, d := NatToString(q), NatToString(sec);
    NatToStringReadsBack(q);
    NatToStringReadsBack(sec);
    PadStart2Digits(d);
    ReadPartsOf(m, PadStart2(d), q, sec);
  }

  lemma ReadPartsOf(m: string, ss: string, q: nat, sec: nat)
    requires m != [] && AllDigits(m) && ParseNat(m) == q
    requires |ss| == 2 && AllDigits(ss) && ParseNat(ss) == sec
    ensures ReadDuration(m + ":" + ss) == Some(q * 60 + sec)
  {
    ReadParts(m, ss);
  }

  lemma ReadParts(m: string, ss: string)
    requires AllDigits(m)
    ensures ReadDuration(m + ":" + ss) == ReadMinutesSeconds(m, ss)
  {
    ColonAfterDigits(m, ss);
    var t := m + ":" + ss;
    assert t[..|m|] == m && t[|m| + 1..] == ss;
  }

  /** In `m:ss` with `m` all digits, the first colon is the one after `m`. */
  lemma ColonAfterDigits(m: string, ss: string)
    requires AllDigits(m)
    ensures IndexOf(m + ":" + ss, ":") == Some(|m|)
  {
    var t := m + ":" + ss;
    assert t[|m|..|m| + 1] == ":";
    forall k | 0 <= k < |m|
      ensures !OccursAt(t, ":", k)
    {
      assert t[k..k + 1] == [m[k]];
    }
    IndexOfAt(t, ":", |m|);
  }

  /** Padding a rendering of a number below 100 gives two digits that read back as the same number. */
  lemma PadStart2Digits(s: string)
    requires 1 <= |s| <= 2 && AllDigits(s)
    ensures |PadStart2(s)| == 2 && AllDigits(PadStart2(s)) && ParseNat(PadStart2(s)) == ParseNat(s)
  {
    if |s| == 1 {
      var p := PadStart2(s);
      assert p == ['0', s[0]];
      assert p[..1] == ['0'];
      assert s[..0] == [];
    }
  }

  /** A negative duration (the last record earlier than the first) renders with a sign on both parts. */
  lemma NegativeDuration()
    ensures FormatDuration(Finite(-90.0)) == "-2:-30"
  {
    assert (-90.0 / 60.0).Floor == -2;
    assert Trunc(-90.0 / 60.0) == -1;
    assert JsRem(-90.0, 60.0).Floor == -30;
    assert NatToString(2) == "2";
    assert NatToString(30) == NatToString(3) + [DigitChar(0)];
  }
}
