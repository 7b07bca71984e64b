/**
 * Human durations ("2h 30m", "1.5h") to the ISO 8601 duration form with
 * designators `PTnHnM` (section 4.4.3.2 of ISO 8601:2004). Token values are
 * exact decimals (`real`), as Python's `Decimal` keeps them.
 */
module TimeParser {
  import opened Wrappers
  import opened Text
  import opened Py

  /** The units the two token patterns end with: 'h' and 'm'. */
  predicate IsUnit(u: char) { u == 'h' || u == 'm' }

  /** Length of the run of digits at the start of `t` (a greedy `\d+`). */
  function LeadingDigits(t: string): (n: nat)
    ensures n <= |t|
    ensures AllDigits(t[..n])
    ensures n < |t| ==> !IsDigit(t[n])
  {
    if t != [] && IsDigit(t[0]) then 1 + LeadingDigits(t[1..]) else 0
  }

  /** The value of the digits after a decimal point: "25" is 0.25. */
  function FractionValue(ds: string): (r: real)
    requires AllDigits(ds)
    ensures 0.0 <= r < 1.0
  {
    if ds == [] then 0.0 else (DigitValue(ds[0]) as real + FractionValue(ds[1..])) / 10.0
  }

  /** One regex match: the decimal it captured and the number of characters it spans. */
  datatype Token = Token(value: real, length: nat)

  /**
   * A match of `(\d+(?:\.\d+)?)u` starting at the first character of `t`.
   * Both `\d+` are greedy; backtracking into them never succeeds, because a
   * shorter run is followed by a digit, which is neither '.' nor the unit.
   */
  function MatchAt(t: string, unit: char): (r: Option<Token>)
    requires IsUnit(unit)
    ensures r.Some? ==> 2 <= r.value.length <= |t| && r.value.value >= 0.0
  {
    var n := LeadingDigits(t);
    if n == 0 then None
    else
      var whole := DigitsValue(t[..n]) as real;
      if n + 1 < |t| && t[n] == '.' && IsDigit(t[n + 1]) then
        var k := LeadingDigits(t[n + 1..]);
        if n + 1 + k < |t| && t[n + 1 + k] == unit then
          Some(Token(whole + FractionValue(t[n + 1..][..k]), n + k + 2))
        else None
      else if n < |t| && t[n] == unit then Some(Token(whole, n + 1))
      else None
  }

  /** The sum of the values of all non-overlapping matches, scanning left to right (`finditer`). */
  function Scan(t: string, unit: char): (r: real)
    requires IsUnit(unit)
    ensures r >= 0.0
    decreases |t|
  {
    if t == [] then 0.0
    else match MatchAt(t, unit)
      case Some(tok) => tok.value + Scan(t[tok.length..], unit)
      case None => Scan(t[1..], unit)
  }

  /** `_sum_matches`: accumulates the captured decimals of every match. */
  method SumMatches(text: string, unit: char) returns (total: real)
    requires IsUnit(unit)
    ensures total == Scan(text, unit)
  {
    total := 0.0;
    var pos := 0;
    while pos < |text|
      invariant 0 <= pos <= |text|
      invariant total + Scan(text[pos..], unit) == Scan(text, unit)
      decreases |text| - pos
    {
      ghost var v, next := ScanAdvance(text, pos, unit);
      var m := MatchAt(text[pos..], unit);
      if m.Some? {
        total := total + m.value.value;
        pos := pos + m.value.length;
      } else {
        pos := pos + 1;
      }
      assert pos == next;
    }
  }

  /**
   * One step of the scan at position `pos`: a match is summed and skipped,
   * otherwise one character is; `v` is what the step adds and `next` where
   * the scan resumes.
   */
  lemma ScanAdvance(text: string, pos: nat, unit: char) returns (v: real, next: nat)
    requires IsUnit(unit) && pos < |text|
    ensures pos < next <= |text|
    ensures Scan(text[pos..], unit) == v + Scan(text[next..], unit)
    ensures MatchAt(text[pos..], unit).Some? ==>
              v == MatchAt(text[pos..], unit).value.value && next == pos + MatchAt(text[pos..], unit).value.length
    ensures MatchAt(text[pos..], unit).None? ==> v == 0.0 && next == pos + 1
  {
    var m := MatchAt(text[pos..], unit);
    if m.Some? {
      v, next := m.value.value, pos + m.value.length;
      assert text[pos..][m.value.length..] == text[next..];
    } else {
      v, next := 0.0, pos + 1;
      assert text[pos..][1..] == text[next..];
    }
  }

  /** Decimal `quantize(Decimal("1"), ROUND_HALF_UP)`: nearest integer, halves away from zero. */
  function RoundHalfUp(x: real): (r: int)
    ensures x >= 0.0 ==> r as real - 0.5 <= x < r as real + 0.5
    ensures x < 0.0 ==> r as real - 0.5 < x <= r as real + 0.5
  {
    if x >= 0.0 then (x + 0.5).Floor else -((-x + 0.5).Floor)
  }

  /** `" ".join(s.lower().strip().split())`. */
  function Normalize(s: string): string
  {
    CollapseSpaces(Strip(Lower(s)))
  }

  const RequiredMessage := "Duration is required."
  const NegativeMessage := "Negative durations are not allowed."
  const NotPositiveMessage := "Duration must be greater than zero (e.g., '2h', '30m')."
  const NoPartsMessage := "Duration must include hours or minutes (e.g., '2h', '30m')."

  /** The designators of a whole number of minutes: `{h}H` if h, then `{m}M` if m. */
  function Designators(h: nat, m: nat): string
  {
    (if h != 0 then NatToString(h) + "H" else "") + (if m != 0 then NatToString(m) + "M" else "")
  }

  /** `parse_duration_string`, as a function of its input. */
  function ParseDuration(s: Option<string>): Result<string>
  {
    if s.None? then Err(DurationErr(RequiredMessage)) else ParseNormalized(Normalize(s.value))
  }

  /** `parse_duration_string` once the input is normalized. */
  function ParseNormalized(normalized: string): Result<string>
  {
    if normalized == [] then Err(DurationErr(RequiredMessage))
    else if '-' in normalized then Err(DurationErr(NegativeMessage))
    else FromMinutes(RoundHalfUp(TotalMinutes(normalized)))
  }

  /** `hours * 60 + minutes`, before rounding. */
  function TotalMinutes(normalized: string): real
  {
    Scan(normalized, 'h') * 60.0 + Scan(normalized, 'm')
  }

  /** The tail of `parse_duration_string`: a rounded number of minutes to `PT{h}H{m}M`. */
  function FromMinutes(total: int): Result<string>
  {
    if total <= 0 then Err(DurationErr(NotPositiveMessage))
    else
      var h := total / 60;
      var m := total % 60;
      if h == 0 && m == 0 then Err(DurationErr(NoPartsMessage))
      else Ok("PT" + Designators(h, m))
  }

  /** `parse_duration_string`: the `None` check and the normalization, then the rest on the normalized text. */
  method ParseDurationString(s: Option<string>) returns (r: Result<string>)
    ensures r == ParseDuration(s)
  {
    if s.None? {
      return Err(DurationErr(RequiredMessage));
    }
    r := ParseNormalizedString(Normalize(s.value));
  }

  /** The body of `parse_duration_string` after normalization: the checks, the two scans, then the `parts` list joined. */
  method ParseNormalizedString(normalized: string) returns (r: Result<string>)
    ensures r == ParseNormalized(normalized)
  {
    if normalized == [] {
      return Err(DurationErr(RequiredMessage));
    }
    if '-' in normalized {
      return Err(DurationErr(NegativeMessage));
    }
    var hours := SumMatches(normalized, 'h');
    var minutes := SumMatches(normalized, 'm');
    assert hours * 60.0 + minutes == TotalMinutes(normalized);
    var total := RoundHalfUp(hours * 60.0 + minutes);
    ParseNormalizedRounded(normalized);
    if total <= 0 {
      return Err(DurationErr(NotPositiveMessage));
    }
    var h := total / 60;
    var m := total % 60;
    var parts := ["PT"];
    if h != 0 {
      parts := parts + [NatToString(h) + "H"];
    }
    if m != 0 {
      parts := parts + [NatToString(m) + "M"];
    }
    if |parts| == 1 {
      return Err(DurationErr(NoPartsMessage));
    }
    assert parts == DurationParts(h, m);
    ConcatDurationParts(h, m);
    r := Ok(Concat(parts));
  }

  lemma ParseNormalizedRounded(n: string)
    requires n != [] && '-' !in n
    ensures ParseNormalized(n) == FromMinutes(RoundHalfUp(TotalMinutes(n)))
  {
  }

  /** The `parts` list: "PT", then "{h}H" if h, then "{m}M" if m. */
  function DurationParts(h: nat, m: nat): seq<string>
  {
    ["PT"] + (if h != 0 then [NatToString(h) + "H"] else []) + (if m != 0 then [NatToString(m) + "M"] else [])
  }

  lemma ConcatDurationParts(h: nat, m: nat)
    ensures Concat(DurationParts(h, m)) == "PT" + Designators(h, m)
  {
    var hs := if h != 0 then NatToString(h) + "H" else "";
    var ms := if m != 0 then NatToString(m) + "M" else "";
    var parts := DurationParts(h, m);
    assert Concat([ms]) == ms;
    if h != 0 && m != 0 {
      assert parts == ["PT", hs, ms];
      assert parts[1..] == [hs, ms] && parts[1..][1..] == [ms];
      assert Concat([hs, ms]) == hs + ms;
    } else if h != 0 {
      assert parts == ["PT", hs];
      assert parts[1..] == [hs];
      assert Concat([hs]) == hs;
    } else if m != 0 {
      assert parts == ["PT", ms];
      assert parts[1..] == [ms];
    } else {
      assert parts == ["PT"];
    }
  }

  /** `"".join(parts)`. */
  function Concat(parts: seq<string>): string
  {
    if parts == [] then "" else parts[0] + Concat(parts[1..])
  }

  /** Normalization keeps exactly the characters that are neither letters nor whitespace. */
  lemma NormalizeKeepsChar(s: string, c: char)
    requires !IsSpace(c) && !('A' <= c <= 'Z') && !('a' <= c <= 'z')
    ensures c in Normalize(s) <==> c in s
  {
    LowerKeepsChar(s, c);
    StripKeepsChar(Lower(s), c);
    CollapseKeepsChar(Strip(Lower(s)), c);
  }

  /** Any '-' in the input is refused, whatever surrounds it. */
  lemma NegativeRefused(s: string)
    requires '-' in s
    ensures ParseDuration(Some(s)) == Err(DurationErr(NegativeMessage))
  {
    NormalizeKeepsChar(s, '-');
  }

  /** Without a digit there is no token, so the total is zero and the input is refused. */
  lemma {:induction false} ScanWithoutDigits(t: string, unit: char)
    requires IsUnit(unit)
    requires forall i :: 0 <= i < |t| ==> !IsDigit(t[i])
    ensures Scan(t, unit) == 0.0
  {
    if t != [] {
      ScanWithoutDigits(t[1..], unit);
    }
  }

  lemma NoDigitsNormalized(n: string)
    requires n != [] && '-' !in n
    requires forall i :: 0 <= i < |n| ==> !IsDigit(n[i])
    ensures ParseNormalized(n) == Err(DurationErr(NotPositiveMessage))
  {
    ScanWithoutDigits(n, 'h');
    ScanWithoutDigits(n, 'm');
    assert TotalMinutes(n) == 0.0;
  }

  lemma DigitAbsent(s: string, c: char)
    requires forall i :: 0 <= i < |s| ==> !IsDigit(s[i])
    requires IsDigit(c)
    ensures c !in s
  {
  }

  /** Normalization brings in no digit. */
  lemma NormalizeNoDigits(s: string)
    requires forall i :: 0 <= i < |s| ==> !IsDigit(s[i])
    ensures forall i :: 0 <= i < |Normalize(s)| ==> !IsDigit(Normalize(s)[i])
  {
    var n := Normalize(s);
    forall i | 0 <= i < |n|
      ensures !IsDigit(n[i])
    {
      if IsDigit(n[i]) {
        DigitAbsent(s, n[i]);
        NormalizeKeepsChar(s, n[i]);
      }
    }
  }

  lemma NoDigitsNormalizedErr(n: string)
    requires forall i :: 0 <= i < |n| ==> !IsDigit(n[i])
    ensures ParseNormalized(n).Err?
  {
    if n != [] && '-' !in n {
      NoDigitsNormalized(n);
    }
  }

  lemma NoDigitsRefused(s: string)
    requires forall i :: 0 <= i < |s| ==> !IsDigit(s[i])
    ensures ParseDuration(Some(s)).Err?
  {
    NormalizeNoDigits(s);
    NoDigitsNormalizedErr(Normalize(s));
  }

  /** A blank or all-whitespace input is "required". */
  lemma BlankRefused(s: string)
    requires forall i :: 0 <= i < |s| ==> IsSpace(s[i])
    ensures ParseDuration(Some(s)) == Err(DurationErr(RequiredMessage))
  {
    var l := Lower(s);
    LowerAt(s);
    assert forall i :: 0 <= i < |l| ==> IsSpace(l[i]);
    StripEmptyIffAllSpace(l);
    CollapseEmptyIffAllSpace(Strip(l));
  }

  /** A positive whole number of minutes always has an hours or a minutes part. */
  lemma FromMinutesPositive(total: int)
    requires total > 0
    ensures FromMinutes(total) == Ok("PT" + Designators(total / 60, total % 60))
  {
  }

  /** `LeadingDigits` stops at the first non-digit. */
  lemma {:induction false} LeadingDigitsOf(d: string, c: char, rest: string)
    requires AllDigits(d) && !IsDigit(c)
    ensures LeadingDigits(d + [c] + rest) == |d|
  {
    if d != [] {
      assert (d + [c] + rest)[1..] == d[1..] + [c] + rest;
      LeadingDigitsOf(d[1..], c, rest);
    }
  }

  /** A non-digit is skipped by the scan. */
  lemma ScanSkip(c: char, t: string, unit: char)
    requires IsUnit(unit) && !IsDigit(c)
    ensures Scan([c] + t, unit) == Scan(t, unit)
  {
    assert ([c] + t)[1..] == t;
  }

  /** A whole number followed by the unit is one token. */
  lemma ScanToken(d: string, unit: char, rest: string)
    requires IsUnit(unit) && IsDigits(d)
    ensures Scan(d + [unit] + rest, unit) == DigitsValue(d) as real + Scan(rest, unit)
  {
    var t := d + [unit] + rest;
    LeadingDigitsOf(d, unit, rest);
    assert t[..|d|] == d;
    assert t[|d| + 1..] == rest;
  }

  /** A whole number followed by a letter other than the unit contributes nothing. */
  lemma {:induction false} ScanForeignToken(d: string, c: char, rest: string, unit: char)
    requires IsUnit(unit) && IsDigits(d) && !IsDigit(c) && c != '.' && c != unit
    ensures Scan(d + [c] + rest, unit) == Scan(rest, unit)
  {
    var t := d + [c] + rest;
    LeadingDigitsOf(d, c, rest);
    assert MatchAt(t, unit).None?;
    if |d| == 1 {
      assert t[1..] == [c] + rest;
      ScanSkip(c, rest, unit);
    } else {
      assert t[1..] == d[1..] + [c] + rest;
      ScanForeignToken(d[1..], c, rest, unit);
    }
  }

  /** A decimal followed by the unit is matched whole. */
  lemma MatchAtDecimal(w: string, f: string, unit: char, rest: string)
    requires IsUnit(unit) && IsDigits(w) && IsDigits(f)
    ensures var m := MatchAt(w + ['.'] + (f + [unit] + rest), unit);
      m.Some? && m.value.length == |w| + |f| + 2 && m.value.value == DigitsValue(w) as real + FractionValue(f)
  {
    var t := w + ['.'] + (f + [unit] + rest);
    var n := |w|;
    LeadingDigitsOf(w, '.', f + [unit] + rest);
    assert LeadingDigits(t) == n;
    assert t[..n] == w;
    var u := t[n + 1..];
    assert u == f + [unit] + rest;
    LeadingDigitsOf(f, unit, rest);
    assert LeadingDigits(u) == |f|;
    assert u[..|f|] == f;
    assert t[n] == '.' && IsDigit(t[n + 1]) && t[n + 1 + |f|] == unit;
  }

  /** A decimal followed by the unit is one token. */
  lemma ScanDecimal(w: string, f: string, unit: char, rest: string)
    requires IsUnit(unit) && IsDigits(w) && IsDigits(f)
    ensures Scan(w + ['.'] + (f + [unit] + rest), unit) == DigitsValue(w) as real + FractionValue(f) + Scan(rest, unit)
  {
    var t := w + ['.'] + (f + [unit] + rest);
    MatchAtDecimal(w, f, unit, rest);
    var m := MatchAt(t, unit);
    assert Scan(t, unit) == m.value.value + Scan(t[m.value.length..], unit);
    assert t[m.value.length..] == rest;
  }

  /** A decimal of one whole digit followed by another letter contributes nothing. */
  lemma ScanForeignDecimal(w: string, f: string, c: char, rest: string, unit: char)
    requires IsUnit(unit) && |w| == 1 && IsDigits(w) && IsDigits(f) && !IsDigit(c) && c != '.' && c != unit
    ensures Scan(w + ['.'] + (f + [c] + rest), unit) == Scan(rest, unit)
  {
    var t := w + ['.'] + (f + [c] + rest);
    LeadingDigitsOf(w, '.', f + [c] + rest);
    assert t[2..] == f + [c] + rest;
    LeadingDigitsOf(f, c, rest);
    assert t[2..][..|f|] == f;
    assert MatchAt(t, unit).None?;
    assert t[1..] == ['.'] + (f + [c] + rest);
    ScanSkip('.', f + [c] + rest, unit);
    ScanForeignToken(f, c, rest, unit);
  }

  /** The lower-cased designators: `{h}h` if h, then `{m}m` if m. */
  function UnitTokens(h: nat, m: nat): string
  {
    (if h != 0 then NatToString(h) + "h" else "") + (if m != 0 then NatToString(m) + "m" else "")
  }

  /** Lower-casing a number followed by its unit letter lowers only the letter. */
  lemma LowerPart(d: string, unit: char)
    requires AllDigits(d)
    ensures Lower(d + [unit]) == d + [LowerChar(unit)]
  {
    LowerAppend(d, [unit]);
    LowerDigits(d);
  }

  lemma LowerDesignators(h: nat, m: nat)
    ensures Lower("PT" + Designators(h, m)) == "pt" + UnitTokens(h, m)
  {
    var hd := if h != 0 then NatToString(h) + "H" else "";
    var md := if m != 0 then NatToString(m) + "M" else "";
    assert Lower(hd) == if h != 0 then NatToString(h) + "h" else "" by {
      if h != 0 { LowerPart(NatToString(h), 'H'); }
    }
    assert Lower(md) == if m != 0 then NatToString(m) + "m" else "" by {
      if m != 0 { LowerPart(NatToString(m), 'M'); }
    }
    LowerAppend(hd, md);
    LowerAppend("PT", hd + md);
    assert "PT" + Designators(h, m) == "PT" + (hd + md);
  }

  /** The hours scan of the designators finds `h`. */
  lemma ScanHours(h: nat, m: nat)
    ensures Scan(UnitTokens(h, m), 'h') == h as real
  {
    var ms := if m != 0 then NatToString(m) + "m" else "";
    assert Scan(ms, 'h') == 0.0 by {
      if m != 0 {
        assert ms == NatToString(m) + ['m'] + [];
        ScanForeignToken(NatToString(m), 'm', [], 'h');
      }
    }
    if h != 0 {
      NatToStringRoundTrip(h);
      assert UnitTokens(h, m) == NatToString(h) + ['h'] + ms;
      ScanToken(NatToString(h), 'h', ms);
    } else {
      assert UnitTokens(h, m) == ms;
    }
  }

  /** The minutes scan of the designators finds `m`. */
  lemma ScanMinutes(h: nat, m: nat)
    ensures Scan(UnitTokens(h, m), 'm') == m as real
  {
    var ms := if m != 0 then NatToString(m) + "m" else "";
    assert Scan(ms, 'm') == m as real by {
      if m != 0 {
        NatToStringRoundTrip(m);
        assert ms == NatToString(m) + ['m'] + [];
        ScanToken(NatToString(m), 'm', []);
      }
    }
    if h != 0 {
      assert UnitTokens(h, m) == NatToString(h) + ['h'] + ms;
      ScanForeignToken(NatToString(h), 'h', ms, 'm');
    } else {
      assert UnitTokens(h, m) == ms;
    }
  }

  /** The leading "pt" holds no digit and is skipped. */
  lemma ScanPrefix(u: string, unit: char)
    requires IsUnit(unit)
    ensures Scan("pt" + u, unit) == Scan(u, unit)
  {
    assert "pt" + u == ['p'] + (['t'] + u);
    ScanSkip('p', ['t'] + u, unit);
    ScanSkip('t', u, unit);
  }

  lemma UnitTokensShape(h: nat, m: nat)
    ensures NoSpace("pt" + UnitTokens(h, m))
    ensures '-' !in "pt" + UnitTokens(h, m)
  {
    var hn := NatToString(h);
    var mn := NatToString(m);
    assert AllDigits(hn) && AllDigits(mn);
  }

  /** The designators normalize to their lower-case tokens. */
  lemma NormalizeDesignators(h: nat, m: nat)
    ensures Normalize("PT" + Designators(h, m)) == "pt" + UnitTokens(h, m)
  {
    var low := "pt" + UnitTokens(h, m);
    LowerDesignators(h, m);
    UnitTokensShape(h, m);
    StripNoSpace(low);
    CollapseWord(low);
  }

  /** The scans of the lower-case tokens give back the minutes they encode. */
  lemma TotalOfTokens(h: nat, m: nat)
    ensures TotalMinutes("pt" + UnitTokens(h, m)) == (h * 60 + m) as real
  {
    ScanPrefix(UnitTokens(h, m), 'h');
    ScanPrefix(UnitTokens(h, m), 'm');
    ScanHours(h, m);
    ScanMinutes(h, m);
  }

  /** The text produced is accepted again and yields itself: the output is a fixed point. */
  lemma ParseDurationIdempotent(s: Option<string>, out: string)
    requires ParseDuration(s) == Ok(out)
    ensures ParseDuration(Some(out)) == Ok(out)
  {
    var n := Normalize(s.value);
    var total := RoundHalfUp(TotalMinutes(n));
    var h := total / 60;
    var m := total % 60;
    assert out == "PT" + Designators(h, m) && total == h * 60 + m;
    var low := "pt" + UnitTokens(h, m);
    NormalizeDesignators(h, m);
    TotalOfTokens(h, m);
    UnitTokensShape(h, m);
    Scanned(low, total);
  }

  /** A lower-case input without whitespace is already normalized. */
  lemma NormalizedWord(s: string)
    requires |s| > 0 && NoSpace(s) && forall i :: 0 <= i < |s| ==> !('A' <= s[i] <= 'Z')
    ensures Normalize(s) == s
  {
    LowerPointwise(s, s);
    StripNoSpace(s);
    CollapseWord(s);
  }

  /** A positive total splits into its hours and minutes designators. */
  lemma FromMinutesHM(h: nat, m: nat)
    requires m < 60 && (h > 0 || m > 0)
    ensures FromMinutes(h * 60 + m) == Ok("PT" + Designators(h, m))
  {
    var total := h * 60 + m;
    assert total / 60 == h && total % 60 == m;
  }

  lemma Designators2H() ensures "PT" + Designators(2, 0) == "PT2H" { assert NatToString(2) == "2"; }

  lemma Designators30M() ensures "PT" + Designators(0, 30) == "PT30M" { assert NatToString(30) == "30"; }

  lemma Designators2H30M() ensures "PT" + Designators(2, 30) == "PT2H30M"
  {
    assert NatToString(2) == "2";
    assert NatToString(30) == "30";
  }

  lemma Designators1H30M() ensures "PT" + Designators(1, 30) == "PT1H30M"
  {
    assert NatToString(1) == "1";
    assert NatToString(30) == "30";
  }

  lemma Designators1H15M() ensures "PT" + Designators(1, 15) == "PT1H15M"
  {
    assert NatToString(1) == "1";
    assert NatToString(15) == "15";
  }

  /** Rounding leaves a whole number alone. */
  lemma RoundWhole(k: int)
    ensures RoundHalfUp(k as real) == k
  {
  }

  /** A non-empty normalized text without '-' whose scans total a whole number of minutes. */
  lemma Scanned(n: string, total: int)
    requires n != [] && '-' !in n && TotalMinutes(n) == total as real
    ensures ParseNormalized(n) == FromMinutes(total)
  {
    RoundWhole(total);
  }

  /** The tokens "30m": thirty minutes, no hours. */
  lemma ScanThirty(t: string, unit: char)
    requires t == "30m" && IsUnit(unit)
    ensures Scan(t, unit) == if unit == 'm' then 30.0 else 0.0
  {
    assert t == "30" + ['m'] + [];
    assert DigitsValue("30") == 30;
    if unit == 'm' {
      ScanToken("30", 'm', []);
    } else {
      ScanForeignToken("30", 'm', [], 'h');
    }
  }

  /** Scans giving `h` hours and `m` minutes, with `m` below 60, yield `PT{h}H{m}M`. */
  lemma ScannedParts(n: string, h: nat, m: nat)
    requires n != [] && '-' !in n
    requires m < 60 && (h > 0 || m > 0) && TotalMinutes(n) == (h * 60 + m) as real
    ensures ParseNormalized(n) == Ok("PT" + Designators(h, m))
  {
    Scanned(n, h * 60 + m);
    FromMinutesHM(h, m);
  }

  lemma HoursToken(n: string)
    requires n == "2h"
    ensures ParseNormalized(n) == Ok("PT2H")
  {
    assert n == "2" + ['h'] + [];
    ScanToken("2", 'h', []);
    ScanForeignToken("2", 'h', [], 'm');
    ScannedParts(n, 2, 0);
    Designators2H();
  }

  lemma ExampleHours(s: string)
    requires s == "2h"
    ensures ParseDuration(Some(s)) == Ok("PT2H")
  {
    NormalizedWord(s);
    HoursToken(s);
  }

  lemma MinutesToken(n: string)
    requires n == "30m"
    ensures ParseNormalized(n) == Ok("PT30M")
  {
    ScanThirty(n, 'h');
    ScanThirty(n, 'm');
    ScannedParts(n, 0, 30);
    Designators30M();
  }

  lemma ExampleMinutes(s: string)
    requires s == "30m"
    ensures ParseDuration(Some(s)) == Ok("PT30M")
  {
    NormalizedWord(s);
    MinutesToken(s);
  }

  lemma CompactScan(n: string, unit: char)
    requires n == "2h30m" && IsUnit(unit)
    ensures Scan(n, unit) == if unit == 'h' then 2.0 else 30.0
  {
    assert n == "2" + ['h'] + "30m";
    ScanThirty("30m", unit);
    if unit == 'h' {
      ScanToken("2", 'h', "30m");
    } else {
      ScanForeignToken("2", 'h', "30m", 'm');
    }
  }

  lemma CompactTokens(n: string)
    requires n == "2h30m"
    ensures ParseNormalized(n) == Ok("PT2H30M")
  {
    CompactScan(n, 'h');
    CompactScan(n, 'm');
    ScannedParts(n, 2, 30);
    Designators2H30M();
  }

  lemma ExampleCompact(s: string)
    requires s == "2h30m"
    ensures ParseDuration(Some(s)) == Ok("PT2H30M")
  {
    NormalizedWord(s);
    CompactTokens(s);
  }

  lemma SpacedNormal(s: string)
    requires s == "2h 30m"
    ensures Normalize(s) == s
  {
    LowerPointwise(s, s);
    StripTrimmed(s);
    WordsOfWord("30m");
    assert s == "2h" + " " + "30m";
    WordsCons("2h", "30m");
    JoinCons("2h", ["30m"], " ");
  }

  lemma SpacedScan(n: string, unit: char)
    requires n == "2h 30m" && IsUnit(unit)
    ensures Scan(n, unit) == if unit == 'h' then 2.0 else 30.0
  {
    assert n == "2" + ['h'] + (" " + "30m");
    ScanThirty("30m", unit);
    ScanSkip(' ', "30m", unit);
    if unit == 'h' {
      ScanToken("2", 'h', " " + "30m");
    } else {
      ScanForeignToken("2", 'h', " " + "30m", 'm');
    }
  }

  lemma SpacedTokens(n: string)
    requires n == "2h 30m"
    ensures ParseNormalized(n) == Ok("PT2H30M")
  {
    SpacedScan(n, 'h');
    SpacedScan(n, 'm');
    ScannedParts(n, 2, 30);
    Designators2H30M();
  }

  lemma ExampleSpaced(s: string)
    requires s == "2h 30m"
    ensures ParseDuration(Some(s)) == Ok("PT2H30M")
  {
    SpacedNormal(s);
    SpacedTokens(s);
  }

  lemma DecimalScan(n: string, unit: char)
    requires n == "1.5h" && IsUnit(unit)
    ensures Scan(n, unit) == if unit == 'h' then 1.5 else 0.0
  {
    assert n == "1" + ['.'] + ("5" + ['h'] + []);
    assert DigitsValue("1") == 1 && FractionValue("5") == 0.5;
    if unit == 'h' {
      ScanDecimal("1", "5", 'h', []);
    } else {
      ScanForeignDecimal("1", "5", 'h', [], 'm');
    }
  }

  lemma DecimalToken(n: string)
    requires n == "1.5h"
    ensures ParseNormalized(n) == Ok("PT1H30M")
  {
    DecimalScan(n, 'h');
    DecimalScan(n, 'm');
    ScannedParts(n, 1, 30);
    Designators1H30M();
  }

  lemma ExampleDecimal(s: string)
    requires s == "1.5h"
    ensures ParseDuration(Some(s)) == Ok("PT1H30M")
  {
    NormalizedWord(s);
    DecimalToken(s);
  }

  lemma RoundingScan(n: string, unit: char)
    requires n == "1.25h" && IsUnit(unit)
    ensures Scan(n, unit) == if unit == 'h' then 1.25 else 0.0
  {
    assert n == "1" + ['.'] + ("25" + ['h'] + []);
    assert DigitsValue("1") == 1 && FractionValue("25") == 0.25;
    if unit == 'h' {
      ScanDecimal("1", "25", 'h', []);
    } else {
      ScanForeignDecimal("1", "25", 'h', [], 'm');
    }
  }

  lemma RoundingToken(n: string)
    requires n == "1.25h"
    ensures ParseNormalized(n) == Ok("PT1H15M")
  {
    RoundingScan(n, 'h');
    RoundingScan(n, 'm');
    ScannedParts(n, 1, 15);
    Designators1H15M();
  }

  lemma ExampleRounding(s: string)
    requires s == "1.25h"
    ensures ParseDuration(Some(s)) == Ok("PT1H15M")
  {
    NormalizedWord(s);
    RoundingToken(s);
  }

  /** "invalid" is a lower-case word without digits or '-'. */
  lemma InvalidShape(s: string)
    requires s == "invalid"
    ensures |s| > 0 && NoSpace(s) && '-' !in s
    ensures forall i :: 0 <= i < |s| ==> !('A' <= s[i] <= 'Z') && !IsDigit(s[i])
  {
  }

  lemma ExampleInvalid(s: string)
    requires s == "invalid"
    ensures ParseDuration(Some(s)) == Err(DurationErr(NotPositiveMessage))
  {
    InvalidShape(s);
    NormalizedWord(s);
    NoDigitsNormalized(s);
  }

  lemma ExampleNegative(s: string)
    requires s == "-1h"
    ensures ParseDuration(Some(s)) == Err(DurationErr(NegativeMessage))
  {
    NegativeRefused(s);
  }
}
