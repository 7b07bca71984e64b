/**
 * The Python string operations the adapter relies on, over ASCII.
 * `str.casefold`/`str.lower` lower the letters A-Z only, and the whitespace
 * of `str.strip()`/`str.split()` is the ASCII part of Python's `isspace`.
 */
module Text {
  import opened Wrappers

  /** Python `str.isspace` for one ASCII character. */
  predicate IsSpace(c: char)
  {
    c == ' ' || c == '\t' || c == '\n' || c == '\r' || c == '\U{000B}' || c == '\U{000C}'
    || c == '\U{001C}' || c == '\U{001D}' || c == '\U{001E}' || c == '\U{001F}'
  }

  predicate IsDigit(c: char) { '0' <= c <= '9' }

  predicate NoSpace(s: string) { forall i :: 0 <= i < |s| ==> !IsSpace(s[i]) }

  predicate AllDigits(s: string) { forall i :: 0 <= i < |s| ==> IsDigit(s[i]) }

  /** Python `str.isdigit()`: non-empty and every character a digit. */
  predicate IsDigits(s: string) { |s| > 0 && AllDigits(s) }

  function LowerChar(c: char): char
  {
    if 'A' <= c <= 'Z' then (c as int + 32) as char else c
  }

  /** `str.lower()` / `str.casefold()` on ASCII. */
  function Lower(s: string): (r: string)
    ensures |r| == |s|
  {
    if s == [] then [] else [LowerChar(s[0])] + Lower(s[1..])
  }

  /** `Lower` lowers each character in place. */
  lemma {:induction false} LowerAt(s: string)
    ensures forall i :: 0 <= i < |s| ==> Lower(s)[i] == LowerChar(s[i])
  {
    if s != [] {
      LowerAt(s[1..]);
      assert forall i :: 1 <= i < |s| ==> Lower(s)[i] == Lower(s[1..])[i - 1];
    }
  }

  function UpperChar(c: char): char
  {
    if 'a' <= c <= 'z' then (c as int - 32) as char else c
  }

  /** `str.upper()` on ASCII. */
  function Upper(s: string): (r: string)
    ensures |r| == |s|
    ensures forall i :: 0 <= i < |s| ==> r[i] == UpperChar(s[i])
  {
    if s == [] then [] else [UpperChar(s[0])] + Upper(s[1..])
  }

  /** Python `s[:n]`. */
  /** The quote `repr` puts around a string: '"' when it holds a single quote and no double quote. */
  function ReprQuote(s: string): char
  {
    if '\'' in s && '"' !in s then '"' else '\''
  }

  /**
   * The characters below U+00AE that `repr` writes as `\xNN`: the C0 controls
   * other than tab, LF and CR, DEL, the C1 controls, no-break space and soft hyphen.
   */
  predicate HexEscaped(c: char)
  {
    (c < ' ' && c != '\t' && c != '\n' && c != '\r') || ('\U{007F}' <= c <= '\U{00A0}') || c == '\U{00AD}'
  }

  function HexDigit(n: nat): char
    requires n < 16
  {
    "0123456789abcdef"[n]
  }

  /** One character as it appears between the quotes of `repr`, quoted by `q`. */
  function ReprChar(c: char, q: char): string
  {
    if c == q || c == '\\' then ['\\', c]
    else if c == '\t' then "\\t"
    else if c == '\n' then "\\n"
    else if c == '\r' then "\\r"
    else if HexEscaped(c) then ['\\', 'x', HexDigit(c as int / 16), HexDigit(c as int % 16)]
    else [c]
  }

  function ReprBody(s: string, q: char): string
  {
    if s == [] then [] else ReprChar(s[0], q) + ReprBody(s[1..], q)
  }

  /** Python `repr(s)` of a string, for the characters listed in `HexEscaped` and the printable rest. */
  function Repr(s: string): (r: string)
    ensures |r| >= |s| + 2 && r[0] == ReprQuote(s) && r[|r| - 1] == ReprQuote(s)
  {
    ReprBodyLength(s, ReprQuote(s));
    [ReprQuote(s)] + ReprBody(s, ReprQuote(s)) + [ReprQuote(s)]
  }

  /** Escaping never shortens: each character is written as at least itself. */
  lemma {:induction false} ReprBodyLength(s: string, q: char)
    ensures |ReprBody(s, q)| >= |s|
  {
    if s != [] {
      ReprBodyLength(s[1..], q);
    }
  }

  /** A character `repr` writes as itself inside single quotes. */
  predicate ReprPlain(c: char)
  {
    c != '\'' && c != '\\' && c != '\t' && c != '\n' && c != '\r' && !HexEscaped(c)
  }

  lemma {:induction false} ReprBodyPlain(s: string, q: char)
    requires q == '\''
    requires forall i :: 0 <= i < |s| ==> ReprPlain(s[i])
    ensures ReprBody(s, q) == s
  {
    if s != [] {
      ReprBodyPlain(s[1..], q);
      assert s == [s[0]] + s[1..];
    }
  }

  /** A string of plain characters is written between single quotes unchanged: `repr("oops") == "'oops'"`. */
  lemma ReprOfPlain(s: string)
    requires forall i :: 0 <= i < |s| ==> ReprPlain(s[i])
    ensures Repr(s) == "'" + s + "'"
  {
    ReprBodyPlain(s, '\'');
  }

  /** Every character of a written body comes out escaped or as itself, so a quote never ends it early. */
  lemma {:induction false} ReprBodyNoBareQuote(s: string, q: char)
    requires q == '\'' || q == '"'
    ensures forall i :: 0 <= i < |ReprBody(s, q)| && ReprBody(s, q)[i] == q ==> i > 0 && ReprBody(s, q)[i - 1] == '\\'
  {
    if s != [] {
      ReprBodyNoBareQuote(s[1..], q);
      var head := ReprChar(s[0], q);
      var tail := ReprBody(s[1..], q);
      assert ReprBody(s, q) == head + tail;
      forall i | 0 <= i < |head + tail| && (head + tail)[i] == q
        ensures i > 0 && (head + tail)[i - 1] == '\\'
      {
        if i < |head| {
          assert i == 1 && head[0] == '\\';
        } else {
          var j := i - |head|;
          assert tail[j] == q;
          assert j > 0 && tail[j - 1] == '\\';
        }
      }
    }
  }

  function Take(s: string, n: nat): (r: string)
    ensures |r| <= n && |r| <= |s| && r == s[..|r|]
    ensures |s| <= n ==> r == s
  {
    if |s| <= n then s else s[..n]
  }

  lemma LowerAppend(a: string, b: string)
    ensures Lower(a + b) == Lower(a) + Lower(b)
  {
    LowerAt(a + b);
    LowerAt(a);
    LowerAt(b);
    assert forall i :: 0 <= i < |a + b| ==> Lower(a + b)[i] == (Lower(a) + Lower(b))[i];
  }

  /** `Lower(s)` is `t` when `t` lowers `s` character by character. */
  lemma LowerPointwise(s: string, t: string)
    requires |s| == |t|
    requires forall i :: 0 <= i < |s| ==> LowerChar(s[i]) == t[i]
    ensures Lower(s) == t
  {
    LowerAt(s);
  }

  lemma LowerIdempotent(s: string)
    ensures Lower(Lower(s)) == Lower(s)
  {
    LowerAt(s);
    LowerAt(Lower(s));
  }

  /** A character that is not a letter occurs in `Lower(s)` exactly when it occurs in `s`. */
  lemma LowerKeepsChar(s: string, c: char)
    requires !('A' <= c <= 'Z') && !('a' <= c <= 'z')
    ensures c in Lower(s) <==> c in s
  {
    LowerAt(s);
    if c in Lower(s) {
      var i :| 0 <= i < |s| && Lower(s)[i] == c;
      assert s[i] == c;
    }
    if c in s {
      var i :| 0 <= i < |s| && s[i] == c;
      assert Lower(s)[i] == c;
    }
  }

  lemma LowerDigits(s: string)
    requires AllDigits(s)
    ensures Lower(s) == s
  {
    LowerAt(s);
  }

  /** Drops the leading characters satisfying `drop` (`str.lstrip(chars)`). */
  function TrimStart(s: string, drop: char -> bool): (r: string)
    ensures |r| <= |s|
    ensures |r| > 0 ==> !drop(r[0])
  {
    if |s| > 0 && drop(s[0]) then TrimStart(s[1..], drop) else s
  }

  /** What `TrimStart` keeps is a suffix of its input. */
  lemma {:induction false} TrimStartSuffix(s: string, drop: char -> bool)
    ensures TrimStart(s, drop) == s[|s| - |TrimStart(s, drop)|..]
  {
    if |s| > 0 && drop(s[0]) {
      TrimStartSuffix(s[1..], drop);
      assert s[1..][|s| - 1 - |TrimStart(s[1..], drop)|..] == s[|s| - |TrimStart(s[1..], drop)|..];
    }
  }

  /** Everything `TrimStart` drops satisfies `drop`. */
  lemma {:induction false} TrimStartDropped(s: string, drop: char -> bool)
    ensures forall i :: 0 <= i < |s| - |TrimStart(s, drop)| ==> drop(s[i])
  {
    if |s| > 0 && drop(s[0]) {
      var r := TrimStart(s[1..], drop);
      assert TrimStart(s, drop) == r;
      TrimStartDropped(s[1..], drop);
      forall i | 0 <= i < |s| - |r|
        ensures drop(s[i])
      {
        if i > 0 {
          assert s[i] == s[1..][i - 1];
        }
      }
    }
  }

  /** Drops the trailing characters satisfying `drop` (`str.rstrip(chars)`). */
  function TrimEnd(s: string, drop: char -> bool): (r: string)
    ensures |r| <= |s|
    ensures |r| > 0 ==> !drop(r[|r| - 1])
  {
    if |s| > 0 && drop(s[|s| - 1]) then TrimEnd(s[..|s| - 1], drop) else s
  }

  /** What `TrimEnd` keeps is a prefix of its input. */
  lemma {:induction false} TrimEndPrefix(s: string, drop: char -> bool)
    ensures TrimEnd(s, drop) == s[..|TrimEnd(s, drop)|]
  {
    if |s| > 0 && drop(s[|s| - 1]) {
      TrimEndPrefix(s[..|s| - 1], drop);
    }
  }

  /** Everything `TrimEnd` drops satisfies `drop`. */
  lemma {:induction false} TrimEndDropped(s: string, drop: char -> bool)
    ensures forall i :: |TrimEnd(s, drop)| <= i < |s| ==> drop(s[i])
  {
    if |s| > 0 && drop(s[|s| - 1]) {
      TrimEndDropped(s[..|s| - 1], drop);
    }
  }

  /** Leading characters of `a` are trimmed as if `b`, which starts with a kept character, were absent. */
  lemma {:induction false} TrimStartAppend(a: string, b: string, drop: char -> bool)
    requires |b| > 0 && !drop(b[0])
    ensures TrimStart(a + b, drop) == TrimStart(a, drop) + b
  {
    if |a| > 0 && drop(a[0]) {
      assert (a + b)[1..] == a[1..] + b;
      TrimStartAppend(a[1..], b, drop);
    }
  }

  /** Trailing characters of `b` are trimmed as if `a`, which ends with a kept character, were absent. */
  lemma {:induction false} TrimEndAppend(a: string, b: string, drop: char -> bool)
    requires |a| > 0 && !drop(a[|a| - 1])
    ensures TrimEnd(a + b, drop) == a + TrimEnd(b, drop)
  {
    if |b| > 0 && drop(b[|b| - 1]) {
      assert (a + b)[..|a + b| - 1] == a + b[..|b| - 1];
      TrimEndAppend(a, b[..|b| - 1], drop);
    } else {
      assert (a + b)[|a + b| - 1] == if |b| > 0 then b[|b| - 1] else a[|a| - 1];
    }
  }

  /** Trimming the start twice trims nothing more. */
  lemma TrimStartIdempotent(s: string, drop: char -> bool)
    ensures TrimStart(TrimStart(s, drop), drop) == TrimStart(s, drop)
  {
  }

  /** `str.strip()`. */
  function Strip(s: string): string
  {
    TrimEnd(TrimStart(s, IsSpace), IsSpace)
  }

  /** `str.rstrip()`. */
  function RStrip(s: string): string
  {
    TrimEnd(s, IsSpace)
  }

  lemma StripNoSpace(s: string)
    requires NoSpace(s)
    ensures Strip(s) == s
  {
  }

  /** Text that neither starts nor ends with whitespace is left alone by `Strip`. */
  lemma StripTrimmed(s: string)
    requires |s| > 0 && !IsSpace(s[0]) && !IsSpace(s[|s| - 1])
    ensures Strip(s) == s
  {
    assert TrimStart(s, IsSpace) == s;
  }

  /** `strip()` of a stripped string changes nothing. */
  lemma StripIdempotent(s: string)
    ensures Strip(Strip(s)) == Strip(s)
  {
    var t := TrimStart(s, IsSpace);
    var u := TrimEnd(t, IsSpace);
    if u != "" {
      TrimEndPrefix(t, IsSpace);
      assert u[0] == t[0];
      StripTrimmed(u);
    }
  }

  /** Lower-casing leaves spaces where they are, so it commutes with trimming. */
  lemma {:induction false} TrimStartLower(s: string)
    ensures TrimStart(Lower(s), IsSpace) == Lower(TrimStart(s, IsSpace))
  {
    if s != [] {
      LowerAt(s);
      assert Lower(s)[1..] == Lower(s[1..]) by {
        assert Lower(s) == [LowerChar(s[0])] + Lower(s[1..]);
      }
      TrimStartLower(s[1..]);
    }
  }

  lemma {:induction false} TrimEndLower(s: string)
    ensures TrimEnd(Lower(s), IsSpace) == Lower(TrimEnd(s, IsSpace))
    decreases |s|
  {
    if s != [] {
      var init := s[..|s| - 1];
      var c := s[|s| - 1];
      assert Lower(s) == Lower(init) + [LowerChar(c)] by {
        assert s == init + [c];
        LowerAppend(init, [c]);
        assert Lower([c]) == [LowerChar(c)];
      }
      assert IsSpace(LowerChar(c)) <==> IsSpace(c);
      if IsSpace(c) {
        assert Lower(s)[..|s| - 1] == Lower(init);
        TrimEndLower(init);
      }
    }
  }

  /** A character `drop` keeps occurs in `TrimStart(s, drop)` exactly when it occurs in `s`. */
  lemma {:induction false} TrimStartKeepsChar(s: string, drop: char -> bool, c: char)
    requires !drop(c)
    ensures c in TrimStart(s, drop) <==> c in s
  {
    if |s| > 0 && drop(s[0]) {
      TrimStartKeepsChar(s[1..], drop, c);
      assert s == [s[0]] + s[1..];
      assert s[0] != c;
    }
  }

  /** A character `drop` keeps occurs in `TrimEnd(s, drop)` exactly when it occurs in `s`. */
  lemma TrimEndKeepsChar(s: string, drop: char -> bool, c: char)
    requires !drop(c)
    ensures c in TrimEnd(s, drop) <==> c in s
  {
    var r := TrimEnd(s, drop);
    TrimEndDropped(s, drop);
    TrimEndPrefix(s, drop);
    if c in s {
      var i :| 0 <= i < |s| && s[i] == c;
      assert i < |r|;
      assert r[i] == c;
    }
    if c in r {
      var i :| 0 <= i < |r| && r[i] == c;
      assert s[i] == c;
    }
  }

  /** A non-space character occurs in `Strip(s)` exactly when it occurs in `s`. */
  lemma StripKeepsChar(s: string, c: char)
    requires !IsSpace(c)
    ensures c in Strip(s) <==> c in s
  {
    TrimStartKeepsChar(s, IsSpace, c);
    TrimEndKeepsChar(TrimStart(s, IsSpace), IsSpace, c);
  }

  lemma StripEmptyIffAllSpace(s: string)
    ensures Strip(s) == [] <==> forall i :: 0 <= i < |s| ==> IsSpace(s[i])
  {
    TrimStartDropped(s, IsSpace);
    TrimStartSuffix(s, IsSpace);
    TrimEndDropped(TrimStart(s, IsSpace), IsSpace);
  }

  predicate StartsWith(s: string, p: string)
  {
    |p| <= |s| && s[..|p|] == p
  }

  /** Python `q in s` for strings. */
  predicate Contains(s: string, q: string)
  {
    |q| <= |s| && (s[..|q|] == q || (|s| > 0 && Contains(s[1..], q)))
  }

  lemma ContainsEmpty(s: string)
    ensures Contains(s, [])
  {
  }

  lemma ContainsSelf(s: string)
    ensures Contains(s, s)
  {
  }

  /** `Contains` is the usual "occurs at some position" relation. */
  lemma {:induction false} ContainsAt(s: string, q: string, k: nat)
    requires k + |q| <= |s| && s[k..k + |q|] == q
    ensures Contains(s, q)
  {
    if k > 0 {
      assert s[1..][k - 1..k - 1 + |q|] == q;
      ContainsAt(s[1..], q, k - 1);
    }
  }

  lemma {:induction false} ContainsWitness(s: string, q: string) returns (k: nat)
    requires Contains(s, q)
    ensures k + |q| <= |s| && s[k..k + |q|] == q
  {
    if s[..|q|] == q {
      k := 0;
    } else {
      var k' := ContainsWitness(s[1..], q);
      k := k' + 1;
      assert s[k..k + |q|] == s[1..][k'..k' + |q|];
    }
  }

  lemma ContainsInLonger(s: string, q: string, pre: string, post: string)
    requires Contains(s, q)
    ensures Contains(pre + s + post, q)
  {
    var k := ContainsWitness(s, q);
    assert (pre + s + post)[|pre| + k..|pre| + k + |q|] == s[k..k + |q|];
    ContainsAt(pre + s + post, q, |pre| + k);
  }

  /** Python `str.split(sep)` for a one-character separator. */
  function Split(s: string, sep: char): (r: seq<string>)
    ensures |r| >= 1
  {
    if s == [] then [[]]
    else
      var rest := Split(s[1..], sep);
      if s[0] == sep then [[]] + rest else [[s[0]] + rest[0]] + rest[1..]
  }

  /** Python `sep.join(parts)`. */
  function Join(parts: seq<string>, sep: string): string
  {
    if |parts| == 0 then []
    else if |parts| == 1 then parts[0]
    else parts[0] + sep + Join(parts[1..], sep)
  }

  lemma {:induction false} JoinSplit(s: string, sep: char)
    ensures Join(Split(s, sep), [sep]) == s
  {
    if s != [] {
      var rest := Split(s[1..], sep);
      JoinSplit(s[1..], sep);
      if s[0] == sep {
        assert Split(s, sep) == [[]] + rest;
      } else {
        if |rest| == 1 {
        } else {
          assert Join(rest, [sep]) == rest[0] + [sep] + Join(rest[1..], [sep]);
        }
      }
    }
  }

  lemma {:induction false} SplitNoSep(s: string, sep: char)
    requires sep !in s
    ensures Split(s, sep) == [s]
  {
    if s != [] {
      SplitNoSep(s[1..], sep);
      assert s == [s[0]] + s[1..];
    }
  }

  /** Splitting `a + [sep] + b` splits `a` and `b` separately. */
  lemma {:induction false} SplitAppendSep(a: string, sep: char, b: string)
    ensures Split(a + [sep] + b, sep) == Split(a, sep) + Split(b, sep)
  {
    if a == [] {
      assert ([sep] + b)[1..] == b;
    } else {
      assert (a + [sep] + b)[1..] == a[1..] + [sep] + b;
      SplitAppendSep(a[1..], sep, b);
    }
  }

  /** Python `str.split()` with no argument: the maximal runs of non-space. */
  function Words(s: string): (r: seq<string>)
    ensures forall i :: 0 <= i < |r| ==> |r[i]| > 0 && NoSpace(r[i])
    ensures |s| > 0 && !IsSpace(s[0]) ==> |r| > 0 && r[0][0] == s[0]
  {
    if s == [] then []
    else if IsSpace(s[0]) then Words(s[1..])
    else
      var rest := Words(s[1..]);
      if |s| > 1 && !IsSpace(s[1]) then [[s[0]] + rest[0]] + rest[1..] else [[s[0]]] + rest
  }

  lemma {:induction false} WordsOfWord(s: string)
    requires |s| > 0 && NoSpace(s)
    ensures Words(s) == [s]
  {
    if |s| > 1 {
      WordsOfWord(s[1..]);
      assert s == [s[0]] + s[1..];
    } else {
      assert s[1..] == [] && s == [s[0]];
    }
  }

  /** A word followed by a space is the first word. */
  lemma {:induction false} WordsCons(w: string, rest: string)
    requires |w| > 0 && NoSpace(w)
    ensures Words(w + " " + rest) == [w] + Words(rest)
  {
    var s := w + " " + rest;
    assert s[1..] == w[1..] + " " + rest;
    if |w| == 1 {
      assert s[1..] == [' '] + rest;
      assert s[1..][1..] == rest;
      assert Words(s[1..]) == Words(rest);
      assert w == [s[0]];
    } else {
      WordsCons(w[1..], rest);
      assert w == [w[0]] + w[1..];
    }
  }

  /** `" ".join(s.split())`: whitespace runs collapsed to one space, ends trimmed. */
  function CollapseSpaces(s: string): string
  {
    Join(Words(s), " ")
  }

  lemma CollapseWord(s: string)
    requires |s| > 0 && NoSpace(s)
    ensures CollapseSpaces(s) == s
  {
    WordsOfWord(s);
  }

  lemma JoinCons(w: string, ws: seq<string>, sep: string)
    ensures Join([w] + ws, sep) == if ws == [] then w else w + sep + Join(ws, sep)
  {
    assert ([w] + ws)[1..] == ws;
  }

  /** How `CollapseSpaces` treats the first character. */
  lemma CollapseStep(s: string)
    requires s != [] && !IsSpace(s[0])
    ensures CollapseSpaces(s) == [s[0]] + CollapseSpaces(s[1..])
         || CollapseSpaces(s) == [s[0]] + " " + CollapseSpaces(s[1..])
  {
    var rest := Words(s[1..]);
    if |s| > 1 && !IsSpace(s[1]) {
      assert rest == [rest[0]] + rest[1..];
      JoinCons([s[0]] + rest[0], rest[1..], " ");
      JoinCons(rest[0], rest[1..], " ");
    } else {
      JoinCons([s[0]], rest, " ");
    }
  }

  /** A non-space character occurs in `CollapseSpaces(s)` exactly when it occurs in `s`. */
  lemma {:induction false} CollapseKeepsChar(s: string, c: char)
    requires !IsSpace(c)
    ensures c in CollapseSpaces(s) <==> c in s
  {
    if s != [] {
      assert s == [s[0]] + s[1..];
      CollapseKeepsChar(s[1..], c);
      if !IsSpace(s[0]) {
        CollapseStep(s);
        assert c != ' ';
      }
    }
  }

  lemma {:induction false} WordsAllSpace(s: string)
    ensures Words(s) == [] <==> forall i :: 0 <= i < |s| ==> IsSpace(s[i])
  {
    if s != [] {
      WordsAllSpace(s[1..]);
    }
  }

  lemma {:induction false} JoinEmpty(parts: seq<string>, sep: string)
    requires forall i :: 0 <= i < |parts| ==> |parts[i]| > 0
    ensures Join(parts, sep) == [] <==> parts == []
  {
    if |parts| > 1 {
      JoinEmpty(parts[1..], sep);
    }
  }

  lemma CollapseEmptyIffAllSpace(s: string)
    ensures CollapseSpaces(s) == [] <==> forall i :: 0 <= i < |s| ==> IsSpace(s[i])
  {
    WordsAllSpace(s);
    JoinEmpty(Words(s), " ");
  }

  // ---- decimal numerals ----

  function DigitValue(c: char): nat
    requires IsDigit(c)
  {
    c as int - '0' as int
  }

  function DigitChar(d: nat): (c: char)
    requires d < 10
    ensures IsDigit(c) && DigitValue(c) == d
  {
    ('0' as int + d) as char
  }

  /** The value of a run of decimal digits (`int(s)` on an ASCII digit string). */
  function DigitsValue(s: string): nat
    requires AllDigits(s)
  {
    if s == [] then 0 else DigitsValue(s[..|s| - 1]) * 10 + DigitValue(s[|s| - 1])
  }

  /** `str(n)` for a natural number. */
  function NatToString(n: nat): (r: string)
    ensures IsDigits(r)
  {
    if n < 10 then [DigitChar(n)] else NatToString(n / 10) + [DigitChar(n % 10)]
  }

  lemma {:induction false} NatToStringRoundTrip(n: nat)
    ensures DigitsValue(NatToString(n)) == n
  {
    if n >= 10 {
      NatToStringRoundTrip(n / 10);
      var s := NatToString(n);
      assert s[..|s| - 1] == NatToString(n / 10);
    }
  }

  /** `str(i)` for any integer. */
  function IntToString(i: int): string
  {
    if i < 0 then "-" + NatToString(-i) else NatToString(i)
  }

  /**
   * Python `int(s)` on text: surrounding whitespace, an optional sign and a
   * non-empty run of ASCII digits. Underscore separators and non-ASCII
   * digits, which Python also accepts, are rejected here.
   */
  function ParseInt(s: string): (r: Option<int>)
    ensures AllDigits(s) && |s| > 0 ==> r == Some(DigitsValue(s))
  {
    var t := Strip(s);
    if |t| > 0 && (t[0] == '+' || t[0] == '-') then
      if IsDigits(t[1..]) then
        var v: int := DigitsValue(t[1..]);
        Some(if t[0] == '-' then -v else v)
      else None
    else if IsDigits(t) then Some(DigitsValue(t))
    else None
  }

  lemma ParseIntOfNat(n: nat)
    ensures ParseInt(NatToString(n)) == Some(n)
  {
    NatToStringRoundTrip(n);
  }

  /** Text without a single digit is never an integer. */
  lemma ParseIntNeedsDigit(s: string)
    requires forall i :: 0 <= i < |s| ==> !IsDigit(s[i])
    ensures ParseInt(s) == None
  {
    var t := Strip(s);
    forall k | 0 <= k < |t|
      ensures !IsDigit(t[k])
    {
      if IsDigit(t[k]) {
        StripKeepsChar(s, t[k]);
      }
    }
  }
}
