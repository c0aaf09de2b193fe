/** The parts of Python's `str` that the library relies on: `join`, `split`,
    `strip`, `replace`, `endswith`, `str(int)` and `int(str)`. */
module Text {
  import opened Wrappers

  /** `sep.join(parts)` */
  function Join(parts: seq<string>, sep: string): string
  {
    if |parts| == 0 then ""
    else if |parts| == 1 then parts[0]
    else parts[0] + sep + Join(parts[1..], sep)
  }

  lemma JoinCons(x: string, rest: seq<string>, sep: string)
    requires |rest| > 0
    ensures Join([x] + rest, sep) == x + sep + Join(rest, sep)
  {
    assert ([x] + rest)[1..] == rest;
  }

  lemma {:induction false} JoinSnoc(parts: seq<string>, x: string, sep: string)
    requires |parts| > 0
    ensures Join(parts + [x], sep) == Join(parts, sep) + sep + x
  {
    if |parts| == 1 {
      assert parts + [x] == [parts[0]] + [x];
      JoinCons(parts[0], [x], sep);
    } else {
      assert (parts + [x])[1..] == parts[1..] + [x];
      JoinSnoc(parts[1..], x, sep);
    }
  }

  /** Regrouping a concatenation. Stated over named parts, so that a caller
      need not unfold the parts to regroup them. */
  lemma AppendAssoc(a: string, b: string, c: string)
    ensures a + b + c == a + (b + c)
  {
  }

  /** The last part of a join follows the others and a separator. */
  lemma JoinLast(init: seq<string>, x: string, sep: string)
    ensures Join(init + [x], sep) == (if |init| == 0 then "" else Join(init, sep) + sep) + x
  {
    if |init| == 0 {
      assert init + [x] == [x];
    } else {
      JoinSnoc(init, x, sep);
    }
  }

  /** Appending a `name` + `v` part to a join whose text is known. */
  lemma JoinSnocPair(parts: seq<string>, t: string, name: string, v: string, sep: string)
    requires |parts| > 0 && Join(parts, sep) == t
    ensures Join(parts + [name + v], sep) == t + (sep + name) + v
  {
    JoinSnoc(parts, name + v, sep);
  }

  /** Joining where the first part is itself a concatenation. */
  lemma JoinHeadAppend(x: string, y: string, rest: seq<string>, sep: string)
    ensures Join([x + y] + rest, sep) == x + Join([y] + rest, sep)
  {
    if |rest| > 0 {
      JoinCons(x + y, rest, sep);
      JoinCons(y, rest, sep);
    }
  }

  /** A join starts with the first character of its first part. */
  lemma JoinStartsWith(parts: seq<string>, sep: string)
    requires |parts| > 0 && |parts[0]| > 0
    ensures |Join(parts, sep)| > 0 && Join(parts, sep)[0] == parts[0][0]
  {
    if |parts| > 1 {
      JoinCons(parts[0], parts[1..], sep);
      assert [parts[0]] + parts[1..] == parts;
    }
  }

  /** A join of eight parts written out. */
  lemma JoinEight(a: string, b: string, c: string, d: string, e: string, f: string, g: string, h: string,
                  sep: string)
    ensures Join([a, b, c, d, e, f, g, h], sep)
            == a + sep + b + sep + c + sep + d + sep + e + sep + f + sep + g + sep + h
  {
    JoinCons(a, [b], sep);
    assert [a] + [b] == [a, b];
    JoinSnoc([a, b], c, sep);
    assert [a, b] + [c] == [a, b, c];
    JoinSnoc([a, b, c], d, sep);
    assert [a, b, c] + [d] == [a, b, c, d];
    JoinSnoc([a, b, c, d], e, sep);
    assert [a, b, c, d] + [e] == [a, b, c, d, e];
    JoinSnoc([a, b, c, d, e], f, sep);
    assert [a, b, c, d, e] + [f] == [a, b, c, d, e, f];
    JoinSnoc([a, b, c, d, e, f], g, sep);
    assert [a, b, c, d, e, f] + [g] == [a, b, c, d, e, f, g];
    JoinSnoc([a, b, c, d, e, f, g], h, sep);
    assert [a, b, c, d, e, f, g] + [h] == [a, b, c, d, e, f, g, h];
  }

  /** Number of occurrences of `c` in `s`. */
  function Count(s: string, c: char): nat
  {
    if |s| == 0 then 0 else (if s[0] == c then 1 else 0) + Count(s[1..], c)
  }

  lemma {:induction false} CountAppend(a: string, b: string, c: char)
    ensures Count(a + b, c) == Count(a, c) + Count(b, c)
  {
    if |a| == 0 {
      assert a + b == b;
    } else {
      assert (a + b)[1..] == a[1..] + b;
      CountAppend(a[1..], b, c);
    }
  }

  lemma {:induction false} CountZero(s: string, c: char)
    ensures Count(s, c) == 0 <==> c !in s
  {
    if |s| > 0 {
      CountZero(s[1..], c);
      assert s == [s[0]] + s[1..];
    }
  }

  /** `s.split(c)` for a one-character separator: every piece is free of `c`,
      and there is one piece more than there are separators. */
  function Split(s: string, c: char): (r: seq<string>)
    ensures |r| == Count(s, c) + 1
    ensures forall i :: 0 <= i < |r| ==> c !in r[i]
    decreases |s|
  {
    if |s| == 0 then [""]
    else
      var rest := Split(s[1..], c);
      if s[0] == c then [""] + rest
      else [[s[0]] + rest[0]] + rest[1..]
  }

  /** Splitting and joining back gives the original text. */
  lemma {:induction false} JoinSplit(s: string, c: char)
    ensures Join(Split(s, c), [c]) == s
    decreases |s|
  {
    if |s| > 0 {
      var rest := Split(s[1..], c);
      JoinSplit(s[1..], c);
      if s[0] == c {
        JoinCons("", rest, [c]);
        assert s == [c] + s[1..];
      } else {
        JoinHeadAppend([s[0]], rest[0], rest[1..], [c]);
        assert [rest[0]] + rest[1..] == rest;
        assert s == [s[0]] + s[1..];
      }
    }
  }

  lemma {:induction false} SplitNoSeparator(p: string, c: char)
    requires c !in p
    ensures Split(p, c) == [p]
    decreases |p|
  {
    if |p| > 0 {
      SplitNoSeparator(p[1..], c);
      assert [p[0]] + p[1..] == p;
    }
  }

  /** A separator in the middle splits the pieces of both sides apart. */
  lemma {:induction false} SplitConcat(x: string, y: string, c: char)
    ensures Split(x + [c] + y, c) == Split(x, c) + Split(y, c)
    decreases |x|
  {
    var s := x + [c] + y;
    if |x| == 0 {
      assert s == [c] + y;
      assert s[1..] == y;
    } else {
      assert s[1..] == x[1..] + [c] + y;
      SplitConcat(x[1..], y, c);
    }
  }

  /** Joining pieces free of the separator and splitting again gives the pieces back. */
  lemma {:induction false} SplitJoin(parts: seq<string>, c: char)
    requires |parts| > 0
    requires forall i :: 0 <= i < |parts| ==> c !in parts[i]
    ensures Split(Join(parts, [c]), c) == parts
  {
    if |parts| == 1 {
      SplitNoSeparator(parts[0], c);
    } else {
      SplitJoin(parts[1..], c);
      SplitNoSeparator(parts[0], c);
      SplitConcat(parts[0], Join(parts[1..], [c]), c);
      assert parts[0] + [c] + Join(parts[1..], [c]) == Join(parts, [c]);
      assert [parts[0]] + parts[1..] == parts;
    }
  }

  /** The separators in a joined text are those between the parts and those inside them. */
  lemma {:induction false} JoinCount(parts: seq<string>, c: char)
    requires |parts| > 0
    ensures Count(Join(parts, [c]), c) == |parts| - 1 + SumCount(parts, c)
  {
    if |parts| > 1 {
      JoinCount(parts[1..], c);
      CountAppend(parts[0] + [c], Join(parts[1..], [c]), c);
      CountAppend(parts[0], [c], c);
      assert Count([c], c) == 1;
    }
  }

  function SumCount(parts: seq<string>, c: char): nat
  {
    if |parts| == 0 then 0 else Count(parts[0], c) + SumCount(parts[1..], c)
  }

  lemma {:induction false} SumCountZero(parts: seq<string>, c: char)
    ensures SumCount(parts, c) == 0 <==> forall i :: 0 <= i < |parts| ==> c !in parts[i]
  {
    if |parts| > 0 {
      SumCountZero(parts[1..], c);
      CountZero(parts[0], c);
      assert forall i :: 1 <= i < |parts| ==> parts[i] == parts[1..][i - 1];
    }
  }

  /** The number of fields a comma-joined line splits into equals the number
      of joined parts exactly when no part contains the separator. */
  lemma JoinedFieldCount(parts: seq<string>, c: char)
    requires |parts| > 0
    ensures |Split(Join(parts, [c]), c)| == |parts| <==> forall i :: 0 <= i < |parts| ==> c !in parts[i]
  {
    JoinCount(parts, c);
    SumCountZero(parts, c);
  }

  /** `s.index(x)`: the first position holding `x`. */
  function IndexOf<T(==)>(s: seq<T>, x: T): (r: nat)
    requires x in s
    ensures r < |s| && s[r] == x
    ensures forall i :: 0 <= i < r ==> s[i] != x
  {
    if s[0] == x then 0 else 1 + IndexOf(s[1..], x)
  }

  // ---------------------------------------------------------------- strip

  /** `s.lstrip(chars)` */
  function TrimStart(s: string, cs: set<char>): (r: string)
    ensures |r| <= |s| && r == s[|s| - |r|..]
    ensures |r| > 0 ==> r[0] !in cs
    ensures forall i :: 0 <= i < |s| - |r| ==> s[i] in cs
    decreases |s|
  {
    if |s| > 0 && s[0] in cs then TrimStart(s[1..], cs) else s
  }

  /** `s.rstrip(chars)` */
  function TrimEnd(s: string, cs: set<char>): (r: string)
    ensures |r| <= |s| && r == s[..|r|]
    ensures |r| > 0 ==> r[|r| - 1] !in cs
    ensures forall i :: |r| <= i < |s| ==> s[i] in cs
    decreases |s|
  {
    if |s| > 0 && s[|s| - 1] in cs then TrimEnd(s[..|s| - 1], cs) else s
  }

  /** `s.strip(chars)`: drop every leading and every trailing character of `cs`. */
  function Strip(s: string, cs: set<char>): string
  {
    TrimEnd(TrimStart(s, cs), cs)
  }

  /** Trailing characters of the tail are trimmed without reaching into a head
      that does not end in one of them. */
  lemma {:induction false} TrimEndAppend(x: string, y: string, cs: set<char>)
    requires |x| > 0 && x[|x| - 1] !in cs
    ensures TrimEnd(x + y, cs) == x + TrimEnd(y, cs)
    decreases |y|
  {
    if |y| > 0 && y[|y| - 1] in cs {
      assert (x + y)[..|x + y| - 1] == x + y[..|y| - 1];
      TrimEndAppend(x, y[..|y| - 1], cs);
    } else if |y| == 0 {
      assert x + y == x;
    }
  }

  lemma StripUnchanged(s: string, cs: set<char>)
    requires |s| > 0 && s[0] !in cs && s[|s| - 1] !in cs
    ensures Strip(s, cs) == s
  {
  }

  /** Stripping twice strips nothing more. */
  lemma StripIdempotent(s: string, cs: set<char>)
    ensures Strip(Strip(s, cs), cs) == Strip(s, cs)
  {
    var u := TrimStart(s, cs);
    var r := TrimEnd(u, cs);
    if |r| > 0 {
      assert r[0] == u[0];
      StripUnchanged(r, cs);
    }
  }

  /** The characters Python's `str.isspace` accepts, which a bare `strip()` removes. */
  const Whitespace: set<char> :=
    {' ', '\t', '\n', '\r', '\U{B}', '\U{C}', '\U{1C}', '\U{1D}', '\U{1E}', '\U{1F}', '\U{85}', '\U{A0}',
     '\U{1680}', '\U{2000}', '\U{2001}', '\U{2002}', '\U{2003}', '\U{2004}', '\U{2005}', '\U{2006}',
     '\U{2007}', '\U{2008}', '\U{2009}', '\U{200A}', '\U{2028}', '\U{2029}', '\U{202F}', '\U{205F}',
     '\U{3000}'}

  // ------------------------------------------------------- search, replace

  predicate EndsWith(s: string, suffix: string)
  {
    |suffix| <= |s| && s[|s| - |suffix|..] == suffix
  }

  /** A text ends with a suffix no longer than its last part exactly when
      that part does. */
  lemma EndsWithAppend(a: string, b: string, suffix: string)
    requires |suffix| <= |b|
    ensures EndsWith(a + b, suffix) <==> EndsWith(b, suffix)
  {
    assert (a + b)[|a + b| - |suffix|..] == b[|b| - |suffix|..];
  }

  /** `target` occurs in `s` starting at index `i`. */
  predicate OccursAt(target: string, s: string, i: int)
  {
    0 <= i && i + |target| <= |s| && s[i..i + |target|] == target
  }

  /** `target` occurs somewhere in `s`. */
  ghost predicate Occurs(target: string, s: string)
  {
    exists i :: OccursAt(target, s, i)
  }

  /** `s.replace(target, replacement)`: every non-overlapping occurrence, scanning from the left. */
  function Replace(s: string, target: string, replacement: string): string
    requires |target| > 0
    decreases |s|
  {
    if |s| < |target| then s
    else if s[..|target|] == target then replacement + Replace(s[|target|..], target, replacement)
    else [s[0]] + Replace(s[1..], target, replacement)
  }

  lemma ReplaceSkip(c: char, rest: string, target: string, replacement: string)
    requires |target| > 0 && c != target[0]
    ensures Replace([c] + rest, target, replacement) == [c] + Replace(rest, target, replacement)
  {
    var s := [c] + rest;
    assert s[1..] == rest;
    if |s| >= |target| {
      assert s[..|target|][0] == c;
    }
  }

  lemma ReplaceHit(rest: string, target: string, replacement: string)
    requires |target| > 0
    ensures Replace(target + rest, target, replacement) == replacement + Replace(rest, target, replacement)
  {
    var s := target + rest;
    assert s[..|target|] == target;
    assert s[|target|..] == rest;
  }

  /** Replacing a suffix in a text whose stem cannot hold the start of any
      occurrence swaps that suffix alone. */
  lemma {:induction false} ReplaceSuffix(stem: string, target: string, replacement: string)
    requires |target| > 0 && target[0] !in stem
    ensures Replace(stem + target, target, replacement) == stem + replacement
    decreases |stem|
  {
    if |stem| == 0 {
      assert stem + target == target + "";
      ReplaceHit("", target, replacement);
    } else {
      assert stem + target == [stem[0]] + (stem[1..] + target);
      ReplaceSkip(stem[0], stem[1..] + target, target, replacement);
      ReplaceSuffix(stem[1..], target, replacement);
      assert [stem[0]] + stem[1..] == stem;
    }
  }

  /** A stem that cannot hold the start of an occurrence passes through unchanged. */
  lemma {:induction false} ReplaceAfterStem(stem: string, tail: string, target: string, replacement: string)
    requires |target| > 0 && target[0] !in stem
    ensures Replace(stem + tail, target, replacement) == stem + Replace(tail, target, replacement)
    decreases |stem|
  {
    if |stem| > 0 {
      assert stem + tail == [stem[0]] + (stem[1..] + tail);
      ReplaceSkip(stem[0], stem[1..] + tail, target, replacement);
      ReplaceAfterStem(stem[1..], tail, target, replacement);
      assert [stem[0]] + stem[1..] == stem;
    } else {
      assert stem + tail == tail;
    }
  }

  /** A text with no occurrence of `target` is left as it is. */
  lemma {:induction false} ReplaceAbsent(s: string, target: string, replacement: string)
    requires |target| > 0 && !Occurs(target, s)
    ensures Replace(s, target, replacement) == s
    decreases |s|
  {
    if |s| >= |target| {
      assert !OccursAt(target, s, 0);
      assert s[0..|target|] == s[..|target|];
      forall i | OccursAt(target, s[1..], i)
        ensures false
      {
        assert s[1..][i..i + |target|] == s[i + 1..i + 1 + |target|];
        assert OccursAt(target, s, i + 1);
      }
      ReplaceAbsent(s[1..], target, replacement);
      assert [s[0]] + s[1..] == s;
    }
  }

  // --------------------------------------------------- integers as text

  predicate IsDigit(c: char)
  {
    '0' <= c <= '9'
  }

  function DigitChar(d: nat): (c: char)
    requires d < 10
    ensures IsDigit(c) && c as int - '0' as int == d
  {
    ('0' as int + d) as char
  }

  /** Decimal digits of a natural number, as `str` writes them. */
  function NatToStr(n: nat): (r: string)
    ensures |r| > 0 && forall i :: 0 <= i < |r| ==> IsDigit(r[i])
  {
    if n < 10 then [DigitChar(n)] else NatToStr(n / 10) + [DigitChar(n % 10)]
  }

  /** `str(n)` for a Python `int`. */
  function IntToStr(n: int): (r: string)
    ensures |r| > 0 && (forall i :: 0 < i < |r| ==> IsDigit(r[i])) && (IsDigit(r[0]) || r[0] == '-')
  {
    if n < 0 then "-" + NatToStr(-n) else NatToStr(n)
  }

  function DigitValue(c: char): nat
    requires IsDigit(c)
  {
    c as int - '0' as int
  }

  /** The value of a string of decimal digits. */
  function DigitsValue(t: string): nat
    requires forall i :: 0 <= i < |t| ==> IsDigit(t[i])
  {
    if |t| == 0 then 0 else DigitsValue(t[..|t| - 1]) * 10 + DigitValue(t[|t| - 1])
  }

  lemma {:induction false} DigitsValueOfNat(n: nat)
    ensures DigitsValue(NatToStr(n)) == n
  {
    if n >= 10 {
      var t := NatToStr(n);
      assert t[..|t| - 1] == NatToStr(n / 10);
      DigitsValueOfNat(n / 10);
    }
  }

  /** The digit string Python's `int` accepts: digits, with single underscores
      allowed between two digits (so it neither starts nor ends with one, and
      no two of them are adjacent). */
  predicate IntegerDigits(t: string)
  {
    && |t| > 0 && IsDigit(t[0]) && IsDigit(t[|t| - 1])
    && (forall i :: 0 <= i < |t| ==> IsDigit(t[i]) || t[i] == '_')
    && forall i, j :: 0 <= i < |t| - 1 && j == i + 1 ==> IsDigit(t[i]) || IsDigit(t[j])
  }

  function WithoutUnderscores(t: string): (r: string)
    requires forall i :: 0 <= i < |t| ==> IsDigit(t[i]) || t[i] == '_'
    ensures forall i :: 0 <= i < |r| ==> IsDigit(r[i])
  {
    if |t| == 0 then "" else (if t[0] == '_' then "" else [t[0]]) + WithoutUnderscores(t[1..])
  }

  lemma {:induction false} WithoutUnderscoresOfDigits(t: string)
    requires forall i :: 0 <= i < |t| ==> IsDigit(t[i])
    ensures WithoutUnderscores(t) == t
  {
    if |t| > 0 {
      WithoutUnderscoresOfDigits(t[1..]);
      assert [t[0]] + t[1..] == t;
    }
  }

  /** The whitespace `int()` skips around its digits: the characters of
      `str.isspace` except the ASCII separators U+1C to U+1F, which CPython
      keeps as they are and then rejects. */
  const IntSpace: set<char> := Whitespace - {'\U{1C}', '\U{1D}', '\U{1E}', '\U{1F}'}

  /** `int(s)` in base 10: surrounding whitespace is ignored, one optional
      sign, then the digits; anything else is a `ValueError` (`None` here). */
  function ParseInt(s: string): (r: Option<int>)
    ensures r.Some? ==> |Strip(s, IntSpace)| > 0
  {
    ParseSigned(Strip(s, IntSpace))
  }

  /** An optional sign and the digits, with nothing around them. */
  function ParseSigned(t: string): (r: Option<int>)
    ensures r.Some? ==> |t| > 0
  {
    if |t| > 0 && (t[0] == '-' || t[0] == '+') then
      if IntegerDigits(t[1..]) then
        var v: int := DigitsValue(WithoutUnderscores(t[1..]));
        Some(if t[0] == '-' then -v else v)
      else None
    else if IntegerDigits(t) then Some(DigitsValue(WithoutUnderscores(t)))
    else None
  }

  lemma DigitNotSpace(c: char)
    requires IsDigit(c) || c == '-'
    ensures c !in IntSpace
  {
  }

  lemma DigitsAreIntegerDigits(d: string)
    requires |d| > 0 && forall i :: 0 <= i < |d| ==> IsDigit(d[i])
    ensures IntegerDigits(d)
  {
  }

  /** Decimal renderings carry no surrounding whitespace. */
  lemma StripRendering(s: string)
    requires |s| > 0 && (IsDigit(s[0]) || s[0] == '-') && IsDigit(s[|s| - 1])
    ensures Strip(s, IntSpace) == s
  {
    DigitNotSpace(s[0]);
    DigitNotSpace(s[|s| - 1]);
    StripUnchanged(s, IntSpace);
  }

  lemma ParseDigitsOfNat(n: nat)
    ensures DigitsValue(WithoutUnderscores(NatToStr(n))) == n
    ensures IntegerDigits(NatToStr(n))
  {
    DigitsAreIntegerDigits(NatToStr(n));
    WithoutUnderscoresOfDigits(NatToStr(n));
    DigitsValueOfNat(n);
  }

  lemma ParseNatRoundTrip(n: nat)
    ensures ParseInt(NatToStr(n)) == Some(n)
  {
    StripRendering(NatToStr(n));
    ParseDigitsOfNat(n);
    assert ParseSigned(NatToStr(n)) == Some(n);
  }

  lemma ParseSignedNegative(d: string)
    requires IntegerDigits(d)
    ensures ParseSigned("-" + d) == Some(-(DigitsValue(WithoutUnderscores(d)) as int))
  {
    assert ("-" + d)[1..] == d;
  }

  lemma ParseStripped(s: string, v: int)
    requires Strip(s, IntSpace) == s && ParseSigned(s) == Some(v)
    ensures ParseInt(s) == Some(v)
  {
  }

  lemma NegativeSigned(d: string, m: nat)
    requires |d| > 0 && forall i :: 0 <= i < |d| ==> IsDigit(d[i])
    requires DigitsValue(d) == m
    ensures ParseSigned("-" + d) == Some(-(m as int))
  {
    DigitsAreIntegerDigits(d);
    WithoutUnderscoresOfDigits(d);
    assert DigitsValue(WithoutUnderscores(d)) == m;
    ParseSignedNegative(d);
  }

  lemma NegativeStripped(d: string)
    requires |d| > 0 && IsDigit(d[|d| - 1])
    ensures Strip("-" + d, IntSpace) == "-" + d
  {
    var s := "-" + d;
    assert s[0] == '-' && s[|s| - 1] == d[|d| - 1];
    StripRendering(s);
  }

  /** `int(str(n)) == n`. */
  lemma IntRoundTrip(n: int)
    ensures ParseInt(IntToStr(n)) == Some(n)
  {
    if n < 0 {
      ParseNegativeRoundTrip(n);
    } else {
      ParseNatRoundTrip(n);
    }
  }

  lemma ParseNegativeRoundTrip(n: int)
    requires n < 0
    ensures ParseInt(IntToStr(n)) == Some(n)
  {
    var d := NatToStr(-n);
    assert IntToStr(n) == "-" + d;
    DigitsValueOfNat(-n);
    NegativeSigned(d, -n);
    NegativeStripped(d);
    ParseStripped("-" + d, n);
  }

  // ----------------------------------------------------- floats as text

  /** Up to `n` decimal digits of a fraction in [0, 1), at least one digit. */
  function FractionDigits(f: real, n: nat): (r: string)
    requires 0.0 <= f < 1.0
    ensures |r| > 0 && forall i :: 0 <= i < |r| ==> IsDigit(r[i])
    decreases n
  {
    var d := (f * 10.0).Floor;
    var rest := f * 10.0 - d as real;
    if f == 0.0 || n <= 1 || rest == 0.0 then [DigitChar(d)]
    else [DigitChar(d)] + FractionDigits(rest, n - 1)
  }

  /** `str(x)` for a Python `float` whose repr is positional: the sign, the
      whole part, a point and the fraction (at most 16 digits, `0` when exact). */
  function FloatToStr(x: real): (r: string)
    ensures |r| > 0 && ',' !in r
  {
    var a := if x < 0.0 then -x else x;
    var whole := a.Floor;
    var t := (if x < 0.0 then "-" else "") + NatToStr(whole) + "." + FractionDigits(a - whole as real, 16);
    assert forall i :: 0 <= i < |t| ==> IsDigit(t[i]) || t[i] == '-' || t[i] == '.';
    t
  }
}
