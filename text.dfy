/**
 * String helpers the source takes from Python: the order of `str` values,
 * `str.split()` without arguments, `list.index`, `str.replace` of one character
 * and `float()` on plain decimal notation.
 */
module Text {
  import opened Wrappers

  /** Python's `<` on `str`: lexicographic by code point, a proper prefix sorts first. */
  predicate StrLess(a: string, b: string)
  {
    if |a| == 0 then |b| > 0
    else if |b| == 0 then false
    else if a[0] != b[0] then a[0] < b[0]
    else StrLess(a[1..], b[1..])
  }

  lemma StrLessIrreflexive(a: string)
    ensures !StrLess(a, a)
  {
  }

  lemma {:induction false} StrLessTransitive(a: string, b: string, c: string)
    requires StrLess(a, b) && StrLess(b, c)
    ensures StrLess(a, c)
    decreases |a|
  {
    if |a| > 0 && |b| > 0 && |c| > 0 && a[0] == b[0] && b[0] == c[0] {
      StrLessTransitive(a[1..], b[1..], c[1..]);
    }
  }

  lemma {:induction false} StrLessTotal(a: string, b: string)
    requires a != b
    ensures StrLess(a, b) || StrLess(b, a)
    decreases |a|
  {
    if |a| > 0 && |b| > 0 && a[0] == b[0] {
      assert a == [a[0]] + a[1..] && b == [b[0]] + b[1..];
      StrLessTotal(a[1..], b[1..]);
    }
  }

  lemma {:induction false} StrLessAsymmetric(a: string, b: string)
    requires StrLess(a, b)
    ensures !StrLess(b, a)
    decreases |a|
  {
    if |a| > 0 && |b| > 0 && a[0] == b[0] {
      StrLessAsymmetric(a[1..], b[1..]);
    }
  }

  // ---- str.split() ----

  /**
   * The characters Python's `str.split()` treats as whitespace (`str.isspace`):
   * tab to carriage return, the four separators 0x1C to 0x1F and the space,
   * next line, no-break space, and the Unicode spaces and separators.
   */
  predicate IsSpace(c: char)
  {
    || '\t' <= c <= '\r'
    || '\U{1C}' <= c <= ' '
    || c == '\U{85}' || c == '\U{A0}' || c == '\U{1680}'
    || '\U{2000}' <= c <= '\U{200A}'
    || c == '\U{2028}' || c == '\U{2029}' || c == '\U{202F}' || c == '\U{205F}' || c == '\U{3000}'
  }

  /** The ASCII whitespace, and two of the Unicode spaces, split words; letters, digits and the comma do not. */
  lemma IsSpaceOracle()
    ensures IsSpace(' ') && IsSpace('\t') && IsSpace('\n') && IsSpace('\r') && IsSpace('\U{B}') && IsSpace('\U{C}')
    ensures IsSpace('\U{A0}') && IsSpace('\U{3000}')
    ensures !IsSpace('a') && !IsSpace('0') && !IsSpace(',') && !IsSpace('@') && !IsSpace('\U{200B}')
  {
  }

  predicate IsWord(w: string)
  {
    |w| > 0 && forall i :: 0 <= i < |w| ==> !IsSpace(w[i])
  }

  /** The length of the run of non-whitespace characters that starts `s`. */
  function WordLength(s: string): (n: nat)
    ensures n <= |s|
    ensures forall i :: 0 <= i < n ==> !IsSpace(s[i])
    ensures n < |s| ==> IsSpace(s[n])
  {
    if s == [] || IsSpace(s[0]) then 0 else 1 + WordLength(s[1..])
  }

  /** `s.split()`: the maximal runs of non-whitespace characters, in order. */
  function Split(s: string): (ws: seq<string>)
    ensures forall k :: 0 <= k < |ws| ==> IsWord(ws[k])
    decreases |s|
  {
    if s == [] then []
    else if IsSpace(s[0]) then Split(s[1..])
    else
      var n := WordLength(s);
      [s[..n]] + Split(s[n..])
  }

  /** Words joined by single spaces, the inverse that `Split` undoes. */
  function Join(ws: seq<string>): string
  {
    if ws == [] then []
    else if |ws| == 1 then ws[0]
    else ws[0] + " " + Join(ws[1..])
  }

  lemma {:induction false} WordLengthOfWord(w: string, rest: string)
    requires IsWord(w)
    requires rest == [] || IsSpace(rest[0])
    ensures WordLength(w + rest) == |w|
    decreases |w|
  {
    if |w| > 1 {
      assert (w + rest)[1..] == w[1..] + rest;
      WordLengthOfWord(w[1..], rest);
    }
  }

  /** Splitting words joined by spaces gives the words back. */
  lemma {:induction false} SplitJoinRoundTrip(ws: seq<string>)
    requires forall k :: 0 <= k < |ws| ==> IsWord(ws[k])
    ensures Split(Join(ws)) == ws
    decreases |ws|
  {
    if |ws| == 1 {
      var s := Join(ws);
      assert s == ws[0] + [];
      WordLengthOfWord(ws[0], []);
      assert s[..|ws[0]|] == ws[0];
      assert s[|ws[0]|..] == [];
    } else if |ws| > 1 {
      var s := Join(ws);
      var tail := " " + Join(ws[1..]);
      assert s == ws[0] + tail;
      WordLengthOfWord(ws[0], tail);
      assert s[..|ws[0]|] == ws[0];
      assert s[|ws[0]|..] == tail;
      assert tail[1..] == Join(ws[1..]);
      SplitJoinRoundTrip(ws[1..]);
      assert Split(tail) == Split(Join(ws[1..]));
      assert ws == [ws[0]] + ws[1..];
    }
  }

  // ---- list.index and `in` ----

  /** `ws.index(w)`: the first position of `w`, or None where Python raises ValueError. */
  function IndexOf(ws: seq<string>, w: string): (r: Option<nat>)
    ensures r.None? <==> w !in ws
    ensures r.Some? ==> r.value < |ws| && ws[r.value] == w && w !in ws[..r.value]
  {
    if ws == [] then None
    else if ws[0] == w then Some(0)
    else match IndexOf(ws[1..], w)
      case None => None
      case Some(k) =>
        assert ws[..k + 1] == [ws[0]] + ws[1..][..k];
        Some(k + 1)
  }

  /** The first occurrence is what `index` finds. */
  lemma {:induction false} IndexOfFirst(ws: seq<string>, w: string, k: nat)
    requires k < |ws| && ws[k] == w && w !in ws[..k]
    ensures IndexOf(ws, w) == Some(k)
    decreases k
  {
    if k > 0 {
      assert ws[0] == ws[..k][0];
      assert ws[1..][..k - 1] == ws[..k][1..];
      IndexOfFirst(ws[1..], w, k - 1);
    }
  }

  // ---- str.replace and float ----

  /** `s.replace(from, to)` for single characters. */
  function ReplaceChar(s: string, from: char, to: char): (r: string)
    ensures |r| == |s|
    ensures forall i :: 0 <= i < |s| ==> r[i] == if s[i] == from then to else s[i]
  {
    if s == [] then [] else [if s[0] == from then to else s[0]] + ReplaceChar(s[1..], from, to)
  }

  predicate IsDigit(c: char)
  {
    '0' <= c <= '9'
  }

  predicate AllDigits(s: string)
  {
    forall i :: 0 <= i < |s| ==> IsDigit(s[i])
  }

  /** The number a string of decimal digits denotes. */
  function DigitsValue(s: string): (n: nat)
    requires AllDigits(s)
  {
    if s == [] then 0 else DigitsValue(s[..|s| - 1]) * 10 + (s[|s| - 1] as int - '0' as int)
  }

  function Pow10(n: nat): (p: nat)
    ensures p > 0
  {
    if n == 0 then 1 else 10 * Pow10(n - 1)
  }

  /** `ip.fp` as a real. */
  function DecimalValue(ip: string, fp: string): real
    requires AllDigits(ip) && AllDigits(fp)
  {
    DigitsValue(ip) as real + DigitsValue(fp) as real / Pow10(|fp|) as real
  }

  /**
   * A run of digits in which single underscores may stand between two digits,
   * as Python's `float()` allows (`1_000`); the empty string qualifies.
   */
  predicate Grouped(s: string)
  {
    forall i :: 0 <= i < |s| ==> GroupChar(s, i)
  }

  /** A digit, or an underscore with a digit on each side. */
  predicate GroupChar(s: string, i: nat)
    requires i < |s|
  {
    IsDigit(s[i]) || (s[i] == '_' && 0 < i < |s| - 1 && IsDigit(s[i - 1]) && IsDigit(s[i + 1]))
  }

  /** The string without its underscores. */
  function Ungrouped(s: string): (r: string)
    ensures |r| <= |s|
    ensures forall i :: 0 <= i < |r| ==> r[i] != '_' && r[i] in s
    ensures AllDigits(s) ==> r == s
  {
    if s == [] then [] else (if s[0] == '_' then [] else [s[0]]) + Ungrouped(s[1..])
  }

  /** The digits of a grouped run are its underscore-free characters. */
  lemma UngroupedDigits(s: string)
    requires Grouped(s)
    ensures AllDigits(Ungrouped(s))
  {
    var r := Ungrouped(s);
    forall i | 0 <= i < |r|
      ensures IsDigit(r[i])
    {
      var j :| 0 <= j < |s| && s[j] == r[i];
      assert GroupChar(s, j);
    }
  }

  /**
   * The unsigned part of a decimal: digits, optionally a point and more digits,
   * at least one digit; underscores may group the digits on either side.
   */
  function ParseUnsigned(s: string): (r: Option<real>)
    ensures r.Some? ==> r.value >= 0.0
  {
    var k := IndexOfChar(s, '.');
    var ip := if k < |s| then s[..k] else s;
    var fp := if k < |s| then s[k + 1..] else [];
    if |ip| + |fp| > 0 && Grouped(ip) && Grouped(fp) then
      UngroupedDigits(ip);
      UngroupedDigits(fp);
      Some(DecimalValue(Ungrouped(ip), Ungrouped(fp)))
    else None
  }

  function IndexOfChar(s: string, c: char): (k: nat)
    ensures k <= |s|
    ensures k < |s| ==> s[k] == c
    ensures forall i :: 0 <= i < k ==> s[i] != c
  {
    if s == [] then 0 else if s[0] == c then 0 else 1 + IndexOfChar(s[1..], c)
  }

  /** `str.lstrip()`: the string without its leading whitespace. */
  function LStrip(s: string): (r: string)
    ensures |r| <= |s| && r == s[|s| - |r|..]
    ensures forall k :: 0 <= k < |s| - |r| ==> IsSpace(s[k])
    ensures r == [] || !IsSpace(r[0])
  {
    if s != [] && IsSpace(s[0]) then LStrip(s[1..]) else s
  }

  /** `str.rstrip()`: the string without its trailing whitespace. */
  function RStrip(s: string): (r: string)
    ensures |r| <= |s| && r == s[..|r|]
    ensures forall k :: |r| <= k < |s| ==> IsSpace(s[k])
    ensures r == [] || !IsSpace(r[|r| - 1])
  {
    if s != [] && IsSpace(s[|s| - 1]) then RStrip(s[..|s| - 1]) else s
  }

  /** `str.strip()`: whitespace removed from both ends. */
  function Strip(s: string): string
  {
    RStrip(LStrip(s))
  }

  /** Leading whitespace in front of a string does not survive `lstrip`. */
  lemma {:induction false} LStripSpaces(ws: string, x: string)
    requires forall k :: 0 <= k < |ws| ==> IsSpace(ws[k])
    ensures LStrip(ws + x) == LStrip(x)
  {
    if ws == [] {
      assert ws + x == x;
    } else {
      assert (ws + x)[0] == ws[0];
      assert (ws + x)[1..] == ws[1..] + x;
      LStripSpaces(ws[1..], x);
    }
  }

  /** Trailing whitespace after a string does not survive `rstrip`. */
  lemma {:induction false} RStripSpaces(x: string, ws: string)
    requires forall k :: 0 <= k < |ws| ==> IsSpace(ws[k])
    ensures RStrip(x + ws) == RStrip(x)
  {
    if ws == [] {
      assert x + ws == x;
    } else {
      var w := ws[..|ws| - 1];
      assert (x + ws)[|x + ws| - 1] == ws[|ws| - 1];
      assert (x + ws)[..|x + ws| - 1] == x + w;
      RStripSpaces(x, w);
    }
  }

  /** Once a non-space starts the string, `lstrip` leaves what follows alone. */
  lemma {:induction false} LStripAppend(x: string, y: string)
    requires LStrip(x) != []
    ensures LStrip(x + y) == LStrip(x) + y
  {
    if x != [] && IsSpace(x[0]) {
      assert (x + y)[0] == x[0];
      assert (x + y)[1..] == x[1..] + y;
      LStripAppend(x[1..], y);
    } else {
      assert x != [] && (x + y)[0] == x[0];
    }
  }

  /** `strip` ignores whitespace around a string. */
  lemma StripPadded(ws1: string, s: string, ws2: string)
    requires forall k :: 0 <= k < |ws1| ==> IsSpace(ws1[k])
    requires forall k :: 0 <= k < |ws2| ==> IsSpace(ws2[k])
    ensures Strip(ws1 + s + ws2) == Strip(s)
  {
    assert ws1 + s + ws2 == ws1 + (s + ws2);
    LStripSpaces(ws1, s + ws2);
    assert LStrip(ws1 + s + ws2) == LStrip(s + ws2);
    LStripTrailing(s, ws2);
  }

  /** Whitespace after a string does not change it once both ends are stripped. */
  lemma LStripTrailing(s: string, ws2: string)
    requires forall k :: 0 <= k < |ws2| ==> IsSpace(ws2[k])
    ensures RStrip(LStrip(s + ws2)) == RStrip(LStrip(s))
  {
    if LStrip(s) != [] {
      LStripAppend(s, ws2);
      RStripSpaces(LStrip(s), ws2);
    } else {
      LStripSpaces(s, ws2);
      assert ws2 + [] == ws2;
      LStripSpaces(ws2, []);
    }
  }

  /** A sign, then the unsigned part; what `float()` reads once whitespace is stripped. */
  function ParseSigned(t: string): (r: Option<real>)
    ensures AllDigits(t) && t != [] ==> r == Some(DigitsValue(t) as real)
  {
    if t != [] && (t[0] == '-' || t[0] == '+') then
      match ParseUnsigned(t[1..])
      case None => None
      case Some(v) => Some(if t[0] == '-' then -v else v)
    else
      assert AllDigits(t) && t != [] ==> IndexOfChar(t, '.') == |t|;
      ParseUnsigned(t)
  }

  /**
   * `float(s)` on plain decimal notation with an optional sign, surrounding
   * whitespace and underscores between digits; None where Python raises
   * ValueError.
   */
  function ParseDecimal(s: string): (r: Option<real>)
    ensures AllDigits(s) && s != [] ==> r == Some(DigitsValue(s) as real)
  {
    assert AllDigits(s) && s != [] ==> !IsSpace(s[0]) && !IsSpace(s[|s| - 1]);
    ParseSigned(Strip(s))
  }

  /** Whitespace around a number does not change what `float()` reads. */
  lemma ParseDecimalPadded(ws1: string, s: string, ws2: string)
    requires forall k :: 0 <= k < |ws1| ==> IsSpace(ws1[k])
    requires forall k :: 0 <= k < |ws2| ==> IsSpace(ws2[k])
    ensures ParseDecimal(ws1 + s + ws2) == ParseDecimal(s)
  {
    StripPadded(ws1, s, ws2);
  }

  /**
   * A leading minus sign negates the number, a leading plus sign keeps it,
   * when the sign is the first character after the stripped whitespace.
   */
  lemma ParseDecimalSign(s: string)
    requires s == [] || (s[0] != '-' && s[0] != '+')
    ensures ParseSigned(['-'] + s).Some? <==> ParseSigned(s).Some?
    ensures ParseSigned(['-'] + s).Some? ==> ParseSigned(['-'] + s).value == -ParseSigned(s).value
    ensures ParseSigned(['+'] + s) == ParseSigned(s)
  {
    assert (['-'] + s)[1..] == s;
    assert (['+'] + s)[1..] == s;
  }

  /** Digits, a point and digits read as their decimal value. */
  lemma ParseDecimalOfParts(ip: string, fp: string)
    requires ip != [] && AllDigits(ip) && AllDigits(fp)
    ensures ParseDecimal(ip + ['.'] + fp) == Some(DecimalValue(ip, fp))
  {
    var s := ip + ['.'] + fp;
    assert s[0] == ip[0];
    StripPlain(s);
    ParseUnsignedOfParts(ip, fp);
    assert ParseSigned(s) == ParseUnsigned(s);
  }

  /** The unsigned part of digits, a point and digits. */
  lemma ParseUnsignedOfParts(ip: string, fp: string)
    requires |ip| + |fp| > 0 && AllDigits(ip) && AllDigits(fp)
    ensures ParseUnsigned(ip + ['.'] + fp) == Some(DecimalValue(ip, fp))
  {
    var s := ip + ['.'] + fp;
    assert s[|ip|] == '.';
    assert forall i :: 0 <= i < |ip| ==> s[i] == ip[i];
    var k := IndexOfChar(s, '.');
    assert k == |ip|;
    assert s[..k] == ip;
    assert s[k + 1..] == fp;
    DigitsAreGrouped(ip);
    DigitsAreGrouped(fp);
  }

  /** A digit string is grouped, with nothing to drop. */
  lemma DigitsAreGrouped(s: string)
    requires AllDigits(s)
    ensures Grouped(s) && Ungrouped(s) == s
  {
    forall i | 0 <= i < |s|
      ensures GroupChar(s, i)
    {
      assert IsDigit(s[i]);
    }
  }

  /** A string that neither starts nor ends with whitespace has nothing to strip. */
  lemma StripPlain(s: string)
    requires s != [] && !IsSpace(s[0]) && !IsSpace(s[|s| - 1])
    ensures Strip(s) == s
  {
    assert LStrip(s) == s;
  }

  /** The value of two digits. */
  lemma DigitsValueOfTwo(a: char, b: char)
    requires IsDigit(a) && IsDigit(b)
    ensures DigitsValue([a, b]) == (a as int - '0' as int) * 10 + (b as int - '0' as int)
  {
    assert [a][..0] == [];
    assert DigitsValue([a]) == a as int - '0' as int;
    assert [a, b][..1] == [a];
    assert DigitsValue([a, b]) == DigitsValue([a]) * 10 + (b as int - '0' as int);
  }

  /** Replacing the comma between two comma-free parts gives the parts around a point. */
  lemma ReplaceCommaOfParts(ip: string, fp: string)
    requires forall i :: 0 <= i < |ip| ==> ip[i] != ','
    requires forall i :: 0 <= i < |fp| ==> fp[i] != ','
    ensures ReplaceChar(ip + [','] + fp, ',', '.') == ip + ['.'] + fp
  {
    var s := ip + [','] + fp;
    var t := ip + ['.'] + fp;
    var r := ReplaceChar(s, ',', '.');
    assert |r| == |t|;
    forall i | 0 <= i < |r|
      ensures r[i] == t[i]
    {
      if i < |ip| {
        assert s[i] == ip[i] && t[i] == ip[i];
      } else if i == |ip| {
        assert s[i] == ',' && t[i] == '.';
      } else {
        assert s[i] == fp[i - |ip| - 1] && t[i] == fp[i - |ip| - 1];
      }
    }
  }

  /** The value of three digits. */
  lemma DigitsValueOfThree(a: char, b: char, c: char)
    requires IsDigit(a) && IsDigit(b) && IsDigit(c)
    ensures DigitsValue([a, b, c]) == (a as int - '0' as int) * 100 + (b as int - '0' as int) * 10 + (c as int - '0' as int)
  {
    assert [a, b, c][..2] == [a, b];
    DigitsValueOfTwo(a, b);
  }

  lemma CommaNumberReplaced()
    ensures ReplaceChar("25,24", ',', '.') == ['2', '5'] + ['.'] + ['2', '4']
  {
    assert "25,24" == ['2', '5'] + [','] + ['2', '4'];
    ReplaceCommaOfParts(['2', '5'], ['2', '4']);
  }

  lemma DecimalValueOracle()
    ensures DecimalValue(['2', '5'], ['2', '4']) == 25.24
  {
    DigitsValueOfTwo('2', '5');
    DigitsValueOfTwo('2', '4');
    assert Pow10(2) == 100;
  }

  lemma CommaNumberOracle()
    ensures ParseDecimal(ReplaceChar("25,24", ',', '.')) == Some(25.24)
  {
    CommaNumberReplaced();
    ParseDecimalOfParts(['2', '5'], ['2', '4']);
    DecimalValueOracle();
  }

  lemma WholeNumberOracle()
    ensures ParseDecimal("12") == Some(12.0)
  {
    assert AllDigits("12");
    DigitsValueOfTwo('1', '2');
    assert DigitsValue("12") == 12 by { assert "12" == ['1', '2']; }
  }

  /** Without a point, a character that is neither a digit nor a grouping underscore makes `float()` fail. */
  lemma UnsignedNotGrouped(t: string, i: nat)
    requires i < |t| && !GroupChar(t, i) && IndexOfChar(t, '.') == |t|
    ensures ParseUnsigned(t).None?
  {
    assert !Grouped(t);
  }

  /** The same for an unsigned string with nothing to strip. */
  lemma NotGroupedFails(t: string, i: nat)
    requires i < |t| && !GroupChar(t, i) && IndexOfChar(t, '.') == |t|
    requires Strip(t) == t && t[0] != '-' && t[0] != '+'
    ensures ParseDecimal(t).None?
  {
    UnsignedNotGrouped(t, i);
    assert ParseDecimal(t) == ParseSigned(t) == ParseUnsigned(t);
  }

  lemma WordOracle()
    ensures ParseDecimal("abc").None?
  {
    assert !IsSpace('a') && !IsSpace('c');
    assert Strip("abc") == "abc";
    NotGroupedFails("abc", 0);
  }

  lemma PaddedOracle()
    ensures ParseDecimal(" 12\n") == Some(12.0)
  {
    assert " 12\n" == [' '] + "12" + ['\n'];
    ParseDecimalPadded([' '], "12", ['\n']);
    WholeNumberOracle();
  }

  /** A string that starts and ends with a digit has nothing to strip. */
  lemma StripDigitEnds(g: string)
    requires g != [] && IsDigit(g[0]) && IsDigit(g[|g| - 1])
    ensures Strip(g) == g
  {
    assert !IsSpace(g[0]) && !IsSpace(g[|g| - 1]);
    StripPlain(g);
  }

  /** A grouped run holds no decimal point. */
  lemma GroupedHasNoPoint(g: string)
    requires Grouped(g)
    ensures IndexOfChar(g, '.') == |g|
  {
    forall i | 0 <= i < |g|
      ensures g[i] != '.'
    {
      assert GroupChar(g, i);
    }
  }

  /** A grouped run without a point reads as its digits. */
  lemma ParseUnsignedGrouped(g: string)
    requires g != [] && Grouped(g) && IndexOfChar(g, '.') == |g|
    ensures AllDigits(Ungrouped(g))
    ensures ParseUnsigned(g) == Some(DigitsValue(Ungrouped(g)) as real)
  {
    UngroupedDigits(g);
    DigitsAreGrouped([]);
    WholeDecimalValue(Ungrouped(g));
    assert ParseUnsigned(g) == Some(DecimalValue(Ungrouped(g), []));
  }

  /** Digits without a fractional part read as themselves. */
  lemma WholeDecimalValue(ip: string)
    requires AllDigits(ip)
    ensures DecimalValue(ip, []) == DigitsValue(ip) as real
  {
    assert DigitsValue([]) == 0 && Pow10(0) == 1;
  }

  /** A grouped run of digits reads as the digits without their underscores. */
  lemma ParseGroupedWhole(g: string)
    requires g != [] && Grouped(g) && IsDigit(g[0]) && IsDigit(g[|g| - 1])
    ensures AllDigits(Ungrouped(g))
    ensures ParseDecimal(g) == Some(DigitsValue(Ungrouped(g)) as real)
  {
    StripDigitEnds(g);
    ParseSignedGrouped(g);
  }

  /** Without a sign, a grouped run reads as its unsigned part. */
  lemma ParseSignedGrouped(g: string)
    requires g != [] && Grouped(g) && IsDigit(g[0])
    ensures AllDigits(Ungrouped(g))
    ensures ParseSigned(g) == Some(DigitsValue(Ungrouped(g)) as real)
  {
    GroupedHasNoPoint(g);
    ParseUnsignedGrouped(g);
    assert g[0] != '-' && g[0] != '+';
  }

  /** `Ungrouped` one character at a time. */
  lemma UngroupedCons(c: char, t: string)
    ensures Ungrouped([c] + t) == (if c == '_' then [] else [c]) + Ungrouped(t)
  {
    assert ([c] + t)[1..] == t;
  }

  /** A digit, an underscore and three digits are grouped. */
  lemma ThousandShapeGrouped(a: char, b: char, c: char, d: char)
    requires IsDigit(a) && IsDigit(b) && IsDigit(c) && IsDigit(d)
    ensures Grouped([a, '_', b, c, d])
  {
    var g := [a, '_', b, c, d];
    forall i | 0 <= i < |g|
      ensures GroupChar(g, i)
    {
      if i == 1 {
        assert IsDigit(g[0]) && IsDigit(g[2]);
      } else {
        assert IsDigit(g[i]);
      }
    }
  }

  /** Of a digit, an underscore and three digits only the underscore goes. */
  lemma ThousandShapeUngrouped(a: char, b: char, c: char, d: char)
    requires IsDigit(a) && IsDigit(b) && IsDigit(c) && IsDigit(d)
    ensures Ungrouped([a, '_', b, c, d]) == [a, b, c, d]
  {
    SplitAtUnderscore(a, b, c, d);
    DigitsAreGrouped([b, c, d]);
    UngroupedCons('_', [b, c, d]);
    UngroupedCons(a, ['_'] + [b, c, d]);
  }

  lemma SplitAtUnderscore(a: char, b: char, c: char, d: char)
    ensures [a, '_', b, c, d] == [a] + (['_'] + [b, c, d])
    ensures [a] + [b, c, d] == [a, b, c, d]
  {
  }

  lemma ThousandGrouped()
    ensures Grouped("1_000") && IsDigit("1_000"[0]) && IsDigit("1_000"[4])
    ensures Ungrouped("1_000") == "1000"
  {
    assert "1_000" == ['1', '_', '0', '0', '0'];
    ThousandShapeGrouped('1', '0', '0', '0');
    ThousandShapeUngrouped('1', '0', '0', '0');
  }

  lemma ThousandValue()
    ensures AllDigits("1000") && DigitsValue("1000") == 1000
  {
    assert "1000"[..3] == "100";
    DigitsValueOfThree('1', '0', '0');
  }

  lemma GroupedOracle()
    ensures ParseDecimal("1_000") == Some(1000.0)
  {
    ThousandGrouped();
    ParseGroupedWhole("1_000");
    ThousandValue();
  }

  lemma DoubleUnderscoreOracle()
    ensures ParseDecimal("1__0").None?
  {
    StripDigitEnds("1__0");
    NotGroupedFails("1__0", 1);
  }

  lemma OuterUnderscoreOracle()
    ensures ParseDecimal("_1").None?
    ensures ParseDecimal("1_").None?
  {
    assert !IsSpace('_') && !IsSpace('1');
    assert Strip("_1") == "_1";
    NotGroupedFails("_1", 0);
    assert Strip("1_") == "1_";
    NotGroupedFails("1_", 1);
  }

  lemma SpaceAfterSignOracle()
    ensures ParseDecimal("- 5").None?
  {
    assert Strip("- 5") == "- 5";
    assert "- 5"[1..] == " 5";
    UnsignedNotGrouped(" 5", 0);
  }

  /**
   * Whitespace around the number is stripped; single underscores may group
   * digits, but not doubled, at either end, or after the sign.
   */
  lemma PaddedAndGroupedOracle()
    ensures ParseDecimal(" 12\n") == Some(12.0)
    ensures ParseDecimal("1_000") == Some(1000.0)
    ensures ParseDecimal("1__0").None?
    ensures ParseDecimal("_1").None?
    ensures ParseDecimal("1_").None?
    ensures ParseDecimal("- 5").None?
  {
    PaddedOracle();
    GroupedOracle();
    DoubleUnderscoreOracle();
    OuterUnderscoreOracle();
    SpaceAfterSignOracle();
  }

  /** Dutch decimal commas read through `replace(",", ".")`, as the ledger rows are. */
  lemma ParseDecimalOracles()
    ensures ParseDecimal(ReplaceChar("25,24", ',', '.')) == Some(25.24)
    ensures ParseDecimal("12") == Some(12.0)
    ensures ParseDecimal("abc").None?
  {
    CommaNumberOracle();
    WholeNumberOracle();
    WordOracle();
  }
}
