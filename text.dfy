/**
 * The parts of Python's `str` that the scripts rely on: `isspace`, `strip`,
 * `split()`, `splitlines()`, `join`, `find`, `int(...)` and `str(int)`.
 * Strings are sequences of Unicode scalar values, as in Python 3.
 */
module Text {
  import opened Wrappers

  /** Python's `str.isspace` for one character (the complete list of Python 3). */
  predicate IsSpace(c: char) {
    var n := c as int;
    (9 <= n <= 13) || (28 <= n <= 32) || n == 0x85 || n == 0xA0 || n == 0x1680
    || (0x2000 <= n <= 0x200A) || n == 0x2028 || n == 0x2029 || n == 0x202F
    || n == 0x205F || n == 0x3000
  }

  /** The characters at which `str.splitlines` ends a line ("\r\n" counts as one boundary). */
  predicate IsLineBreak(c: char) {
    var n := c as int;
    (10 <= n <= 13) || (28 <= n <= 30) || n == 0x85 || n == 0x2028 || n == 0x2029
  }

  predicate NoSpace(s: string) {
    forall i :: 0 <= i < |s| ==> !IsSpace(s[i])
  }

  predicate NoLineBreak(s: string) {
    forall i :: 0 <= i < |s| ==> !IsLineBreak(s[i])
  }

  predicate AllSpace(s: string) {
    forall i :: 0 <= i < |s| ==> IsSpace(s[i])
  }

  // ---------------------------------------------------------------- strip

  /** `s.lstrip(chars)`: drops the longest prefix whose characters satisfy `drop`. */
  function TrimLeft(s: string, drop: char -> bool): string
  {
    if s != [] && drop(s[0]) then TrimLeft(s[1..], drop) else s
  }

  /** `s.rstrip(chars)`: drops the longest suffix whose characters satisfy `drop`. */
  function TrimRight(s: string, drop: char -> bool): string
  {
    if s != [] && drop(s[|s| - 1]) then TrimRight(s[..|s| - 1], drop) else s
  }

  /** What `lstrip` removes is a prefix of dropped characters, and it stops at a kept one. */
  lemma {:induction false} TrimLeftSpec(s: string, drop: char -> bool)
    ensures var r := TrimLeft(s, drop);
      && |r| <= |s| && r == s[|s| - |r|..]
      && (r == [] || !drop(r[0]))
      && forall i :: 0 <= i < |s| - |r| ==> drop(s[i])
  {
    if s != [] && drop(s[0]) {
      var t := s[1..];
      TrimLeftSpec(t, drop);
      var r := TrimLeft(t, drop);
      assert TrimLeft(s, drop) == r;
      assert t[|t| - |r|..] == s[|s| - |r|..];
      forall i | 0 <= i < |s| - |r|
        ensures drop(s[i])
      {
        if i > 0 {
          assert s[i] == t[i - 1];
        }
      }
    }
  }

  /** What `rstrip` removes is a suffix of dropped characters, and it stops at a kept one. */
  lemma {:induction false} TrimRightSpec(s: string, drop: char -> bool)
    ensures var r := TrimRight(s, drop);
      && |r| <= |s| && r == s[..|r|]
      && (r == [] || !drop(r[|r| - 1]))
      && forall i :: |r| <= i < |s| ==> drop(s[i])
  {
    if s != [] && drop(s[|s| - 1]) {
      var t := s[..|s| - 1];
      TrimRightSpec(t, drop);
      var r := TrimRight(t, drop);
      assert TrimRight(s, drop) == r;
      assert t[..|r|] == s[..|r|];
      forall i | |r| <= i < |s|
        ensures drop(s[i])
      {
        if i < |s| - 1 {
          assert s[i] == t[i];
        }
      }
    }
  }

  /** `s.strip(chars)`. */
  function Trim(s: string, drop: char -> bool): string {
    TrimRight(TrimLeft(s, drop), drop)
  }

  /** `s.lstrip()`. */
  function LStrip(s: string): string {
    TrimLeft(s, IsSpace)
  }

  /** `s.strip()`. */
  function Strip(s: string): string {
    Trim(s, IsSpace)
  }

  lemma TrimLeftKeeps(s: string, drop: char -> bool)
    requires s == [] || !drop(s[0])
    ensures TrimLeft(s, drop) == s
  {
  }

  lemma TrimRightKeeps(s: string, drop: char -> bool)
    requires s == [] || !drop(s[|s| - 1])
    ensures TrimRight(s, drop) == s
  {
  }

  /** Trimming leaves a string alone when its two ends are kept characters. */
  lemma TrimKeeps(s: string, drop: char -> bool)
    requires s == [] || (!drop(s[0]) && !drop(s[|s| - 1]))
    ensures Trim(s, drop) == s
  {
    TrimLeftKeeps(s, drop);
    TrimRightKeeps(s, drop);
  }

  lemma {:induction false} TrimLeftSkips(w: string, x: string, drop: char -> bool)
    requires forall i :: 0 <= i < |w| ==> drop(w[i])
    ensures TrimLeft(w + x, drop) == TrimLeft(x, drop)
    decreases |w|
  {
    if w != [] {
      assert (w + x)[0] == w[0] && drop(w[0]);
      assert (w + x)[1..] == w[1..] + x;
      TrimLeftSkips(w[1..], x, drop);
    } else {
      assert w + x == x;
    }
  }

  lemma {:induction false} TrimRightSkips(x: string, w: string, drop: char -> bool)
    requires forall i :: 0 <= i < |w| ==> drop(w[i])
    ensures TrimRight(x + w, drop) == TrimRight(x, drop)
    decreases |w|
  {
    if w != [] {
      assert (x + w)[|x + w| - 1] == w[|w| - 1] && drop(w[|w| - 1]);
      assert (x + w)[..|x + w| - 1] == x + w[..|w| - 1];
      TrimRightSkips(x, w[..|w| - 1], drop);
    } else {
      assert x + w == x;
    }
  }

  /** Trimming removes exactly the padding around a core whose ends are kept characters. */
  lemma TrimPadded(w1: string, x: string, w2: string, drop: char -> bool)
    requires forall i :: 0 <= i < |w1| ==> drop(w1[i])
    requires forall i :: 0 <= i < |w2| ==> drop(w2[i])
    requires x == [] || (!drop(x[0]) && !drop(x[|x| - 1]))
    ensures Trim(w1 + x + w2, drop) == x
  {
    assert w1 + x + w2 == w1 + (x + w2);
    TrimLeftSkips(w1, x + w2, drop);
    if x == [] {
      assert x + w2 == w2 + [];
      TrimLeftSkips(w2, [], drop);
      assert TrimLeft(w1 + x + w2, drop) == TrimLeft([], drop) == [];
      assert TrimRight([], drop) == [];
    } else {
      TrimLeftKeeps(x + w2, drop);
      TrimRightSkips(x, w2, drop);
      TrimRightKeeps(x, drop);
    }
  }

  /** The whitespace `strip()` removes in front. */
  function LeadingSpace(s: string): string {
    TrimLeftSpec(s, IsSpace);
    s[..|s| - |TrimLeft(s, IsSpace)|]
  }

  /** The whitespace `strip()` removes at the end. */
  function TrailingSpace(s: string): string {
    var l := TrimLeft(s, IsSpace);
    TrimRightSpec(l, IsSpace);
    l[|TrimRight(l, IsSpace)|..]
  }

  /** A text is its stripped form between the whitespace stripped from either end. */
  lemma StripSplits(s: string)
    ensures s == LeadingSpace(s) + Strip(s) + TrailingSpace(s)
    ensures AllSpace(LeadingSpace(s)) && AllSpace(TrailingSpace(s))
  {
    var l := TrimLeft(s, IsSpace);
    TrimLeftSpec(s, IsSpace);
    TrimRightSpec(l, IsSpace);
    assert s == LeadingSpace(s) + l;
    assert l == Strip(s) + TrailingSpace(s);
  }

  /** A stripped text that is not empty starts and ends with a non-whitespace character. */
  lemma StripEnds(s: string)
    ensures Strip(s) == [] || (!IsSpace(Strip(s)[0]) && !IsSpace(Strip(s)[|Strip(s)| - 1]))
  {
    var l := TrimLeft(s, IsSpace);
    TrimLeftSpec(s, IsSpace);
    TrimRightSpec(l, IsSpace);
  }

  /** Surrounding whitespace does not change what `strip()` returns. */
  lemma StripPad(w1: string, x: string, w2: string)
    requires AllSpace(w1) && AllSpace(w2)
    ensures Strip(w1 + x + w2) == Strip(x)
  {
    assert w1 + x + w2 == w1 + (x + w2);
    TrimLeftSkips(w1, x + w2, IsSpace);
    var y := TrimLeft(x, IsSpace);
    TrimLeftSpec(x, IsSpace);
    var p := x[..|x| - |y|];
    assert x == p + y;
    assert AllSpace(p);
    assert x + w2 == p + (y + w2);
    TrimLeftSkips(p, y + w2, IsSpace);
    if y == [] {
      assert y + w2 == w2 + [];
      TrimLeftSkips(w2, [], IsSpace);
    } else {
      TrimLeftKeeps(y + w2, IsSpace);
      TrimRightSkips(y, w2, IsSpace);
    }
  }

  // ---------------------------------------------------------------- split

  /** Index of the first whitespace character of `s`, or `|s|` when there is none. */
  function TokenEnd(s: string): (k: nat)
    ensures k <= |s| && NoSpace(s[..k]) && (k < |s| ==> IsSpace(s[k]))
  {
    if s == [] || IsSpace(s[0]) then 0
    else
      var k := 1 + TokenEnd(s[1..]);
      assert s[..k] == [s[0]] + s[1..][..k - 1];
      k
  }

  /** `s.split()`: the maximal runs of non-whitespace characters, in order. */
  function Split(s: string): (r: seq<string>)
    ensures forall j :: 0 <= j < |r| ==> r[j] != [] && NoSpace(r[j])
    decreases |s|
  {
    TrimLeftSpec(s, IsSpace);
    var t := LStrip(s);
    if t == [] then []
    else
      var k := TokenEnd(t);
      [t[..k]] + Split(t[k..])
  }

  /** A text that starts with a non-whitespace character has a first token. */
  lemma SplitStarts(s: string)
    requires s != [] && !IsSpace(s[0])
    ensures Split(s) != []
  {
    TrimLeftKeeps(s, IsSpace);
  }

  /**
   * `s.split(maxsplit=1)`: the first token, then the rest of `s` after the
   * whitespace that follows it, when anything remains.
   */
  function SplitOnce(s: string): (r: seq<string>)
    ensures |r| <= 2
    ensures |r| >= 1 ==> r[0] != [] && NoSpace(r[0])
    ensures |r| == 2 ==> r[1] != [] && !IsSpace(r[1][0])
  {
    TrimLeftSpec(s, IsSpace);
    var t := LStrip(s);
    if t == [] then []
    else
      var k := TokenEnd(t);
      TrimLeftSpec(t[k..], IsSpace);
      var rest := LStrip(t[k..]);
      if rest == [] then [t[..k]] else [t[..k], rest]
  }

  /** `sep.join(parts)`. */
  function Join(parts: seq<string>, sep: string): string
    decreases |parts|
  {
    if |parts| == 0 then []
    else if |parts| == 1 then parts[0]
    else parts[0] + sep + Join(parts[1..], sep)
  }

  lemma {:induction false} TokenEndOf(p: string, x: string)
    requires NoSpace(p)
    requires x == [] || IsSpace(x[0])
    ensures TokenEnd(p + x) == |p|
    decreases |p|
  {
    if p != [] {
      assert (p + x)[1..] == p[1..] + x;
      TokenEndOf(p[1..], x);
    } else {
      assert p + x == x;
    }
  }

  /** Leading whitespace does not change what `split()` returns. */
  lemma SplitSkipsSpace(w: string, x: string)
    requires AllSpace(w)
    ensures Split(w + x) == Split(x)
  {
    TrimLeftSkips(w, x, IsSpace);
  }

  /** Splitting a token followed by whitespace-led text yields that token first. */
  lemma SplitToken(p: string, x: string)
    requires p != [] && NoSpace(p)
    requires x == [] || IsSpace(x[0])
    ensures Split(p + x) == [p] + Split(x)
  {
    TrimLeftKeeps(p + x, IsSpace);
    TokenEndOf(p, x);
    assert (p + x)[..|p|] == p;
    assert (p + x)[|p|..] == x;
  }

  /**
   * Joining whitespace-free tokens with a whitespace separator and splitting
   * again gives back the tokens: `sep.join(t).split() == t`.
   */
  lemma {:induction false} SplitJoin(parts: seq<string>, sep: string)
    requires forall j :: 0 <= j < |parts| ==> parts[j] != [] && NoSpace(parts[j])
    requires sep != [] && AllSpace(sep)
    ensures Split(Join(parts, sep)) == parts
    decreases |parts|
  {
    if |parts| == 0 {
      assert Join(parts, sep) == [];
      assert LStrip([]) == [];
    } else if |parts| == 1 {
      assert Join(parts, sep) == parts[0];
      SplitToken(parts[0], []);
      assert parts[0] + [] == parts[0];
      assert LStrip([]) == [];
      assert Split([]) == [];
    } else {
      var rest := Join(parts[1..], sep);
      assert Join(parts, sep) == parts[0] + sep + rest;
      SplitCons(parts[0], sep, rest);
      SplitJoin(parts[1..], sep);
      assert Split(rest) == parts[1..];
      assert [parts[0]] + parts[1..] == parts;
    }
  }

  lemma SplitCons(p: string, sep: string, rest: string)
    requires p != [] && NoSpace(p)
    requires sep != [] && AllSpace(sep)
    ensures Split(p + sep + rest) == [p] + Split(rest)
  {
    assert p + sep + rest == p + (sep + rest);
    SplitToken(p, sep + rest);
    SplitSkipsSpace(sep, rest);
  }

  // ----------------------------------------------------------- splitlines

  /** Index of the first line boundary of `s`, or `|s|` when there is none. */
  function LineEnd(s: string): (k: nat)
    ensures k <= |s| && NoLineBreak(s[..k]) && (k < |s| ==> IsLineBreak(s[k]))
  {
    if s == [] || IsLineBreak(s[0]) then 0
    else
      var k := 1 + LineEnd(s[1..]);
      assert s[..k] == [s[0]] + s[1..][..k - 1];
      k
  }

  /**
   * `s.splitlines()`: the lines of `s` without their boundaries; "\r\n" is one
   * boundary and a boundary at the very end does not open an empty last line.
   */
  function SplitLines(s: string): (r: seq<string>)
    ensures forall j :: 0 <= j < |r| ==> NoLineBreak(r[j])
    decreases |s|
  {
    if s == [] then []
    else
      var k := LineEnd(s);
      if k == |s| then [s]
      else
        var next := if s[k] == '\r' && k + 1 < |s| && s[k + 1] == '\n' then k + 2 else k + 1;
        [s[..k]] + SplitLines(s[next..])
  }

  lemma {:induction false} LineEndOf(p: string, x: string)
    requires NoLineBreak(p)
    requires x == [] || IsLineBreak(x[0])
    ensures LineEnd(p + x) == |p|
    decreases |p|
  {
    if p != [] {
      assert (p + x)[1..] == p[1..] + x;
      LineEndOf(p[1..], x);
    } else {
      assert p + x == x;
    }
  }

  /** A line ended by "\n" is split off as one line. */
  lemma SplitLinesCons(l: string, rest: string)
    requires NoLineBreak(l)
    ensures SplitLines(l + "\n" + rest) == [l] + SplitLines(rest)
  {
    var s := l + "\n" + rest;
    assert s == l + ("\n" + rest);
    LineEndOf(l, "\n" + rest);
    assert s[|l|] == '\n';
    assert s[..|l|] == l;
    assert s[|l| + 1..] == rest;
  }

  /** Every line followed by "\n": the text `"\n".join(lines) + "\n"` for non-empty `lines`. */
  function Unlines(lines: seq<string>): string
  {
    if lines == [] then [] else lines[0] + "\n" + Unlines(lines[1..])
  }

  lemma {:induction false} JoinNewlines(lines: seq<string>)
    requires lines != []
    ensures Join(lines, "\n") + "\n" == Unlines(lines)
    decreases |lines|
  {
    if |lines| == 1 {
      assert Unlines(lines[1..]) == [];
    } else {
      JoinNewlines(lines[1..]);
      assert Join(lines, "\n") + "\n" == lines[0] + "\n" + (Join(lines[1..], "\n") + "\n");
    }
  }

  /** Lines without boundaries, each ended by "\n", split back into themselves. */
  lemma {:induction false} SplitUnlines(lines: seq<string>)
    requires forall i :: 0 <= i < |lines| ==> NoLineBreak(lines[i])
    ensures SplitLines(Unlines(lines)) == lines
    decreases |lines|
  {
    if lines != [] {
      SplitUnlines(lines[1..]);
      SplitLinesCons(lines[0], Unlines(lines[1..]));
      assert [lines[0]] + lines[1..] == lines;
    }
  }

  /** A newline and then lines each ended by "\n": an empty line, then those lines. */
  lemma SplitBlankFirst(lines: seq<string>)
    requires forall i :: 0 <= i < |lines| ==> NoLineBreak(lines[i])
    ensures SplitLines("\n" + Unlines(lines)) == [""] + lines
  {
    SplitUnlines(lines);
    SplitLinesCons("", Unlines(lines));
    assert "" + "\n" + Unlines(lines) == "\n" + Unlines(lines);
  }

  /** A non-empty text without boundaries is one line. */
  lemma SplitLinesSingle(l: string)
    requires l != [] && NoLineBreak(l)
    ensures SplitLines(l) == [l]
  {
    LineEndOf(l, []);
    assert l + [] == l;
  }

  // ----------------------------------------------------------- searching

  predicate OccursAt(s: string, pat: string, j: nat) {
    j + |pat| <= |s| && s[j..j + |pat|] == pat
  }

  /** `s.find(pat, from)`: the first occurrence of `pat` at or after `from`. */
  function FindFrom(s: string, pat: string, from: nat): (r: Option<nat>)
    ensures r.Some? ==> from <= r.value && OccursAt(s, pat, r.value)
    ensures r.Some? ==> forall j :: from <= j < r.value ==> !OccursAt(s, pat, j)
    ensures r.None? ==> forall j :: from <= j ==> !OccursAt(s, pat, j)
    decreases |s| - from
  {
    if from + |pat| > |s| then None
    else if s[from..from + |pat|] == pat then Some(from)
    else FindFrom(s, pat, from + 1)
  }

  /** Index of the first `c` in `s`, or `|s|` when `c` does not occur. */
  function IndexOf(s: string, c: char): (k: nat)
    ensures k <= |s| && c !in s[..k] && (k < |s| ==> s[k] == c)
  {
    if s == [] || s[0] == c then 0
    else
      var k := 1 + IndexOf(s[1..], c);
      assert s[..k] == [s[0]] + s[1..][..k - 1];
      k
  }

  /** The first `c` of `w + x`, for `w` without `c`, is the first `c` of `x`. */
  lemma {:induction false} IndexOfAfter(w: string, x: string, c: char)
    requires c !in w
    ensures IndexOf(w + x, c) == |w| + IndexOf(x, c)
  {
    if w != [] {
      assert (w + x)[1..] == w[1..] + x;
      assert w[0] in w;
      IndexOfAfter(w[1..], x, c);
    } else {
      assert w + x == x;
    }
  }

  /** The first `c` of `x + y`, for `x` with a `c`, is the first `c` of `x`. */
  lemma {:induction false} IndexOfBefore(x: string, y: string, c: char)
    requires IndexOf(x, c) < |x|
    ensures IndexOf(x + y, c) == IndexOf(x, c)
  {
    if x[0] != c {
      assert (x + y)[1..] == x[1..] + y;
      IndexOfBefore(x[1..], y, c);
    }
  }

  predicate StartsWith(s: string, prefix: string) {
    prefix <= s
  }

  predicate EndsWith(s: string, suffix: string) {
    |suffix| <= |s| && s[|s| - |suffix|..] == suffix
  }

  /** `s.replace(c, '')`: every other character keeps its occurrences and its order. */
  function RemoveChar(s: string, c: char): (r: string)
    ensures c !in r
    ensures forall x :: x != c ==> (x in r <==> x in s)
  {
    if s == [] then [] else (if s[0] == c then [] else [s[0]]) + RemoveChar(s[1..], c)
  }

  // ------------------------------------------------------------- integers

  predicate IsDigit(c: char) {
    '0' <= c <= '9'
  }

  /** One or more ASCII digits. */
  predicate IsDigits(s: string) {
    |s| > 0 && forall i :: 0 <= i < |s| ==> IsDigit(s[i])
  }

  function DigitValue(c: char): nat
    requires IsDigit(c)
  {
    (c as int) - ('0' as int)
  }

  function Digit(d: nat): (c: char)
    requires d < 10
    ensures IsDigit(c) && DigitValue(c) == d
  {
    ('0' as int + d) as char
  }

  /** The decimal value of a string of digits, most significant first. */
  function DigitsValue(s: string): nat
    requires forall i :: 0 <= i < |s| ==> IsDigit(s[i])
  {
    if s == [] then 0 else 10 * DigitsValue(s[..|s| - 1]) + DigitValue(s[|s| - 1])
  }

  /** `str(n)` for a natural number: its decimal digits, read back as `n`. */
  function NatToString(n: nat): (s: string)
    ensures IsDigits(s) && DigitsValue(s) == n
    ensures s[0] == '0' ==> n == 0
  {
    if n < 10 then [Digit(n)]
    else
      var s := NatToString(n / 10) + [Digit(n % 10)];
      assert s[..|s| - 1] == NatToString(n / 10);
      s
  }

  /** `str(i)` for an integer. */
  function IntToString(i: int): (s: string)
    ensures s != [] && NoSpace(s)
  {
    if i < 0 then "-" + NatToString(-i) else NatToString(i)
  }

  /**
   * The digit part accepted by Python's `int(s)`: digits, where single
   * underscores may separate two digits ("1_000").
   */
  predicate IsDigitGroups(s: string) {
    && |s| > 0 && IsDigit(s[0]) && IsDigit(s[|s| - 1])
    && (forall i :: 0 <= i < |s| ==> IsDigit(s[i]) || s[i] == '_')
    && (forall i :: 0 <= i < |s| - 1 ==> IsDigit(s[i]) || IsDigit(s[i + 1]))
  }

  lemma RemoveUnderscoreDigits(s: string)
    requires forall i :: 0 <= i < |s| ==> IsDigit(s[i]) || s[i] == '_'
    ensures forall i :: 0 <= i < |RemoveChar(s, '_')| ==> IsDigit(RemoveChar(s, '_')[i])
  {
    var r := RemoveChar(s, '_');
    forall i | 0 <= i < |r| ensures IsDigit(r[i]) {
      assert r[i] in r;
    }
  }

  /** The value Python's `int(s)` gives, or None where it raises ValueError. */
  function ParseInt(s: string): (r: Option<int>)
  {
    var t := Strip(s);
    var neg := t != [] && t[0] == '-';
    var body := if t != [] && (t[0] == '-' || t[0] == '+') then t[1..] else t;
    if !IsDigitGroups(body) then None
    else
      RemoveUnderscoreDigits(body);
      var v: int := DigitsValue(RemoveChar(body, '_'));
      Some(if neg then -v else v)
  }

  lemma RemoveCharAbsent(s: string, c: char)
    requires c !in s
    ensures RemoveChar(s, c) == s
  {
    if s != [] {
      assert c !in s[1..];
      RemoveCharAbsent(s[1..], c);
    }
  }

  /**
   * Removal works piece by piece: removing from a concatenation is removing
   * from each part. With RemoveCharAbsent for the single characters that
   * are kept, this fixes the result, order included.
   */
  lemma {:induction false} RemoveCharAppend(a: string, b: string, c: char)
    ensures RemoveChar(a + b, c) == RemoveChar(a, c) + RemoveChar(b, c)
  {
    if a == [] {
      assert a + b == b;
    } else {
      assert (a + b)[1..] == a[1..] + b;
      RemoveCharAppend(a[1..], b, c);
    }
  }

  /** `int(str(i)) == i`. */
  lemma ParseIntToString(i: int)
    ensures ParseInt(IntToString(i)) == Some(i)
  {
    if i < 0 {
      ParseIntNeg(NatToString(-i));
    } else {
      ParseIntNonNeg(NatToString(i));
    }
  }

  lemma ParseIntNeg(d: string)
    requires IsDigits(d)
    ensures ParseInt("-" + d) == Some(-(DigitsValue(d) as int))
  {
    var s := "-" + d;
    assert s[1..] == d;
    assert s[|s| - 1] == d[|d| - 1];
    TrimKeeps(s, IsSpace);
    ParseIntSigned(s, d);
  }

  lemma ParseIntSigned(t: string, d: string)
    requires Strip(t) == t && t != [] && t[0] == '-' && t[1..] == d && IsDigits(d)
    ensures ParseInt(t) == Some(-(DigitsValue(d) as int))
  {
    PlainDigits(d);
  }

  lemma ParseIntNonNeg(d: string)
    requires IsDigits(d)
    ensures ParseInt(d) == Some(DigitsValue(d))
  {
    PlainDigits(d);
    TrimKeeps(d, IsSpace);
  }

  /** Plain digits are digit groups without underscores. */
  lemma PlainDigits(d: string)
    requires IsDigits(d)
    ensures IsDigitGroups(d) && RemoveChar(d, '_') == d
  {
    assert '_' !in d by {
      forall k | 0 <= k < |d| ensures d[k] != '_' {
        assert IsDigit(d[k]);
      }
    }
    RemoveCharAbsent(d, '_');
  }
}
