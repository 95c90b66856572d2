/**
 * The MultiQC metadata header of the two plotting scripts: `parse_template`
 * reads the `key: value` lines of the first `<!-- ... -->` block of a
 * template, `build_comment` writes a metadata dictionary back as such a
 * block, and bin/plot_cv.py lets four command-line options override entries.
 * bin/plot_metrics.py and bin/plot_cv.py each carry their own
 * `parse_template`; they differ in where the block and its lines are
 * stripped, so both are modelled.
 */
module MultiqcHeader {
  import opened Wrappers
  import opened Text
  import opened Dicts

  /** A metadata dictionary: keys in insertion order, each at most once. */
  type Meta = seq<(string, string)>

  /** `parse_template` raises `ValueError` when the template has no comment block. */
  datatype TemplateError = NoBlock

  const Open: string := "<!--"
  const Close: string := "-->"

  /**
   * The text of the first `<!--(.*?)-->` match (with DOTALL): from the first
   * `<!--` up to the first `-->` that starts after it.
   */
  function CommentBody(text: string): Option<string>
  {
    match FindFrom(text, Open, 0)
    case None => None
    case Some(p) =>
      match FindFrom(text, Close, p + |Open|)
      case None => None
      case Some(q) => Some(text[p + |Open|..q])
  }

  /** The characters `strip("\"'")` removes. */
  predicate IsQuote(c: char) {
    c == '"' || c == '\''
  }

  function Unquote(s: string): string {
    Trim(s, IsQuote)
  }

  // ------------------------------------------------------------- parsing

  /**
   * bin/plot_metrics.py: a line with a `:` is split at its first `:`; the key
   * is stripped, the value stripped and unquoted.
   */
  function MetricsEntry(line: string): Option<(string, string)>
  {
    var c := IndexOf(line, ':');
    if c == |line| then None
    else Some((Strip(line[..c]), Unquote(Strip(line[c + 1..]))))
  }

  /** bin/plot_cv.py: the same, but the line is stripped before it is split. */
  function CvEntry(line: string): Option<(string, string)>
  {
    if ':' !in line then None
    else
      var t := Strip(line);
      StripKeeps(line, ':');
      var c := IndexOf(t, ':');
      Some((Strip(t[..c]), Unquote(Strip(t[c + 1..]))))
  }

  /** Stripping whitespace keeps every other character that occurs in the text. */
  lemma StripKeeps(s: string, x: char)
    requires !IsSpace(x)
    ensures x in s <==> x in Strip(s)
  {
    StripSplits(s);
    var a, m, b := LeadingSpace(s), Strip(s), TrailingSpace(s);
    forall i | 0 <= i < |a| ensures s[i] != x {
      assert s[i] == a[i];
    }
    forall i | |a| + |m| <= i < |s| ensures s[i] != x {
      assert s[i] == b[i - |a| - |m|];
    }
    if x in s {
      var i :| 0 <= i < |s| && s[i] == x;
      assert m[i - |a|] == x;
    }
    if x in m {
      var i :| 0 <= i < |m| && m[i] == x;
      assert s[|a| + i] == x;
    }
  }

  /** The entry of every line of a block, in order. */
  function Entries(lines: seq<string>, cv: bool): (es: seq<Option<(string, string)>>)
    ensures |es| == |lines|
  {
    seq(|lines|, i requires 0 <= i < |lines| => if cv then CvEntry(lines[i]) else MetricsEntry(lines[i]))
  }

  /** `meta[k] = v` for the entries of the first n lines, in order. */
  function Gather(es: seq<Option<(string, string)>>, n: nat): Meta
    requires n <= |es|
  {
    if n == 0 then [] else Assign(Gather(es, n - 1), es[n - 1])
  }

  /** `meta[key] = value` for a line that carries an entry; nothing for one that does not. */
  function Assign(meta: Meta, e: Option<(string, string)>): Meta {
    match e
    case None => meta
    case Some((key, value)) => Put(meta, key, value)
  }

  /** The entries present among the first n, in order: the pairs the loop assigns. */
  function Present(es: seq<Option<(string, string)>>, n: nat): seq<(string, string)>
    requires n <= |es|
  {
    if n == 0 then []
    else
      match es[n - 1]
      case None => Present(es, n - 1)
      case Some(e) => Present(es, n - 1) + [e]
  }

  /** The lines bin/plot_metrics.py reads: those of the block as it is. */
  function MetricsLines(body: string): seq<string> {
    SplitLines(body)
  }

  /** The lines bin/plot_cv.py reads: those of the stripped block. */
  function CvLines(body: string): seq<string> {
    SplitLines(Strip(body))
  }

  /** `parse_template` of bin/plot_metrics.py on the text of the template. */
  function MetricsTemplate(text: string): Result<Meta, TemplateError>
  {
    match CommentBody(text)
    case None => Err(NoBlock)
    case Some(body) =>
      var lines := MetricsLines(body);
      Ok(Gather(Entries(lines, false), |lines|))
  }

  /** `parse_template` of bin/plot_cv.py on the text of the template. */
  function CvTemplate(text: string): Result<Meta, TemplateError>
  {
    match CommentBody(text)
    case None => Err(NoBlock)
    case Some(body) =>
      var lines := CvLines(body);
      Ok(Gather(Entries(lines, true), |lines|))
  }

  /** bin/plot_metrics.py `parse_template`: finds the block, then reads its lines. */
  method ParseMetricsTemplate(text: string) returns (r: Result<Meta, TemplateError>)
    ensures r == MetricsTemplate(text)
  {
    var body := CommentBody(text);
    if body.None? {
      return Err(NoBlock);
    }
    var meta := GatherMetricsLines(MetricsLines(body.value));
    r := Ok(meta);
  }

  /** The loop of bin/plot_metrics.py `parse_template` over the lines of the block. */
  method GatherMetricsLines(lines: seq<string>) returns (meta: Meta)
    ensures meta == Gather(Entries(lines, false), |lines|)
  {
    ghost var es := Entries(lines, false);
    meta := [];
    for i := 0 to |lines|
      invariant meta == Gather(es, i)
    {
      var next := AssignMetricsLine(meta, lines[i]);
      assert es[i] == MetricsEntry(lines[i]);
      assert Gather(es, i + 1) == Assign(meta, es[i]);
      meta := next;
    }
  }

  /** One turn of that loop: `if ':' in line`, split at the first `:` and assign. */
  method AssignMetricsLine(meta: Meta, line: string) returns (r: Meta)
    ensures r == Assign(meta, MetricsEntry(line))
  {
    var c := IndexOf(line, ':');
    if c < |line| {
      r := Put(meta, Strip(line[..c]), Unquote(Strip(line[c + 1..])));
    } else {
      r := meta;
    }
  }

  /** bin/plot_cv.py `parse_template`: finds the block, then reads the lines of the stripped block. */
  method ParseCvTemplate(text: string) returns (r: Result<Meta, TemplateError>)
    ensures r == CvTemplate(text)
  {
    var body := CommentBody(text);
    if body.None? {
      return Err(NoBlock);
    }
    var meta := GatherCvLines(CvLines(body.value));
    r := Ok(meta);
  }

  /** The loop of bin/plot_cv.py `parse_template` over the lines of the stripped block. */
  method GatherCvLines(lines: seq<string>) returns (meta: Meta)
    ensures meta == Gather(Entries(lines, true), |lines|)
  {
    ghost var es := Entries(lines, true);
    meta := [];
    for i := 0 to |lines|
      invariant meta == Gather(es, i)
    {
      var next := AssignCvLine(meta, lines[i]);
      assert es[i] == CvEntry(lines[i]);
      assert Gather(es, i + 1) == Assign(meta, es[i]);
      meta := next;
    }
  }

  /** One turn of that loop: `if ':' in line`, strip the line, split at the first `:` and assign. */
  method AssignCvLine(meta: Meta, line: string) returns (r: Meta)
    ensures r == Assign(meta, CvEntry(line))
  {
    if ':' in line {
      var t := Strip(line);
      StripKeeps(line, ':');
      var c := IndexOf(t, ':');
      r := Put(meta, Strip(t[..c]), Unquote(Strip(t[c + 1..])));
    } else {
      r := meta;
    }
  }

  /**
   * The loop assigns the present entries in order: each key is kept once,
   * with the value of its last line.
   */
  lemma {:induction false} GatherPresent(es: seq<Option<(string, string)>>, n: nat)
    requires n <= |es|
    ensures Gather(es, n) == FromPairs(Present(es, n))
  {
    if n > 0 {
      GatherPresent(es, n - 1);
      match es[n - 1]
      case None =>
      case Some(e) =>
        var p := Present(es, n - 1) + [e];
        assert p[..|p| - 1] == Present(es, n - 1);
    }
  }

  /** A template's dictionary holds, for each key, the value of the last line that names it. */
  lemma GatherLastWins(es: seq<Option<(string, string)>>, k: string)
    ensures DistinctKeys(Gather(es, |es|))
    ensures Get(Gather(es, |es|), k) == LastValue(Present(es, |es|), k)
  {
    GatherPresent(es, |es|);
    FromPairsLastWins(Present(es, |es|), k);
  }

  /** Both scripts read the same entry from a line: stripping it first changes nothing. */
  lemma CvEntryAgrees(line: string)
    ensures CvEntry(line) == MetricsEntry(line)
  {
    StripKeeps(line, ':');
    if ':' in line {
      var t := Strip(line);
      var ct := IndexOf(t, ':');
      var c := |LeadingSpace(line)| + ct;
      PaddedParts(line);
      MetricsEntryAt(line, c, Strip(t[..ct]), Strip(t[ct + 1..]));
    }
  }

  /**
   * Whitespace around a line with a `:` does not move its first `:` within
   * the stripped line, nor change the stripped key and value around it.
   */
  lemma PaddedParts(line: string)
    requires ':' in Strip(line)
    ensures var t := Strip(line);
      var ct := IndexOf(t, ':');
      var c := |LeadingSpace(line)| + ct;
      && ct < |t| && c == IndexOf(line, ':') && c < |line|
      && Strip(line[..c]) == Strip(t[..ct]) && Strip(line[c + 1..]) == Strip(t[ct + 1..])
  {
    StripSplits(line);
    var w1, t, w2 := LeadingSpace(line), Strip(line), TrailingSpace(line);
    var ct := IndexOf(t, ':');
    IndexOfPadded(w1, t, w2);
    KeyAround(line, w1, t, w2, ct);
    ValueAround(line, w1, t, w2, ct);
  }

  /** The entry of a line whose first `:` is at c. */
  lemma MetricsEntryAt(line: string, c: nat, key: string, value: string)
    requires c == IndexOf(line, ':') && c < |line|
    requires Strip(line[..c]) == key && Strip(line[c + 1..]) == value
    ensures MetricsEntry(line) == Some((key, Unquote(value)))
  {
  }

  /** The key part of a padded line strips to the key part of the unpadded one. */
  lemma KeyAround(line: string, w1: string, t: string, w2: string, ct: nat)
    requires line == w1 + t + w2 && AllSpace(w1) && ct < |t|
    ensures Strip(line[..|w1| + ct]) == Strip(t[..ct])
  {
    var k := line[..|w1| + ct];
    assert k == w1 + t[..ct];
    StripPad(w1, t[..ct], []);
    assert k == w1 + t[..ct] + [];
  }

  /** The value part of a padded line strips to the value part of the unpadded one. */
  lemma ValueAround(line: string, w1: string, t: string, w2: string, ct: nat)
    requires line == w1 + t + w2 && AllSpace(w2) && ct < |t|
    ensures Strip(line[|w1| + ct + 1..]) == Strip(t[ct + 1..])
  {
    var v := line[|w1| + ct + 1..];
    assert v == t[ct + 1..] + w2;
    StripPad([], t[ct + 1..], w2);
    assert v == [] + t[ct + 1..] + w2;
  }

  lemma IndexOfPadded(w1: string, t: string, w2: string)
    requires AllSpace(w1) && IndexOf(t, ':') < |t|
    ensures IndexOf(w1 + t + w2, ':') == |w1| + IndexOf(t, ':')
  {
    NoColonInSpace(w1);
    IndexOfAfter(w1, t + w2, ':');
    IndexOfBefore(t, w2, ':');
    assert w1 + t + w2 == w1 + (t + w2);
  }

  lemma NoColonInSpace(w: string)
    requires AllSpace(w)
    ensures ':' !in w
  {
    assert !IsSpace(':');
  }

  // ------------------------------------------------------------ building

  /** The line `build_comment` writes for one entry. */
  function EntryLine(k: string, v: string): string {
    k + (":" + Quoted(v))
  }

  /** The text after the colon: a space, then the value in double quotes. */
  function Quoted(v: string): string {
    " " + ("\"" + v + "\"")
  }

  function EntryLines(meta: Meta): (ls: seq<string>)
    ensures |ls| == |meta|
  {
    seq(|meta|, i requires 0 <= i < |meta| => EntryLine(meta[i].0, meta[i].1))
  }

  /** `build_comment(meta)`: the block lines joined by newlines. */
  function Comment(meta: Meta): string {
    Join([Open] + EntryLines(meta) + [Close], "\n")
  }

  /** `build_comment`, with its loop over the entries. */
  method BuildComment(meta: Meta) returns (text: string)
    ensures text == Comment(meta)
  {
    var lines := [Open];
    for i := 0 to |meta|
      invariant lines == [Open] + EntryLines(meta[..i])
    {
      var (k, v) := meta[i];
      assert EntryLines(meta[..i + 1]) == EntryLines(meta[..i]) + [EntryLine(k, v)];
      lines := lines + [EntryLine(k, v)];
    }
    assert meta[..|meta|] == meta;
    lines := lines + [Close];
    text := Join(lines, "\n");
  }

  /**
   * An entry survives the round trip when its line cannot be misread: no
   * line break, no `:` in the key, no `>` (so no `-->`), ends that neither
   * `strip()` nor the unquoting would remove.
   */
  predicate Plain(k: string, v: string) {
    NoLineBreak(k) && NoLineBreak(v) && ':' !in k && '>' !in k && '>' !in v
    && (k == [] || (!IsSpace(k[0]) && !IsSpace(k[|k| - 1])))
    && (v == [] || (!IsSpace(v[0]) && !IsSpace(v[|v| - 1]) && !IsQuote(v[0]) && !IsQuote(v[|v| - 1])))
  }

  predicate AllPlain(meta: Meta) {
    forall i :: 0 <= i < |meta| ==> Plain(meta[i].0, meta[i].1)
  }

  /** A plain entry's line is read back as that entry by both scripts. */
  lemma EntryRoundTrip(k: string, v: string)
    requires Plain(k, v)
    ensures MetricsEntry(EntryLine(k, v)) == Some((k, v))
    ensures CvEntry(EntryLine(k, v)) == Some((k, v))
    ensures NoLineBreak(EntryLine(k, v)) && '>' !in EntryLine(k, v)
  {
    var line := EntryLine(k, v);
    var rest := ":" + Quoted(v);
    assert line == k + rest;
    IndexOfAfter(k, rest, ':');
    var c := IndexOf(line, ':');
    assert c == |k|;
    var key := line[..c];
    var value := line[c + 1..];
    assert key == k;
    assert value == Quoted(v);
    TrimKeeps(k, IsSpace);
    assert Strip(key) == k;
    QuotedValue(v);
    assert Unquote(Strip(value)) == v;
    CvEntryAgrees(line);
    QuotedPlain(k, v);
  }

  /** The value part of an entry line is read back as the value. */
  lemma QuotedValue(v: string)
    requires v == [] || (!IsQuote(v[0]) && !IsQuote(v[|v| - 1]))
    ensures Unquote(Strip(Quoted(v))) == v
  {
    var q := "\"" + v + "\"";
    assert Quoted(v) == " " + q + [];
    assert q[0] == '"' && q[|q| - 1] == '"';
    TrimPadded(" ", q, [], IsSpace);
    TrimPadded("\"", v, "\"", IsQuote);
  }

  lemma QuotedPlain(k: string, v: string)
    requires Plain(k, v)
    ensures NoLineBreak(EntryLine(k, v)) && '>' !in EntryLine(k, v)
  {
    var line := EntryLine(k, v);
    forall i | 0 <= i < |line|
      ensures !IsLineBreak(line[i]) && line[i] != '>'
    {
      if i < |k| {
        assert line[i] == k[i];
      } else if |k| + 3 <= i < |k| + 3 + |v| {
        assert line[i] == v[i - |k| - 3];
      }
    }
  }

  /** `sep.join` of a non-empty list starts with its first item and ends with its last. */
  lemma {:induction false} JoinEnds(ls: seq<string>, sep: string)
    requires ls != []
    ensures StartsWith(Join(ls, sep), ls[0])
    ensures EndsWith(Join(ls, sep), ls[|ls| - 1])
  {
    if |ls| > 1 {
      JoinEnds(ls[1..], sep);
      var j := Join(ls[1..], sep);
      assert Join(ls, sep) == ls[0] + (sep + j);
      assert (sep + j)[|sep + j| - |ls[|ls| - 1]|..] == j[|j| - |ls[|ls| - 1]|..];
    }
  }

  /** Joining with newlines an item between two others: `"\n".join([a] + ls + [b])`. */
  lemma {:induction false} JoinFramed(a: string, ls: seq<string>, b: string)
    ensures Join([a] + ls + [b], "\n") == a + "\n" + Unlines(ls) + b
  {
    JoinThenLast(ls, b);
    assert ([a] + ls + [b])[1..] == ls + [b];
  }

  lemma {:induction false} JoinThenLast(ls: seq<string>, b: string)
    ensures Join(ls + [b], "\n") == Unlines(ls) + b
  {
    if ls == [] {
      assert ls + [b] == [b];
    } else {
      JoinThenLast(ls[1..], b);
      assert (ls + [b])[1..] == ls[1..] + [b];
    }
  }

  /** Lines without boundaries, the last one non-empty, split back from their newline join. */
  lemma {:induction false} SplitJoinLines(ls: seq<string>)
    requires ls != [] && ls[|ls| - 1] != []
    requires forall i :: 0 <= i < |ls| ==> NoLineBreak(ls[i])
    ensures SplitLines(Join(ls, "\n")) == ls
  {
    if |ls| == 1 {
      SplitLinesSingle(ls[0]);
    } else {
      SplitJoinLines(ls[1..]);
      SplitLinesCons(ls[0], Join(ls[1..], "\n"));
      assert [ls[0]] + ls[1..] == ls;
    }
  }

  /** `-->` first occurs at the very end of `<!--` + body + `-->` when the body has no `>`. */
  lemma FramedBody(body: string)
    requires '>' !in body
    ensures CommentBody(Open + body + Close) == Some(body)
  {
    var text := Open + body + Close;
    assert OccursAt(text, Open, 0);
    var e := |text| - 3;
    assert OccursAt(text, Close, e);
    forall j | 4 <= j < e
      ensures !OccursAt(text, Close, j)
    {
      if j + 2 < e {
        assert text[j + 2] == body[j + 2 - 4];
      }
      assert text[j..j + 3][2] == text[j + 2];
    }
    assert text[4..e] == body;
  }

  /** The lines of a built comment: `<!--`, one line per entry, `-->`, with a plain body. */
  lemma CommentShape(meta: Meta)
    requires AllPlain(meta)
    ensures CommentBody(Comment(meta)) == Some("\n" + Unlines(EntryLines(meta)))
    ensures forall i :: 0 <= i < |meta| ==> NoLineBreak(EntryLines(meta)[i])
  {
    var ls := EntryLines(meta);
    forall i | 0 <= i < |meta|
      ensures NoLineBreak(ls[i]) && '>' !in ls[i]
    {
      EntryRoundTrip(meta[i].0, meta[i].1);
    }
    UnlinesNoClose(ls);
    JoinFramed(Open, ls, Close);
    assert Comment(meta) == Open + ("\n" + Unlines(ls)) + Close;
    FramedBody("\n" + Unlines(ls));
  }

  lemma {:induction false} UnlinesNoClose(ls: seq<string>)
    requires forall i :: 0 <= i < |ls| ==> '>' !in ls[i]
    ensures '>' !in "\n" + Unlines(ls)
  {
    if ls != [] {
      UnlinesNoClose(ls[1..]);
      assert "\n" + Unlines(ls) == "\n" + ls[0] + ("\n" + Unlines(ls[1..]));
    }
  }

  /** The present entries of lines that each carry one entry, after one line that carries none. */
  lemma {:induction false} PresentAfterBlank(es: seq<Option<(string, string)>>, meta: Meta, n: nat)
    requires |es| == |meta| + 1 && es[0].None? && n <= |meta|
    requires forall i :: 0 <= i < |meta| ==> es[i + 1] == Some(meta[i])
    ensures Present(es, n + 1) == meta[..n]
  {
    if n > 0 {
      PresentAfterBlank(es, meta, n - 1);
      assert meta[..n] == meta[..n - 1] + [meta[n - 1]];
    }
  }

  lemma {:induction false} PresentAll(es: seq<Option<(string, string)>>, meta: Meta, n: nat)
    requires |es| == |meta| && n <= |meta|
    requires forall i :: 0 <= i < |meta| ==> es[i] == Some(meta[i])
    ensures Present(es, n) == meta[..n]
  {
    if n > 0 {
      PresentAll(es, meta, n - 1);
      assert meta[..n] == meta[..n - 1] + [meta[n - 1]];
    }
  }

  /** Lines that each carry one entry, with distinct keys, gather back into those entries. */
  lemma GatherAll(es: seq<Option<(string, string)>>, meta: Meta)
    requires DistinctKeys(meta) && |es| == |meta|
    requires forall i :: 0 <= i < |meta| ==> es[i] == Some(meta[i])
    ensures Gather(es, |es|) == meta
  {
    PresentAll(es, meta, |meta|);
    GatherPresent(es, |es|);
    assert meta[..|meta|] == meta;
    FromPairsDistinct(meta);
  }

  /** The same after one leading line that carries no entry. */
  lemma GatherAfterBlank(es: seq<Option<(string, string)>>, meta: Meta)
    requires DistinctKeys(meta) && |es| == |meta| + 1 && es[0].None?
    requires forall i :: 0 <= i < |meta| ==> es[i + 1] == Some(meta[i])
    ensures Gather(es, |es|) == meta
  {
    PresentAfterBlank(es, meta, |meta|);
    GatherPresent(es, |es|);
    assert meta[..|meta|] == meta;
    FromPairsDistinct(meta);
  }

  /** The line of each plain entry is read back as that entry. */
  lemma EntriesOfLines(meta: Meta, cv: bool)
    requires AllPlain(meta)
    ensures forall i :: 0 <= i < |meta| ==> Entries(EntryLines(meta), cv)[i] == Some(meta[i])
  {
    var es := Entries(EntryLines(meta), cv);
    forall i | 0 <= i < |meta|
      ensures es[i] == Some(meta[i])
    {
      EntryRoundTrip(meta[i].0, meta[i].1);
    }
  }

  /** bin/plot_cv.py sees one line per entry: stripping drops the outer newlines. */
  lemma CvLinesOfComment(meta: Meta)
    requires AllPlain(meta)
    ensures CommentBody(Comment(meta)) == Some("\n" + Unlines(EntryLines(meta)))
    ensures CvLines("\n" + Unlines(EntryLines(meta))) == EntryLines(meta)
  {
    var ls := EntryLines(meta);
    CommentShape(meta);
    var body := "\n" + Unlines(ls);
    if meta == [] {
      assert body == "\n" + [] + [];
      TrimPadded("\n", [], [], IsSpace);
    } else {
      var j := Join(ls, "\n");
      JoinNewlines(ls);
      assert body == "\n" + j + "\n";
      JoinEnds(ls, "\n");
      var first := ls[0];
      var last := ls[|ls| - 1];
      assert first[|meta[0].0|] == ':';
      assert j[0] == first[0];
      assert last[|last| - 1] == '"';
      assert j[|j| - 1] == last[|last| - 1];
      TrimPadded("\n", j, "\n", IsSpace);
      SplitJoinLines(ls);
    }
  }

  /**
   * bin/plot_metrics.py reads back what `build_comment` writes: a dictionary
   * of plain entries is parsed from its comment unchanged, order included.
   */
  lemma MetricsRoundTrip(meta: Meta)
    requires DistinctKeys(meta) && AllPlain(meta)
    ensures MetricsTemplate(Comment(meta)) == Ok(meta)
  {
    var ls := EntryLines(meta);
    CommentShape(meta);
    SplitBlankFirst(ls);
    EntriesOfLines(meta, false);
    var es := Entries([""] + ls, false);
    assert forall i :: 0 <= i < |meta| ==> es[i + 1] == Entries(ls, false)[i];
    GatherAfterBlank(es, meta);
  }

  /** bin/plot_cv.py reads back what `build_comment` writes, in the same way. */
  lemma CvRoundTrip(meta: Meta)
    requires DistinctKeys(meta) && AllPlain(meta)
    ensures CvTemplate(Comment(meta)) == Ok(meta)
  {
    CvLinesOfComment(meta);
    EntriesOfLines(meta, true);
    GatherAll(Entries(EntryLines(meta), true), meta);
  }

  // ----------------------------------------------------------- overrides

  /** An option given with a non-empty value: `if args.x:`. */
  predicate Given(arg: Option<string>) {
    arg.Some? && arg.value != []
  }

  /** `if arg: metadata[key] = arg`. */
  function Override(meta: Meta, key: string, arg: Option<string>): Meta {
    if Given(arg) then Put(meta, key, arg.value) else meta
  }

  /** The four overrides of bin/plot_cv.py, in the order the script applies them. */
  function Overridden(meta: Meta, id: Option<string>, title: Option<string>,
                      sectionName: Option<string>, description: Option<string>): Meta
  {
    Override(Override(Override(Override(meta, "id", id), "title", title),
      "section_name", sectionName), "description", description)
  }

  /**
   * One override sets its key when the option is given and leaves everything
   * else alone; a key already present keeps its place, a new one comes last.
   */
  lemma OverrideSpec(meta: Meta, key: string, arg: Option<string>)
    requires DistinctKeys(meta)
    ensures var r := Override(meta, key, arg);
      && DistinctKeys(r)
      && Get(r, key) == (if Given(arg) then Some(arg.value) else Get(meta, key))
      && (forall k :: k != key ==> Get(r, k) == Get(meta, k))
      && Keys(meta) <= Keys(r)
      && (forall i :: |meta| <= i < |r| ==> Keys(r)[i] == key)
  {
    if Given(arg) {
      PutSpec(meta, key, arg.value);
    }
  }

  /** The value of an overridable key after the overrides. */
  function After(meta: Meta, key: string, arg: Option<string>): Option<string> {
    if Given(arg) then Some(arg.value) else Get(meta, key)
  }

  /**
   * After the overrides each of `id`, `title`, `section_name` and
   * `description` carries its option when that was given and its template
   * value otherwise; no other key changes; the template's keys keep their
   * order and only overridden keys are added after them.
   */
  lemma OverriddenSpec(meta: Meta, id: Option<string>, title: Option<string>,
                       sectionName: Option<string>, description: Option<string>)
    requires DistinctKeys(meta)
    ensures var r := Overridden(meta, id, title, sectionName, description);
      && DistinctKeys(r)
      && Get(r, "id") == After(meta, "id", id)
      && Get(r, "title") == After(meta, "title", title)
      && Get(r, "section_name") == After(meta, "section_name", sectionName)
      && Get(r, "description") == After(meta, "description", description)
      && (forall k :: k !in OverridableKeys ==> Get(r, k) == Get(meta, k))
      && Keys(meta) <= Keys(r)
      && (forall i :: |meta| <= i < |r| ==> Keys(r)[i] in OverridableKeys)
  {
    OverriddenDistinct(meta, id, title, sectionName, description);
    OverriddenAt(meta, id, title, sectionName, description, "id");
    OverriddenAt(meta, id, title, sectionName, description, "title");
    OverriddenAt(meta, id, title, sectionName, description, "section_name");
    OverriddenAt(meta, id, title, sectionName, description, "description");
    forall k | k !in OverridableKeys
      ensures Get(Overridden(meta, id, title, sectionName, description), k) == Get(meta, k)
    {
      OverriddenAt(meta, id, title, sectionName, description, k);
    }
    OverriddenKeys(meta, id, title, sectionName, description);
  }

  lemma OverriddenDistinct(meta: Meta, id: Option<string>, title: Option<string>,
                           sectionName: Option<string>, description: Option<string>)
    requires DistinctKeys(meta)
    ensures DistinctKeys(Overridden(meta, id, title, sectionName, description))
  {
    var m1 := Override(meta, "id", id);
    var m2 := Override(m1, "title", title);
    var m3 := Override(m2, "section_name", sectionName);
    OverrideSpec(meta, "id", id);
    OverrideSpec(m1, "title", title);
    OverrideSpec(m2, "section_name", sectionName);
    OverrideSpec(m3, "description", description);
  }

  /** The value of any key after the four overrides. */
  lemma OverriddenAt(meta: Meta, id: Option<string>, title: Option<string>,
                     sectionName: Option<string>, description: Option<string>, k: string)
    ensures Get(Overridden(meta, id, title, sectionName, description), k)
      == if k == "id" then After(meta, k, id)
         else if k == "title" then After(meta, k, title)
         else if k == "section_name" then After(meta, k, sectionName)
         else if k == "description" then After(meta, k, description)
         else Get(meta, k)
  {
    var m1 := Override(meta, "id", id);
    var m2 := Override(m1, "title", title);
    var m3 := Override(m2, "section_name", sectionName);
    OverrideAt(meta, "id", id, k);
    OverrideAt(m1, "title", title, k);
    OverrideAt(m2, "section_name", sectionName, k);
    OverrideAt(m3, "description", description, k);
  }

  /** The value of one key after one override. */
  lemma OverrideAt(meta: Meta, key: string, arg: Option<string>, k: string)
    ensures Get(Override(meta, key, arg), k) == if k == key then After(meta, key, arg) else Get(meta, k)
  {
    if Given(arg) {
      PutGet(meta, key, arg.value);
    }
  }

  lemma OverriddenKeys(meta: Meta, id: Option<string>, title: Option<string>,
                       sectionName: Option<string>, description: Option<string>)
    requires DistinctKeys(meta)
    ensures var r := Overridden(meta, id, title, sectionName, description);
      && Keys(meta) <= Keys(r)
      && (forall i :: |meta| <= i < |r| ==> Keys(r)[i] in OverridableKeys)
  {
    var m1 := Override(meta, "id", id);
    var m2 := Override(m1, "title", title);
    var m3 := Override(m2, "section_name", sectionName);
    OverrideSpec(meta, "id", id);
    OverrideSpec(m1, "title", title);
    OverrideSpec(m2, "section_name", sectionName);
    OverrideGrows(meta, meta, "id", id);
    OverrideGrows(meta, m1, "title", title);
    OverrideGrows(meta, m2, "section_name", sectionName);
    OverrideGrows(meta, m3, "description", description);
  }

  /** The keys bin/plot_cv.py can override. */
  const OverridableKeys: seq<string> := ["id", "title", "section_name", "description"]

  /** An override keeps the template's keys first and adds only overridable ones after them. */
  lemma OverrideGrows(meta: Meta, m: Meta, key: string, arg: Option<string>)
    requires DistinctKeys(m) && key in OverridableKeys
    requires Keys(meta) <= Keys(m)
    requires forall i :: |meta| <= i < |m| ==> Keys(m)[i] in OverridableKeys
    ensures var r := Override(m, key, arg);
      && Keys(meta) <= Keys(r)
      && (forall i :: |meta| <= i < |r| ==> Keys(r)[i] in OverridableKeys)
  {
    OverrideSpec(m, key, arg);
    var r := Override(m, key, arg);
    forall i | |meta| <= i < |r|
      ensures Keys(r)[i] in OverridableKeys
    {
      if i < |m| {
        assert Keys(r)[i] == Keys(m)[i];
      }
    }
  }
}
