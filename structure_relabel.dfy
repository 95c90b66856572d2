/**
 * The relabelling half of bin/snpio_convert_structure.py: read the popmap
 * (`sample  Kx` per line), then rewrite the STRUCTURE file that snpio wrote,
 * two lines per sample, putting the sample's population number in column 1,
 * under a header line numbering the loci. Files are sequences of lines
 * without their terminators; the written file is a string.
 */
module StructureRelabel {
  import opened Wrappers
  import opened Text
  import opened Dicts

  // ------------------------------------------------------------- popmap

  datatype PopmapError =
    | Malformed(line: string)   // a line that does not split into exactly two fields
    | BadGroup(group: string)   // a group that is not an integer once its leading `K`s are gone

  /** A popmap: sample name to population number, in insertion order. */
  type Popmap = seq<(string, int)>

  predicate IsK(c: char) {
    c == 'K'
  }

  /** One line of `parse_popmap`: `sample, group = line.strip().split()`, then `int(group.lstrip("K"))`. */
  function PopmapEntry(line: string): Result<(string, int), PopmapError>
  {
    var fields := Split(Strip(line));
    if |fields| != 2 then Err(Malformed(line))
    else
      match ParseInt(TrimLeft(fields[1], IsK))
      case None => Err(BadGroup(fields[1]))
      case Some(id) => Ok((fields[0], id))
  }

  /** The outcome of every line, parsed independently. */
  function PopmapEntries(lines: seq<string>): (es: seq<Result<(string, int), PopmapError>>)
    ensures |es| == |lines|
  {
    seq(|lines|, i requires 0 <= i < |lines| => PopmapEntry(lines[i]))
  }

  /** The popmap after the first n lines, or the error of the first bad line. */
  function Collect(es: seq<Result<(string, int), PopmapError>>, n: nat): Result<Popmap, PopmapError>
    requires n <= |es|
  {
    if n == 0 then Ok([])
    else
      match Collect(es, n - 1)
      case Err(e) => Err(e)
      case Ok(popmap) =>
        match es[n - 1]
        case Err(e) => Err(e)
        case Ok(entry) => Ok(Put(popmap, entry.0, entry.1))
  }

  /** What `parse_popmap` returns for the lines of the file, or the error it raises. */
  function ReadPopmap(lines: seq<string>): Result<Popmap, PopmapError>
  {
    Collect(PopmapEntries(lines), |lines|)
  }

  /** `parse_popmap`, reading the file as a sequence of lines. */
  method ParsePopmap(lines: seq<string>) returns (r: Result<Popmap, PopmapError>)
    ensures r == ReadPopmap(lines)
  {
    ghost var es := PopmapEntries(lines);
    var popmap: Popmap := [];
    for i := 0 to |lines|
      invariant Collect(es, i) == Ok(popmap)
    {
      var e := ParsePopmapLine(lines[i]);
      assert es[i] == e;
      if e.Err? {
        CollectStops(es, i + 1, |lines|);
        return Err(e.error);
      }
      popmap := Put(popmap, e.value.0, e.value.1);
    }
    return Ok(popmap);
  }

  /** The body of the loop of `parse_popmap` for one line, up to the assignment. */
  method ParsePopmapLine(line: string) returns (r: Result<(string, int), PopmapError>)
    ensures r == PopmapEntry(line)
  {
    var fields := Split(Strip(line));
    if |fields| != 2 {
      return Err(Malformed(line));
    }
    var sample, group := fields[0], fields[1];
    var id := ParseInt(TrimLeft(group, IsK));
    if id.None? {
      return Err(BadGroup(group));
    }
    return Ok((sample, id.value));
  }

  lemma {:induction false} CollectStops(es: seq<Result<(string, int), PopmapError>>, n: nat, m: nat)
    requires n <= m <= |es|
    requires Collect(es, n).Err?
    ensures Collect(es, m) == Collect(es, n)
    decreases m - n
  {
    if n < m {
      CollectStops(es, n + 1, m);
    }
  }

  /** The pairs of the first n outcomes, all of which succeed. */
  function Values(es: seq<Result<(string, int), PopmapError>>, n: nat): (vs: seq<(string, int)>)
    requires n <= |es|
    requires forall i :: 0 <= i < n ==> es[i].Ok?
    ensures |vs| == n && forall i :: 0 <= i < n ==> vs[i] == es[i].value
  {
    seq(n, i requires 0 <= i < n => es[i].value)
  }

  lemma {:induction false} CollectSpec(es: seq<Result<(string, int), PopmapError>>, n: nat)
    requires n <= |es|
    ensures Collect(es, n).Ok? <==> forall i :: 0 <= i < n ==> es[i].Ok?
    ensures Collect(es, n).Ok? ==> Collect(es, n).value == FromPairs(Values(es, n))
    ensures Collect(es, n).Err? ==> exists i :: (0 <= i < n && es[i] == Err(Collect(es, n).error)
      && forall j :: 0 <= j < i ==> es[j].Ok?)
  {
    if n > 0 {
      CollectSpec(es, n - 1);
      if Collect(es, n - 1).Ok? && es[n - 1].Ok? {
        assert Values(es, n)[..n - 1] == Values(es, n - 1);
      }
    }
  }

  /**
   * `parse_popmap` fails exactly when some line is malformed or has a bad
   * group, and then with the error of the first such line; otherwise the
   * popmap is `dict` of the lines' pairs, so it names each sample once, with
   * the id of the last line naming it, and no sample that no line names.
   */
  lemma PopmapSpec(lines: seq<string>, sample: string)
    ensures ReadPopmap(lines).Ok? <==> forall i :: 0 <= i < |lines| ==> PopmapEntry(lines[i]).Ok?
    ensures ReadPopmap(lines).Err? ==> exists i :: (0 <= i < |lines|
      && PopmapEntry(lines[i]) == Err(ReadPopmap(lines).error)
      && forall j :: 0 <= j < i ==> PopmapEntry(lines[j]).Ok?)
    ensures ReadPopmap(lines).Ok? ==>
      var es := PopmapEntries(lines);
      && DistinctKeys(ReadPopmap(lines).value)
      && Get(ReadPopmap(lines).value, sample) == LastValue(Values(es, |lines|), sample)
  {
    var es := PopmapEntries(lines);
    assert forall i :: 0 <= i < |lines| ==> es[i] == PopmapEntry(lines[i]);
    CollectSpec(es, |lines|);
    if ReadPopmap(lines).Ok? {
      FromPairsLastWins(Values(es, |lines|), sample);
    }
  }

  /** The fields of a line `sample<TAB>group` with no whitespace inside either. */
  lemma FieldsOf(sample: string, group: string)
    requires sample != [] && NoSpace(sample)
    requires group != [] && NoSpace(group)
    ensures Split(Strip(sample + "\t" + group)) == [sample, group]
  {
    var line := sample + "\t" + group;
    TrimKeeps(line, IsSpace);
    SplitJoin([sample, group], "\t");
    assert Join([sample, group], "\t") == line;
  }

  /** `int(("K" * ks + str(id)).lstrip("K")) == id`. */
  lemma GroupOf(ks: nat, id: int)
    ensures ParseInt(TrimLeft(seq(ks, _ => 'K') + IntToString(id), IsK)) == Some(id)
  {
    var s := IntToString(id);
    TrimLeftSkips(seq(ks, _ => 'K'), s, IsK);
    assert s[0] == '-' || IsDigit(s[0]);
    TrimLeftKeeps(s, IsK);
    ParseIntToString(id);
  }

  /** A line `sample<TAB>K…K<id>` is read back as (sample, id), whatever the number of `K`s. */
  lemma PopmapEntryOf(sample: string, ks: nat, id: int)
    requires sample != [] && NoSpace(sample)
    ensures PopmapEntry(sample + "\t" + (seq(ks, _ => 'K') + IntToString(id))) == Ok((sample, id))
  {
    var group := seq(ks, _ => 'K') + IntToString(id);
    assert NoSpace(group) by {
      forall i | 0 <= i < |group| ensures !IsSpace(group[i]) {
        if i >= ks {
          assert group[i] == IntToString(id)[i - ks];
        }
      }
    }
    var line := sample + "\t" + group;
    FieldsOf(sample, group);
    var fields := Split(Strip(line));
    assert fields[0] == sample && fields[1] == group;
    GroupOf(ks, id);
    assert ParseInt(TrimLeft(fields[1], IsK)) == Some(id);
  }

  // ------------------------------------------------------------ relabel

  datatype RelabelError =
    | EmptyInput                                // the STRUCTURE file has no line
    | MissingField(line: string)                // a line with fewer fields than the rewrite reads
    | Mismatched(first: string, second: string) // the two lines of a pair name different samples
    | UnknownSample(sample: string)             // a sample the popmap does not list

  /** `"\t".join(str(i) for i in range(n))`: the loci numbered from 0; empty when n <= 0. */
  function HeaderLine(n: int): string
  {
    Join(LocusNumbers(n), "\t")
  }

  function LocusNumbers(n: int): (ns: seq<string>)
    ensures |ns| == (if n <= 0 then 0 else n)
  {
    if n <= 0 then [] else seq(n, i requires 0 <= i < n => NatToString(i))
  }

  /** The number of loci: the field count of the first line minus the name and population columns. */
  function NumLoci(first: string): int
  {
    |Split(Strip(first))| - 2
  }

  /**
   * One pass of the pair loop: both lines split into fields, the first
   * fields must agree and name a sample of the popmap, and field 1 of each
   * line becomes the sample's population number.
   */
  function RelabelPair(line1: string, line2: string, popmap: Popmap): Result<(seq<string>, seq<string>), RelabelError>
  {
    var parts1, parts2 := Split(Strip(line1)), Split(Strip(line2));
    if parts1 == [] then Err(MissingField(line1))
    else if parts2 == [] then Err(MissingField(line2))
    else if parts1[0] != parts2[0] then Err(Mismatched(parts1[0], parts2[0]))
    else
      match Get(popmap, parts1[0])
      case None => Err(UnknownSample(parts1[0]))
      case Some(id) =>
        if |parts1| < 2 then Err(MissingField(line1))
        else if |parts2| < 2 then Err(MissingField(line2))
        else Ok((parts1[1 := IntToString(id)], parts2[1 := IntToString(id)]))
  }

  /** The outcome of every complete pair of lines, rewritten independently. */
  function PairOutcomes(lines: seq<string>, popmap: Popmap): (rs: seq<Result<(seq<string>, seq<string>), RelabelError>>)
    ensures |rs| == |lines| / 2
    decreases |lines|
  {
    if |lines| < 2 then [] else [RelabelPair(lines[0], lines[1], popmap)] + PairOutcomes(lines[2..], popmap)
  }

  lemma {:induction false} PairOutcomeAt(lines: seq<string>, popmap: Popmap, k: nat)
    requires 2 * k + 1 < |lines|
    ensures PairOutcomes(lines, popmap)[k] == RelabelPair(lines[2 * k], lines[2 * k + 1], popmap)
    decreases k
  {
    var rs := PairOutcomes(lines, popmap);
    var t := lines[2..];
    assert rs == [RelabelPair(lines[0], lines[1], popmap)] + PairOutcomes(t, popmap);
    if k > 0 {
      PairOutcomeAt(t, popmap, k - 1);
      assert t[2 * (k - 1)] == lines[2 * k] && t[2 * (k - 1) + 1] == lines[2 * k + 1];
      assert rs[k] == PairOutcomes(t, popmap)[k - 1];
    }
  }

  /** One more pair written. */
  lemma WrittenStep(rs: seq<Result<(seq<string>, seq<string>), RelabelError>>, k: nat, out: seq<string>)
    requires k < |rs| && Written(rs, k) == Ok(out)
    ensures rs[k].Err? ==> Written(rs, k + 1) == Err(rs[k].error)
    ensures rs[k].Ok? ==> Written(rs, k + 1) == Ok(out + [Join(rs[k].value.0, "\t"), Join(rs[k].value.1, "\t")])
  {
  }

  /** The output lines of the first k pairs, or the error of the first bad pair. */
  function Written(rs: seq<Result<(seq<string>, seq<string>), RelabelError>>, k: nat): Result<seq<string>, RelabelError>
    requires k <= |rs|
  {
    if k == 0 then Ok([])
    else
      match Written(rs, k - 1)
      case Err(e) => Err(e)
      case Ok(out) =>
        match rs[k - 1]
        case Err(e) => Err(e)
        case Ok((parts1, parts2)) => Ok(out + [Join(parts1, "\t"), Join(parts2, "\t")])
  }

  /** The labelled STRUCTURE text for the lines read, or the error that stops the rewrite. */
  function Relabel(lines: seq<string>, popmap: Popmap): Result<string, RelabelError>
  {
    if lines == [] then Err(EmptyInput)
    else
      match Written(PairOutcomes(lines, popmap), |lines| / 2)
      case Err(e) => Err(e)
      case Ok(out) => Ok(Unlines([HeaderLine(NumLoci(lines[0]))] + out))
  }

  lemma {:induction false} WrittenStops(rs: seq<Result<(seq<string>, seq<string>), RelabelError>>, k: nat, m: nat)
    requires k <= m <= |rs|
    requires Written(rs, k).Err?
    ensures Written(rs, m) == Written(rs, k)
    decreases m - k
  {
    if k < m {
      WrittenStops(rs, k + 1, m);
    }
  }

  lemma UnlinesAppend(ls: seq<string>, x: string)
    ensures Unlines(ls + [x]) == Unlines(ls) + x + "\n"
  {
    if ls != [] {
      assert (ls + [x])[1..] == ls[1..] + [x];
      UnlinesAppend(ls[1..], x);
    }
  }

  lemma UnlinesExtend(header: string, out: seq<string>, x: string, y: string)
    ensures Unlines([header] + (out + [x, y])) == Unlines([header] + out) + x + "\n" + y + "\n"
  {
    UnlinesAppend([header] + out, x);
    UnlinesAppend([header] + out + [x], y);
    assert [header] + (out + [x, y]) == [header] + out + [x] + [y];
  }

  /** A second line exists exactly while whole pairs remain. */
  lemma Halves(n: nat, k: nat)
    requires 2 * k <= n
    ensures 2 * k + 1 < n ==> k < n / 2
    ensures 2 * k + 1 >= n ==> k == n / 2
  {
  }

  /** Lines 73-85 of bin/snpio_convert_structure.py: split both lines, check them, and overwrite field 1 of each. */
  method RewritePair(line1: string, line2: string, popmap: Popmap)
    returns (r: Result<(seq<string>, seq<string>), RelabelError>)
    ensures r == RelabelPair(line1, line2, popmap)
  {
    var parts1, parts2 := Split(Strip(line1)), Split(Strip(line2));
    if parts1 == [] {
      return Err(MissingField(line1));
    }
    if parts2 == [] {
      return Err(MissingField(line2));
    }
    var sample := parts1[0];
    if sample != parts2[0] {
      return Err(Mismatched(sample, parts2[0]));
    }
    var popId := Get(popmap, sample);
    if popId.None? {
      return Err(UnknownSample(sample));
    }
    if |parts1| < 2 {
      return Err(MissingField(line1));
    }
    parts1 := parts1[1 := IntToString(popId.value)];
    if |parts2| < 2 {
      return Err(MissingField(line2));
    }
    parts2 := parts2[1 := IntToString(popId.value)];
    return Ok((parts1, parts2));
  }

  /**
   * The `main` block of bin/snpio_convert_structure.py from line 56 on: refuse an empty file, write the header,
   * then rewrite the pairs.
   */
  method RelabelStructure(lines: seq<string>, popmap: Popmap) returns (r: Result<string, RelabelError>)
    ensures r == Relabel(lines, popmap)
  {
    if |lines| == 0 {
      return Err(EmptyInput);
    }
    var numLoci := |Split(Strip(lines[0]))| - 2;
    var header := HeaderLine(numLoci);
    r := RewritePairs(lines, popmap, header);
  }

  /**
   * The `while True` loop: read two lines at a time until the second is
   * missing, rewriting field 1 of both and writing them tab-joined after
   * the header.
   */
  method RewritePairs(lines: seq<string>, popmap: Popmap, header: string) returns (r: Result<string, RelabelError>)
    ensures Written(PairOutcomes(lines, popmap), |lines| / 2).Err? ==>
      r == Err(Written(PairOutcomes(lines, popmap), |lines| / 2).error)
    ensures Written(PairOutcomes(lines, popmap), |lines| / 2).Ok? ==>
      r == Ok(Unlines([header] + Written(PairOutcomes(lines, popmap), |lines| / 2).value))
  {
    ghost var rs := PairOutcomes(lines, popmap);
    ghost var out: seq<string> := [];
    var text := header + "\n";
    var k := 0;
    while 2 * k + 1 < |lines|
      invariant 2 * k <= |lines| && |rs| == |lines| / 2
      invariant Written(rs, k) == Ok(out)
      invariant text == Unlines([header] + out)
    {
      Halves(|lines|, k);
      var pair := RewritePair(lines[2 * k], lines[2 * k + 1], popmap);
      PairOutcomeAt(lines, popmap, k);
      WrittenStep(rs, k, out);
      if pair.Err? {
        WrittenStops(rs, k + 1, |rs|);
        return Err(pair.error);
      }
      var (parts1, parts2) := pair.value;
      var written1, written2 := Join(parts1, "\t"), Join(parts2, "\t");
      UnlinesExtend(header, out, written1, written2);
      text := text + written1 + "\n" + written2 + "\n";
      out := out + [written1, written2];
      k := k + 1;
    }
    Halves(|lines|, k);
    return Ok(text);
  }


  // ---------------------------------------------------------- properties

  /** Tokens without whitespace joined by tabs contain no line boundary. */
  lemma {:induction false} JoinTabsNoLineBreak(parts: seq<string>)
    requires forall j :: 0 <= j < |parts| ==> NoSpace(parts[j])
    ensures NoLineBreak(Join(parts, "\t"))
    decreases |parts|
  {
    if |parts| > 1 {
      JoinTabsNoLineBreak(parts[1..]);
      var rest := Join(parts[1..], "\t");
      var s := parts[0] + "\t" + rest;
      assert Join(parts, "\t") == s;
      forall i | 0 <= i < |s| ensures !IsLineBreak(s[i]) {
        if i < |parts[0]| {
          assert s[i] == parts[0][i];
        } else if i > |parts[0]| {
          assert s[i] == rest[i - |parts[0]| - 1];
        }
      }
    }
  }

  /**
   * A pair is rewritten exactly when both lines have at least two fields,
   * their first fields agree and the popmap lists that sample. Then both
   * lines keep every field but field 1, which becomes the population number,
   * and each written line splits back into exactly those fields.
   */
  lemma RelabelPairSpec(line1: string, line2: string, popmap: Popmap)
    ensures var parts1, parts2 := Split(Strip(line1)), Split(Strip(line2));
      RelabelPair(line1, line2, popmap).Ok? <==>
        |parts1| >= 2 && |parts2| >= 2 && parts1[0] == parts2[0] && Get(popmap, parts1[0]).Some?
    ensures RelabelPair(line1, line2, popmap).Ok? ==>
      var parts1, parts2 := Split(Strip(line1)), Split(Strip(line2));
      var (out1, out2) := RelabelPair(line1, line2, popmap).value;
      var id := IntToString(Get(popmap, parts1[0]).value);
      && |out1| == |parts1| && |out2| == |parts2|
      && out1[1] == id && out2[1] == id
      && (forall j :: 0 <= j < |parts1| && j != 1 ==> out1[j] == parts1[j])
      && (forall j :: 0 <= j < |parts2| && j != 1 ==> out2[j] == parts2[j])
      && Split(Join(out1, "\t")) == out1 && Split(Join(out2, "\t")) == out2
  {
    if RelabelPair(line1, line2, popmap).Ok? {
      var (out1, out2) := RelabelPair(line1, line2, popmap).value;
      SplitJoin(out1, "\t");
      SplitJoin(out2, "\t");
    }
  }

  /** The output lines of k pairs: two per pair, in input order, when none fails. */
  lemma {:induction false} WrittenSpec(rs: seq<Result<(seq<string>, seq<string>), RelabelError>>, k: nat)
    requires k <= |rs|
    ensures Written(rs, k).Ok? <==> forall j :: 0 <= j < k ==> rs[j].Ok?
    ensures Written(rs, k).Ok? ==>
      var out := Written(rs, k).value;
      && |out| == 2 * k
      && forall j :: 0 <= j < k ==>
           out[2 * j] == Join(rs[j].value.0, "\t") && out[2 * j + 1] == Join(rs[j].value.1, "\t")
    ensures Written(rs, k).Err? ==> exists j :: (0 <= j < k && rs[j] == Err(Written(rs, k).error)
      && forall i :: 0 <= i < j ==> rs[i].Ok?)
  {
    if k > 0 {
      WrittenSpec(rs, k - 1);
    }
  }

  /**
   * The rewrite fails exactly on an empty file or when some complete pair
   * cannot be rewritten, and then with the error of the first such pair.
   */
  lemma RelabelFails(lines: seq<string>, popmap: Popmap)
    ensures Relabel(lines, popmap) == Err(EmptyInput) <==> lines == []
    ensures Relabel(lines, popmap).Err? <==>
      lines == [] || exists k :: 0 <= k < |lines| / 2 && RelabelPair(lines[2 * k], lines[2 * k + 1], popmap).Err?
    ensures lines != [] && Relabel(lines, popmap).Err? ==> exists k :: (0 <= k < |lines| / 2
      && RelabelPair(lines[2 * k], lines[2 * k + 1], popmap) == Err(Relabel(lines, popmap).error)
      && forall j :: 0 <= j < k ==> RelabelPair(lines[2 * j], lines[2 * j + 1], popmap).Ok?)
  {
    if lines != [] {
      var rs := PairOutcomes(lines, popmap);
      WrittenSpec(rs, |rs|);
      forall k | 0 <= k < |rs| ensures rs[k] == RelabelPair(lines[2 * k], lines[2 * k + 1], popmap) {
        PairOutcomeAt(lines, popmap, k);
      }
    }
  }

  /** The header splits into the locus numbers 0, 1, …, n − 1. */
  lemma HeaderTokens(n: int)
    ensures Split(HeaderLine(n)) == LocusNumbers(n)
    ensures NoLineBreak(HeaderLine(n))
  {
    var ns := LocusNumbers(n);
    forall j | 0 <= j < |ns| ensures ns[j] != [] && NoSpace(ns[j]) {
      assert IsDigits(ns[j]);
    }
    SplitJoin(ns, "\t");
    JoinTabsNoLineBreak(ns);
  }

  /**
   * Read back line by line, the written text is the header, then the two
   * rewritten lines of every pair in input order, each splitting into its
   * rewritten fields.
   */
  lemma RelabelLines(lines: seq<string>, popmap: Popmap)
    requires Relabel(lines, popmap).Ok?
    ensures var text := Relabel(lines, popmap).value;
      var ls := SplitLines(text);
      && |ls| == 1 + 2 * (|lines| / 2)
      && ls[0] == HeaderLine(NumLoci(lines[0]))
      && forall k :: 0 <= k < |lines| / 2 ==>
           && RelabelPair(lines[2 * k], lines[2 * k + 1], popmap).Ok?
           && ls[2 * k + 1] == Join(RelabelPair(lines[2 * k], lines[2 * k + 1], popmap).value.0, "\t")
           && ls[2 * k + 2] == Join(RelabelPair(lines[2 * k], lines[2 * k + 1], popmap).value.1, "\t")
  {
    var rs := PairOutcomes(lines, popmap);
    WrittenSpec(rs, |rs|);
    var out := Written(rs, |rs|).value;
    forall k | 0 <= k < |rs| ensures rs[k] == RelabelPair(lines[2 * k], lines[2 * k + 1], popmap) {
      PairOutcomeAt(lines, popmap, k);
    }
    var all := [HeaderLine(NumLoci(lines[0]))] + out;
    HeaderTokens(NumLoci(lines[0]));
    forall k | 0 <= k < |rs| ensures Tabbable(rs[k]) {
      PairTokens(lines[2 * k], lines[2 * k + 1], popmap);
    }
    WrittenNoLineBreak(rs, |rs|);
    SplitUnlines(all);
  }

  /** A successful outcome whose fields contain no whitespace. */
  predicate Tabbable(r: Result<(seq<string>, seq<string>), RelabelError>) {
    r.Ok? ==>
      && (forall j :: 0 <= j < |r.value.0| ==> NoSpace(r.value.0[j]))
      && (forall j :: 0 <= j < |r.value.1| ==> NoSpace(r.value.1[j]))
  }

  lemma PairTokens(line1: string, line2: string, popmap: Popmap)
    ensures Tabbable(RelabelPair(line1, line2, popmap))
  {
  }

  lemma WrittenNoLineBreak(rs: seq<Result<(seq<string>, seq<string>), RelabelError>>, n: nat)
    requires n <= |rs| && Written(rs, n).Ok?
    requires forall k :: 0 <= k < n ==> Tabbable(rs[k])
    ensures forall i :: 0 <= i < |Written(rs, n).value| ==> NoLineBreak(Written(rs, n).value[i])
  {
    WrittenSpec(rs, n);
    var out := Written(rs, n).value;
    forall i | 0 <= i < |out| ensures NoLineBreak(out[i]) {
      var k := i / 2;
      if i % 2 == 0 {
        assert out[i] == out[2 * k];
        JoinTabsNoLineBreak(rs[k].value.0);
      } else {
        assert out[i] == out[2 * k + 1];
        JoinTabsNoLineBreak(rs[k].value.1);
      }
    }
  }

  /** A last line without a partner is dropped: the text is that of the other lines. */
  lemma DropsUnpaired(lines: seq<string>, popmap: Popmap)
    requires |lines| % 2 == 1 && |lines| > 1
    ensures Relabel(lines, popmap) == Relabel(lines[..|lines| - 1], popmap)
  {
    var shorter := lines[..|lines| - 1];
    var rs, rs' := PairOutcomes(lines, popmap), PairOutcomes(shorter, popmap);
    forall k | 0 <= k < |rs| ensures rs[k] == rs'[k] {
      PairOutcomeAt(lines, popmap, k);
      PairOutcomeAt(shorter, popmap, k);
    }
    assert rs == rs';
  }
}
