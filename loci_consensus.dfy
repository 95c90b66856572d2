/**
 * bin/loci_to_consensus.py: parse an ipyrad `.loci` alignment file into
 * blocks, take a per-column majority vote in each block, and write one FASTA
 * record per block index. The file is a sequence of lines; the written FASTA
 * is a string.
 */
module LociConsensus {
  import opened Wrappers
  import opened Text
  import opened Dicts

  /** One alignment block: the index of its closing `//` line and its sequences in file order. */
  datatype Locus = Locus(index: nat, sequences: seq<string>)

  datatype LociError =
    | MissingIndex(line: string)  // a `//` line that does not end in `|digits|`
    | Ragged(index: nat)          // a block whose sequences differ in length

  // ------------------------------------------------------------ parsing

  /** The position of the last `c` in `s`. */
  function LastIndex(s: string, c: char): (r: Option<nat>)
    ensures r.Some? ==> r.value < |s| && s[r.value] == c && c !in s[r.value + 1..]
    ensures r.None? ==> c !in s
  {
    if s == [] then None
    else if s[|s| - 1] == c then
      assert s[|s|..] == [];
      Some(|s| - 1)
    else
      var r := LastIndex(s[..|s| - 1], c);
      assert s == s[..|s| - 1] + [s[|s| - 1]];
      if r.Some? then
        assert s[r.value + 1..] == s[..|s| - 1][r.value + 1..] + [s[|s| - 1]];
        r
      else r
  }

  /**
   * The number matched by `\|(\d+)\|$` in a line: the line must end in a bar,
   * and the text between that bar and the bar before it must be digits.
   */
  function TrailingIndex(s: string): Option<nat>
  {
    if s == [] || s[|s| - 1] != '|' then None
    else
      var body := s[..|s| - 1];
      match LastIndex(body, '|')
      case None => None
      case Some(j) =>
        var digits := body[j + 1..];
        if IsDigits(digits) then Some(DigitsValue(digits)) else None
  }

  /** Any line ending in `|digits|` yields those digits' value. */
  lemma TrailingIndexOf(u: string, d: string)
    requires IsDigits(d)
    ensures TrailingIndex(u + "|" + d + "|") == Some(DigitsValue(d))
  {
    var s := u + "|" + d + "|";
    var body := s[..|s| - 1];
    assert body == u + "|" + d;
    assert body[|u|] == '|';
    assert forall i :: |u| < i < |body| ==> body[i] == d[i - |u| - 1];
    assert forall i :: |u| < i < |body| ==> body[i] != '|';
    var j := LastIndex(body, '|');
    assert body[|u|] in body;
    assert j.Some? && j.value == |u|;
    assert body[j.value + 1..] == d;
  }

  /** Conversely, a successful match splits the line into text, `|`, digits and a final `|`. */
  lemma TrailingIndexShape(s: string) returns (u: string, d: string)
    requires TrailingIndex(s).Some?
    ensures s == u + "|" + d + "|" && IsDigits(d) && DigitsValue(d) == TrailingIndex(s).value
  {
    var body := s[..|s| - 1];
    var j := LastIndex(body, '|').value;
    u, d := body[..j], body[j + 1..];
    assert body == u + "|" + d;
    assert s == body + "|";
  }

  /** A stripped line of the file: blank, a `//` separator with its index if any, or an entry. */
  datatype LineKind =
    | Blank
    | Separator(line: string, index: Option<nat>)
    | Entry(sequence: Option<string>)

  /** The sequence an entry line contributes: its second field without `>`, stripped. */
  function SequenceOf(line: string): Option<string>
  {
    var parts := SplitOnce(line);
    if |parts| == 2 then Some(Strip(RemoveChar(parts[1], '>'))) else None
  }

  /** How `parse_loci_file` reads a line once it has stripped it. */
  function Classify(raw: string): LineKind
  {
    var line := Strip(raw);
    if line == [] then Blank
    else if StartsWith(line, "//") then Separator(line, TrailingIndex(line))
    else Entry(SequenceOf(line))
  }

  function Kinds(lines: seq<string>): (ks: seq<LineKind>)
    ensures |ks| == |lines|
  {
    seq(|lines|, i requires 0 <= i < |lines| => Classify(lines[i]))
  }

  /** The parser's state between lines: the closed blocks and the sequences of the open one. */
  datatype ParseState = ParseState(alignments: seq<Locus>, current: seq<string>)

  /** One iteration of the line loop of `parse_loci_file`. */
  function Step(st: ParseState, kind: LineKind): Result<ParseState, LociError>
  {
    match kind
    case Blank => Ok(st)
    case Separator(line, None) => Err(MissingIndex(line))
    case Separator(_, Some(index)) =>
      if st.current != [] then Ok(ParseState(st.alignments + [Locus(index, st.current)], []))
      else Ok(st)
    case Entry(None) => Ok(st)
    case Entry(Some(sequence)) => Ok(ParseState(st.alignments, st.current + [sequence]))
  }

  /** The state after the first n lines, or the error that stopped the loop. */
  function ParseUpTo(kinds: seq<LineKind>, n: nat): Result<ParseState, LociError>
    requires n <= |kinds|
  {
    if n == 0 then Ok(ParseState([], []))
    else
      match ParseUpTo(kinds, n - 1)
      case Err(e) => Err(e)
      case Ok(st) => Step(st, kinds[n - 1])
  }

  /** What `parse_loci_file` returns: the closed blocks; sequences after the last `//` are dropped. */
  function ParseLoci(lines: seq<string>): Result<seq<Locus>, LociError>
  {
    ParseKinds(Kinds(lines))
  }

  /** The closed blocks after all lines of the given kinds. */
  function ParseKinds(kinds: seq<LineKind>): Result<seq<Locus>, LociError>
  {
    match ParseUpTo(kinds, |kinds|)
    case Err(e) => Err(e)
    case Ok(st) => Ok(st.alignments)
  }

  /** `parse_loci_file`, reading the file as a sequence of lines. */
  method ParseLociFile(lines: seq<string>) returns (r: Result<seq<Locus>, LociError>)
    ensures r == ParseLoci(lines)
  {
    ghost var kinds := Kinds(lines);
    var alignments: seq<Locus> := [];
    var current: seq<string> := [];
    var index := 0;
    for i := 0 to |lines|
      invariant ParseUpTo(kinds, i) == Ok(ParseState(alignments, current))
    {
      ghost var st := ParseState(alignments, current);
      assert ParseUpTo(kinds, i + 1) == Step(st, kinds[i]);
      var line := Strip(lines[i]);
      if line == [] {
        assert kinds[i] == Blank;
        assert Step(st, kinds[i]) == Ok(st);
        continue;
      }
      if StartsWith(line, "//") {
        var found := TrailingIndex(line);
        assert kinds[i] == Separator(line, found);
        if found.Some? {
          index := found.value;
        } else {
          ErrorStays(kinds, i + 1, |lines|);
          return Err(MissingIndex(line));
        }
        if current != [] {
          alignments := alignments + [Locus(index, current)];
          current := [];
        }
        assert ParseUpTo(kinds, i + 1) == Ok(ParseState(alignments, current));
      } else {
        var parts := SplitOnce(line);
        assert kinds[i] == Entry(SequenceOf(line));
        if |parts| == 2 {
          current := current + [Strip(RemoveChar(parts[1], '>'))];
        }
        assert ParseUpTo(kinds, i + 1) == Ok(ParseState(alignments, current));
      }
    }
    return Ok(alignments);
  }

  lemma {:induction false} ErrorStays(kinds: seq<LineKind>, n: nat, m: nat)
    requires n <= m <= |kinds|
    requires ParseUpTo(kinds, n).Err?
    ensures ParseUpTo(kinds, m) == ParseUpTo(kinds, n)
    decreases m - n
  {
    if n < m {
      ErrorStays(kinds, n + 1, m);
    }
  }

  lemma {:induction false} BlocksNonEmpty(kinds: seq<LineKind>, n: nat)
    requires n <= |kinds|
    requires ParseUpTo(kinds, n).Ok?
    ensures forall b :: 0 <= b < |ParseUpTo(kinds, n).value.alignments| ==>
      ParseUpTo(kinds, n).value.alignments[b].sequences != []
  {
    if n > 0 {
      BlocksNonEmpty(kinds, n - 1);
    }
  }

  /** A separator without an index. */
  predicate IsBadSeparator(kind: LineKind) {
    kind.Separator? && kind.index.None?
  }

  lemma {:induction false} ParseFailsIff(kinds: seq<LineKind>, n: nat)
    requires n <= |kinds|
    ensures ParseUpTo(kinds, n).Err? <==> exists i :: 0 <= i < n && IsBadSeparator(kinds[i])
  {
    if n > 0 {
      ParseFailsIff(kinds, n - 1);
      if ParseUpTo(kinds, n - 1).Err? {
        var i :| 0 <= i < n - 1 && IsBadSeparator(kinds[i]);
        assert 0 <= i < n;
      }
    }
  }

  /** A `//` line (after stripping) that does not end in `|digits|`. */
  predicate BadSeparator(raw: string) {
    var line := Strip(raw);
    line != [] && StartsWith(line, "//") && TrailingIndex(line).None?
  }

  /**
   * The loci of a parse: it fails exactly when some `//` line lacks its
   * `|digits|` (whether or not sequences are pending), and every returned
   * block holds at least one sequence.
   */
  lemma ParseLociSpec(lines: seq<string>)
    ensures ParseLoci(lines).Err? <==> exists i :: 0 <= i < |lines| && BadSeparator(lines[i])
    ensures ParseLoci(lines).Ok? ==> forall b :: 0 <= b < |ParseLoci(lines).value| ==>
      ParseLoci(lines).value[b].sequences != []
  {
    var kinds := Kinds(lines);
    ParseFailsIff(kinds, |lines|);
    assert forall i :: 0 <= i < |lines| ==> (IsBadSeparator(kinds[i]) <==> BadSeparator(lines[i]));
    if ParseLoci(lines).Ok? {
      BlocksNonEmpty(kinds, |lines|);
    }
  }

  // ---------------------------------------- the blocks, segment by segment

  /** The sequences of the entry lines that have two fields, in file order. */
  function Sequences(kinds: seq<LineKind>): seq<string>
  {
    if kinds == [] then []
    else
      var last := kinds[|kinds| - 1];
      Sequences(kinds[..|kinds| - 1]) + if last.Entry? && last.sequence.Some? then [last.sequence.value] else []
  }

  /** The position of the last `//` line. */
  function LastSeparator(kinds: seq<LineKind>): (r: Option<nat>)
    ensures r.Some? ==>
      r.value < |kinds| && kinds[r.value].Separator? && forall i :: r.value < i < |kinds| ==> !kinds[i].Separator?
    ensures r.None? ==> forall i :: 0 <= i < |kinds| ==> !kinds[i].Separator?
  {
    if kinds == [] then None
    else if kinds[|kinds| - 1].Separator? then Some(|kinds| - 1)
    else LastSeparator(kinds[..|kinds| - 1])
  }

  /** The sequences read since the last `//` line, still waiting for a block. */
  function Pending(kinds: seq<LineKind>): seq<string>
  {
    match LastSeparator(kinds)
    case None => Sequences(kinds)
    case Some(s) => Sequences(kinds[s + 1..])
  }

  /**
   * The blocks the `//` lines close, in file order: each separator with an
   * index closes the sequences pending before it, under its own index, and
   * closes nothing when none are pending.
   */
  function Closed(kinds: seq<LineKind>): seq<Locus>
    decreases |kinds|
  {
    match LastSeparator(kinds)
    case None => []
    case Some(s) =>
      var before := kinds[..s];
      var index := kinds[s].index;
      Closed(before) + if Pending(before) != [] && index.Some? then [Locus(index.value, Pending(before))] else []
  }

  /** All sequences of a list of blocks, block after block. */
  function Flatten(loci: seq<Locus>): seq<string>
  {
    if loci == [] then [] else Flatten(loci[..|loci| - 1]) + loci[|loci| - 1].sequences
  }

  /** A line that is not `//` changes no closed block and adds its sequence, if any, to the pending ones. */
  lemma OtherLineKeepsBlocks(kinds: seq<LineKind>, kind: LineKind)
    requires !kind.Separator?
    ensures Closed(kinds + [kind]) == Closed(kinds)
    ensures Pending(kinds + [kind]) ==
      Pending(kinds) + if kind.Entry? && kind.sequence.Some? then [kind.sequence.value] else []
  {
    var k := kinds + [kind];
    assert k[..|k| - 1] == kinds;
    assert LastSeparator(k) == LastSeparator(kinds);
    match LastSeparator(kinds)
    case None =>
    case Some(s) =>
      assert k[..s] == kinds[..s];
      PendingAfter(kinds, kind, s);
  }

  lemma PendingAfter(kinds: seq<LineKind>, kind: LineKind, s: nat)
    requires s < |kinds|
    ensures Sequences((kinds + [kind])[s + 1..]) ==
      Sequences(kinds[s + 1..]) + if kind.Entry? && kind.sequence.Some? then [kind.sequence.value] else []
  {
    var t := (kinds + [kind])[s + 1..];
    assert t[..|t| - 1] == kinds[s + 1..];
    assert t[|t| - 1] == kind;
  }

  /** A `//` line with an index closes the pending sequences as one block, if there are any. */
  lemma SeparatorClosesBlock(kinds: seq<LineKind>, line: string, index: nat)
    ensures Closed(kinds + [Separator(line, Some(index))]) ==
      Closed(kinds) + if Pending(kinds) != [] then [Locus(index, Pending(kinds))] else []
    ensures Pending(kinds + [Separator(line, Some(index))]) == []
  {
    var k := kinds + [Separator(line, Some(index))];
    assert k[..|k| - 1] == kinds;
    assert k[|kinds| + 1..] == [];
  }

  /** After n lines the parser holds exactly the blocks closed so far and the pending sequences. */
  lemma {:induction false} ParseUpToClosed(kinds: seq<LineKind>, n: nat)
    requires n <= |kinds| && ParseUpTo(kinds, n).Ok?
    ensures ParseUpTo(kinds, n).value == ParseState(Closed(kinds[..n]), Pending(kinds[..n]))
  {
    if n > 0 {
      ParseUpToClosed(kinds, n - 1);
      var kind := kinds[n - 1];
      assert kinds[..n] == kinds[..n - 1] + [kind];
      if kind.Separator? {
        SeparatorClosesBlock(kinds[..n - 1], kind.line, kind.index.value);
      } else {
        OtherLineKeepsBlocks(kinds[..n - 1], kind);
      }
    }
  }

  lemma {:induction false} SequencesAppend(a: seq<LineKind>, b: seq<LineKind>)
    ensures Sequences(a + b) == Sequences(a) + Sequences(b)
  {
    if b == [] {
      assert a + b == a;
    } else {
      var n := |b| - 1;
      SequencesAppend(a, b[..n]);
      assert (a + b)[..|a + b| - 1] == a + b[..n];
    }
  }

  lemma FlattenAppend(loci: seq<Locus>, extra: seq<Locus>)
    requires |extra| <= 1
    ensures Flatten(loci + extra) == Flatten(loci) + if extra == [] then [] else extra[0].sequences
  {
    if extra != [] {
      assert (loci + extra)[..|loci + extra| - 1] == loci;
    } else {
      assert loci + extra == loci;
    }
  }

  /**
   * Nothing is lost or reordered: the closed blocks' sequences, followed by
   * the pending ones, are all the sequences of the file, in order, as long
   * as every `//` line carries an index.
   */
  lemma {:induction false} ClosedFlatten(kinds: seq<LineKind>)
    requires forall i :: 0 <= i < |kinds| ==> !IsBadSeparator(kinds[i])
    ensures Flatten(Closed(kinds)) + Pending(kinds) == Sequences(kinds)
    decreases |kinds|
  {
    if LastSeparator(kinds).Some? {
      var s := LastSeparator(kinds).value;
      var before := kinds[..s];
      assert forall i :: 0 <= i < |before| ==> before[i] == kinds[i];
      ClosedFlatten(before);
      ClosedAtSeparator(kinds, s);
      SequencesAtSeparator(kinds, s);
    }
  }

  /** The blocks up to the last `//` line: those before it, then the one it closes. */
  lemma ClosedAtSeparator(kinds: seq<LineKind>, s: nat)
    requires LastSeparator(kinds) == Some(s) && kinds[s].index.Some?
    ensures Flatten(Closed(kinds)) == Flatten(Closed(kinds[..s])) + Pending(kinds[..s])
    ensures Pending(kinds) == Sequences(kinds[s + 1..])
  {
    var before := kinds[..s];
    var extra := if Pending(before) != [] then [Locus(kinds[s].index.value, Pending(before))] else [];
    assert Closed(kinds) == Closed(before) + extra;
    FlattenAppend(Closed(before), extra);
  }

  /** A `//` line contributes no sequence. */
  lemma SequencesAtSeparator(kinds: seq<LineKind>, s: nat)
    requires s < |kinds| && kinds[s].Separator?
    ensures Sequences(kinds) == Sequences(kinds[..s]) + Sequences(kinds[s + 1..])
  {
    var a, x, b := kinds[..s], kinds[s], kinds[s + 1..];
    SplitAround(kinds, s);
    SequencesAppend(a + [x], b);
    SequencesAfterSeparator(a, x);
  }

  lemma SplitAround<T>(k: seq<T>, s: nat)
    requires s < |k|
    ensures k == k[..s] + [k[s]] + k[s + 1..]
  {
  }

  lemma SequencesAfterSeparator(kinds: seq<LineKind>, kind: LineKind)
    requires kind.Separator?
    ensures Sequences(kinds + [kind]) == Sequences(kinds)
  {
    assert (kinds + [kind])[..|kinds|] == kinds;
  }

  /**
   * A successful parse returns exactly the blocks the `//` lines close. Its
   * blocks hold every two-field line's sequence up to the last `//` line,
   * in file order, and lose only the sequences still pending at the end.
   */
  lemma ParseLociBlocks(lines: seq<string>)
    requires ParseLoci(lines).Ok?
    ensures ParseLoci(lines).value == Closed(Kinds(lines))
    ensures Flatten(ParseLoci(lines).value) + Pending(Kinds(lines)) == Sequences(Kinds(lines))
  {
    var kinds := Kinds(lines);
    ParseUpToClosed(kinds, |kinds|);
    assert kinds[..|kinds|] == kinds;
    ParseFailsIff(kinds, |kinds|);
    ClosedFlatten(kinds);
  }

  lemma {:induction false} PrefixParse(kinds: seq<LineKind>, tail: seq<LineKind>, n: nat)
    requires n <= |kinds|
    ensures ParseUpTo(kinds + tail, n) == ParseUpTo(kinds, n)
  {
    if n > 0 {
      PrefixParse(kinds, tail, n - 1);
      assert (kinds + tail)[n - 1] == kinds[n - 1];
    }
  }

  lemma {:induction false} NoSeparatorKeepsBlocks(kinds: seq<LineKind>, tail: seq<LineKind>, m: nat)
    requires m <= |tail|
    requires forall i :: 0 <= i < |tail| ==> !tail[i].Separator?
    requires ParseUpTo(kinds, |kinds|).Ok?
    ensures ParseUpTo(kinds + tail, |kinds| + m).Ok?
    ensures ParseUpTo(kinds + tail, |kinds| + m).value.alignments == ParseUpTo(kinds, |kinds|).value.alignments
  {
    if m == 0 {
      PrefixParse(kinds, tail, |kinds|);
    } else {
      NoSeparatorKeepsBlocks(kinds, tail, m - 1);
      assert (kinds + tail)[|kinds| + m - 1] == tail[m - 1];
    }
  }

  /** Sequence lines after the last `//` never reach the output. */
  lemma DropsUnclosed(lines: seq<string>, tail: seq<string>)
    requires forall i :: 0 <= i < |tail| ==> !StartsWith(Strip(tail[i]), "//")
    requires ParseLoci(lines).Ok?
    ensures ParseLoci(lines + tail) == ParseLoci(lines)
  {
    NoSeparatorKinds(tail);
    KindsAppend(lines, tail);
    DropsUnclosedKinds(Kinds(lines), Kinds(tail));
  }

  lemma DropsUnclosedKinds(kinds: seq<LineKind>, tail: seq<LineKind>)
    requires forall i :: 0 <= i < |tail| ==> !tail[i].Separator?
    requires ParseKinds(kinds).Ok?
    ensures ParseKinds(kinds + tail) == ParseKinds(kinds)
  {
    NoSeparatorKeepsBlocks(kinds, tail, |tail|);
  }

  lemma NoSeparatorKinds(tail: seq<string>)
    requires forall i :: 0 <= i < |tail| ==> !StartsWith(Strip(tail[i]), "//")
    ensures forall i :: 0 <= i < |tail| ==> !Kinds(tail)[i].Separator?
  {
  }

  lemma KindsAppend(lines: seq<string>, tail: seq<string>)
    ensures Kinds(lines + tail) == Kinds(lines) + Kinds(tail)
  {
  }

  // -------------------------------------------------------- majority vote

  /** The symbols the vote ignores. */
  predicate IsGap(c: char) {
    c == '-' || c == 'N' || c == 'n'
  }

  function Count(col: string, c: char): nat
  {
    if col == [] then 0 else Count(col[..|col| - 1], c) + (if col[|col| - 1] == c then 1 else 0)
  }

  /** c wins against d: more occurrences, or as many and earlier in `np.unique`'s sorted order. */
  predicate Beats(col: string, c: char, d: char) {
    Count(col, c) > Count(col, d) || (Count(col, c) == Count(col, d) && c < d)
  }

  /** The winner among the non-gap symbols of the first n rows of a column. */
  function Leader(col: string, n: nat): Option<char>
    requires n <= |col|
  {
    if n == 0 then None
    else
      var best := Leader(col, n - 1);
      var c := col[n - 1];
      if IsGap(c) then best
      else if best.None? || Beats(col, c, best.value) then Some(c)
      else best
  }

  /** The consensus symbol of one column: `N` when only gaps remain. */
  function Vote(col: string): char
  {
    match Leader(col, |col|)
    case None => 'N'
    case Some(c) => c
  }

  lemma {:induction false} CountPositive(col: string, i: nat)
    requires i < |col|
    ensures Count(col, col[i]) > 0
  {
    var n := |col| - 1;
    if i < n {
      CountPositive(col[..n], i);
    }
  }

  lemma {:induction false} LeaderSpec(col: string, n: nat)
    requires n <= |col|
    ensures Leader(col, n).None? <==> forall i :: 0 <= i < n ==> IsGap(col[i])
    ensures Leader(col, n).Some? ==>
      var b := Leader(col, n).value;
      && !IsGap(b)
      && (exists i :: 0 <= i < n && col[i] == b)
      && forall i :: 0 <= i < n && !IsGap(col[i]) ==> col[i] == b || Beats(col, b, col[i])
  {
    if n > 0 {
      LeaderSpec(col, n - 1);
    }
  }

  /**
   * The vote of `compute_consensus`: `N` for a column of gaps only; otherwise
   * a non-gap symbol of the column that no other non-gap symbol outnumbers,
   * the smallest one on a tie.
   */
  lemma VoteIsMajority(col: string)
    ensures (forall i :: 0 <= i < |col| ==> IsGap(col[i])) ==> Vote(col) == 'N'
    ensures (exists i :: 0 <= i < |col| && !IsGap(col[i])) ==>
      && !IsGap(Vote(col))
      && Vote(col) in col
      && forall i :: 0 <= i < |col| && !IsGap(col[i]) ==>
           Count(col, col[i]) <= Count(col, Vote(col)) &&
           (Count(col, col[i]) == Count(col, Vote(col)) ==> Vote(col) <= col[i])
  {
    LeaderSpec(col, |col|);
  }

  /** All sequences of a block have the length of the first, so numpy can stack them. */
  predicate Rectangular(seqs: seq<string>) {
    forall r :: 0 <= r < |seqs| ==> |seqs[r]| == |seqs[0]|
  }

  function Width(seqs: seq<string>): nat {
    if seqs == [] then 0 else |seqs[0]|
  }

  /** Column c of a stacked block: the c-th symbol of every sequence. */
  function Column(seqs: seq<string>, c: nat): (col: string)
    requires Rectangular(seqs) && c < Width(seqs)
    ensures |col| == |seqs| && forall r :: 0 <= r < |seqs| ==> col[r] == seqs[r][c]
  {
    seq(|seqs|, r requires 0 <= r < |seqs| => seqs[r][c])
  }

  /** The consensus of a block: one vote per column. */
  function Consensus(seqs: seq<string>): (s: string)
    requires Rectangular(seqs)
    ensures |s| == Width(seqs)
  {
    seq(Width(seqs), c requires 0 <= c < Width(seqs) => Vote(Column(seqs, c)))
  }

  /**
   * `compute_consensus`: the block's index unchanged and the string of
   * column votes, one per column; a ragged block cannot be stacked.
   */
  method ComputeConsensus(locus: Locus) returns (r: Result<(nat, string), LociError>)
    ensures !Rectangular(locus.sequences) ==> r == Err(Ragged(locus.index))
    ensures Rectangular(locus.sequences) ==> r == Ok((locus.index, Consensus(locus.sequences)))
  {
    var seqs := locus.sequences;
    if !Rectangular(seqs) {
      return Err(Ragged(locus.index));
    }
    var consensus: string := [];
    for c := 0 to Width(seqs)
      invariant consensus == Consensus(seqs)[..c]
    {
      var col := Column(seqs, c);
      consensus := consensus + [Vote(col)];
    }
    assert consensus == Consensus(seqs);
    return Ok((locus.index, consensus));
  }

  // ------------------------------------------------------------ FASTA

  /** Insert x into a strictly increasing sequence. */
  function Insert(s: seq<nat>, x: nat): seq<nat>
  {
    if s == [] then [x]
    else if x <= s[0] then (if x == s[0] then s else [x] + s)
    else [s[0]] + Insert(s[1..], x)
  }

  /** `sorted(keys)`. */
  function SortKeys(ks: seq<nat>): seq<nat>
  {
    if ks == [] then [] else Insert(SortKeys(ks[..|ks| - 1]), ks[|ks| - 1])
  }

  predicate StrictlyIncreasing(s: seq<nat>) {
    forall i, j :: 0 <= i < j < |s| ==> s[i] < s[j]
  }

  lemma InsertSpec(s: seq<nat>, x: nat)
    requires StrictlyIncreasing(s)
    ensures StrictlyIncreasing(Insert(s, x))
    ensures forall y :: y in Insert(s, x) <==> y in s || y == x
  {
    InsertMembers(s, x);
    InsertIncreasing(s, x);
  }

  lemma {:induction false} InsertMembers(s: seq<nat>, x: nat)
    ensures forall y :: y in Insert(s, x) <==> y in s || y == x
  {
    if s != [] && x > s[0] {
      InsertMembers(s[1..], x);
      assert s == [s[0]] + s[1..];
      assert Insert(s, x) == [s[0]] + Insert(s[1..], x);
    }
  }

  lemma {:induction false} InsertIncreasing(s: seq<nat>, x: nat)
    requires StrictlyIncreasing(s)
    ensures StrictlyIncreasing(Insert(s, x))
  {
    if s != [] && x > s[0] {
      InsertIncreasing(s[1..], x);
      InsertAfterFirst(s, x);
    } else if s != [] && x < s[0] {
      InsertBeforeFirst(s, x);
    }
  }

  /** Inserting after the first element keeps it first. */
  lemma InsertAfterFirst(s: seq<nat>, x: nat)
    requires StrictlyIncreasing(s) && s != [] && x > s[0]
    requires StrictlyIncreasing(Insert(s[1..], x))
    ensures StrictlyIncreasing(Insert(s, x))
  {
    var t := s[1..];
    forall m | 0 <= m < |t| ensures s[0] < t[m] {
      assert t[m] == s[m + 1];
    }
    InsertAbove(t, x, s[0]);
    assert Insert(s, x) == [s[0]] + Insert(t, x);
    ConsIncreasing(s[0], Insert(t, x));
  }

  /** Inserting a value above a bound into values above that bound keeps every value above it. */
  lemma InsertAbove(t: seq<nat>, x: nat, h: nat)
    requires forall m :: 0 <= m < |t| ==> h < t[m]
    requires h < x
    ensures forall k :: 0 <= k < |Insert(t, x)| ==> h < Insert(t, x)[k]
  {
    var rest := Insert(t, x);
    InsertMembers(t, x);
    forall k | 0 <= k < |rest| ensures h < rest[k] {
      assert rest[k] in rest;
      if rest[k] != x {
        var m :| 0 <= m < |t| && t[m] == rest[k];
      }
    }
  }

  /** A value below every element of an increasing sequence can go in front. */
  lemma ConsIncreasing(h: nat, rest: seq<nat>)
    requires StrictlyIncreasing(rest)
    requires forall k :: 0 <= k < |rest| ==> h < rest[k]
    ensures StrictlyIncreasing([h] + rest)
  {
    var r := [h] + rest;
    forall i, j | 0 <= i < j < |r|
      ensures r[i] < r[j]
    {
      assert r[j] == rest[j - 1];
      if i > 0 {
        assert r[i] == rest[i - 1];
      }
    }
  }

  /** An element below the first one goes in front. */
  lemma InsertBeforeFirst(s: seq<nat>, x: nat)
    requires StrictlyIncreasing(s) && s != [] && x < s[0]
    ensures StrictlyIncreasing(Insert(s, x))
  {
    var r := Insert(s, x);
    assert r == [x] + s;
    forall i, j | 0 <= i < j < |r|
      ensures r[i] < r[j]
    {
      assert r[j] == s[j - 1];
      if i > 0 {
        assert r[i] == s[i - 1];
      }
    }
  }

  /** The sorted keys are increasing and are exactly the keys. */
  lemma {:induction false} SortKeysSpec(ks: seq<nat>)
    ensures StrictlyIncreasing(SortKeys(ks))
    ensures forall y :: y in SortKeys(ks) <==> y in ks
  {
    if ks != [] {
      var n := |ks| - 1;
      SortKeysSpec(ks[..n]);
      InsertSpec(SortKeys(ks[..n]), ks[n]);
      assert ks == ks[..n] + [ks[n]];
    }
  }

  /** `>{prefix}_{index}`. */
  function Header(prefix: string, index: nat): string {
    ">" + prefix + "_" + NatToString(index)
  }

  /** One record of `write_fasta`: the header line, a newline, then the sequence. */
  function Record(prefix: string, index: nat, sequence: string): string {
    Header(prefix, index) + "\n" + sequence
  }

  /** The records of a consensus dictionary in ascending index order. */
  function Records(d: seq<(nat, string)>, prefix: string): (rs: seq<string>)
    ensures |rs| == |SortKeys(Keys(d))|
  {
    var ks := SortKeys(Keys(d));
    seq(|ks|, i requires 0 <= i < |ks| => Record(prefix, ks[i], ValueOr(d, ks[i])))
  }

  function ValueOr(d: seq<(nat, string)>, k: nat): string {
    match Get(d, k)
    case None => []
    case Some(v) => v
  }

  /** The text `write_fasta` writes: the records joined by newlines, plus a final newline. */
  function FastaText(d: seq<(nat, string)>, prefix: string): string {
    Join(Records(d, prefix), "\n") + "\n"
  }

  /** The lines of the FASTA file: a header, then its sequence, per sorted index. */
  function FastaLines(d: seq<(nat, string)>, prefix: string): (ls: seq<string>)
    ensures |ls| == 2 * |SortKeys(Keys(d))|
  {
    var ks := SortKeys(Keys(d));
    seq(2 * |ks|, j requires 0 <= j < 2 * |ks| =>
      if j % 2 == 0 then Header(prefix, ks[j / 2]) else ValueOr(d, ks[j / 2]))
  }

  /** Records of two lines each, every one ended by a newline, are those lines ended by newlines. */
  lemma {:induction false} UnlinesPairs(rs: seq<string>, ls: seq<string>)
    requires |ls| == 2 * |rs|
    requires forall i :: 0 <= i < |rs| ==> rs[i] == ls[2 * i] + "\n" + ls[2 * i + 1]
    ensures Unlines(rs) == Unlines(ls)
  {
    if rs != [] {
      forall i | 0 <= i < |rs[1..]| ensures rs[1..][i] == ls[2..][2 * i] + "\n" + ls[2..][2 * i + 1] {
        assert rs[1..][i] == rs[i + 1];
        assert ls[2..][2 * i] == ls[2 * (i + 1)] && ls[2..][2 * i + 1] == ls[2 * (i + 1) + 1];
      }
      UnlinesPairs(rs[1..], ls[2..]);
      assert ls[1..][1..] == ls[2..];
      assert Unlines(ls) == ls[0] + "\n" + (ls[1] + "\n" + Unlines(ls[2..]));
    }
  }

  lemma DigitsNoLineBreak(s: string)
    requires IsDigits(s)
    ensures NoLineBreak(s)
  {
    forall i | 0 <= i < |s| ensures !IsLineBreak(s[i]) {
      assert IsDigit(s[i]);
    }
  }

  /** A header line has no line break when the prefix has none. */
  lemma HeaderNoLineBreak(prefix: string, index: nat)
    requires NoLineBreak(prefix)
    ensures NoLineBreak(Header(prefix, index))
  {
    var digits := NatToString(index);
    DigitsNoLineBreak(digits);
    var h := Header(prefix, index);
    forall i | 0 <= i < |h| ensures !IsLineBreak(h[i]) {
      if i == 0 {
      } else if i <= |prefix| {
        assert h[i] == prefix[i - 1];
      } else if i == |prefix| + 1 {
      } else {
        assert h[i] == digits[i - |prefix| - 2];
      }
    }
  }

  /**
   * Reading the FASTA text back line by line gives, per index in ascending
   * order, its header then its consensus; an empty dictionary writes a
   * lone newline.
   */
  lemma FastaRoundTrip(d: seq<(nat, string)>, prefix: string)
    requires NoLineBreak(prefix)
    requires forall i :: 0 <= i < |d| ==> NoLineBreak(d[i].1)
    ensures d == [] ==> FastaText(d, prefix) == "\n"
    ensures d != [] ==> SplitLines(FastaText(d, prefix)) == FastaLines(d, prefix)
  {
    var ks := SortKeys(Keys(d));
    var rs, ls := Records(d, prefix), FastaLines(d, prefix);
    SortKeysSpec(Keys(d));
    if d == [] {
      assert rs == [];
    } else {
      assert d[0].0 in Keys(d);
      assert ks != [];
      JoinNewlines(rs);
      RecordsArePairs(d, prefix);
      UnlinesPairs(rs, ls);
      FastaLinesNoBreak(d, prefix);
      SplitUnlines(ls);
    }
  }

  /** Each record is its header line and its sequence line, joined by a newline. */
  lemma RecordsArePairs(d: seq<(nat, string)>, prefix: string)
    ensures var rs, ls := Records(d, prefix), FastaLines(d, prefix);
      forall i :: 0 <= i < |rs| ==> rs[i] == ls[2 * i] + "\n" + ls[2 * i + 1]
  {
    var rs, ls := Records(d, prefix), FastaLines(d, prefix);
    forall i | 0 <= i < |rs| ensures rs[i] == ls[2 * i] + "\n" + ls[2 * i + 1] {
      assert (2 * i) / 2 == i && (2 * i + 1) / 2 == i;
    }
  }

  /** No line of the FASTA file has a line break inside it. */
  lemma FastaLinesNoBreak(d: seq<(nat, string)>, prefix: string)
    requires NoLineBreak(prefix)
    requires forall i :: 0 <= i < |d| ==> NoLineBreak(d[i].1)
    ensures var ls := FastaLines(d, prefix);
      forall j :: 0 <= j < |ls| ==> NoLineBreak(ls[j])
  {
    var ks := SortKeys(Keys(d));
    var ls := FastaLines(d, prefix);
    forall j | 0 <= j < |ls| ensures NoLineBreak(ls[j]) {
      var k := ks[j / 2];
      if j % 2 == 0 {
        HeaderNoLineBreak(prefix, k);
      } else if Get(d, k).Some? {
        GetFound(d, k);
      }
    }
  }

  /** `write_fasta` without the file: append one record per sorted key, then join. */
  method WriteFasta(d: seq<(nat, string)>, prefix: string) returns (text: string)
    ensures text == FastaText(d, prefix)
  {
    var keys := SortKeys(Keys(d));
    var lines: seq<string> := [];
    ghost var records := Records(d, prefix);
    for i := 0 to |keys|
      invariant i <= |keys| && lines == records[..i]
    {
      lines := lines + [Record(prefix, keys[i], ValueOr(d, keys[i]))];
    }
    assert lines == records;
    text := Join(lines, "\n") + "\n";
  }

  // ------------------------------------------------------------- main

  /** `pool.map(compute_consensus, loci)` as a sequential map that stops at the first ragged block. */
  function ConsensusAll(loci: seq<Locus>): Result<seq<(nat, string)>, LociError>
  {
    if loci == [] then Ok([])
    else
      var last := loci[|loci| - 1];
      match ConsensusAll(loci[..|loci| - 1])
      case Err(e) => Err(e)
      case Ok(pairs) =>
        if Rectangular(last.sequences) then Ok(pairs + [(last.index, Consensus(last.sequences))])
        else Err(Ragged(last.index))
  }

  /**
   * The map succeeds exactly when every block is rectangular, and then pairs
   * each block's index with its consensus, in block order; otherwise it
   * reports the first ragged block.
   */
  lemma {:induction false} ConsensusAllSpec(loci: seq<Locus>)
    ensures ConsensusAll(loci).Ok? <==> forall b :: 0 <= b < |loci| ==> Rectangular(loci[b].sequences)
    ensures ConsensusAll(loci).Ok? ==>
      var pairs := ConsensusAll(loci).value;
      && |pairs| == |loci|
      && forall b :: 0 <= b < |loci| ==> pairs[b] == (loci[b].index, Consensus(loci[b].sequences))
    ensures ConsensusAll(loci).Err? ==> exists b :: (0 <= b < |loci| && !Rectangular(loci[b].sequences)
      && ConsensusAll(loci).error == Ragged(loci[b].index)
      && forall c :: 0 <= c < b ==> Rectangular(loci[c].sequences))
  {
    if loci != [] {
      var n := |loci| - 1;
      ConsensusAllSpec(loci[..n]);
      assert forall b :: 0 <= b < n ==> loci[..n][b] == loci[b];
      if ConsensusAll(loci[..n]).Err? {
        var b :| (0 <= b < n && !Rectangular(loci[..n][b].sequences)
          && ConsensusAll(loci[..n]).error == Ragged(loci[..n][b].index)
          && forall c :: 0 <= c < b ==> Rectangular(loci[..n][c].sequences));
        assert loci[b] == loci[..n][b];
      }
    }
  }

  lemma {:induction false} ConsensusAllStops(loci: seq<Locus>, n: nat)
    requires n <= |loci|
    requires ConsensusAll(loci[..n]).Err?
    ensures ConsensusAll(loci) == ConsensusAll(loci[..n])
    decreases |loci| - n
  {
    if n < |loci| {
      assert loci[..n + 1][..n] == loci[..n];
      ConsensusAllStops(loci, n + 1);
    } else {
      assert loci[..n] == loci;
    }
  }

  /** What `main` writes for the lines of a `.loci` file, or the error it stops with. */
  function ConvertLoci(lines: seq<string>, prefix: string): Result<string, LociError>
  {
    match ParseLoci(lines)
    case Err(e) => Err(e)
    case Ok(loci) =>
      match ConsensusAll(loci)
      case Err(e) => Err(e)
      case Ok(pairs) => Ok(FastaText(FromPairs(pairs), prefix))
  }

  /** `main`: parse, take every block's consensus, build `dict(results)`, write the FASTA text. */
  method LociToConsensus(lines: seq<string>, prefix: string) returns (r: Result<string, LociError>)
    ensures r == ConvertLoci(lines, prefix)
  {
    var parsed := ParseLociFile(lines);
    if parsed.Err? {
      return Err(parsed.error);
    }
    var loci := parsed.value;
    var results: seq<(nat, string)> := [];
    for b := 0 to |loci|
      invariant ConsensusAll(loci[..b]) == Ok(results)
    {
      var c := ComputeConsensus(loci[b]);
      assert loci[..b + 1][..b] == loci[..b] && loci[..b + 1][b] == loci[b];
      if c.Err? {
        ConsensusAllStops(loci, b + 1);
        return Err(c.error);
      }
      results := results + [c.value];
    }
    assert loci[..|loci|] == loci;
    var consensusDict := FromPairs(results);
    var text := WriteFasta(consensusDict, prefix);
    return Ok(text);
  }

  /**
   * When every block parses and is rectangular, each index of the file
   * appears once in the written dictionary, with the consensus of the last
   * block that carries it; an index no block carries is absent.
   */
  lemma ConvertLociSpec(lines: seq<string>, prefix: string, k: nat)
    requires ParseLoci(lines).Ok?
    requires forall b :: 0 <= b < |ParseLoci(lines).value| ==> Rectangular(ParseLoci(lines).value[b].sequences)
    ensures ConsensusAll(ParseLoci(lines).value).Ok?
    ensures var loci := ParseLoci(lines).value;
      var d := FromPairs(ConsensusAll(loci).value);
      && ConvertLoci(lines, prefix) == Ok(FastaText(d, prefix))
      && DistinctKeys(d)
      && (Get(d, k).None? <==> forall b :: 0 <= b < |loci| ==> loci[b].index != k)
      && (Get(d, k).Some? ==> exists b :: (0 <= b < |loci| && loci[b].index == k
            && Get(d, k).value == Consensus(loci[b].sequences)
            && forall c :: b < c < |loci| ==> loci[c].index != k))
  {
    var loci := ParseLoci(lines).value;
    ConsensusAllSpec(loci);
    var pairs := ConsensusAll(loci).value;
    FromPairsLastWins(pairs, k);
    LastValueNone(pairs, k);
    if LastValue(pairs, k).Some? {
      LastValueSome(pairs, k);
    }
  }
}
