/**
 * The table side of bin/plot_metrics.py: `load_whitespace_table`, which takes
 * the first non-blank, non-`#` line as the header and keeps the later lines
 * that look like records, and the part of `main` that marks the selected loci
 * and drops rows with a negative (sentinel) or non-numeric metric.
 */
module MetricsTable {
  import opened Wrappers
  import opened Text

  /** `next(...)` finds no header line and raises `StopIteration`. */
  datatype TableError = NoHeader

  /** The column names of the header and the records kept, each a list of tokens. */
  datatype Table = Table(cols: seq<string>, records: seq<seq<string>>)

  /** The header test: non-blank, and not a `#` line once leading whitespace is gone. */
  predicate IsHeaderLine(line: string) {
    Strip(line) != [] && !StartsWith(LStrip(line), "#")
  }

  /** The index of the first header line, if any. */
  function HeaderIndex(raw: seq<string>): (r: Option<nat>)
    ensures r.Some? ==> r.value < |raw| && IsHeaderLine(raw[r.value])
    ensures r.Some? ==> forall i :: 0 <= i < r.value ==> !IsHeaderLine(raw[i])
    ensures r.None? ==> forall i :: 0 <= i < |raw| ==> !IsHeaderLine(raw[i])
  {
    if raw == [] then None
    else if IsHeaderLine(raw[0]) then Some(0)
    else
      match HeaderIndex(raw[1..])
      case None => None
      case Some(h) =>
        assert forall i :: 1 <= i < h + 1 ==> raw[i] == raw[1..][i - 1];
        Some(h + 1)
  }

  /**
   * `re.split(r"\s+", s)` for the stripped line s: on a text without
   * surrounding whitespace it yields exactly the whitespace-separated tokens.
   */
  function Tokens(s: string): seq<string> {
    Split(s)
  }

  /** What the loop keeps of one line after the header, given the header's column count. */
  function Record(line: string, ncols: nat): Option<seq<string>>
  {
    var s := Strip(line);
    if s == [] || StartsWith(s, "#") then None
    else
      StripEnds(line);
      SplitStarts(s);
      var parts := Tokens(s);
      if !IsDigits(parts[0]) || |parts| != ncols then None
      else Some(parts)
  }

  /** The records of some lines, in order. */
  function Records(lines: seq<string>, ncols: nat): seq<seq<string>>
  {
    if lines == [] then []
    else
      var n := |lines| - 1;
      Records(lines[..n], ncols) + match Record(lines[n], ncols) { case None => [] case Some(p) => [p] }
  }

  /** `load_whitespace_table` on the lines of the file, before pandas converts the cells. */
  function LoadTable(raw: seq<string>): Result<Table, TableError>
  {
    match HeaderIndex(raw)
    case None => Err(NoHeader)
    case Some(h) =>
      var cols := Tokens(Strip(raw[h]));
      Ok(Table(cols, Records(raw[h + 1..], |cols|)))
  }

  /** `load_whitespace_table`, with its loop over the lines after the header. */
  method LoadWhitespaceTable(raw: seq<string>) returns (r: Result<Table, TableError>)
    ensures r == LoadTable(raw)
  {
    var found := HeaderIndex(raw);
    if found.None? {
      return Err(NoHeader);
    }
    var h := found.value;
    var cols := Tokens(Strip(raw[h]));
    var rest := raw[h + 1..];
    var records: seq<seq<string>> := [];
    for i := 0 to |rest|
      invariant records == Records(rest[..i], |cols|)
    {
      assert rest[..i + 1][..i] == rest[..i];
      var s := Strip(rest[i]);
      if s == [] || StartsWith(s, "#") {
        continue;
      }
      StripEnds(rest[i]);
      SplitStarts(s);
      var parts := Tokens(s);
      if !IsDigits(parts[0]) || |parts| != |cols| {
        continue;
      }
      records := records + [parts];
    }
    assert rest[..|rest|] == rest;
    r := Ok(Table(cols, records));
  }

  /** The records of two stretches of lines are those of each, in file order. */
  lemma {:induction false} RecordsAppend(a: seq<string>, b: seq<string>, ncols: nat)
    ensures Records(a + b, ncols) == Records(a, ncols) + Records(b, ncols)
  {
    if b == [] {
      assert a + b == a;
    } else {
      var n := |b| - 1;
      RecordsAppend(a, b[..n], ncols);
      assert (a + b)[..|a + b| - 1] == a + b[..n];
      assert (a + b)[|a + b| - 1] == b[n];
    }
  }

  /**
   * One line yields a record exactly when it is non-blank, not a `#` line,
   * its first token is all digits and it has as many tokens as the header;
   * the record is its token list.
   */
  lemma RecordOfLine(line: string, ncols: nat)
    ensures Records([line], ncols) == if Record(line, ncols).Some? then [Tokens(Strip(line))] else []
    ensures Record(line, ncols).Some? <==>
      (Strip(line) != [] && !StartsWith(Strip(line), "#") && Tokens(Strip(line)) != []
       && IsDigits(Tokens(Strip(line))[0]) && |Tokens(Strip(line))| == ncols)
  {
    assert [line][..0] == [];
    StripEnds(line);
    if Strip(line) != [] {
      SplitStarts(Strip(line));
    }
  }

  /** The shape pandas is handed: every record has one token per column and a numeric first token. */
  predicate WellFormed(t: Table) {
    && |t.cols| >= 1
    && forall j :: 0 <= j < |t.records| ==>
      |t.records[j]| == |t.cols| && IsDigits(t.records[j][0])
  }

  lemma {:induction false} RecordsWellFormed(lines: seq<string>, ncols: nat)
    ensures forall j :: 0 <= j < |Records(lines, ncols)| ==>
      |Records(lines, ncols)[j]| == ncols && Records(lines, ncols)[j] != []
      && IsDigits(Records(lines, ncols)[j][0])
  {
    if lines != [] {
      var n := |lines| - 1;
      RecordsWellFormed(lines[..n], ncols);
      StripEnds(lines[n]);
      if Strip(lines[n]) != [] {
        SplitStarts(Strip(lines[n]));
      }
    }
  }

  /**
   * The loader fails exactly when no line can be the header; otherwise the
   * columns are the header's tokens and every record fits them.
   */
  lemma LoadTableSpec(raw: seq<string>)
    ensures LoadTable(raw).Err? <==> forall i :: 0 <= i < |raw| ==> !IsHeaderLine(raw[i])
    ensures LoadTable(raw).Ok? ==> WellFormed(LoadTable(raw).value)
    ensures LoadTable(raw).Ok? ==>
      exists h :: 0 <= h < |raw| && IsHeaderLine(raw[h])
        && LoadTable(raw).value.cols == Tokens(Strip(raw[h]))
        && LoadTable(raw).value.records == Records(raw[h + 1..], |Tokens(Strip(raw[h]))|)
        && forall i :: 0 <= i < h ==> !IsHeaderLine(raw[i])
  {
    match HeaderIndex(raw)
    case None =>
    case Some(h) =>
      var cols := Tokens(Strip(raw[h]));
      StripEnds(raw[h]);
      SplitStarts(Strip(raw[h]));
      RecordsWellFormed(raw[h + 1..], |cols|);
  }

  // ------------------------------------------------------------ selection

  /** `astype(int)` of a record's first token. */
  function Id(record: seq<string>): nat
    requires |record| >= 1 && IsDigits(record[0])
  {
    DigitsValue(record[0])
  }

  /** `set(top_df.iloc[:, 0])`: the ids of the top loci. */
  function TopIds(top: Table): set<nat>
    requires WellFormed(top)
  {
    set j | 0 <= j < |top.records| :: Id(top.records[j])
  }

  /** `metric_cols`: the positions of the columns other than the id column and `selected`. */
  function MetricColumns(cols: seq<string>): (ps: seq<nat>)
    requires |cols| >= 1
    ensures forall p :: p in ps <==> 1 <= p < |cols| && cols[p] != cols[0] && cols[p] != "selected"
  {
    MetricColumnsFrom(cols, 1)
  }

  function MetricColumnsFrom(cols: seq<string>, from: nat): (ps: seq<nat>)
    requires 1 <= from <= |cols|
    ensures forall p :: p in ps <==> from <= p < |cols| && cols[p] != cols[0] && cols[p] != "selected"
    decreases |cols| - from
  {
    if from == |cols| then []
    else
      var rest := MetricColumnsFrom(cols, from + 1);
      if cols[from] != cols[0] && cols[from] != "selected" then [from] + rest else rest
  }

  /** A row of `metrics_df` with its `selected` flag. */
  datatype Row = Row(record: seq<string>, selected: bool)

  /**
   * `(metrics_df[metric_cols] >= 0).all(axis=1)`: every metric cell is a
   * number (`toNumber` is `to_numeric(errors="coerce")`, `None` for NaN) and
   * not negative; a NaN compares false.
   */
  predicate NonNegative(record: seq<string>, cols: seq<string>, toNumber: string -> Option<real>)
    requires |cols| >= 1 && |record| == |cols|
  {
    forall p :: p in MetricColumns(cols) ==> toNumber(record[p]).Some? && toNumber(record[p]).value >= 0.0
  }

  /** The rows of the metrics table that `main` keeps, each flagged with `isin(sel_set)`. */
  function PlotRows(metrics: Table, top: Table, toNumber: string -> Option<real>): seq<Row>
    requires WellFormed(metrics) && WellFormed(top)
  {
    KeptRows(metrics, |metrics.records|, TopIds(top), toNumber)
  }

  function KeptRows(metrics: Table, n: nat, ids: set<nat>, toNumber: string -> Option<real>): seq<Row>
    requires WellFormed(metrics) && n <= |metrics.records|
  {
    if n == 0 then []
    else
      var rec := metrics.records[n - 1];
      KeptRows(metrics, n - 1, ids, toNumber)
      + if NonNegative(rec, metrics.cols, toNumber) then [Row(rec, Id(rec) in ids)] else []
  }

  /**
   * A kept row is a record of the metrics table, flagged selected exactly
   * when its id is among the top loci, with no negative or missing metric;
   * and every record with only non-negative metrics is kept.
   */
  lemma {:induction false} KeptRowsSpec(metrics: Table, n: nat, ids: set<nat>, toNumber: string -> Option<real>)
    requires WellFormed(metrics) && n <= |metrics.records|
    ensures forall r :: r in KeptRows(metrics, n, ids, toNumber) ==>
      (exists j :: 0 <= j < n && r.record == metrics.records[j])
      && |r.record| == |metrics.cols| && IsDigits(r.record[0])
      && (r.selected <==> Id(r.record) in ids)
      && NonNegative(r.record, metrics.cols, toNumber)
    ensures forall j :: 0 <= j < n && NonNegative(metrics.records[j], metrics.cols, toNumber) ==>
      Row(metrics.records[j], Id(metrics.records[j]) in ids) in KeptRows(metrics, n, ids, toNumber)
  {
    if n > 0 {
      KeptRowsSpec(metrics, n - 1, ids, toNumber);
    }
  }

  /** `main`'s filter, stated on the tables: selection by id, and the sentinel rows gone. */
  lemma PlotRowsSpec(metrics: Table, top: Table, toNumber: string -> Option<real>)
    requires WellFormed(metrics) && WellFormed(top)
    ensures forall r :: r in PlotRows(metrics, top, toNumber) ==>
      r.record in metrics.records
      && (r.selected <==> exists t :: t in top.records && DigitsValue(t[0]) == Id(r.record))
      && forall p :: p in MetricColumns(metrics.cols) ==> toNumber(r.record[p]).Some? && toNumber(r.record[p]).value >= 0.0
    ensures forall rec :: rec in metrics.records && NonNegative(rec, metrics.cols, toNumber) ==>
      Row(rec, Id(rec) in TopIds(top)) in PlotRows(metrics, top, toNumber)
  {
    KeptRowsSpec(metrics, |metrics.records|, TopIds(top), toNumber);
    forall r | r in PlotRows(metrics, top, toNumber)
      ensures r.record in metrics.records
      ensures r.selected <==> exists t :: t in top.records && DigitsValue(t[0]) == Id(r.record)
    {
      TopIdsMember(top, Id(r.record));
    }
  }

  lemma TopIdsMember(top: Table, id: nat)
    requires WellFormed(top)
    ensures id in TopIds(top) <==> exists t :: t in top.records && DigitsValue(t[0]) == id
  {
    if exists t :: t in top.records && DigitsValue(t[0]) == id {
      var t :| t in top.records && DigitsValue(t[0]) == id;
      var j :| 0 <= j < |top.records| && top.records[j] == t;
      assert Id(top.records[j]) == id;
    }
  }
}
