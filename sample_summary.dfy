/**
 * bin/sample_summary.py: the per-sample table of missingness and
 * heterozygosity before and after filtering. `load_list` reads sample names,
 * `het` is the heterozygosity of one sample's genotype calls, and `main`
 * aligns four value columns onto the pre-filter sample list, by position or
 * by sample name following pandas' rules for assigning and reindexing a
 * column.
 */
module SampleSummary {
  import opened Wrappers
  import opened Text
  import opened Dicts

  // ------------------------------------------------------------ load_list

  /** `[line.strip() for line in f if line.strip()]`. */
  function LoadList(lines: seq<string>): seq<string>
  {
    if lines == [] then []
    else
      var n := |lines| - 1;
      LoadList(lines[..n]) + if Strip(lines[n]) != [] then [Strip(lines[n])] else []
  }

  /** The names of two stretches of lines are those of each, in file order. */
  lemma {:induction false} LoadListAppend(a: seq<string>, b: seq<string>)
    ensures LoadList(a + b) == LoadList(a) + LoadList(b)
  {
    if b == [] {
      assert a + b == a;
    } else {
      var n := |b| - 1;
      LoadListAppend(a, b[..n]);
      assert (a + b)[..|a + b| - 1] == a + b[..n];
      assert (a + b)[|a + b| - 1] == b[n];
    }
  }

  /** Every name is non-empty and has no surrounding whitespace. */
  lemma {:induction false} LoadListStripped(lines: seq<string>)
    ensures forall i :: 0 <= i < |LoadList(lines)| ==>
      LoadList(lines)[i] != [] && Strip(LoadList(lines)[i]) == LoadList(lines)[i]
  {
    if lines != [] {
      var n := |lines| - 1;
      LoadListStripped(lines[..n]);
      StripIdempotent(lines[n]);
    }
  }

  lemma StripIdempotent(s: string)
    ensures Strip(Strip(s)) == Strip(s)
  {
    StripEnds(s);
    TrimKeeps(Strip(s), IsSpace);
  }

  /** Reading a list that was written one name per line gives the same list back. */
  lemma {:induction false} LoadListIdempotent(lines: seq<string>)
    ensures LoadList(LoadList(lines)) == LoadList(lines)
  {
    if lines != [] {
      var n := |lines| - 1;
      LoadListIdempotent(lines[..n]);
      var tail := if Strip(lines[n]) != [] then [Strip(lines[n])] else [];
      LoadListAppend(LoadList(lines[..n]), tail);
      if tail != [] {
        StripIdempotent(lines[n]);
        assert tail[..0] == [];
      }
    }
  }

  // ---------------------------------------------------- heterozygosity

  /** The calls `isin(["A", "C", "G", "T", "N"])` accepts as homozygous. */
  predicate IsBase(call: string) {
    call == "A" || call == "C" || call == "G" || call == "T" || call == "N"
  }

  /** A locus column: every column but `Population`, which is dropped (`SampleID` is held apart). */
  predicate IsLocus(column: string) {
    column != "Population"
  }

  /** The non-missing calls among the first n locus columns: `len(alleles)` for n = all. */
  function Calls(columns: seq<string>, calls: seq<Option<string>>, n: nat): nat
    requires |columns| == |calls| && n <= |calls|
  {
    if n == 0 then 0
    else Calls(columns, calls, n - 1) + if IsLocus(columns[n - 1]) && calls[n - 1].Some? then 1 else 0
  }

  /** Those of them that are not a single base: `sum(~alleles.isin(...))`. */
  function Ambiguous(columns: seq<string>, calls: seq<Option<string>>, n: nat): nat
    requires |columns| == |calls| && n <= |calls|
  {
    if n == 0 then 0
    else
      Ambiguous(columns, calls, n - 1)
      + if IsLocus(columns[n - 1]) && calls[n - 1].Some? && !IsBase(calls[n - 1].value) then 1 else 0
  }

  /**
   * `het(row)` for one sample: the share of its non-missing calls that are
   * not one of `A`, `C`, `G`, `T`, `N`, or 0 when it has none. `columns` are
   * the table's columns other than `SampleID`, `calls` the row's cells there
   * (`None` for a missing value).
   */
  function Het(columns: seq<string>, calls: seq<Option<string>>): real
    requires |columns| == |calls|
  {
    var total := Calls(columns, calls, |calls|);
    if total == 0 then 0.0 else Ambiguous(columns, calls, |calls|) as real / total as real
  }

  lemma {:induction false} AmbiguousAtMostCalls(columns: seq<string>, calls: seq<Option<string>>, n: nat)
    requires |columns| == |calls| && n <= |calls|
    ensures Ambiguous(columns, calls, n) <= Calls(columns, calls, n)
  {
    if n > 0 {
      AmbiguousAtMostCalls(columns, calls, n - 1);
    }
  }

  /** Heterozygosity is a proportion, and 0 for a sample without calls. */
  lemma HetBounds(columns: seq<string>, calls: seq<Option<string>>)
    requires |columns| == |calls|
    ensures 0.0 <= Het(columns, calls) <= 1.0
    ensures Calls(columns, calls, |calls|) == 0 ==> Het(columns, calls) == 0.0
  {
    AmbiguousAtMostCalls(columns, calls, |calls|);
    var a := Ambiguous(columns, calls, |calls|) as real;
    var t := Calls(columns, calls, |calls|) as real;
    if t > 0.0 {
      Proportion(a, t);
    }
  }

  lemma Proportion(a: real, t: real)
    requires 0.0 <= a <= t && t > 0.0
    ensures 0.0 <= a / t <= 1.0
  {
    var q := a / t;
    assert q * t == a;
  }

  /** A sample whose calls are all single bases has heterozygosity 0; one with none of them, 1. */
  lemma {:induction false} HetExtremes(columns: seq<string>, calls: seq<Option<string>>, n: nat)
    requires |columns| == |calls| && n <= |calls|
    ensures (forall j :: 0 <= j < n && calls[j].Some? ==> IsBase(calls[j].value))
      ==> Ambiguous(columns, calls, n) == 0
    ensures (forall j :: 0 <= j < n && calls[j].Some? ==> !IsBase(calls[j].value))
      ==> Ambiguous(columns, calls, n) == Calls(columns, calls, n)
  {
    if n > 0 {
      HetExtremes(columns, calls, n - 1);
    }
  }

  /** The `Population` column never counts: whatever it holds, the heterozygosity is the same. */
  lemma {:induction false} PopulationIgnored(columns: seq<string>, c1: seq<Option<string>>, c2: seq<Option<string>>, n: nat)
    requires |columns| == |c1| == |c2| && n <= |c1|
    requires forall j :: 0 <= j < |columns| && IsLocus(columns[j]) ==> c1[j] == c2[j]
    ensures Calls(columns, c1, n) == Calls(columns, c2, n)
    ensures Ambiguous(columns, c1, n) == Ambiguous(columns, c2, n)
  {
    if n > 0 {
      PopulationIgnored(columns, c1, c2, n - 1);
    }
  }

  lemma HetIgnoresPopulation(columns: seq<string>, c1: seq<Option<string>>, c2: seq<Option<string>>)
    requires |columns| == |c1| == |c2|
    requires forall j :: 0 <= j < |columns| && IsLocus(columns[j]) ==> c1[j] == c2[j]
    ensures Het(columns, c1) == Het(columns, c2)
  {
    PopulationIgnored(columns, c1, c2, |c1|);
  }

  /** One row of the genotype table: the `SampleID` cell and the other cells. */
  datatype GenotypeRow = GenotypeRow(sample: string, calls: seq<Option<string>>)

  /** `compute_heterozygosity`: each sample with its heterozygosity, in table order. */
  function Heterozygosity(columns: seq<string>, rows: seq<GenotypeRow>): (t: seq<(string, real)>)
    requires forall i :: 0 <= i < |rows| ==> |rows[i].calls| == |columns|
    ensures |t| == |rows|
    ensures forall i :: 0 <= i < |rows| ==> t[i] == (rows[i].sample, Het(columns, rows[i].calls))
  {
    seq(|rows|, i requires 0 <= i < |rows| => (rows[i].sample, Het(columns, rows[i].calls)))
  }

  // -------------------------------------------------------------- main

  /** `ValueError`s pandas raises while `main` assembles the table. */
  datatype SummaryError =
    | LengthMismatch(column: string)
    | DuplicateLabels(column: string)

  /**
   * A row label of the table. It is normally a sample name. A frame whose
   * index is still empty takes the labels of the first non-empty column
   * assigned to it: a plain array brings the positions 0, 1, ..., and a
   * Series brings its own labels.
   */
  datatype Label = Name(name: string) | Position(pos: nat)

  /** One output row: `Sample`, `Missing_Pre`, `Missing_Post`, `Heterozygosity_Pre`, `Heterozygosity_Post`. */
  datatype SummaryRow = SummaryRow(
    sample: Label,
    missingPre: Option<real>,
    missingPost: Option<real>,
    hetPre: Option<real>,
    hetPost: Option<real>)

  predicate Distinct(s: seq<string>) {
    forall i, j :: 0 <= i < j < |s| ==> s[i] != s[j]
  }

  function Names(s: seq<string>): (ls: seq<Label>)
    ensures |ls| == |s| && forall i :: 0 <= i < |s| ==> ls[i] == Name(s[i])
  {
    seq(|s|, i requires 0 <= i < |s| => Name(s[i]))
  }

  function Positions(n: nat): (ls: seq<Label>)
    ensures |ls| == n && forall i :: 0 <= i < n ==> ls[i] == Position(i)
  {
    seq(n, i requires 0 <= i < n => Position(i))
  }

  /** The sample names paired with a column of values, position by position. */
  function Labelled<V>(names: seq<string>, values: seq<V>): (pairs: seq<(string, V)>)
    requires |names| == |values|
    ensures |pairs| == |names| && forall i :: 0 <= i < |names| ==> pairs[i] == (names[i], values[i])
  {
    seq(|names|, i requires 0 <= i < |names| => (names[i], values[i]))
  }

  /** A column indexed by sample name, its names taken as row labels. */
  function Named<V>(pairs: seq<(string, V)>): (r: seq<(Label, V)>)
    ensures |r| == |pairs| && forall i :: 0 <= i < |pairs| ==> r[i] == (Name(pairs[i].0), pairs[i].1)
  {
    seq(|pairs|, i requires 0 <= i < |pairs| => (Name(pairs[i].0), pairs[i].1))
  }

  function Somes(values: seq<real>): (r: seq<Option<real>>)
    ensures |r| == |values| && forall i :: 0 <= i < |values| ==> r[i] == Some(values[i])
  {
    seq(|values|, i requires 0 <= i < |values| => Some(values[i]))
  }

  /** A column of NaN, as pandas fills the old columns when a frame takes a new index. */
  function Nones(n: nat): (r: seq<Option<real>>)
    ensures |r| == n && forall i :: 0 <= i < n ==> r[i] == None
  {
    seq(n, i requires 0 <= i < n => None)
  }

  /**
   * A labelled column carried over to the rows `target`, as pandas aligns a
   * Series that is assigned or reindexed: unchanged when its labels equal
   * the target, otherwise looked up by label (missing when absent), which
   * pandas refuses when the labels repeat.
   */
  function Align<V>(pairs: seq<(Label, V)>, target: seq<Label>, column: string): Result<seq<Option<V>>, SummaryError>
  {
    if Keys(pairs) == target then Ok(seq(|target|, i requires 0 <= i < |target| => Some(pairs[i].1)))
    else if !DistinctKeys(pairs) then Err(DuplicateLabels(column))
    else Ok(seq(|target|, i requires 0 <= i < |target| => Get(pairs, target[i])))
  }

  /**
   * The rows the frame has once `Missing_Pre` is assigned: the pre-filter
   * names, or, when that list is empty, the positions of the missingness
   * array, which the empty frame adopts.
   */
  function PreIndex(indsPre: seq<string>, missPre: seq<real>): seq<Label>
  {
    if indsPre == [] then Positions(|missPre|) else Names(indsPre)
  }

  /** `main`: the summary table, or the error pandas raises first. */
  function Summary(indsPre: seq<string>, indsPost: seq<string>, missPre: seq<real>, missPost: seq<real>,
                   hetPre: seq<(string, real)>, hetPost: seq<(string, real)>): Result<seq<SummaryRow>, SummaryError>
  {
    var index := PreIndex(indsPre, missPre);
    if |missPre| != |index| then Err(LengthMismatch("Missing_Pre"))
    else if |missPost| != |indsPost| then Err(LengthMismatch("Missing_Post"))
    else
      match Align(Named(Labelled(indsPost, missPost)), index, "Missing_Post")
      case Err(e) => Err(e)
      case Ok(post) =>
        // A frame still without rows takes het_pre's sample names; both
        // missingness columns are then NaN throughout.
        var rows := if index == [] then Names(Keys(hetPre)) else index;
        var mPre := if index == [] then Nones(|rows|) else Somes(missPre);
        var mPost := if index == [] then Nones(|rows|) else post;
        match Align(Named(hetPre), rows, "Heterozygosity_Pre")
        case Err(e) => Err(e)
        case Ok(hPre) =>
          match Align(Named(hetPost), rows, "Heterozygosity_Post")
          case Err(e) => Err(e)
          case Ok(hPost) =>
            Ok(seq(|rows|, i requires 0 <= i < |rows| => SummaryRow(rows[i], mPre[i], mPost[i], hPre[i], hPost[i])))
  }

  /** `main`, assigning the columns of the table one after the other. */
  method BuildSummary(indsPre: seq<string>, indsPost: seq<string>, missPre: seq<real>, missPost: seq<real>,
                      hetPre: seq<(string, real)>, hetPost: seq<(string, real)>) returns (r: Result<seq<SummaryRow>, SummaryError>)
    ensures r == Summary(indsPre, indsPost, missPre, missPost, hetPre, hetPost)
  {
    var index := Names(indsPre);
    if indsPre == [] {
      index := Positions(|missPre|);
    }
    if |missPre| != |index| {
      return Err(LengthMismatch("Missing_Pre"));
    }
    if |missPost| != |indsPost| {
      return Err(LengthMismatch("Missing_Post"));
    }
    var post := Align(Named(Labelled(indsPost, missPost)), index, "Missing_Post");
    if post.Err? {
      return Err(post.error);
    }
    var mPre := Somes(missPre);
    var mPost := post.value;
    if index == [] {
      index := Names(Keys(hetPre));
      mPre := Nones(|index|);
      mPost := Nones(|index|);
    }
    var hPre := Align(Named(hetPre), index, "Heterozygosity_Pre");
    if hPre.Err? {
      return Err(hPre.error);
    }
    var hPost := Align(Named(hetPost), index, "Heterozygosity_Post");
    if hPost.Err? {
      return Err(hPost.error);
    }
    var rows: seq<SummaryRow> := [];
    for i := 0 to |index|
      invariant |rows| == i
      invariant forall j :: 0 <= j < i ==>
        rows[j] == SummaryRow(index[j], mPre[j], mPost[j], hPre.value[j], hPost.value[j])
    {
      rows := rows + [SummaryRow(index[i], mPre[i], mPost[i], hPre.value[i], hPost.value[i])];
    }
    assert rows == seq(|index|, i requires 0 <= i < |index| =>
      SummaryRow(index[i], mPre[i], mPost[i], hPre.value[i], hPost.value[i]));
    r := Ok(rows);
  }

  /**
   * An aligned column has one entry per target row; with distinct labels it
   * holds, for each row, the value labelled with that row's name, and
   * nothing when no label matches. It fails only for repeated labels that
   * differ from the target.
   */
  lemma AlignSpec<V>(pairs: seq<(Label, V)>, target: seq<Label>, column: string)
    ensures Align(pairs, target, column).Err? <==> Keys(pairs) != target && !DistinctKeys(pairs)
    ensures Align(pairs, target, column).Ok? ==> |Align(pairs, target, column).value| == |target|
    ensures DistinctKeys(pairs) ==> forall i :: 0 <= i < |target| ==>
      Align(pairs, target, column).value[i] == Get(pairs, target[i])
    ensures DistinctKeys(pairs) ==> forall i :: 0 <= i < |target| ==>
      (Align(pairs, target, column).value[i].None? <==> forall j :: 0 <= j < |pairs| ==> pairs[j].0 != target[i])
  {
    if DistinctKeys(pairs) {
      forall i | 0 <= i < |target|
        ensures Align(pairs, target, column).value[i] == Get(pairs, target[i])
      {
        if Keys(pairs) == target {
          GetDistinct(pairs, i);
        }
      }
      forall i | 0 <= i < |target|
        ensures Get(pairs, target[i]).None? <==> forall j :: 0 <= j < |pairs| ==> pairs[j].0 != target[i]
      {
        assert forall j :: 0 <= j < |pairs| ==> Keys(pairs)[j] == pairs[j].0;
      }
    }
  }

  /** In a list with distinct keys, the key at position i finds the value at position i. */
  lemma {:induction false} GetDistinct<K, V>(pairs: seq<(K, V)>, i: nat)
    requires DistinctKeys(pairs) && i < |pairs|
    ensures Get(pairs, pairs[i].0) == Some(pairs[i].1)
  {
    if i > 0 {
      assert DistinctKeys(pairs[1..]);
      assert pairs[1..][i - 1] == pairs[i];
      GetDistinct(pairs[1..], i - 1);
    }
  }

  /**
   * Taking a column's sample names as labels changes nothing about it: the
   * labels are the names, they repeat exactly when the names do, a name
   * finds the same value, and no position label is found.
   */
  lemma NamedLabels<V>(pairs: seq<(string, V)>)
    ensures Keys(Named(pairs)) == Names(Keys(pairs))
    ensures DistinctKeys(Named(pairs)) <==> DistinctKeys(pairs)
    ensures forall s :: Get(Named(pairs), Name(s)) == Get(pairs, s)
    ensures forall p :: Get(Named(pairs), Position(p)) == None
  {
    forall s ensures Get(Named(pairs), Name(s)) == Get(pairs, s) {
      GetNamed(pairs, s);
    }
    forall p ensures Get(Named(pairs), Position(p)) == None {
      assert forall l :: l in Keys(Named(pairs)) ==> l.Name?;
    }
  }

  lemma {:induction false} GetNamed<V>(pairs: seq<(string, V)>, s: string)
    ensures Get(Named(pairs), Name(s)) == Get(pairs, s)
  {
    if pairs != [] {
      assert Named(pairs)[1..] == Named(pairs[1..]);
      GetNamed(pairs[1..], s);
    }
  }

  /** The same names give the same labels, and only they do. */
  lemma NamesInjective(a: seq<string>, b: seq<string>)
    ensures Names(a) == Names(b) <==> a == b
  {
    if Names(a) == Names(b) {
      assert forall i :: 0 <= i < |a| ==> a[i] == Names(a)[i].name == Names(b)[i].name == b[i];
    }
  }

  /** The post-filter missingness, labelled by name, as `main` reindexes it. */
  lemma PostColumn(indsPost: seq<string>, missPost: seq<real>)
    requires |missPost| == |indsPost|
    ensures Keys(Named(Labelled(indsPost, missPost))) == Names(indsPost)
    ensures DistinctKeys(Named(Labelled(indsPost, missPost))) <==> Distinct(indsPost)
  {
    var labelled := Labelled(indsPost, missPost);
    NamedLabels(labelled);
    assert Keys(labelled) == indsPost;
  }

  /**
   * With a non-empty pre-filter list the table has one row per pre-filter
   * sample, in order. `Missing_Pre` is taken by position; `Missing_Post` is
   * the value at the sample's position in the post-filter list, missing when
   * the sample was filtered out; both heterozygosities are looked up by
   * sample name. The only failures are a value column of the wrong length
   * and repeated names.
   */
  lemma SummarySpec(indsPre: seq<string>, indsPost: seq<string>, missPre: seq<real>, missPost: seq<real>,
                    hetPre: seq<(string, real)>, hetPost: seq<(string, real)>)
    requires indsPre != [] && |missPre| == |indsPre| && |missPost| == |indsPost|
    requires Distinct(indsPost) && DistinctKeys(hetPre) && DistinctKeys(hetPost)
    ensures Summary(indsPre, indsPost, missPre, missPost, hetPre, hetPost).Ok?
    ensures var rows := Summary(indsPre, indsPost, missPre, missPost, hetPre, hetPost).value;
      && |rows| == |indsPre|
      && (forall i :: 0 <= i < |rows| ==> rows[i].sample == Name(indsPre[i]) && rows[i].missingPre == Some(missPre[i]))
      && (forall i, j :: 0 <= i < |rows| && 0 <= j < |indsPost| && indsPost[j] == indsPre[i] ==>
           rows[i].missingPost == Some(missPost[j]))
      && (forall i :: 0 <= i < |rows| && indsPre[i] !in indsPost ==> rows[i].missingPost.None?)
      && (forall i :: 0 <= i < |rows| ==> rows[i].hetPre == Get(hetPre, indsPre[i]))
      && (forall i :: 0 <= i < |rows| ==> rows[i].hetPost == Get(hetPost, indsPre[i]))
  {
    var labelled := Named(Labelled(indsPost, missPost));
    var index := Names(indsPre);
    PostColumn(indsPost, missPost);
    NamedLabels(hetPre);
    NamedLabels(hetPost);
    AlignSpec(labelled, index, "Missing_Post");
    AlignSpec(Named(hetPre), index, "Heterozygosity_Pre");
    AlignSpec(Named(hetPost), index, "Heterozygosity_Post");
    var rows := Summary(indsPre, indsPost, missPre, missPost, hetPre, hetPost).value;
    forall i, j | 0 <= i < |rows| && 0 <= j < |indsPost| && indsPost[j] == indsPre[i]
      ensures rows[i].missingPost == Some(missPost[j])
    {
      GetDistinct(labelled, j);
    }
    forall i | 0 <= i < |rows| && indsPre[i] !in indsPost
      ensures rows[i].missingPost.None?
    {
      assert forall j :: 0 <= j < |labelled| ==> labelled[j].0 == Name(indsPost[j]);
    }
  }

  /**
   * An empty pre-filter list with a non-empty missingness file: the frame
   * takes the positions 0, 1, ... of the array as its rows. No sample name
   * is such a label, so the other three columns are missing throughout.
   */
  lemma SummaryFromPositions(indsPre: seq<string>, indsPost: seq<string>, missPre: seq<real>, missPost: seq<real>,
                             hetPre: seq<(string, real)>, hetPost: seq<(string, real)>)
    requires indsPre == [] && missPre != [] && |missPost| == |indsPost|
    requires Distinct(indsPost) && DistinctKeys(hetPre) && DistinctKeys(hetPost)
    ensures Summary(indsPre, indsPost, missPre, missPost, hetPre, hetPost).Ok?
    ensures var rows := Summary(indsPre, indsPost, missPre, missPost, hetPre, hetPost).value;
      && |rows| == |missPre|
      && forall i :: 0 <= i < |rows| ==> rows[i] == SummaryRow(Position(i), Some(missPre[i]), None, None, None)
  {
    var labelled := Named(Labelled(indsPost, missPost));
    var index := Positions(|missPre|);
    PostColumn(indsPost, missPost);
    NamedLabels(Labelled(indsPost, missPost));
    NamedLabels(hetPre);
    NamedLabels(hetPost);
    AlignSpec(labelled, index, "Missing_Post");
    AlignSpec(Named(hetPre), index, "Heterozygosity_Pre");
    AlignSpec(Named(hetPost), index, "Heterozygosity_Post");
  }

  /**
   * Empty pre-filter and missingness lists: the frame takes the sample names
   * of the pre-filter heterozygosity table as its rows, in that table's
   * order and repeats included. Its values come by position, the
   * post-filter heterozygosity by name, and both missingness columns are
   * missing.
   */
  lemma SummaryFromHetPre(indsPre: seq<string>, indsPost: seq<string>, missPre: seq<real>, missPost: seq<real>,
                          hetPre: seq<(string, real)>, hetPost: seq<(string, real)>)
    requires indsPre == [] && missPre == [] && |missPost| == |indsPost|
    requires Distinct(indsPost) && DistinctKeys(hetPost)
    ensures Summary(indsPre, indsPost, missPre, missPost, hetPre, hetPost).Ok?
    ensures var rows := Summary(indsPre, indsPost, missPre, missPost, hetPre, hetPost).value;
      && |rows| == |hetPre|
      && forall i :: 0 <= i < |rows| ==>
           rows[i] == SummaryRow(Name(hetPre[i].0), None, None, Some(hetPre[i].1), Get(hetPost, hetPre[i].0))
  {
    var labelled := Named(Labelled(indsPost, missPost));
    var rows := Names(Keys(hetPre));
    PostColumn(indsPost, missPost);
    NamedLabels(hetPre);
    NamedLabels(hetPost);
    AlignSpec(labelled, [], "Missing_Post");
    AlignSpec(Named(hetPost), rows, "Heterozygosity_Post");
  }

  /** The errors, in the order `main` meets them. */
  lemma SummaryErrors(indsPre: seq<string>, indsPost: seq<string>, missPre: seq<real>, missPost: seq<real>,
                      hetPre: seq<(string, real)>, hetPost: seq<(string, real)>)
    ensures var r := Summary(indsPre, indsPost, missPre, missPost, hetPre, hetPost);
      && (r == Err(LengthMismatch("Missing_Pre")) <==> indsPre != [] && |missPre| != |indsPre|)
      && (r == Err(LengthMismatch("Missing_Post")) <==>
           (indsPre == [] || |missPre| == |indsPre|) && |missPost| != |indsPost|)
      && ((indsPre == [] || |missPre| == |indsPre|) && |missPost| == |indsPost| ==>
           (r == Err(DuplicateLabels("Missing_Post")) <==> indsPost != indsPre && !Distinct(indsPost)))
  {
    if (indsPre == [] || |missPre| == |indsPre|) && |missPost| == |indsPost| {
      var labelled := Named(Labelled(indsPost, missPost));
      var index := PreIndex(indsPre, missPre);
      PostColumn(indsPost, missPost);
      AlignSpec(labelled, index, "Missing_Post");
      if indsPre == [] {
        if indsPost != [] && missPre != [] {
          assert Keys(labelled)[0] != index[0];
        }
      } else {
        NamesInjective(indsPost, indsPre);
      }
    }
  }
}
