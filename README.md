# gtseqdesign core, modelled in Dafny

This project models the sequential logic in the helper scripts of the
gtseqdesign pipeline. It proves, by Dafny's verifier, what each piece computes.

- **Locus informativeness** (`bin/infocalc.py`), after Rosenberg et al. (2003):
  - exact `factorial`;
  - the bottom-up table of unsigned Stirling numbers of the first kind, kept as an `array2<nat>` filled by nested loops;
  - the branch structure of In (eq. 4) and of Ia (eq. 14), with the logarithm as a parameter;
  - the diploid optimal rate of correct assignment ORCA (eq. 12, one locus);
  - the prior estimator and the per-locus loop of `main`.

  Ia is a tagged result: `Unsupported` (NaN), `Degenerate` (−9999) or a value. `ReportIa` maps the tags back to the legacy encoding.
- **Consensus builder** (`bin/loci_to_consensus.py`):
  - the `.loci` block parser;
  - the per-column majority vote that ignores `-`, `N` and `n`;
  - the consensus dictionary built by `dict(results)`;
  - the FASTA text `write_fasta` writes.
- **STRUCTURE relabeller** (`bin/snpio_convert_structure.py`, with `bin/snpio_filter.py`):
  - the VCF file name → prefix rule and the output names;
  - popmap parsing;
  - the header line and the pairwise rewrite of column 1.
- **MultiQC header** (`bin/plot_metrics.py`, `bin/plot_cv.py`):
  - both variants of `parse_template`;
  - `build_comment`;
  - the `--id`/`--title`/`--section_name`/`--description` overrides;
  - the round trip between parsing and building.
- **Whitespace table** (`bin/plot_metrics.py`):
  - the header search and record filter of `load_whitespace_table`;
  - the selection and non-negativity filter of `main`.
- **Sample summary** (`bin/sample_summary.py`):
  - `load_list`;
  - the heterozygosity rule;
  - the alignment of the pre- and post-filter columns onto the pre-filter samples.

Files are sequences of lines without their terminators, and written files are strings.

Python dictionaries are insertion-ordered association lists (`Dicts`):
- assigning an existing key keeps its place;
- assigning a new key appends it;
- `dict(pairs)` keeps the last value of each key.

Python's `str.strip`, `str.split`, `str.splitlines`, `int`, `str` and `re.search` live in `Text`, with their lemmas.

Modules: `Wrappers` (Option, Result); `Text`; `Dicts`; `Vectors` (real vectors); `Combinatorics`; `Infocalc`; `LociConsensus`; `VcfNames`; `StructureRelabel`; `MultiqcHeader`; `MetricsTable`; `SampleSummary`.

The imperative parts of the scripts are methods with loops. Each method is proved equal to a function, and the function's properties are proved as lemmas:
- the Stirling table;
- the accumulators of `In_locus` and `Ia_locus_uniform`;
- the result arrays of `main`;
- the line loops of the parsers;
- the record lists of the writers.

## Model

| member | source | states |
|---|---|---|
| Combinatorics.Factorial | bin/infocalc.py:43-44 | n! is at least 1, and at least n for n ≥ 1; `or 1` makes it 1 for n ≤ 0 |
| Combinatorics.Factorial24 | bin/infocalc.py:43-44 | 24! is exactly 620448401733239439360000: no overflow or rounding at the largest K Ia uses |
| Combinatorics.StirlingAboveDiagonal | bin/infocalc.py:53-58 | S(n, k) = 0 whenever k > n, so table cells with j > i stay 0 |
| Combinatorics.StirlingDiagonal | bin/infocalc.py:51-52 | S(n, n) = 1, the value of the `k == n` shortcut |
| Combinatorics.StirlingFirstColumn | bin/infocalc.py:47-58 | S(n, 1) = (n − 1)! for n ≥ 1 |
| Combinatorics.RowSumIsFactorial | bin/infocalc.py:47-48 | S(n,0) + … + S(n,n) = n!: the numbers count permutations by their cycles |
| Combinatorics.FillRow | bin/infocalc.py:55-57 | one pass of the inner loop sets row i to S(i, ·) from row i − 1 and changes no other row |
| Combinatorics.UnsignedStirlingFirst | bin/infocalc.py:47-58 | the shortcuts and the filled (n+1)×(k+1) table return exactly S(n, k) |
| Vectors.MaxIsMaximum | bin/infocalc.py:110 | `max()` is an entry that no entry exceeds |
| Vectors.MeanComplement | bin/infocalc.py:87-88 | the mean of `1 - p` is 1 minus the mean of p |
| Vectors.MeanOfConstant | bin/infocalc.py:88-89 | the mean of a constant vector is that constant |
| Infocalc.InLocus | bin/infocalc.py:64-73 | the loop over both alleles returns In: the skip of an allele whose weighted mean is 0 or 1, then −p̄·log p̄ plus the cluster terms where the allele is positive |
| Infocalc.InMonomorphic | bin/infocalc.py:67-70 | a row of all 0 or all 1 skips both alleles, so In = 0 for a prior summing to 1 |
| Infocalc.InTiedHalves | bin/infocalc.py:64-73 | p = q = [0.5, 0.5] gives In = 0 whatever the logarithm |
| Infocalc.ClusterSum | bin/infocalc.py:92-98 | the loop over clusters skips frequencies equal to 0, sums (p_i^K)·log p_i / denom, and stops with no value at the first zero denominator |
| Infocalc.AlleleContribution | bin/infocalc.py:87-98 | one allele: 0 when its plain mean is 0 or 1, otherwise pj·(1 − log pj − S/K!) plus the cluster terms, or degenerate |
| Infocalc.IaLocusUniform | bin/infocalc.py:79-99 | NaN for K > 24 before any frequency is read; otherwise both alleles in order, −9999 at the first zero denominator with the partial sum dropped |
| Infocalc.IaUnfold | bin/infocalc.py:87-99 | Ia is degenerate iff either allele is; otherwise it is the two contributions added |
| Infocalc.ProdDiffsZero | bin/infocalc.py:95 | the product of differences is 0 iff another cluster has the same frequency |
| Infocalc.ClusterTermsNone | bin/infocalc.py:92-97 | the cluster loop meets a zero denominator iff some non-zero frequency is tied with another cluster |
| Infocalc.AlleleIaNone | bin/infocalc.py:87-97 | an allele is degenerate iff its mean is not 0 or 1 and a non-zero frequency is tied |
| Infocalc.TieOnSomeAllele | bin/infocalc.py:87-95 | two clusters tie iff the tie is non-zero on the reference allele or on the alternate one |
| Infocalc.PolymorphicComplement | bin/infocalc.py:87-89 | the alternate allele is skipped exactly when the reference allele is |
| Infocalc.IaDegenerateIff | bin/infocalc.py:79-99 | for K ≤ 24, Ia is −9999 iff the mean is not 0 or 1 and two clusters share a frequency (either direction) |
| Infocalc.IaNotPolymorphic | bin/infocalc.py:88-90 | a mean of 0 or 1 skips both alleles: Ia = 0 |
| Infocalc.MonomorphicNotPolymorphic | bin/infocalc.py:88-89 | a row of all 0 or all 1 has mean 0 or 1 |
| Infocalc.IaMonomorphic | bin/infocalc.py:88-90 | a monomorphic row gives Ia = 0 |
| Infocalc.IaTiedHalves | bin/infocalc.py:79-99 | p = [0.5, 0.5] gives Ia = −9999 |
| Infocalc.GenotypeShares | bin/infocalc.py:107-109 | per cluster, p², 2p(1−p) and (1−p)² weighted by q_i are non-negative and add up to q_i |
| Infocalc.GenotypeVectors | bin/infocalc.py:107-110 | the three prior-weighted genotype vectors are non-negative and add up to q, cluster by cluster |
| Infocalc.MaximaOfSplit | bin/infocalc.py:110 | for three non-negative vectors summing to q, the sum of their maxima is between max q and Σq |
| Infocalc.OrcaBounds | bin/infocalc.py:105-110 | for p in [0,1]^K and a prior distribution q, ORCA lies in [0, 1] and is at least max_i q_i |
| Infocalc.UniformSumsToOne | bin/infocalc.py:138 | the uniform prior 1/K sums to 1 |
| Infocalc.NormalizeSumsToOne | bin/infocalc.py:135 | the renormalised means sum to 1 |
| Infocalc.MeansNonNegative | bin/infocalc.py:134 | the column means of a non-negative Q are non-negative |
| Infocalc.PriorSumsToOne | bin/infocalc.py:130-139 | every prior returned has K entries summing to 1 |
| Infocalc.PriorIsDistribution | bin/infocalc.py:130-139 | with a non-negative Q the prior is a probability vector |
| Infocalc.EstimatePrior | bin/infocalc.py:130-139 | with no Q: uniform 1/K; with Q: an error when its width is not K, otherwise the column means over their sum (an error when that sum is 0) |
| Infocalc.ScoreLocus | bin/infocalc.py:150-153 | one row's In and ORCA under the shared prior, and its Ia under the uniform prior |
| Infocalc.ScoreLoci | bin/infocalc.py:141-153 | the three result arrays: row i's result at index i, depending only on row i and the prior |
| Infocalc.Run | bin/infocalc.py:130-153 | the run fails iff the prior does, before any locus is scored; otherwise it records which prior it used and gives one result per row, in order |
| Text.TrimLeftSpec | bin/snpio_convert_structure.py:20 | `lstrip` removes a prefix of dropped characters and stops at a kept one |
| Text.TrimRightSpec | bin/plot_metrics.py:23 | `rstrip` removes a suffix of dropped characters and stops at a kept one |
| Text.TrimPadded | bin/plot_metrics.py:23 | stripping removes exactly the padding around a core whose ends are kept |
| Text.StripSplits | bin/loci_to_consensus.py:16 | a text is its leading whitespace, its stripped form and its trailing whitespace |
| Text.StripPad | bin/plot_cv.py:19-20 | surrounding whitespace does not change what `strip()` returns |
| Text.Split | bin/snpio_convert_structure.py:19 | `split()` yields non-empty tokens without whitespace |
| Text.SplitJoin | bin/snpio_convert_structure.py:87-88 | tokens without whitespace, joined by a whitespace separator, split back into themselves |
| Text.SplitOnce | bin/loci_to_consensus.py:29 | `split(maxsplit=1)` gives at most two parts: a token, then a rest that starts with a non-space |
| Text.SplitLines | bin/plot_metrics.py:20 | `splitlines()` yields lines without line boundaries |
| Text.SplitUnlines | bin/loci_to_consensus.py:58 | lines without boundaries, each ended by a newline, split back into themselves |
| Text.FindFrom | bin/plot_metrics.py:16 | the first occurrence of a pattern at or after a position, or none |
| Text.IndexOf | bin/plot_metrics.py:21-22 | the first `:` of a line, or its length when there is none |
| Text.RemoveChar | bin/loci_to_consensus.py:32 | `replace('>', '')` leaves no `>`, and every other character occurs in the result iff it occurs in the input |
| Text.RemoveCharAppend | bin/loci_to_consensus.py:32 | removing from a concatenation removes from each part; with RemoveCharAbsent on single characters this fixes the result, order included |
| Text.NatToString | bin/loci_to_consensus.py:56 | `str(n)` is a string of digits whose value is n, without a leading zero unless n = 0 |
| Text.ParseIntToString | bin/snpio_convert_structure.py:20 | `int(str(i)) == i` |
| Dicts.Get | bin/snpio_convert_structure.py:80 | `d.get(k)` is missing exactly when k is not a key |
| Dicts.PutSpec | bin/plot_metrics.py:23 | `d[k] = v` maps k to v and every other key as before; an existing key keeps its place and a new one comes last |
| Dicts.FromPairsLastWins | bin/loci_to_consensus.py:74 | `dict(pairs)` keeps each key once, with the value of its last pair |
| Dicts.LastValueNone | bin/loci_to_consensus.py:74 | a key is in `dict(pairs)` iff some pair carries it |
| Dicts.LastValueSome | bin/loci_to_consensus.py:74 | the value kept for a key is that of a pair with no later pair for the same key |
| Dicts.FromPairsDistinct | bin/plot_metrics.py:19-23 | assigning the entries of a dictionary in order rebuilds it |
| LociConsensus.LastIndex | bin/loci_to_consensus.py:12 | the position of the last occurrence of a character, or none when it does not occur |
| LociConsensus.TrailingIndexOf | bin/loci_to_consensus.py:12-22 | a line ending in a bar, digits and a bar yields the value of those digits |
| LociConsensus.TrailingIndexShape | bin/loci_to_consensus.py:12-22 | conversely, a match splits the line into text, a bar, digits and a final bar |
| LociConsensus.ParseLociFile | bin/loci_to_consensus.py:7-34 | the line loop computes exactly the closed blocks, or the error of a `//` line without an index |
| LociConsensus.ErrorStays | bin/loci_to_consensus.py:24 | once the parser has raised, later lines change nothing |
| LociConsensus.BlocksNonEmpty | bin/loci_to_consensus.py:25-27 | every closed block holds at least one sequence |
| LociConsensus.ParseFailsIff | bin/loci_to_consensus.py:19-24 | parsing a prefix of lines fails iff one of them is a separator without its index |
| LociConsensus.ParseLociSpec | bin/loci_to_consensus.py:16-34 | the file fails to parse iff some stripped `//` line lacks a trailing bar-delimited index (pending sequences or not); every returned block has a sequence |
| LociConsensus.ParseLociBlocks | bin/loci_to_consensus.py:7-34 | a successful parse returns exactly the blocks closed by the `//` lines, each under its own line's index; their sequences, followed by those still pending, are every two-field line's sequence in file order |
| LociConsensus.ParseUpToClosed | bin/loci_to_consensus.py:15-32 | after n lines the parser holds the blocks closed so far and the sequences read since the last `//` line |
| LociConsensus.SeparatorClosesBlock | bin/loci_to_consensus.py:19-27 | a `//` line with an index appends one block under that index holding the pending sequences, when there are any, and empties the pending list |
| LociConsensus.OtherLineKeepsBlocks | bin/loci_to_consensus.py:17-32 | a blank or entry line closes nothing; a two-field line adds its sequence to the pending ones and a one-field line adds nothing |
| LociConsensus.ClosedFlatten | bin/loci_to_consensus.py:15-34 | when every `//` line has an index, the closed blocks' sequences followed by the pending ones are all the sequences of the file, in order |
| LociConsensus.PrefixParse | bin/loci_to_consensus.py:15-34 | the state after n lines does not depend on later lines |
| LociConsensus.NoSeparatorKeepsBlocks | bin/loci_to_consensus.py:28-32 | lines without `//` never close a block |
| LociConsensus.DropsUnclosed | bin/loci_to_consensus.py:25-34 | sequence lines after the last `//` never reach the output |
| LociConsensus.KindsAppend | bin/loci_to_consensus.py:15-16 | each line is read on its own, so the lines of a concatenation are read as those of each part |
| LociConsensus.CountPositive | bin/loci_to_consensus.py:48 | a symbol of a column occurs in it at least once |
| LociConsensus.LeaderSpec | bin/loci_to_consensus.py:43-49 | the running winner exists iff some non-gap symbol has been seen; it is such a symbol and it beats or equals each of them |
| LociConsensus.VoteIsMajority | bin/loci_to_consensus.py:43-49 | a gap-only column votes `N`; otherwise the vote is a non-gap symbol of the column with maximal count, the smallest on a tie |
| LociConsensus.ComputeConsensus | bin/loci_to_consensus.py:36-51 | the index unchanged with the column votes as a string; an error for a block numpy cannot stack |
| LociConsensus.InsertMembers | bin/loci_to_consensus.py:55 | inserting adds exactly the new element |
| LociConsensus.InsertIncreasing | bin/loci_to_consensus.py:55 | inserting into an increasing sequence keeps it increasing |
| LociConsensus.InsertSpec | bin/loci_to_consensus.py:55 | insertion keeps a sequence strictly increasing and adds exactly the new element |
| LociConsensus.SortKeysSpec | bin/loci_to_consensus.py:55 | `sorted(d)`: strictly increasing, and exactly the keys |
| LociConsensus.UnlinesPairs | bin/loci_to_consensus.py:56-58 | records that are two lines each, each record followed by a newline, give those lines each followed by a newline |
| LociConsensus.HeaderNoLineBreak | bin/loci_to_consensus.py:56 | `>{prefix}_{index}` has no line break when the prefix has none |
| LociConsensus.RecordsArePairs | bin/loci_to_consensus.py:56 | each record is its header, a newline and its sequence |
| LociConsensus.FastaLinesNoBreak | bin/loci_to_consensus.py:56 | no output line holds a line break |
| LociConsensus.FastaRoundTrip | bin/loci_to_consensus.py:53-58 | the written text splits back into, per index in ascending order, `>{prefix}_{index}` then its consensus; an empty dictionary writes a lone newline |
| LociConsensus.WriteFasta | bin/loci_to_consensus.py:53-58 | the loop over the sorted keys appends the records, then joins them by newlines and adds a final newline |
| LociConsensus.ConsensusAllSpec | bin/loci_to_consensus.py:71-72 | the map succeeds iff every block can be stacked; then each block's index is paired with its consensus, in block order; otherwise the first ragged block is reported |
| LociConsensus.ConsensusAllStops | bin/loci_to_consensus.py:71-72 | once a block fails, later blocks change nothing |
| LociConsensus.LociToConsensus | bin/loci_to_consensus.py:69-75 | `main` parses, maps, builds the dictionary and writes its FASTA text, or stops with the first error |
| LociConsensus.ConvertLociSpec | bin/loci_to_consensus.py:69-75 | for a file that parses into stackable blocks, each index appears once in the dictionary, with the consensus of the last block that carries it; an index no block carries is absent |
| VcfNames.Basename | bin/snpio_filter.py:7 | `os.path.basename` has no `/` and is no longer than the path |
| VcfNames.PrefixSplitsBasename | bin/snpio_convert_structure.py:7-12 | prefix followed by the removed suffix is the basename, and the prefix has no `/` |
| VcfNames.PrefixCases | bin/snpio_filter.py:6-11 | a name ending in `.vcf.gz` loses exactly that; else one ending in `.vcf` loses exactly that; any other basename is kept |
| VcfNames.BasenameOfJoin | bin/snpio_filter.py:7 | the directory part of a path is dropped |
| VcfNames.PrefixIgnoresDirectory | bin/snpio_filter.py:7-11 | the prefix depends only on the basename |
| VcfNames.BasenameNoSlash | bin/snpio_filter.py:7 | a path without `/` is its own basename |
| VcfNames.FilteredPrefix | bin/snpio_filter.py:52 | the filtered VCF has no directory part, and read back by the converter its prefix is the original prefix followed by `.filter` |
| VcfNames.PrefixOfVcfName | bin/snpio_convert_structure.py:7-12 | a name without `/` ending in a plain `.vcf` loses exactly that |
| VcfNames.FilteredStructureNames | bin/snpio_convert_structure.py:50-54 | from a filtered VCF the converter writes `<prefix>.filter.stru` and `<prefix>.filter.labeled.stru`, and the relabelled file never has the raw file's name |
| StructureRelabel.ParsePopmapLine | bin/snpio_convert_structure.py:19-20 | one line: exactly two fields (an error otherwise), and the group after its leading `K`s as an integer (an error otherwise) |
| StructureRelabel.ParsePopmap | bin/snpio_convert_structure.py:15-21 | the loop assigns the lines' entries in order and raises at the first bad line |
| StructureRelabel.CollectStops | bin/snpio_convert_structure.py:19-20 | once a line has raised, later lines change nothing |
| StructureRelabel.CollectSpec | bin/snpio_convert_structure.py:18-20 | the loop succeeds iff each line parses, and then yields `dict` of the entries; otherwise the error of the first bad line |
| StructureRelabel.PopmapSpec | bin/snpio_convert_structure.py:15-21 | the popmap exists iff every line parses; each sample maps to the group of its last line; a failure is the first bad line's |
| StructureRelabel.FieldsOf | bin/snpio_convert_structure.py:19 | `sample<TAB>group` splits into the two fields |
| StructureRelabel.GroupOf | bin/snpio_convert_structure.py:20 | any number of leading `K`s before an integer is stripped, and the integer read back |
| StructureRelabel.PopmapEntryOf | bin/snpio_convert_structure.py:19-20 | a line `sample<TAB>K…K<id>` is read as (sample, id) |
| StructureRelabel.HeaderTokens | bin/snpio_convert_structure.py:62-63 | the header splits into `0`, `1`, …, `n−1` and is one line |
| StructureRelabel.PairOutcomeAt | bin/snpio_convert_structure.py:67-69 | outcome k is the rewrite of lines 2k and 2k+1 |
| StructureRelabel.WrittenStep | bin/snpio_convert_structure.py:87-88 | one more pair either raises its error or appends its two tab-joined lines |
| StructureRelabel.WrittenStops | bin/snpio_convert_structure.py:77-82 | once a pair has raised, later pairs change nothing |
| StructureRelabel.Halves | bin/snpio_convert_structure.py:68-71 | a second line exists exactly while whole pairs remain |
| StructureRelabel.RewritePair | bin/snpio_convert_structure.py:73-85 | both lines split, checked and given the population number in field 1 |
| StructureRelabel.RewritePairs | bin/snpio_convert_structure.py:66-88 | the pair loop writes the header, then two lines per pair, or stops with the first pair's error |
| StructureRelabel.RelabelStructure | bin/snpio_convert_structure.py:56-88 | an empty input raises; otherwise the header and the pair loop |
| StructureRelabel.JoinTabsNoLineBreak | bin/snpio_convert_structure.py:87-88 | tab-joined tokens without whitespace are a single line |
| StructureRelabel.RelabelPairSpec | bin/snpio_convert_structure.py:73-88 | a pair is rewritten iff both lines have two fields, name the same sample and that sample is in the popmap; then only field 1 changes, to the id, and each written line splits back into its fields |
| StructureRelabel.WrittenSpec | bin/snpio_convert_structure.py:66-88 | the loop succeeds iff every pair does, and then writes two lines per pair in input order; otherwise it reports the first failing pair |
| StructureRelabel.RelabelFails | bin/snpio_convert_structure.py:58-82 | the rewrite fails iff the input is empty or some complete pair cannot be rewritten, and then with the first such pair's error |
| StructureRelabel.RelabelLines | bin/snpio_convert_structure.py:56-88 | the written file splits into the locus-number header, then for each pair k its two rewritten lines at 2k+1 and 2k+2 |
| StructureRelabel.WrittenNoLineBreak | bin/snpio_convert_structure.py:87-88 | no written line holds a line break |
| StructureRelabel.DropsUnpaired | bin/snpio_convert_structure.py:68-71 | a trailing line without a partner is dropped silently |
| MultiqcHeader.StripKeeps | bin/plot_cv.py:18-19 | stripping keeps every non-space character, so `':' in line` is unaffected |
| MultiqcHeader.ParseMetricsTemplate | bin/plot_metrics.py:13-24 | finds the first `<!--…-->` block (an error without one), then reads its lines |
| MultiqcHeader.GatherMetricsLines | bin/plot_metrics.py:19-23 | the loop assigns each line's entry in order |
| MultiqcHeader.AssignMetricsLine | bin/plot_metrics.py:21-23 | a line with `:` is split at its first `:`, and the stripped key gets the stripped, unquoted value |
| MultiqcHeader.ParseCvTemplate | bin/plot_cv.py:8-21 | finds the first `<!--…-->` block (an error without one), then reads the lines of the stripped block |
| MultiqcHeader.GatherCvLines | bin/plot_cv.py:16-20 | the loop assigns each line's entry in order |
| MultiqcHeader.AssignCvLine | bin/plot_cv.py:18-20 | the same for a line stripped before it is split |
| MultiqcHeader.GatherPresent | bin/plot_metrics.py:19-23 | the loop is `dict` of the entries present, in order |
| MultiqcHeader.GatherLastWins | bin/plot_metrics.py:19-23 | each key is kept once, with the value of the last line that names it |
| MultiqcHeader.CvEntryAgrees | bin/plot_cv.py:18-20 | stripping a line before splitting it reads the same entry as bin/plot_metrics.py does |
| MultiqcHeader.PaddedParts | bin/plot_cv.py:19 | surrounding whitespace moves the first `:` only by the leading whitespace and changes neither stripped key nor stripped value |
| MultiqcHeader.MetricsEntryAt | bin/plot_metrics.py:21-23 | the entry of a line whose first `:` is at c |
| MultiqcHeader.BuildComment | bin/plot_metrics.py:27-32 | the loop appends `<!--`, one `key: "value"` line per entry in insertion order, and `-->`, then joins them by newlines |
| MultiqcHeader.EntryRoundTrip | bin/plot_metrics.py:22-30 | a plain entry's `key: "value"` line is read back as that entry by both scripts |
| MultiqcHeader.QuotedValue | bin/plot_metrics.py:23 | ` "v"` stripped and unquoted is v, for a v whose ends are not quotes |
| MultiqcHeader.FramedBody | bin/plot_metrics.py:16 | a body without `>` between `<!--` and `-->` is found as the block |
| MultiqcHeader.CommentShape | bin/plot_metrics.py:27-32 | a built comment's block is a newline, then each entry line followed by a newline |
| MultiqcHeader.CvLinesOfComment | bin/plot_cv.py:17 | bin/plot_cv.py sees exactly one line per entry of a built comment |
| MultiqcHeader.GatherAll | bin/plot_cv.py:16-20 | lines that each carry one entry, with distinct keys, gather back into those entries in order |
| MultiqcHeader.GatherAfterBlank | bin/plot_metrics.py:19-23 | the same after one leading blank line |
| MultiqcHeader.MetricsRoundTrip | bin/plot_metrics.py:13-32 | parsing what `build_comment` writes gives the dictionary back, order included, for plain entries |
| MultiqcHeader.CvRoundTrip | bin/plot_cv.py:8-28 | the same for the bin/plot_cv.py parser |
| MultiqcHeader.OverrideSpec | bin/plot_cv.py:68-69 | an override sets its key only when the option is given and non-empty and leaves every other key; an existing key keeps its place, a new one comes last |
| MultiqcHeader.OverrideAt | bin/plot_cv.py:68-69 | the value of any key after one override |
| MultiqcHeader.OverriddenAt | bin/plot_cv.py:67-77 | the value of any key after the four overrides |
| MultiqcHeader.OverriddenSpec | bin/plot_cv.py:67-77 | each of `id`, `title`, `section_name`, `description` carries its option if given and its template value otherwise; no other key changes; template keys keep their order and only overridden keys are added after them |
| MultiqcHeader.OverriddenDistinct | bin/plot_cv.py:67-77 | the result is still a dictionary: no key twice |
| MultiqcHeader.OverriddenKeys | bin/plot_cv.py:67-77 | the template's keys come first and only overridable keys follow |
| MetricsTable.HeaderIndex | bin/plot_metrics.py:41-42 | the first line that is non-blank and not a `#` line after leading whitespace; none when no line is |
| MetricsTable.LoadWhitespaceTable | bin/plot_metrics.py:35-56 | the header search, then the record loop with its `continue`s; an error when there is no header |
| MetricsTable.RecordsAppend | bin/plot_metrics.py:45-51 | records keep file order |
| MetricsTable.RecordOfLine | bin/plot_metrics.py:46-51 | a line is a record iff it is non-blank, not a `#` line, starts with a token of digits and has as many tokens as the header; the record is its tokens |
| MetricsTable.RecordsWellFormed | bin/plot_metrics.py:49-51 | every record has one token per column and a numeric first token |
| MetricsTable.LoadTableSpec | bin/plot_metrics.py:40-51 | the loader fails iff no line can be the header; otherwise the columns are the first header's tokens and the records are those of the later lines |
| MetricsTable.MetricColumns | bin/plot_metrics.py:79 | the metric columns are those other than the id column and `selected` |
| MetricsTable.KeptRowsSpec | bin/plot_metrics.py:76-80 | a kept row is a record, selected iff its id is a top id, with no negative or missing metric; every record without one is kept |
| MetricsTable.PlotRowsSpec | bin/plot_metrics.py:72-80 | the same on the two tables: selection by the top table's first column, and rows with a negative metric (the −9999 sentinel) dropped |
| MetricsTable.TopIdsMember | bin/plot_metrics.py:76 | an id is in `set(top_df.iloc[:, 0])` iff some top record starts with it |
| SampleSummary.LoadListAppend | bin/sample_summary.py:5-7 | names keep file order |
| SampleSummary.LoadListStripped | bin/sample_summary.py:7 | every name is non-empty and stripped |
| SampleSummary.StripIdempotent | bin/sample_summary.py:7 | stripping twice is stripping once |
| SampleSummary.LoadListIdempotent | bin/sample_summary.py:5-7 | a list written one name per line reads back unchanged |
| SampleSummary.AmbiguousAtMostCalls | bin/sample_summary.py:17-18 | the calls that are not a single base are among the non-missing calls |
| SampleSummary.HetBounds | bin/sample_summary.py:16-18 | heterozygosity lies in [0, 1], and is 0 for a sample without calls |
| SampleSummary.HetExtremes | bin/sample_summary.py:18 | all calls single bases gives 0 ambiguous calls; none of them gives all calls ambiguous |
| SampleSummary.PopulationIgnored | bin/sample_summary.py:14-15 | the counts do not look at the `Population` column |
| SampleSummary.HetIgnoresPopulation | bin/sample_summary.py:14-18 | whatever `Population` holds, the heterozygosity is the same |
| SampleSummary.AlignSpec | bin/sample_summary.py:33-40 | an aligned column has one entry per target row; with distinct labels each row gets its label's value or nothing; it fails only for repeated labels that differ from the target |
| SampleSummary.BuildSummary | bin/sample_summary.py:22-43 | the column assignments of `main`, in order: an empty frame takes the labels of the first non-empty column assigned to it; the method stops at the first error |
| SampleSummary.SummarySpec | bin/sample_summary.py:22-43 | with a non-empty pre-filter list: one row per pre-filter sample, in order; `Missing_Pre` by position; `Missing_Post` from the sample's position in the post list, missing when it was filtered out; both heterozygosities by name |
| SampleSummary.SummaryFromPositions | bin/sample_summary.py:26-40 | an empty pre-filter list with a non-empty missingness file: the rows are the positions 0, 1, … of the array, with their `Missing_Pre` values, and the other three columns are missing |
| SampleSummary.SummaryFromHetPre | bin/sample_summary.py:26-40 | empty pre-filter and missingness lists: the rows are the pre-filter heterozygosity table's samples in its order, with their values, the post-filter heterozygosity by name, and no missingness |
| SampleSummary.SummaryErrors | bin/sample_summary.py:26-34 | the failures, in the order `main` meets them: a `Missing_Pre` column whose length differs from a non-empty pre-filter list; a post-filter missingness column of the wrong length; repeated post-filter names that differ from the pre list |

## Left out

- The numeric values of In and Ia need natural logarithms of doubles. Every statistic takes `log` as a parameter, so only the branch structure is proved.
  - In ≥ 0 is not proved, because it depends on what `log` is.
- Floating point:
  - arithmetic is exact `real`;
  - the exact `==` tests of bin/infocalc.py:69, 89 and 96 are real equality;
  - underflow, the renormalisation drift at bin/infocalc.py:135 and the `%.10g` formatting at bin/infocalc.py:160 are not modelled.
- `np.log(allele, where=allele > 0)` is given no `out=`, so its masked entries are uninitialised (bin/infocalc.py:72). The model gives those entries 0, the value the formula intends.
- Infocalc.EstimatePrior: when every column mean of `.Q` is 0, numpy divides by 0 and the priors become NaN. The model returns the explicit error `ZeroPriorMass` instead.
- K = 0 (an empty `.P` row) is excluded by the requires of the Infocalc members; the script cannot produce a prior for it.
- The output table is the sequence of `LocusResult`s of `Run`. Writing it, `np.loadtxt`, argparse and `print` are not modelled.
- Infocalc.Run takes the `.P` and `.Q` files as matrices. `np.loadtxt` returns a one-dimensional array for a file of one row or one column, so the script stops at bin/infocalc.py:127 for a `.P` file with one locus or one cluster, and at bin/infocalc.py:132 for a `.Q` file with one row. The model returns results for these inputs.
- Infocalc.InLocus and Infocalc.IaLocusUniform apply `log` to whatever frequencies they are given. For a `.P` entry outside [0, 1], `math.log` raises ValueError on a negative argument (bin/infocalc.py:71, 91 and 98), and `np.log` gives NaN; the model does not stop there.
- File I/O in every script:
  - inputs are sequences of lines without their terminators;
  - outputs are the strings written;
  - a partial output before a raise is not modelled.
- `multiprocessing.Pool.map` (bin/loci_to_consensus.py:71-72) is an order-preserving map. It is modelled as a sequential map that reports the first block numpy could not stack.
- `\d` in the regular expressions of bin/loci_to_consensus.py:12 and bin/plot_metrics.py:49 is modelled on ASCII digits. Python also matches other Unicode digits. The same holds for `int(group.lstrip("K"))` at bin/snpio_convert_structure.py:20, which Text.ParseInt models with its sign, whitespace and `_` rules: Python accepts any Unicode decimal digits there, and Text.ParseInt only ASCII ones.
- MultiqcHeader.MetricsRoundTrip and MultiqcHeader.CvRoundTrip: the side condition forbids `>` in an entry, where the source only needs no `-->`. It also asks that keys have no `:`, that neither keys nor values have surrounding whitespace or quotes at their ends, and that no entry holds a line break.
- Sorting `metrics_df` by id (bin/plot_metrics.py:75) only reorders rows for plotting. It is not modelled; MetricsTable.KeptRowsSpec states membership, not order.
- The pandas conversion `to_numeric(errors="coerce")` of the metric cells is a parameter `toNumber` of the filter. `astype(int)` on the id column (bin/plot_metrics.py:53) is modelled as MetricsTable.Id, the value of the id's ASCII digits. Duplicate column names in a table are not modelled.
- MetricsTable.Id is an unbounded natural number. pandas holds the id column as int64, so an id of 2^63 or more, which the digit filter at bin/plot_metrics.py:49 lets through, either wraps or raises OverflowError, depending on the dtype `read_csv` inferred. The model compares the exact value in TopIds, KeptRowsSpec and PlotRowsSpec.
- Everything plotly and HTML: bin/plot_metrics.py:82-195 and `generate_plot` of bin/plot_cv.py.
- The snpio library calls (`VCFReader`, `missingness_reports`, `write_structure`, `NRemover2`, `write_vcf`) are a foreign library. The relabeller starts from the lines of the written STRUCTURE file.
- bin/compare_admixture.py and bin/plot_admixture.py are not part of this model: they are statistics and plotting with no discrete core.
- bin/sample_summary.py:
  - `load_missingness` and `read_csv` are the inputs `missPre` and `missPost`;
  - the genotype table is given as rows of a sample name and optional calls, with the `SampleID` column held apart;
  - pandas index alignment is modelled only as far as these columns use it: equal labels are assigned as they are, other labels are looked up by name, and repeated labels are refused;
  - an empty frame takes the index of the first non-empty column assigned to it. Positions taken from the missingness array are the labels `Position(i)`, written as 0, 1, … in the `Sample` column;
  - sample names are strings throughout. `read_csv` would turn an all-numeric `SampleID` column into integers, which could then match position labels; the model does not do this.
- SampleSummary.SummarySpec requires distinct post-filter names and distinct heterozygosity sample names. With repeated labels pandas refuses the assignment; SampleSummary.SummaryErrors states when the refusal happens.
