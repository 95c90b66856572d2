/**
 * `get_prefix_from_vcf_path`, shared verbatim by bin/snpio_filter.py and
 * bin/snpio_convert_structure.py, and the output names both scripts derive
 * from the prefix. Paths are POSIX paths: components are separated by `/`.
 */
module VcfNames {
  import opened Text

  /** The suffixes tried in order: the compressed one first. */
  const Extensions: seq<string> := [".vcf.gz", ".vcf"]

  /** `os.path.basename(path)`: everything after the last `/`. */
  function Basename(path: string): (b: string)
    ensures '/' !in b && |b| <= |path|
  {
    if path == [] || path[|path| - 1] == '/' then []
    else Basename(path[..|path| - 1]) + [path[|path| - 1]]
  }

  /** The suffix `get_prefix_from_vcf_path` removes: the first extension the basename ends with, if any. */
  function RemovedSuffix(path: string): string
  {
    var b := Basename(path);
    if EndsWith(b, Extensions[0]) then Extensions[0]
    else if EndsWith(b, Extensions[1]) then Extensions[1]
    else []
  }

  /** `get_prefix_from_vcf_path(path)`. */
  function VcfPrefix(path: string): string
  {
    var b := Basename(path);
    b[..|b| - |RemovedSuffix(path)|]
  }

  /** `f"{prefix}.filter.vcf"`, the name bin/snpio_filter.py writes. */
  function FilteredVcfName(path: string): string
  {
    VcfPrefix(path) + ".filter.vcf"
  }

  /** `f"{prefix}.stru"`, the raw STRUCTURE file of bin/snpio_convert_structure.py. */
  function RawStructureName(path: string): string
  {
    VcfPrefix(path) + ".stru"
  }

  /** `f"{prefix}.labeled.stru"`, the relabelled STRUCTURE file. */
  function LabeledStructureName(path: string): string
  {
    VcfPrefix(path) + ".labeled.stru"
  }

  /**
   * The filtered VCF is written in the working directory, and read back by
   * bin/snpio_convert_structure.py it yields the original prefix followed by
   * `.filter`: only its `.vcf` is removed.
   */
  lemma FilteredPrefix(path: string)
    ensures '/' !in FilteredVcfName(path)
    ensures VcfPrefix(FilteredVcfName(path)) == VcfPrefix(path) + ".filter"
  {
    PrefixSplitsBasename(path);
    NoSlashAppend(VcfPrefix(path), ".filter");
    assert FilteredVcfName(path) == (VcfPrefix(path) + ".filter") + ".vcf";
    PrefixOfVcfName(VcfPrefix(path) + ".filter");
  }

  lemma NoSlashAppend(a: string, b: string)
    requires '/' !in a && '/' !in b
    ensures '/' !in a + b
  {
    assert forall i :: 0 <= i < |a + b| ==> (a + b)[i] == if i < |a| then a[i] else b[i - |a|];
  }

  /** A plain `.vcf` name loses exactly its extension. */
  lemma PrefixOfVcfName(q: string)
    requires '/' !in q
    ensures '/' !in q + ".vcf"
    ensures VcfPrefix(q + ".vcf") == q
  {
    var name := q + ".vcf";
    NoSlashAppend(q, ".vcf");
    BasenameNoSlash(name);
    assert !EndsWith(name, ".vcf.gz") by {
      assert name[|name| - 1] == 'f';
    }
    assert name[|name| - 4..] == ".vcf";
    assert name[..|name| - 4] == q;
  }

  /**
   * The STRUCTURE files made from a filtered VCF are `<prefix>.filter.stru`
   * and `<prefix>.filter.labeled.stru`, and the relabelled file never
   * overwrites the raw one.
   */
  lemma FilteredStructureNames(path: string)
    ensures RawStructureName(FilteredVcfName(path)) == VcfPrefix(path) + ".filter" + ".stru"
    ensures LabeledStructureName(FilteredVcfName(path)) == VcfPrefix(path) + ".filter" + ".labeled.stru"
    ensures RawStructureName(path) != LabeledStructureName(path)
  {
    FilteredPrefix(path);
    assert |RawStructureName(path)| != |LabeledStructureName(path)|;
  }

  /** The prefix followed by the removed suffix is the basename again. */
  lemma PrefixSplitsBasename(path: string)
    ensures VcfPrefix(path) + RemovedSuffix(path) == Basename(path)
    ensures '/' !in VcfPrefix(path)
  {
    var b := Basename(path);
    var x := RemovedSuffix(path);
    assert b == b[..|b| - |x|] + b[|b| - |x|..];
  }

  /**
   * The cases of `get_prefix_from_vcf_path`: `.vcf.gz` is removed when
   * present, otherwise `.vcf`, otherwise the basename is returned unchanged.
   */
  lemma PrefixCases(path: string)
    ensures EndsWith(Basename(path), ".vcf.gz") ==>
      VcfPrefix(path) + ".vcf.gz" == Basename(path)
    ensures !EndsWith(Basename(path), ".vcf.gz") && EndsWith(Basename(path), ".vcf") ==>
      VcfPrefix(path) + ".vcf" == Basename(path)
    ensures !EndsWith(Basename(path), ".vcf.gz") && !EndsWith(Basename(path), ".vcf") ==>
      VcfPrefix(path) == Basename(path)
  {
    PrefixSplitsBasename(path);
  }

  /** Directory components do not matter: only the text after the last `/` is used. */
  lemma {:induction false} BasenameOfJoin(dir: string, name: string)
    requires '/' !in name
    ensures Basename(dir + "/" + name) == name
    decreases |name|
  {
    if name == [] {
      assert (dir + "/" + name) == dir + "/";
    } else {
      var n := |name| - 1;
      assert (dir + "/" + name)[..|dir + "/" + name| - 1] == dir + "/" + name[..n];
      assert '/' !in name[..n] by {
        assert forall i :: 0 <= i < n ==> name[..n][i] == name[i];
      }
      BasenameOfJoin(dir, name[..n]);
      assert name == name[..n] + [name[n]];
    }
  }

  /** A prefix depends only on the basename. */
  lemma PrefixIgnoresDirectory(dir: string, name: string)
    requires '/' !in name
    ensures VcfPrefix(dir + "/" + name) == VcfPrefix(name)
  {
    BasenameOfJoin(dir, name);
    BasenameNoSlash(name);
  }

  /** A path without `/` is its own basename. */
  lemma {:induction false} BasenameNoSlash(name: string)
    requires '/' !in name
    ensures Basename(name) == name
  {
    if name != [] {
      var n := |name| - 1;
      assert '/' !in name[..n] by {
        assert forall i :: 0 <= i < n ==> name[..n][i] == name[i];
      }
      BasenameNoSlash(name[..n]);
      assert name[n] in name;
      assert name == name[..n] + [name[n]];
    }
  }
}
