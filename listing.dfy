/**
 * The files sensor (`SolarmanConfigManagerFilesSensor`): it lists the stems
 * of the export files `solarman_export_*.json` and of the saved comparison
 * reports `comparison_*.json` in the backup directory, each list sorted in
 * descending string order, and shows the number of export files. The
 * directory is given as whether it exists and the names of its entries.
 */
module Listing {
  import opened FileNames

  /** Python's `a <= b` on strings: lexicographic by code point, a prefix first. */
  predicate LexLe(a: string, b: string)
  {
    a == [] || (b != [] && (a[0] < b[0] || (a[0] == b[0] && LexLe(a[1..], b[1..]))))
  }

  lemma {:induction false} LexLeTotal(a: string, b: string)
    ensures LexLe(a, b) || LexLe(b, a)
  {
    if a != [] && b != [] && a[0] == b[0] {
      LexLeTotal(a[1..], b[1..]);
    }
  }

  lemma {:induction false} LexLeReflexive(a: string)
    ensures LexLe(a, a)
  {
    if a != [] {
      LexLeReflexive(a[1..]);
    }
  }

  lemma {:induction false} LexLeTransitive(a: string, b: string, c: string)
    requires LexLe(a, b) && LexLe(b, c)
    ensures LexLe(a, c)
  {
    if a != [] && a[0] == b[0] && b[0] == c[0] {
      LexLeTransitive(a[1..], b[1..], c[1..]);
    }
  }

  lemma {:induction false} LexLeAntisymmetric(a: string, b: string)
    requires LexLe(a, b) && LexLe(b, a)
    ensures a == b
  {
    if a != [] {
      LexLeAntisymmetric(a[1..], b[1..]);
      assert a == [a[0]] + a[1..] && b == [b[0]] + b[1..];
    }
  }

  /** What `sorted(..., reverse=True)` produces: every element is at least every later one. */
  predicate Descending(s: seq<string>)
  {
    forall i, j :: 0 <= i < j < |s| ==> LexLe(s[j], s[i])
  }

  /** `x` placed in front of the first element it is at least. */
  function Insert(x: string, s: seq<string>): (r: seq<string>)
    ensures multiset(r) == multiset(s) + multiset{x}
  {
    if s == [] || LexLe(s[0], x) then [x] + s
    else
      assert s == [s[0]] + s[1..];
      [s[0]] + Insert(x, s[1..])
  }

  /** Everything in a descending sequence is at most its first element. */
  lemma BelowHead(s: seq<string>, e: string)
    requires Descending(s) && s != []
    requires e in s
    ensures LexLe(e, s[0])
  {
    var i :| 0 <= i < |s| && s[i] == e;
    if i == 0 {
      LexLeReflexive(e);
    }
  }

  /** Putting an upper bound of a descending sequence in front keeps it descending. */
  lemma ConsDescending(y: string, t: seq<string>)
    requires Descending(t)
    requires forall e :: e in t ==> LexLe(e, y)
    ensures Descending([y] + t)
  {
    var r := [y] + t;
    forall i, j | 0 <= i < j < |r| ensures LexLe(r[j], r[i]) {
      if i == 0 {
        assert r[j] == t[j - 1];
      } else {
        assert r[i] == t[i - 1] && r[j] == t[j - 1];
      }
    }
  }

  lemma {:induction false} InsertDescending(x: string, s: seq<string>)
    requires Descending(s)
    ensures Descending(Insert(x, s))
  {
    if s == [] || LexLe(s[0], x) {
      forall e | e in s ensures LexLe(e, x) {
        BelowHead(s, e);
        LexLeTransitive(e, s[0], x);
      }
      ConsDescending(x, s);
    } else {
      LexLeTotal(x, s[0]);
      var rest := Insert(x, s[1..]);
      InsertDescending(x, s[1..]);
      forall e | e in rest ensures LexLe(e, s[0]) {
        assert e in multiset(rest);
        if e != x {
          assert e in s[1..];
          BelowHead(s, e);
        }
      }
      ConsDescending(s[0], rest);
    }
  }

  /** `sorted(s, reverse=True)`. */
  function SortDescending(s: seq<string>): (r: seq<string>)
    ensures Descending(r)
    ensures multiset(r) == multiset(s)
  {
    if s == [] then []
    else
      assert s == [s[0]] + s[1..];
      InsertDescending(s[0], SortDescending(s[1..]));
      Insert(s[0], SortDescending(s[1..]))
  }

  /**
   * Two descending orderings of the same strings are the same sequence, so
   * the listing does not depend on the order the directory is read in.
   */
  lemma {:induction false} DescendingUnique(a: seq<string>, b: seq<string>)
    requires Descending(a) && Descending(b)
    requires multiset(a) == multiset(b)
    ensures a == b
  {
    if a != [] {
      assert |b| == |multiset(b)| == |multiset(a)| == |a|;
      HeadsEqual(a, b);
      TailsAgree(a, b);
      DescendingUnique(a[1..], b[1..]);
      assert a == [a[0]] + a[1..] && b == [b[0]] + b[1..];
    } else {
      assert |b| == |multiset(b)| == 0;
    }
  }

  lemma HeadsEqual(a: seq<string>, b: seq<string>)
    requires Descending(a) && Descending(b)
    requires multiset(a) == multiset(b) && a != []
    ensures b != [] && a[0] == b[0]
  {
    assert a[0] in multiset(b);
    HeadIsGreatest(b, a[0]);
    assert b[0] in multiset(a);
    HeadIsGreatest(a, b[0]);
    LexLeAntisymmetric(a[0], b[0]);
  }

  lemma TailsAgree(a: seq<string>, b: seq<string>)
    requires Descending(a) && Descending(b)
    requires multiset(a) == multiset(b) && a != [] && b != [] && a[0] == b[0]
    ensures Descending(a[1..]) && Descending(b[1..])
    ensures multiset(a[1..]) == multiset(b[1..])
  {
    assert a == [a[0]] + a[1..] && b == [b[0]] + b[1..];
    assert multiset(a[1..]) == multiset(a) - multiset{a[0]};
    assert multiset(b[1..]) == multiset(b) - multiset{b[0]};
  }

  /** The first element of a descending sequence is at least each of its elements. */
  lemma HeadIsGreatest(s: seq<string>, x: string)
    requires Descending(s)
    requires x in multiset(s)
    ensures s != [] && LexLe(x, s[0])
  {
    var i :| 0 <= i < |s| && s[i] == x;
    if i == 0 {
      LexLeReflexive(x);
    }
  }

  /** `name` matches the glob `<prefix>*.json`: prefix and suffix do not overlap. */
  predicate Matches(name: string, prefix: string)
  {
    |prefix| + |JsonSuffix| <= |name| && StartsWith(name, prefix) && EndsWith(name, JsonSuffix)
  }

  /** `Path(name).stem` of a name ending in `.json`. */
  function Stem(name: string): string
    requires |JsonSuffix| <= |name|
  {
    name[..|name| - |JsonSuffix|]
  }

  /** `[f.stem for f in backup_dir.glob(prefix + "*.json")]`, in directory order. */
  function Stems(names: seq<string>, prefix: string): (r: seq<string>)
    ensures |r| <= |names|
    ensures forall x :: x in r ==> StartsWith(x, prefix)
  {
    if names == [] then []
    else
      var rest := Stems(names[1..], prefix);
      if Matches(names[0], prefix) then
        var stem := Stem(names[0]);
        assert stem[..|prefix|] == names[0][..|prefix|];
        [stem] + rest
      else rest
  }

  /** One directory entry gives its stem when it matches the glob and nothing otherwise. */
  lemma StemsOne(name: string, prefix: string)
    ensures Matches(name, prefix) ==> Stems([name], prefix) == [Stem(name)]
    ensures !Matches(name, prefix) ==> Stems([name], prefix) == []
  {
    assert [name][1..] == [];
  }

  /**
   * The stems of a directory listing are the stems of its parts, in order:
   * each matching entry contributes exactly one stem, so duplicates are kept.
   */
  lemma {:induction false} StemsAppend(a: seq<string>, b: seq<string>, prefix: string)
    ensures Stems(a + b, prefix) == Stems(a, prefix) + Stems(b, prefix)
  {
    if a != [] {
      assert (a + b)[1..] == a[1..] + b;
      StemsAppend(a[1..], b, prefix);
    } else {
      assert a + b == b;
    }
  }

  /** A stem is listed exactly when some entry matching the glob has it. */
  lemma {:induction false} StemsMembers(names: seq<string>, prefix: string, x: string)
    ensures x in Stems(names, prefix) <==>
      exists i :: 0 <= i < |names| && Matches(names[i], prefix) && Stem(names[i]) == x
  {
    if names != [] {
      StemsMembers(names[1..], prefix, x);
      if exists i :: 0 <= i < |names| && Matches(names[i], prefix) && Stem(names[i]) == x {
        var i :| 0 <= i < |names| && Matches(names[i], prefix) && Stem(names[i]) == x;
        if i > 0 {
          assert names[1..][i - 1] == names[i];
        }
      }
      if exists i :: 0 <= i < |names[1..]| && Matches(names[1..][i], prefix) && Stem(names[1..][i]) == x {
        var i :| 0 <= i < |names[1..]| && Matches(names[1..][i], prefix) && Stem(names[1..][i]) == x;
        assert names[i + 1] == names[1..][i];
      }
    }
  }

  /** One list of the sensor: no directory, no files; otherwise the stems, descending. */
  function FileList(dirExists: bool, names: seq<string>, prefix: string): seq<string>
  {
    if dirExists then SortDescending(Stems(names, prefix)) else []
  }

  /**
   * A listed stem is the stem of some entry matching the glob and every such
   * entry's stem is listed; the list is descending and holds each stem as
   * often as the directory does.
   */
  lemma FileListSpec(dirExists: bool, names: seq<string>, prefix: string, x: string)
    ensures Descending(FileList(dirExists, names, prefix))
    ensures dirExists ==> multiset(FileList(dirExists, names, prefix)) == multiset(Stems(names, prefix))
    ensures x in FileList(dirExists, names, prefix) <==>
      dirExists && exists i :: 0 <= i < |names| && Matches(names[i], prefix) && Stem(names[i]) == x
  {
    if dirExists {
      var stems := Stems(names, prefix);
      assert x in FileList(dirExists, names, prefix) <==> x in multiset(stems);
      StemsMembers(names, prefix, x);
    }
  }

  /** The two globs' prefixes already differ in their first character. */
  lemma PrefixesExclusive(x: string)
    requires StartsWith(x, ExportPrefix)
    ensures !StartsWith(x, ComparisonPrefix)
  {
    assert x[0] == x[..|ExportPrefix|][0] == 's';
  }

  /** No stem is both an export and a comparison report. */
  lemma ListsDisjoint(dirExists: bool, names: seq<string>, x: string)
    ensures !(x in FileList(dirExists, names, ExportPrefix) && x in FileList(dirExists, names, ComparisonPrefix))
  {
    if dirExists && x in FileList(dirExists, names, ExportPrefix) {
      assert x in multiset(Stems(names, ExportPrefix));
      PrefixesExclusive(x);
      assert x !in multiset(Stems(names, ComparisonPrefix));
    }
  }

  /** An export saved under the generated name is listed as `solarman_export_<stamp>`. */
  lemma DefaultExportListed(names: seq<string>, stamp: string)
    requires DefaultExportName(stamp) in names
    ensures ExportPrefix + stamp in FileList(true, names, ExportPrefix)
  {
    var n := DefaultExportName(stamp);
    var i :| 0 <= i < |names| && names[i] == n;
    assert n[..|ExportPrefix|] == ExportPrefix;
    assert n[|n| - |JsonSuffix|..] == JsonSuffix;
    assert Stem(n) == ExportPrefix + stamp;
    FileListSpec(true, names, ExportPrefix, ExportPrefix + stamp);
  }

  /** A saved comparison report is listed as `comparison_<stamp>`. */
  lemma ComparisonListed(names: seq<string>, stamp: string)
    requires ComparisonFileName(stamp) in names
    ensures ComparisonPrefix + stamp in FileList(true, names, ComparisonPrefix)
  {
    var n := ComparisonFileName(stamp);
    var i :| 0 <= i < |names| && names[i] == n;
    assert n[..|ComparisonPrefix|] == ComparisonPrefix;
    assert n[|n| - |JsonSuffix|..] == JsonSuffix;
    assert Stem(n) == ComparisonPrefix + stamp;
    FileListSpec(true, names, ComparisonPrefix, ComparisonPrefix + stamp);
  }

  /** The sensor's state: the two lists and, as its value, the number of export files. */
  class FilesSensor {
    var files: seq<string>
    var comparisonFiles: seq<string>
    var nativeValue: int

    constructor()
      ensures files == [] && comparisonFiles == [] && nativeValue == 0
    {
      files := [];
      comparisonFiles := [];
      nativeValue := 0;
    }

    /** `async_update`: re-read the directory and replace both lists and the count. */
    method Update(dirExists: bool, names: seq<string>)
      modifies this
      ensures files == FileList(dirExists, names, ExportPrefix)
      ensures comparisonFiles == FileList(dirExists, names, ComparisonPrefix)
      ensures nativeValue == |files|
    {
      if !dirExists {
        files, comparisonFiles := [], [];
      } else {
        files := SortDescending(Stems(names, ExportPrefix));
        comparisonFiles := SortDescending(Stems(names, ComparisonPrefix));
      }
      nativeValue := |files|;
    }
  }
}
