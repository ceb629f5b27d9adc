/**
 * The file-name sanitisers of the export and compare services
 * (`handle_export_config` and `handle_compare_exports`): keep only
 * alphanumeric characters and `._- `, and force a `.json` suffix. The export
 * path also strips surrounding whitespace and falls back to a generated name.
 */
module FileNames {
  import opened Wrappers

  const JsonSuffix := ".json"
  const ExportPrefix := "solarman_export_"
  const ComparisonPrefix := "comparison_"

  predicate IsAsciiAlnum(c: char)
  {
    ('a' <= c <= 'z') || ('A' <= c <= 'Z') || ('0' <= c <= '9')
  }

  /** `c.isalnum() or c in "._- "`. */
  predicate IsAllowed(c: char)
  {
    IsAsciiAlnum(c) || c == '.' || c == '_' || c == '-' || c == ' '
  }

  predicate AllAllowed(s: string)
  {
    forall c :: c in s ==> IsAllowed(c)
  }

  /** The characters `str.strip()` removes (ASCII ones). */
  predicate IsWhitespace(c: char)
  {
    c == ' ' || c == '\t' || c == '\n' || c == '\r' || c == '\U{000B}' || c == '\U{000C}'
    || ('\U{001C}' <= c <= '\U{001F}')
  }

  predicate StartsWith(s: string, prefix: string)
  {
    |prefix| <= |s| && s[..|prefix|] == prefix
  }

  predicate EndsWith(s: string, suffix: string)
  {
    |suffix| <= |s| && s[|s| - |suffix|..] == suffix
  }

  /** A name that `backup_dir / name` resolves to a direct child of `backup_dir`. */
  predicate IsPathComponent(s: string)
  {
    s != "" && s != "." && s != ".." && '/' !in s && '\\' !in s && '\0' !in s
  }

  /** `"".join(c for c in s if c.isalnum() or c in "._- ")`. */
  function KeepAllowed(s: string): (r: string)
    ensures |r| <= |s|
    ensures AllAllowed(r)
    ensures forall c :: c in r <==> c in s && IsAllowed(c)
  {
    if s == [] then []
    else (if IsAllowed(s[0]) then [s[0]] else []) + KeepAllowed(s[1..])
  }

  /** Filtering keeps the order of the characters: it distributes over concatenation. */
  lemma {:induction false} KeepAllowedAppend(a: string, b: string)
    ensures KeepAllowed(a + b) == KeepAllowed(a) + KeepAllowed(b)
  {
    if a != [] {
      assert (a + b)[0] == a[0];
      assert (a + b)[1..] == a[1..] + b;
      KeepAllowedAppend(a[1..], b);
    } else {
      assert a + b == b;
    }
  }

  /** A string is left unchanged by the filter exactly when all its characters are allowed. */
  lemma {:induction false} KeepAllowedFixpoint(s: string)
    ensures KeepAllowed(s) == s <==> AllAllowed(s)
  {
    if s != [] && AllAllowed(s) {
      assert s[0] in s;
      KeepAllowedFixpoint(s[1..]);
      assert [s[0]] + s[1..] == s;
    }
  }

  /** `s.lstrip()`. */
  function StripLeft(s: string): (r: string)
    ensures |r| <= |s| && r == s[|s| - |r|..]
    ensures forall k :: 0 <= k < |s| - |r| ==> IsWhitespace(s[k])
    ensures r == [] || !IsWhitespace(r[0])
    ensures forall c :: c in r ==> c in s
  {
    if s != [] && IsWhitespace(s[0]) then
      var r := StripLeft(s[1..]);
      assert forall c :: c in s[1..] ==> c in s;
      assert s[1..][|s| - 1 - |r|..] == s[|s| - |r|..];
      r
    else s
  }

  /** `s.rstrip()`. */
  function StripRight(s: string): (r: string)
    ensures |r| <= |s| && r == s[..|r|]
    ensures forall k :: |r| <= k < |s| ==> IsWhitespace(s[k])
    ensures r == [] || !IsWhitespace(r[|r| - 1])
    ensures forall c :: c in r ==> c in s
  {
    if s != [] && IsWhitespace(s[|s| - 1]) then
      var r := StripRight(s[..|s| - 1]);
      assert forall c :: c in s[..|s| - 1] ==> c in s;
      assert s[..|s| - 1][..|r|] == s[..|r|];
      r
    else s
  }

  /** `r` is the slice of `s` at offset `i`, with only whitespace around it. */
  predicate TrimmedAt(s: string, r: string, i: int)
  {
    0 <= i <= |s| - |r| && r == s[i..i + |r|]
    && (forall k :: 0 <= k < i ==> IsWhitespace(s[k]))
    && (forall k :: i + |r| <= k < |s| ==> IsWhitespace(s[k]))
  }

  /**
   * `s.strip()`: `s` without whitespace at either end. The result is a
   * slice of `s` with only whitespace before and after it.
   */
  function Strip(s: string): (r: string)
    ensures r == [] || (!IsWhitespace(r[0]) && !IsWhitespace(r[|r| - 1]))
    ensures forall c :: c in r ==> c in s
    ensures exists i :: TrimmedAt(s, r, i)
  {
    var l := StripLeft(s);
    var r := StripRight(l);
    assert r != [] ==> r[0] == l[0];
    StripTrimmedAt(s, l, r);
    r
  }

  lemma StripTrimmedAt(s: string, l: string, r: string)
    requires l == StripLeft(s) && r == StripRight(l)
    ensures TrimmedAt(s, r, |s| - |l|)
  {
    TrimmedAtOfSuffixPrefix(s, l, r);
  }

  /** A prefix `r` of a suffix `l` of `s`, with whitespace cut off either side, is trimmed from `s`. */
  lemma TrimmedAtOfSuffixPrefix(s: string, l: string, r: string)
    requires |l| <= |s| && l == s[|s| - |l|..]
    requires |r| <= |l| && r == l[..|r|]
    requires forall k :: 0 <= k < |s| - |l| ==> IsWhitespace(s[k])
    requires forall k :: |r| <= k < |l| ==> IsWhitespace(l[k])
    ensures TrimmedAt(s, r, |s| - |l|)
  {
    var i := |s| - |l|;
    assert r == s[i..i + |r|];
    forall k | i + |r| <= k < |s|
      ensures IsWhitespace(s[k])
    {
      assert s[k] == l[k - i];
    }
  }


  /** Stripping a string with no whitespace at either end changes nothing. */
  lemma StripUntrimmed(s: string)
    requires s == [] || (!IsWhitespace(s[0]) && !IsWhitespace(s[|s| - 1]))
    ensures Strip(s) == s
  {
  }

  /** `if not name.endswith(".json"): name += ".json"`. */
  function WithJsonSuffix(s: string): (r: string)
    ensures EndsWith(r, JsonSuffix)
    ensures r == s || r == s + JsonSuffix
    ensures EndsWith(s, JsonSuffix) ==> r == s
  {
    if EndsWith(s, JsonSuffix) then s else s + JsonSuffix
  }

  /** What `strftime("%Y%m%d_%H%M%S")` produces: eight digits, `_`, six digits. */
  predicate IsStamp(stamp: string)
  {
    |stamp| == 15 && stamp[8] == '_'
    && forall i :: 0 <= i < 15 && i != 8 ==> '0' <= stamp[i] <= '9'
  }

  /** `f"solarman_export_{timestamp}.json"`. */
  function DefaultExportName(stamp: string): string
  {
    ExportPrefix + stamp + JsonSuffix
  }

  /** `f"comparison_{timestamp}.json"`, the name of a saved comparison report. */
  function ComparisonFileName(stamp: string): string
  {
    ComparisonPrefix + stamp + JsonSuffix
  }

  /**
   * The name the export service writes to: an empty or missing name is
   * replaced by the generated one; then the name is filtered, stripped,
   * replaced by the generated one if nothing is left, and given `.json`.
   * Both clock readings of the source are the one `stamp` here.
   */
  function ExportFileName(filename: Option<string>, stamp: string): string
  {
    var given := if filename.Some? && filename.value != "" then filename.value else DefaultExportName(stamp);
    var cleaned := Strip(KeepAllowed(given));
    WithJsonSuffix(if cleaned == "" then DefaultExportName(stamp) else cleaned)
  }

  /** The name each compare-service argument is read from: filtered and given `.json`, nothing else. */
  function CompareFileName(filename: string): (r: string)
    ensures AllAllowed(r) && EndsWith(r, JsonSuffix)
    ensures r == KeepAllowed(filename) || r == KeepAllowed(filename) + JsonSuffix
  {
    WithJsonSuffix(KeepAllowed(filename))
  }

  lemma AllAllowedAppend(a: string, b: string)
    requires AllAllowed(a) && AllAllowed(b)
    ensures AllAllowed(a + b)
  {
  }

  /** A name that ends in `.json` and holds only allowed characters is a single path component. */
  lemma SafeNameIsComponent(s: string)
    requires AllAllowed(s) && EndsWith(s, JsonSuffix)
    ensures IsPathComponent(s)
  {
    assert !IsAllowed('/') && !IsAllowed('\\') && !IsAllowed('\0');
  }

  lemma DefaultExportNameIsSafe(stamp: string)
    requires IsStamp(stamp)
    ensures AllAllowed(DefaultExportName(stamp))
    ensures EndsWith(DefaultExportName(stamp), JsonSuffix)
    ensures !IsWhitespace(DefaultExportName(stamp)[0])
  {
    var n := DefaultExportName(stamp);
    assert AllAllowed(ExportPrefix);
    assert AllAllowed(stamp) by {
      forall c | c in stamp ensures IsAllowed(c) {
        var i :| 0 <= i < |stamp| && stamp[i] == c;
        if i != 8 { assert '0' <= stamp[i] <= '9'; }
      }
    }
    assert AllAllowed(JsonSuffix);
    AllAllowedAppend(ExportPrefix, stamp);
    AllAllowedAppend(ExportPrefix + stamp, JsonSuffix);
  }

  /** Filtering and then stripping leaves only allowed characters. */
  lemma CleanedIsAllowed(given: string)
    ensures AllAllowed(Strip(KeepAllowed(given)))
  {
  }

  /** Adding the suffix to a safe, trimmed base keeps it safe and trimmed. */
  lemma SuffixedIsSafe(base: string)
    requires base != [] && AllAllowed(base)
    requires !IsWhitespace(base[0]) && !IsWhitespace(base[|base| - 1])
    ensures var r := WithJsonSuffix(base);
      && AllAllowed(r)
      && !IsWhitespace(r[0]) && !IsWhitespace(r[|r| - 1])
      && IsPathComponent(r)
  {
    var r := WithJsonSuffix(base);
    if r != base {
      assert AllAllowed(JsonSuffix);
      AllAllowedAppend(base, JsonSuffix);
      assert r[|r| - 1] == 'n';
    }
    assert r[0] == base[0];
    SafeNameIsComponent(r);
  }

  /**
   * The export name is non-empty, holds only allowed characters (so no `/`
   * or `\`), has no whitespace at either end, ends in `.json` and is a
   * single path component.
   */
  lemma ExportFileNameIsSafe(filename: Option<string>, stamp: string)
    requires IsStamp(stamp)
    ensures var r := ExportFileName(filename, stamp);
      && AllAllowed(r)
      && EndsWith(r, JsonSuffix)
      && !IsWhitespace(r[0]) && !IsWhitespace(r[|r| - 1])
      && IsPathComponent(r)
  {
    var given := if filename.Some? && filename.value != "" then filename.value else DefaultExportName(stamp);
    var cleaned := Strip(KeepAllowed(given));
    DefaultExportNameIsSafe(stamp);
    CleanedIsAllowed(given);
    var d := DefaultExportName(stamp);
    assert d[|d| - 1] == 'n';
    var base := if cleaned == "" then d else cleaned;
    SuffixedIsSafe(base);
  }

  /** The export name is a fixed point: sanitising a sanitised name gives it back. */
  lemma ExportFileNameIdempotent(filename: Option<string>, stamp: string)
    requires IsStamp(stamp)
    ensures var r := ExportFileName(filename, stamp);
      ExportFileName(Some(r), stamp) == r
  {
    var r := ExportFileName(filename, stamp);
    ExportFileNameIsSafe(filename, stamp);
    KeepAllowedFixpoint(r);
    StripUntrimmed(r);
    ExportFileNameOfGiven(r, stamp);
  }

  /** A missing or empty name yields the generated `solarman_export_<stamp>.json`. */
  lemma ExportFileNameDefault(filename: Option<string>, stamp: string)
    requires IsStamp(stamp)
    requires filename == None || filename == Some("")
    ensures ExportFileName(filename, stamp) == DefaultExportName(stamp)
  {
    var n := DefaultExportName(stamp);
    DefaultExportNameIsSafe(stamp);
    KeepAllowedFixpoint(n);
    assert !IsWhitespace(n[|n| - 1]);
    StripUntrimmed(n);
  }

  /**
   * A given name that filtering and stripping empty, such as `" /"`, also
   * yields the generated `solarman_export_<stamp>.json`.
   */
  lemma ExportFileNameFallback(name: string, stamp: string)
    requires IsStamp(stamp)
    requires name != "" && Strip(KeepAllowed(name)) == ""
    ensures ExportFileName(Some(name), stamp) == DefaultExportName(stamp)
  {
    DefaultExportNameIsSafe(stamp);
  }

  /** Every compare-service name is a single path component ending in `.json`. */
  lemma CompareFileNameIsSafe(filename: string)
    ensures IsPathComponent(CompareFileName(filename))
  {
    SafeNameIsComponent(CompareFileName(filename));
  }

  /** The compare-service sanitiser is a fixed point on its own results. */
  lemma CompareFileNameIdempotent(filename: string)
    ensures CompareFileName(CompareFileName(filename)) == CompareFileName(filename)
  {
    KeepAllowedFixpoint(CompareFileName(filename));
  }

  /** The compare path neither strips nor defaults: an input of only disallowed characters becomes `.json`. */
  lemma CompareFileNameOfDisallowed(filename: string)
    requires forall c :: c in filename ==> !IsAllowed(c)
    ensures CompareFileName(filename) == JsonSuffix
  {
    KeepNothing(filename);
  }

  lemma {:induction false} KeepNothing(s: string)
    requires forall c :: c in s ==> !IsAllowed(c)
    ensures KeepAllowed(s) == []
  {
    if s != [] {
      assert s[0] in s;
      KeepNothing(s[1..]);
    }
  }

  /** The compare path keeps surrounding spaces: `" a"` becomes `" a.json"`. */
  lemma CompareFileNameKeepsSpaces()
    ensures CompareFileName(" a") == " a.json"
  {
    assert AllAllowed(" a");
    KeepAllowedFixpoint(" a");
  }

  /** A given name that survives filtering and stripping is used, with `.json` added if missing. */
  lemma ExportFileNameOfGiven(name: string, stamp: string)
    requires Strip(KeepAllowed(name)) != ""
    ensures ExportFileName(Some(name), stamp) == WithJsonSuffix(Strip(KeepAllowed(name)))
  {
  }

  /** Whitespace in front of a name does not change its strip. */
  lemma StripSkipsWhitespace(c: char, t: string)
    requires IsWhitespace(c)
    ensures Strip([c] + t) == Strip(t)
  {
    assert ([c] + t)[1..] == t;
  }

  lemma StripLeadingSpace(c: char)
    requires !IsWhitespace(c)
    ensures Strip([' ', c]) == [c]
  {
    assert [' ', c] == [' '] + [c];
    StripSkipsWhitespace(' ', [c]);
    StripUntrimmed([c]);
  }



  /** The export path strips them: `" a"` becomes `"a.json"`. */
  lemma ExportFileNameStripsSpaces(stamp: string)
    ensures ExportFileName(Some(" a"), stamp) == "a" + JsonSuffix
  {
    assert AllAllowed(" a");
    KeepAllowedFixpoint(" a");
    assert " a" == [' ', 'a'];
    StripLeadingSpace('a');
    ExportFileNameOfGiven(" a", stamp);
    assert !EndsWith("a", JsonSuffix);
  }
}
