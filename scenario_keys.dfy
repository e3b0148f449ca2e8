/**
 * Scenario keys: the key of a dwellings scenario is its file basename with
 * the `arc_dwellings__` prefix and the `.csv` extension removed, and two
 * dwellings scenarios are paired with an economics scenario of another name.
 */
module ScenarioKeys {

  const DwellingsPrefix: string := "arc_dwellings__"
  const CsvSuffix: string := ".csv"
  const GvaPrefix: string := "arc_gva__"
  const FloorAreaPrefix: string := "arc_floor_area__"

  /** The dwellings scenarios whose economics scenario has a different key. */
  const EconKeyOverrides: map<string, string> :=
    map["3-new-cities23" := "1-new-cities", "4-expansion23" := "2-expansion"]

  /** `pat` occurs in `s` starting at index `i`. */
  predicate OccursAt(s: string, pat: string, i: nat)
  {
    i + |pat| <= |s| && s[i..i + |pat|] == pat
  }

  predicate Contains(s: string, pat: string)
  {
    exists i :: 0 <= i <= |s| && OccursAt(s, pat, i)
  }

  /**
   * String replacement as Python's `str.replace` does it for a non-empty
   * pattern: every non-overlapping occurrence, scanning left to right,
   * without rescanning what was put in.
   */
  function Replace(s: string, pat: string, rep: string): (r: string)
    requires pat != []
    ensures rep == [] ==> |r| <= |s|
    decreases |s|
  {
    if |s| < |pat| then s
    else if s[..|pat|] == pat then rep + Replace(s[|pat|..], pat, rep)
    else [s[0]] + Replace(s[1..], pat, rep)
  }

  /** The scenario key of a dwellings file, from its basename. */
  function ScenarioKey(basename: string): (key: string)
    ensures |key| <= |basename|
  {
    Replace(Replace(basename, DwellingsPrefix, ""), CsvSuffix, "")
  }

  /** The basename of the dwellings file of scenario `key`. */
  function DwellingsBasename(key: string): string
  {
    DwellingsPrefix + key + CsvSuffix
  }

  /**
   * The economics scenario paired with a dwellings scenario: two hard-coded
   * exact matches, every other key unchanged.
   */
  function EconKey(key: string): (r: string)
    ensures key in EconKeyOverrides ==> r == EconKeyOverrides[key]
    ensures key !in EconKeyOverrides ==> r == key
  {
    if key == "3-new-cities23" then "1-new-cities"
    else if key == "4-expansion23" then "2-expansion"
    else key
  }

  /** The basename of the GVA file read for dwellings scenario `key`. */
  function GvaBasename(key: string): (name: string)
    ensures key in EconKeyOverrides ==> name == "arc_gva__" + EconKeyOverrides[key] + ".csv"
    ensures key !in EconKeyOverrides ==> name == "arc_gva__" + key + ".csv"
  {
    GvaPrefix + EconKey(key) + CsvSuffix
  }

  /** The basename of the floor-area file written for dwellings scenario `key`. */
  function OutputBasename(key: string): (name: string)
    ensures |name| == |key| + 20
    ensures name[..16] == "arc_floor_area__" && name[16..16 + |key|] == key && name[16 + |key|..] == ".csv"
  {
    FloorAreaPrefix + key + CsvSuffix
  }

  // ---------------------------------------------------------------------
  // Replace
  // ---------------------------------------------------------------------

  /** Occurrences in the tail of `s` are the occurrences in `s`, one index further on. */
  lemma ShiftOccurrence(s: string, pat: string, i: nat)
    requires s != []
    ensures OccursAt(s[1..], pat, i) <==> OccursAt(s, pat, i + 1)
  {
  }

  /** Dropping the first character keeps a pattern absent. */
  lemma AbsentInTail(s: string, pat: string)
    requires s != [] && !Contains(s, pat)
    ensures !Contains(s[1..], pat)
  {
    forall i | 0 <= i <= |s[1..]| ensures !OccursAt(s[1..], pat, i) {
      ShiftOccurrence(s, pat, i);
      assert !OccursAt(s, pat, i + 1);
    }
  }

  /** Replacing a pattern that does not occur changes nothing. */
  lemma {:induction false} ReplaceAbsent(s: string, pat: string, rep: string)
    requires pat != [] && !Contains(s, pat)
    ensures Replace(s, pat, rep) == s
    decreases |s|
  {
    if |s| >= |pat| {
      assert !OccursAt(s, pat, 0);
      assert s[..|pat|] != pat;
      AbsentInTail(s, pat);
      ReplaceAbsent(s[1..], pat, rep);
      assert s == [s[0]] + s[1..];
    }
  }

  /** An occurrence of the prefix in `k + ".csv"` lies entirely in `k`, since the prefix has no '.'. */
  lemma PrefixNotAcrossSuffix(k: string)
    requires !Contains(k, DwellingsPrefix)
    ensures !Contains(k + CsvSuffix, DwellingsPrefix)
  {
    var s := k + CsvSuffix;
    var p := DwellingsPrefix;
    forall i | 0 <= i <= |s| ensures !OccursAt(s, p, i) {
      if i + |p| <= |k| {
        assert s[i..i + |p|] == k[i..i + |p|];
        assert !OccursAt(k, p, i);
      } else if i + |p| <= |s| {
        assert s[i..i + |p|][|k| - i] == s[|k|] == '.';
        assert forall j :: 0 <= j < |p| ==> p[j] != '.';
      }
    }
  }

  /** Removing ".csv" from `k + ".csv"` gives `k` back when `k` holds no ".csv". */
  lemma {:induction false} StripCsvSuffix(k: string)
    requires !Contains(k, CsvSuffix)
    ensures Replace(k + CsvSuffix, CsvSuffix, "") == k
    decreases |k|
  {
    var s := k + CsvSuffix;
    if |k| == 0 {
      assert s == CsvSuffix;
      assert s[|CsvSuffix|..] == [];
    } else {
      assert s[..4] != CsvSuffix by {
        if |k| >= 4 {
          assert k[0..4] == s[..4];
          assert !OccursAt(k, CsvSuffix, 0);
        } else {
          // ".csv" cannot start inside k and end inside ".csv": it has no border
          assert s[..4][|k|] == '.';
          assert CsvSuffix[|k|] != '.';
        }
      }
      AbsentInTail(k, CsvSuffix);
      StripCsvSuffix(k[1..]);
      assert s[1..] == k[1..] + CsvSuffix;
      assert k == [k[0]] + k[1..];
    }
  }

  // ---------------------------------------------------------------------
  // Scenario keys and file names
  // ---------------------------------------------------------------------

  /**
   * Whatever `k` is, as long as it holds no `arc_dwellings__`, the key of
   * `arc_dwellings__<k>.csv` is `k + ".csv"` with every `.csv` deleted,
   * not just the final one.
   */
  lemma ScenarioKeyDeletesEveryCsv(k: string)
    requires !Contains(k, DwellingsPrefix)
    ensures ScenarioKey(DwellingsBasename(k)) == Replace(k + CsvSuffix, CsvSuffix, "")
  {
    var b := DwellingsBasename(k);
    assert b[..|DwellingsPrefix|] == DwellingsPrefix;
    assert b[|DwellingsPrefix|..] == k + CsvSuffix;
    PrefixNotAcrossSuffix(k);
    ReplaceAbsent(k + CsvSuffix, DwellingsPrefix, "");
    assert Replace(b, DwellingsPrefix, "") == k + CsvSuffix;
  }

  /**
   * The key extracted from `arc_dwellings__<k>.csv` is `k` whenever `k`
   * contains neither `arc_dwellings__` nor `.csv`.
   */
  lemma ScenarioKeyRoundTrip(k: string)
    requires !Contains(k, DwellingsPrefix) && !Contains(k, CsvSuffix)
    ensures ScenarioKey(DwellingsBasename(k)) == k
  {
    ScenarioKeyDeletesEveryCsv(k);
    StripCsvSuffix(k);
  }

  /** A key with ".csv" inside it loses that part too: the replacement is not anchored. */
  lemma ScenarioKeyInnerCsv()
    ensures ScenarioKey(DwellingsBasename("a.csvb")) == "ab"
  {
    var b := DwellingsBasename("a.csvb");
    assert b[..|DwellingsPrefix|] == DwellingsPrefix;
    var rest := b[|DwellingsPrefix|..];
    assert rest == "a.csvb.csv";
    assert Replace(b, DwellingsPrefix, "") == rest;
    assert Replace("", CsvSuffix, "") == "";
    assert Replace(".csv", CsvSuffix, "") == "";
    assert Replace("b.csv", CsvSuffix, "") == "b";
    assert Replace(".csvb.csv", CsvSuffix, "") == "b";
    assert Replace("a.csvb.csv", CsvSuffix, "") == "ab";
  }

  /**
   * Two different dwellings files can get the same key, and hence read the
   * same GVA file and write the same output file.
   */
  lemma ScenarioKeyCollision()
    ensures DwellingsBasename("a.csv") != DwellingsBasename("a")
    ensures ScenarioKey(DwellingsBasename("a.csv")) == ScenarioKey(DwellingsBasename("a")) == "a"
  {
    assert DwellingsBasename("a.csv") != DwellingsBasename("a") by {
      assert |DwellingsBasename("a.csv")| != |DwellingsBasename("a")|;
    }
    ScenarioKeyDeletesEveryCsv("a.csv");
    ScenarioKeyDeletesEveryCsv("a");
    assert "a.csv" + CsvSuffix == "a.csv.csv";
    assert "a" + CsvSuffix == "a.csv";
    assert Replace("", CsvSuffix, "") == "";
    assert Replace(".csv", CsvSuffix, "") == "";
    assert Replace(".csv.csv", CsvSuffix, "") == "";
    assert Replace("a.csv", CsvSuffix, "") == "a";
    assert Replace("a.csv.csv", CsvSuffix, "") == "a";
  }

  /** Only the two listed keys are renamed, and only on an exact match. */
  lemma EconKeyExact(key: string)
    ensures EconKey(key) != key <==> key == "3-new-cities23" || key == "4-expansion23"
  {
  }

  /** An economics key maps to itself: remapping twice is remapping once. */
  lemma EconKeyIdempotent(key: string)
    ensures EconKey(EconKey(key)) == EconKey(key)
  {
  }

  /** The 23k new-cities dwellings scenario reads the same GVA file as scenario 1-new-cities. */
  lemma SharedGvaFiles()
    ensures GvaBasename("3-new-cities23") == GvaBasename("1-new-cities") == "arc_gva__1-new-cities.csv"
    ensures GvaBasename("4-expansion23") == GvaBasename("2-expansion") == "arc_gva__2-expansion.csv"
  {
  }

  /** Different dwellings scenarios write different output files. */
  lemma OutputBasenameInjective(a: string, b: string)
    requires OutputBasename(a) == OutputBasename(b)
    ensures a == b
  {
    var n := |FloorAreaPrefix|;
    assert a == OutputBasename(a)[n..n + |a|];
    assert b == OutputBasename(b)[n..n + |b|];
  }

  /** The output file of a dwellings file carries the same scenario key. */
  lemma OutputBasenameOfDwellings(k: string)
    requires !Contains(k, DwellingsPrefix) && !Contains(k, CsvSuffix)
    ensures OutputBasename(ScenarioKey(DwellingsBasename(k))) == "arc_floor_area__" + k + ".csv"
  {
    ScenarioKeyRoundTrip(k);
  }
}
