/** The file catalog (`znajdz_pliki`, wup_auto_app.py:558-582) after the
    directory listing: the listed paths are de-duplicated ignoring letter case
    (the first spelling met is kept), each stem is resolved to a period, the
    period is range-checked, and the entries are sorted by `year*100 + month`
    with a stable sort, so files of the same period stay in discovery order.

    The directory listing itself (three `glob` calls) is the input `paths`. */
module Catalog {
  import opened Wrappers
  import Text
  import Tables
  import opened PeriodResolver
  import Sorting

  const MinYear: int := 2000
  const MaxYear: int := 2100

  /** One catalog entry: `sciezka`, `rok`, `miesiac`, `nazwa_pl`, `sort_key`. */
  datatype SourceFile = SourceFile(path: string, year: int, month: int, caption: string, sortKey: int)

  /** The display label `f"{MIESIAC_PL[mies]} {rok}"`. */
  function Label(year: nat, month: int): string
    requires 1 <= month <= 12
  {
    Tables.MonthNamesPl[month] + " " + Text.Decimal(year)
  }

  /** A period the catalog accepts. */
  predicate InRange(p: Period) {
    1 <= p.month <= 12 && MinYear <= p.year <= MaxYear
  }

  /** What every catalog entry satisfies. */
  predicate WellFormed(e: SourceFile) {
    && 1 <= e.month <= 12
    && MinYear <= e.year <= MaxYear
    && e.sortKey == e.year * 100 + e.month
    && e.caption == Label(e.year, e.month)
  }

  /** The entry built for one (already de-duplicated) path, if its stem names a
      period within range. */
  function EntryFor(path: string): (r: Option<SourceFile>)
    ensures r.Some? <==> ParseStem(Stem(path)).Some? && InRange(ParseStem(Stem(path)).value)
    ensures r.Some? ==> Period(r.value.year, r.value.month) == ParseStem(Stem(path)).value
    ensures r.Some? ==> WellFormed(r.value) && r.value.path == path
  {
    match ParseStem(Stem(path))
    case None => None
    case Some(p) =>
      if InRange(p) then
        Some(SourceFile(path, p.year, p.month, Label(p.year, p.month), p.year * 100 + p.month))
      else None
  }

  /** A file named `YYYY<sep>MM.ext` in any directory is catalogued under that
      month, when the month and year are in range. */
  lemma YearFirstFileEntry(dir: string, y: string, sep: char, m: string, ext: string)
    requires |y| == 4 && Text.AllDigits(y) && IsSep(sep)
    requires 1 <= |m| <= 2 && Text.AllDigits(m)
    requires '/' !in ext && '.' !in ext
    requires InRange(Period(Text.DigitsValue(y), Text.DigitsValue(m)))
    ensures EntryFor(dir + "/" + y + [sep] + m + "." + ext).Some?
    ensures EntryFor(dir + "/" + y + [sep] + m + "." + ext).value.year == Text.DigitsValue(y)
    ensures EntryFor(dir + "/" + y + [sep] + m + "." + ext).value.month == Text.DigitsValue(m)
  {
    YearFirstFileStem(dir, y, sep, m, ext);
  }

  /** The stem of such a file parses to its year and month. */
  lemma YearFirstFileStem(dir: string, y: string, sep: char, m: string, ext: string)
    requires |y| == 4 && Text.AllDigits(y) && IsSep(sep)
    requires 1 <= |m| <= 2 && Text.AllDigits(m)
    requires '/' !in ext && '.' !in ext
    ensures ParseStem(Stem(dir + "/" + y + [sep] + m + "." + ext))
      == Some(Period(Text.DigitsValue(y), Text.DigitsValue(m)))
  {
    var name := y + [sep] + m;
    YearFirstNameShape(y, sep, m);
    assert dir + "/" + y + [sep] + m + "." + ext == dir + "/" + name + "." + ext;
    StemDropsExtension(dir, name, ext);
    ParseYearFirst(y, sep, m);
  }

  /** `YYYY<sep>MM` holds no '/' and does not start with a dot. */
  lemma YearFirstNameShape(y: string, sep: char, m: string)
    requires |y| == 4 && Text.AllDigits(y) && IsSep(sep)
    requires 1 <= |m| <= 2 && Text.AllDigits(m)
    ensures '/' !in y + [sep] + m
    ensures exists i :: 0 <= i < |y + [sep] + m| && (y + [sep] + m)[i] != '.'
  {
    var name := y + [sep] + m;
    assert name[0] == y[0] && Text.IsDigit(y[0]);
    forall i | 0 <= i < |name| ensures name[i] != '/' {
      if i < 4 { assert name[i] == y[i] && Text.IsDigit(y[i]); }
      else if i > 4 { assert name[i] == m[i - 5] && Text.IsDigit(m[i - 5]); }
    }
  }

  // ---------------------------------------------------------------------------
  // De-duplication ignoring case

  /** No two paths are equal after lower-casing. */
  predicate DistinctIgnoringCase(paths: seq<string>) {
    forall i, j :: 0 <= i < j < |paths| ==> Text.Lower(paths[i]) != Text.Lower(paths[j])
  }

  /** The loop over `seen`: a path is kept when its lower-cased form has not
      been met before, and its lower-cased form is then remembered. */
  function KeepFirstSeen(paths: seq<string>, seen: set<string>): (r: seq<string>)
    ensures DistinctIgnoringCase(r)
    ensures forall x :: x in r ==> x in paths && Text.Lower(x) !in seen
    decreases |paths|
  {
    if paths == [] then []
    else if Text.Lower(paths[0]) in seen then KeepFirstSeen(paths[1..], seen)
    else [paths[0]] + KeepFirstSeen(paths[1..], seen + {Text.Lower(paths[0])})
  }

  /** `paths[i]` is the first path of its lower-cased form. */
  predicate FirstOfItsCase(paths: seq<string>, i: int)
    requires 0 <= i < |paths|
  {
    forall j :: 0 <= j < i ==> Text.Lower(paths[j]) != Text.Lower(paths[i])
  }

  // ---------------------------------------------------------------------------
  // Resolution and sorting

  /** The entries of the paths whose stems name an in-range period, in order. */
  function Resolve(paths: seq<string>): (r: seq<SourceFile>)
    ensures forall e :: e in r <==> e.path in paths && EntryFor(e.path) == Some(e)
    decreases |paths|
  {
    if paths == [] then []
    else
      var rest := Resolve(paths[1..]);
      assert paths == [paths[0]] + paths[1..];
      match EntryFor(paths[0])
      case Some(e) => [e] + rest
      case None => rest
  }

  function SortKey(e: SourceFile): int { e.sortKey }

  /** The de-duplication key of an entry. */
  function PathKey(e: SourceFile): string { Text.Lower(e.path) }

  /** `a` names a period no later than `b`. */
  predicate Chronological(a: SourceFile, b: SourceFile) {
    a.year < b.year || (a.year == b.year && a.month <= b.month)
  }

  /** `znajdz_pliki` after the listing. */
  function FindFiles(paths: seq<string>): (r: seq<SourceFile>)
    ensures forall e :: e in r ==> WellFormed(e)
    ensures forall i, j :: 0 <= i < j < |r| ==> Chronological(r[i], r[j])
    ensures forall i, j :: 0 <= i < j < |r| ==> Text.Lower(r[i].path) != Text.Lower(r[j].path)
  {
    var resolved := Resolve(KeepFirstSeen(paths, {}));
    ResolveKeepsDistinct(KeepFirstSeen(paths, {}));
    ResolveWellFormed(KeepFirstSeen(paths, {}));
    var r := Sorting.SortBy(resolved, SortKey);
    SortedCatalog(resolved, r);
    r
  }

  lemma ResolveWellFormed(paths: seq<string>)
    ensures forall e :: e in Resolve(paths) ==> WellFormed(e)
  {
    forall e | e in Resolve(paths) ensures WellFormed(e) {
      assert EntryFor(e.path) == Some(e);
    }
  }

  /** Sorting well-formed entries with distinct paths yields them in
      chronological order, still well-formed and distinct. */
  lemma SortedCatalog(resolved: seq<SourceFile>, r: seq<SourceFile>)
    requires forall e :: e in resolved ==> WellFormed(e)
    requires DistinctEntryPaths(resolved)
    requires r == Sorting.SortBy(resolved, SortKey)
    ensures forall e :: e in r ==> WellFormed(e)
    ensures forall i, j :: 0 <= i < j < |r| ==> Chronological(r[i], r[j])
    ensures forall i, j :: 0 <= i < j < |r| ==> Text.Lower(r[i].path) != Text.Lower(r[j].path)
  {
    Sorting.SortKeepsDistinct(resolved, SortKey, PathKey);
    assert forall e :: e in r ==> e in multiset(resolved);
    KeysAreChronological(r);
    forall i, j | 0 <= i < j < |r| ensures Text.Lower(r[i].path) != Text.Lower(r[j].path) {
      assert PathKey(r[i]) != PathKey(r[j]);
    }
  }

  /** Among well-formed entries, ascending sort keys are chronological order. */
  lemma KeysAreChronological(s: seq<SourceFile>)
    requires forall e :: e in s ==> WellFormed(e)
    requires Sorting.SortedBy(s, SortKey)
    ensures forall i, j :: 0 <= i < j < |s| ==> Chronological(s[i], s[j])
  {
    forall i, j | 0 <= i < j < |s| ensures Chronological(s[i], s[j]) {
      assert s[i] in s && s[j] in s;
      SortKeyEncodesPeriod(s[i], s[j]);
    }
  }

  // ---------------------------------------------------------------------------
  // Lemmas: de-duplication

  /** A path survives de-duplication exactly when it is the first of its
      lower-cased form (and that form was not already seen). */
  lemma {:induction false} KeepFirstSeenExactly(paths: seq<string>, seen: set<string>, x: string)
    ensures x in KeepFirstSeen(paths, seen) <==>
      exists i :: 0 <= i < |paths| && paths[i] == x && Text.Lower(x) !in seen && FirstOfItsCase(paths, i)
    decreases |paths|
  {
    if paths != [] {
      var p := paths[0];
      var tail := paths[1..];
      var seen' := if Text.Lower(p) in seen then seen else seen + {Text.Lower(p)};
      KeepFirstSeenExactly(tail, seen', x);
      if x in KeepFirstSeen(paths, seen) {
        if Text.Lower(p) !in seen && x == p {
          assert paths[0] == x && FirstOfItsCase(paths, 0);
        } else {
          assert x in KeepFirstSeen(tail, seen');
          var i :| 0 <= i < |tail| && tail[i] == x && Text.Lower(x) !in seen' && FirstOfItsCase(tail, i);
          assert paths[i + 1] == x;
          forall j | 0 <= j < i + 1 ensures Text.Lower(paths[j]) != Text.Lower(paths[i + 1]) {
            if j > 0 {
              assert paths[j] == tail[j - 1];
            }
          }
        }
      }
      forall i | 0 <= i < |paths| && paths[i] == x && Text.Lower(x) !in seen && FirstOfItsCase(paths, i)
        ensures x in KeepFirstSeen(paths, seen)
      {
        if i > 0 {
          assert tail[i - 1] == x;
          assert Text.Lower(paths[0]) != Text.Lower(x);
          forall j | 0 <= j < i - 1 ensures Text.Lower(tail[j]) != Text.Lower(tail[i - 1]) {
            assert tail[j] == paths[j + 1];
          }
          assert FirstOfItsCase(tail, i - 1);
        }
      }
    }
  }

  // ---------------------------------------------------------------------------
  // Lemmas: resolution and sorting keep paths distinct

  ghost predicate DistinctEntryPaths(s: seq<SourceFile>) {
    Sorting.DistinctBy(s, PathKey)
  }

  /** Prepending an entry whose path differs (ignoring case) from all others
      keeps the paths distinct. */
  lemma ConsKeepsDistinct(e: SourceFile, s: seq<SourceFile>)
    requires DistinctEntryPaths(s)
    requires forall x :: x in s ==> PathKey(x) != PathKey(e)
    ensures DistinctEntryPaths([e] + s)
  {
    var r := [e] + s;
    forall i, j | 0 <= i < j < |r| ensures PathKey(r[i]) != PathKey(r[j]) {
      assert r[j] == s[j - 1];
      if i > 0 {
        assert r[i] == s[i - 1];
      }
    }
  }

  /** Every path after the first differs from it, ignoring case. */
  lemma TailDiffersFromHead(paths: seq<string>, x: string)
    requires DistinctIgnoringCase(paths)
    requires paths != [] && x in paths[1..]
    ensures Text.Lower(x) != Text.Lower(paths[0])
  {
    var k :| 0 <= k < |paths[1..]| && paths[1..][k] == x;
    assert paths[k + 1] == x;
  }

  lemma {:induction false} ResolveKeepsDistinct(paths: seq<string>)
    requires DistinctIgnoringCase(paths)
    ensures DistinctEntryPaths(Resolve(paths))
    decreases |paths|
  {
    if paths != [] {
      var tail := paths[1..];
      assert DistinctIgnoringCase(tail) by {
        forall i, j | 0 <= i < j < |tail| ensures Text.Lower(tail[i]) != Text.Lower(tail[j]) {
          assert tail[i] == paths[i + 1] && tail[j] == paths[j + 1];
        }
      }
      ResolveKeepsDistinct(tail);
      var rest := Resolve(tail);
      match EntryFor(paths[0])
      case None =>
      case Some(e0) =>
        forall x | x in rest ensures PathKey(x) != PathKey(e0) {
          TailDiffersFromHead(paths, x.path);
        }
        ConsKeepsDistinct(e0, rest);
    }
  }

  // ---------------------------------------------------------------------------
  // Lemmas: what the catalog holds and in which order

  /** An entry is in the catalog exactly when it is built from a path that is
      the first of its lower-cased form and whose stem names an in-range
      period. */
  lemma CatalogMembers(paths: seq<string>, e: SourceFile)
    ensures e in FindFiles(paths) <==>
      exists i :: 0 <= i < |paths| && FirstOfItsCase(paths, i) && EntryFor(paths[i]) == Some(e)
  {
    if e in FindFiles(paths) {
      CatalogMemberFrom(paths, e);
    }
    if exists i :: 0 <= i < |paths| && FirstOfItsCase(paths, i) && EntryFor(paths[i]) == Some(e) {
      var i :| 0 <= i < |paths| && FirstOfItsCase(paths, i) && EntryFor(paths[i]) == Some(e);
      CatalogMemberTo(paths, i);
    }
  }

  lemma CatalogMemberFrom(paths: seq<string>, e: SourceFile)
    requires e in FindFiles(paths)
    ensures exists i :: 0 <= i < |paths| && FirstOfItsCase(paths, i) && EntryFor(paths[i]) == Some(e)
  {
    var resolved := Resolve(KeepFirstSeen(paths, {}));
    assert e in multiset(Sorting.SortBy(resolved, SortKey));
    assert e in resolved;
    KeepFirstSeenExactly(paths, {}, e.path);
    var i :| 0 <= i < |paths| && paths[i] == e.path && FirstOfItsCase(paths, i);
    assert EntryFor(paths[i]) == Some(e);
  }

  lemma CatalogMemberTo(paths: seq<string>, i: int)
    requires 0 <= i < |paths| && FirstOfItsCase(paths, i) && EntryFor(paths[i]).Some?
    ensures EntryFor(paths[i]).value in FindFiles(paths)
  {
    var e := EntryFor(paths[i]).value;
    var resolved := Resolve(KeepFirstSeen(paths, {}));
    KeepFirstSeenExactly(paths, {}, paths[i]);
    assert e in resolved;
    assert e in multiset(Sorting.SortBy(resolved, SortKey));
  }

  /** Two differently named files of the same period both stay in the
      catalog. */
  lemma SamePeriodBothKept(paths: seq<string>, i: int, j: int)
    requires 0 <= i < j < |paths|
    requires FirstOfItsCase(paths, i) && FirstOfItsCase(paths, j)
    requires EntryFor(paths[i]).Some? && EntryFor(paths[j]).Some?
    ensures EntryFor(paths[i]).value in FindFiles(paths)
    ensures EntryFor(paths[j]).value in FindFiles(paths)
    ensures EntryFor(paths[i]).value != EntryFor(paths[j]).value
  {
    CatalogMembers(paths, EntryFor(paths[i]).value);
    CatalogMembers(paths, EntryFor(paths[j]).value);
  }

  /** Entries of the same period appear in the order their paths were listed. */
  lemma CatalogKeepsListingOrder(paths: seq<string>, k: int)
    ensures Sorting.WithKey(FindFiles(paths), SortKey, k)
         == Sorting.WithKey(Resolve(KeepFirstSeen(paths, {})), SortKey, k)
  {
    Sorting.SortStable(Resolve(KeepFirstSeen(paths, {})), SortKey, k);
  }

  /** The sort key orders periods chronologically and encodes them one-to-one. */
  lemma SortKeyEncodesPeriod(a: SourceFile, b: SourceFile)
    requires WellFormed(a) && WellFormed(b)
    ensures a.sortKey <= b.sortKey <==> Chronological(a, b)
    ensures a.sortKey == b.sortKey <==> a.year == b.year && a.month == b.month
    ensures a.sortKey / 100 == a.year && a.sortKey % 100 == a.month
  {
  }

  /** Two catalog entries with the same label name the same period. */
  lemma LabelIdentifiesPeriod(a: SourceFile, b: SourceFile)
    requires WellFormed(a) && WellFormed(b)
    requires a.caption == b.caption
    ensures a.year == b.year && a.month == b.month
  {
    Tables.MonthNamesDomain();
    Text.DecimalFourDigits(a.year);
    Text.DecimalFourDigits(b.year);
    var n := |a.caption| - 4;
    assert a.caption[n..] == Text.Decimal(a.year);
    assert b.caption[n..] == Text.Decimal(b.year);
    Text.DecimalInjective(a.year, b.year);
    assert a.caption[..n - 1] == Tables.MonthNamesPl[a.month];
    assert b.caption[..n - 1] == Tables.MonthNamesPl[b.month];
    Tables.MonthNamesDistinct(a.month, b.month);
  }
}
