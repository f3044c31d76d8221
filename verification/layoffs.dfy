/** Group-layoff reports (`wczytaj_zwolnienia`, wup_auto_app.py:586-627):
    every catalogued file's "dane" sheet (or its first sheet) is read from row 7
    on, and each row whose district cell is a real district name becomes one
    record. The counts stay absent when a cell is not numeric: `x or 0` on
    line 614-617 leaves NaN in place, because NaN is truthy. */
module Layoffs {
  import opened Wrappers
  import Text
  import Pkd
  import opened Sheets
  import Catalog
  import Sorting
  import Seqs

  const FirstDataRow: nat := 7
  const DistrictColumn: nat := 1
  const EmployerColumn: nat := 3
  const PkdColumn: nat := 5
  const ReportedColumn: nat := 6
  const ChangedTermsColumn: nat := 8
  const ClosureColumn: nat := 9
  const DismissedColumn: nat := 10
  const MonitoredColumn: nat := 11
  const EmployerLimit: nat := 70

  /** One layoff record: the period of its file, the district, the employer,
      the industry code with its description, the four head counts
      (`Zgłoszeni`, `Wypow_zmieniające`, `Zwolnieni`, `Monitorowani`) and the
      liquidation flag. */
  datatype Layoff = Layoff(
    period: string, year: int, month: int, sortKey: int,
    district: string, employer: string, pkd: string, pkdDescription: string,
    reported: Option<int>, changedTerms: Option<int>, dismissed: Option<int>, monitored: Option<int>,
    closure: bool)

  /** A label naming a total or a district heading rather than a district:
      its lower-cased form contains "powiat", "suma", "ogółem" or "razem". */
  predicate IsSentinel(name: string) {
    var l := Text.Lower(name);
    Text.Contains(l, "powiat") || Text.Contains(l, "suma") || Text.Contains(l, "ogółem") || Text.Contains(l, "razem")
  }

  /** The district cell of a row that becomes a record. */
  predicate IsDistrictCell(c: Cell) {
    c.TextCell? && |Text.Strip(c.text)| >= 2 && !IsSentinel(c.text)
  }

  /** `re.sub(r"\s{2,}", " ", str(g(3) or "").strip())[:70]`. */
  function Employer(c: Cell): (r: string)
    ensures |r| <= EmployerLimit
    ensures r != [] ==> !Text.IsSpace(r[0])
    ensures Text.NoDoubleSpace(r)
  {
    var collapsed := Text.CollapseSpaces(Text.Strip(OrEmpty(c)));
    var r := Text.Take(collapsed, EmployerLimit);
    assert forall i :: 0 <= i < |r| ==> r[i] == collapsed[i];
    r
  }

  /** `str(g(9) or "").strip().lower() == "tak"`. */
  predicate Closure(c: Cell) {
    Text.Lower(Text.Strip(OrEmpty(c))) == "tak"
  }

  /** `normalizuj_pkd(g(5))`. */
  function RowCode(row: seq<Cell>): string {
    Pkd.Normalize(Text.Strip(OrEmpty(CellOf(row, PkdColumn))))
  }

  /** The record of a row whose district cell reads `district`. */
  function RowRecord(src: Catalog.SourceFile, row: seq<Cell>, district: string,
                     parseNum: string -> Option<int>): (x: Layoff)
    ensures x.period == src.caption && x.year == src.year && x.month == src.month && x.sortKey == src.sortKey
    ensures x.district == district
    ensures x.closure <==> Closure(CellOf(row, ClosureColumn))
  {
    Layoff(
      src.caption, src.year, src.month, src.sortKey,
      district,
      Employer(CellOf(row, EmployerColumn)),
      RowCode(row), Pkd.Describe(RowCode(row)),
      Numeric(CellOf(row, ReportedColumn), parseNum),
      Numeric(CellOf(row, ChangedTermsColumn), parseNum),
      Numeric(CellOf(row, DismissedColumn), parseNum),
      Numeric(CellOf(row, MonitoredColumn), parseNum),
      Closure(CellOf(row, ClosureColumn)))
  }

  /** At least two characters, with no blank at either end. */
  predicate Trimmed(name: string) {
    |name| >= 2 && !Text.IsSpace(name[0]) && !Text.IsSpace(name[|name| - 1])
  }

  /** `g(1).strip()` for a district cell. */
  function DistrictName(c: Cell): (r: string)
    requires c.TextCell? && |Text.Strip(c.text)| >= 2
    ensures Trimmed(r)
  {
    Text.Strip(c.text)
  }

  /** The record one data row gives, if any. */
  function LayoffRow(src: Catalog.SourceFile, row: seq<Cell>, parseNum: string -> Option<int>): (r: Option<Layoff>)
    ensures r.Some? <==> IsDistrictCell(CellOf(row, DistrictColumn))
    ensures r.Some? ==>
      && r.value.period == src.caption && r.value.year == src.year
      && r.value.month == src.month && r.value.sortKey == src.sortKey
    ensures r.Some? ==> Trimmed(r.value.district)
    ensures r.Some? ==> r.value.district == Text.Strip(CellOf(row, DistrictColumn).text)
    ensures r.Some? ==>
      && r.value.employer == Employer(CellOf(row, EmployerColumn))
      && r.value.pkd == RowCode(row)
      && r.value.pkdDescription == Pkd.Describe(RowCode(row))
    ensures r.Some? ==>
      && r.value.reported == Numeric(CellOf(row, ReportedColumn), parseNum)
      && r.value.changedTerms == Numeric(CellOf(row, ChangedTermsColumn), parseNum)
      && r.value.dismissed == Numeric(CellOf(row, DismissedColumn), parseNum)
      && r.value.monitored == Numeric(CellOf(row, MonitoredColumn), parseNum)
    ensures r.Some? ==> (r.value.closure <==> Closure(CellOf(row, ClosureColumn)))
  {
    var d := CellOf(row, DistrictColumn);
    if !IsDistrictCell(d) then None
    else Some(RowRecord(src, row, DistrictName(d), parseNum))
  }

  /** `for i in range(7, len(xl))`: the records of the rows from 7 on, in row
      order. */
  function FrameLayoffs(src: Catalog.SourceFile, f: Frame, parseNum: string -> Option<int>): (r: seq<Layoff>)
    ensures forall x :: x in r ==>
      x.period == src.caption && x.year == src.year && x.month == src.month && x.sortKey == src.sortKey
  {
    if |f.rows| <= FirstDataRow then []
    else
      var r := Seqs.FilterMap(f.rows[FirstDataRow..], row => LayoffRow(src, row, parseNum));
      forall x | x in r
        ensures x.period == src.caption && x.year == src.year && x.month == src.month && x.sortKey == src.sortKey
      {
        Seqs.FilterMapMembers(f.rows[FirstDataRow..], row => LayoffRow(src, row, parseNum), x);
      }
      r
  }

  /** The sheet read: "dane" when it exists and parses, otherwise the first
      sheet; `None` when neither read succeeds. */
  function LayoffSheet(wb: Workbook): (r: Option<Frame>)
    ensures SheetNamed(wb, "dane").Some? && SheetNamed(wb, "dane").value.frame.Some? ==>
      r == SheetNamed(wb, "dane").value.frame
    ensures r.None? ==> wb == [] || wb[0].frame.None?
    ensures wb != [] && (SheetNamed(wb, "dane").None? || SheetNamed(wb, "dane").value.frame.None?) ==>
      r == wb[0].frame
  {
    match SheetNamed(wb, "dane")
    case Some(Sheet(_, Some(f))) => Some(f)
    case _ => if wb == [] then None else wb[0].frame
  }

  /** The records of one catalogued file; none when the file cannot be
      opened or no sheet can be read. */
  function FileLayoffs(src: Catalog.SourceFile, fs: string -> Option<Workbook>,
                       parseNum: string -> Option<int>): (r: seq<Layoff>)
    ensures forall x :: x in r ==> x.sortKey == src.sortKey
  {
    match fs(src.path)
    case None => []
    case Some(wb) =>
      match LayoffSheet(wb)
      case None => []
      case Some(f) => FrameLayoffs(src, f, parseNum)
  }

  /** `wczytaj_zwolnienia` over the catalogue, files in catalogue order; `fs`
      gives each path's workbook. */
  function LoadLayoffs(files: seq<Catalog.SourceFile>, fs: string -> Option<Workbook>,
                       parseNum: string -> Option<int>): seq<Layoff>
  {
    Seqs.FlatMap(files, src => FileLayoffs(src, fs, parseNum))
  }

  function LayoffKey(x: Layoff): int { x.sortKey }

  // ---------------------------------------------------------------------------
  // Lemmas

  /** Rows 0-6 never give a record, and every later row whose district cell
      qualifies gives exactly its own record. */
  lemma FrameLayoffsMembers(src: Catalog.SourceFile, f: Frame, parseNum: string -> Option<int>, x: Layoff)
    ensures x in FrameLayoffs(src, f, parseNum) <==>
      exists i :: FirstDataRow <= i < |f.rows| && LayoffRow(src, f.rows[i], parseNum) == Some(x)
  {
    if |f.rows| > FirstDataRow {
      Seqs.FilterMapFromMembers(f.rows, FirstDataRow, row => LayoffRow(src, row, parseNum), x);
    }
  }

  /** The employer name keeps every non-blank character of the cell when the
      collapsed text fits in 70 characters. */
  lemma EmployerKeepsText(c: Cell)
    requires |Text.CollapseSpaces(Text.Strip(OrEmpty(c)))| <= EmployerLimit
    ensures Text.DropChars(Employer(c), Text.IsSpace) == Text.DropChars(Text.Strip(OrEmpty(c)), Text.IsSpace)
  {
    Text.CollapseKeepsText(Text.Strip(OrEmpty(c)));
  }

  /** An empty closure cell reads as "no liquidation", and so does the
      number zero. */
  lemma ClosureNeedsText(c: Cell)
    requires !Truthy(c)
    ensures !Closure(c)
  {
    assert Text.Strip("") == "";
    assert Text.Lower("") == "";
  }

  /** The industry description falls back to the code itself. */
  lemma DescriptionFallsBack(src: Catalog.SourceFile, row: seq<Cell>, parseNum: string -> Option<int>)
    requires LayoffRow(src, row, parseNum).Some?
    ensures var x := LayoffRow(src, row, parseNum).value;
      && (x.pkd in Pkd.Tables.PkdDescriptions ==> x.pkdDescription == Pkd.Tables.PkdDescriptions[x.pkd])
      && (x.pkd !in Pkd.Tables.PkdDescriptions ==> x.pkdDescription == x.pkd)
      && x.pkd == Pkd.Normalize(x.pkd)
  {
    var x := LayoffRow(src, row, parseNum).value;
    Pkd.Idempotent(Text.Strip(OrEmpty(CellOf(row, PkdColumn))));
  }

  /** How one count cell is kept: an empty cell stays absent rather than
      becoming 0, a number (zero included) is kept as it is, and text is
      whatever its numeric coercion gives. */
  predicate KeepsCount(c: Cell, count: Option<int>, parseNum: string -> Option<int>) {
    && (c == Blank ==> count == None)
    && (c.NumberCell? ==> count == Some(c.value))
    && (c.TextCell? ==> count == parseNum(c.text))
  }

  /** All four counts of a record are kept that way. */
  lemma CountsKeepMissing(src: Catalog.SourceFile, row: seq<Cell>, parseNum: string -> Option<int>)
    requires LayoffRow(src, row, parseNum).Some?
    ensures KeepsCount(CellOf(row, ReportedColumn), LayoffRow(src, row, parseNum).value.reported, parseNum)
    ensures KeepsCount(CellOf(row, ChangedTermsColumn), LayoffRow(src, row, parseNum).value.changedTerms, parseNum)
    ensures KeepsCount(CellOf(row, DismissedColumn), LayoffRow(src, row, parseNum).value.dismissed, parseNum)
    ensures KeepsCount(CellOf(row, MonitoredColumn), LayoffRow(src, row, parseNum).value.monitored, parseNum)
  {
    NumericKeepsCount(CellOf(row, ReportedColumn), parseNum);
    NumericKeepsCount(CellOf(row, ChangedTermsColumn), parseNum);
    NumericKeepsCount(CellOf(row, DismissedColumn), parseNum);
    NumericKeepsCount(CellOf(row, MonitoredColumn), parseNum);
  }

  lemma NumericKeepsCount(c: Cell, parseNum: string -> Option<int>)
    ensures KeepsCount(c, Numeric(c, parseNum), parseNum)
  {
  }

  /** A "SUMA" totals row is not a district. */
  lemma SumRowSkipped()
    ensures !IsDistrictCell(TextCell("SUMA"))
  {
    assert Text.Lower("SUMA") == "suma";
    assert Text.StartsWith("suma", "suma");
  }

  /** A "Powiat warszawski" heading is not a district. */
  lemma DistrictHeadingSkipped()
    ensures !IsDistrictCell(TextCell("Powiat warszawski"))
  {
    assert Text.Lower("Powiat warszawski")[..6] == "powiat";
    assert Text.StartsWith(Text.Lower("Powiat warszawski"), "powiat");
  }

  /** A record is loaded exactly when some catalogued file opens, a sheet of
      it is read, and one of its rows from 7 on gives that record. */
  lemma LoadLayoffsMembers(files: seq<Catalog.SourceFile>, fs: string -> Option<Workbook>,
                           parseNum: string -> Option<int>, x: Layoff)
    ensures x in LoadLayoffs(files, fs, parseNum) <==>
      exists i :: 0 <= i < |files| && fs(files[i].path).Some? && LayoffSheet(fs(files[i].path).value).Some?
        && x in FrameLayoffs(files[i], LayoffSheet(fs(files[i].path).value).value, parseNum)
  {
    Seqs.FlatMapMembers(files, src => FileLayoffs(src, fs, parseNum), x);
  }

  /** Files taken in catalogue order give records in sort-key order, so the
      result needs no sorting of its own. */
  lemma LoadFollowsCatalog(files: seq<Catalog.SourceFile>, fs: string -> Option<Workbook>,
                           parseNum: string -> Option<int>)
    requires Sorting.SortedBy(files, Catalog.SortKey)
    ensures forall i, j :: 0 <= i < j < |LoadLayoffs(files, fs, parseNum)| ==>
      LoadLayoffs(files, fs, parseNum)[i].sortKey <= LoadLayoffs(files, fs, parseNum)[j].sortKey
  {
    Seqs.FlatMapOrdered(files, src => FileLayoffs(src, fs, parseNum), Catalog.SortKey, LayoffKey);
  }
}
