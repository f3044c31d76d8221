/** Registered-unemployment stock from the MRPiPS-01 reports
    (`wczytaj_bezrobocie` and `klasyfikuj_jednostke`,
    wup_auto_app.py:631-740): every sheet of every catalogued file describes one
    territorial unit; the row labelled "Ogółem" gives the stock at the end of
    the month in column 12, and nine labelled rows give the stock in the
    categories the dashboard breaks down. */
module Stock {
  import opened Wrappers
  import Text
  import opened Sheets
  import Catalog
  import Sorting
  import Seqs

  const ProvinceSheet: string := "WOJEWÓDZTWO OGÓŁEM"
  const MinRows: nat := 20
  const AnchorStart: nat := 10
  const AnchorStop: nat := 25
  const AnchorDefault: nat := 15
  const SearchStart: nat := 15
  const SearchStop: nat := 50
  const SearchColumns: nat := 5
  const StockColumn: nat := 12
  const WomenColumn: nat := 13
  const RegisteredColumn: nat := 8
  const BenefitColumn: nat := 14

  /** The territorial level a sheet describes (`Typ`). */
  datatype Level = Province | Region | Subregion | District

  /** `klasyfikuj_jednostke(sheet, region)`. */
  function Classify(sheet: string, region: string): Level {
    if sheet == ProvinceSheet then Province
    else
      var r := Text.Upper(region);
      if Text.Contains(r, "REGION") && !Text.Contains(r, "PODREGION") then Region
      else if Text.Contains(r, "PODREGION") || Text.StartsWith(sheet, "R.")
        || Text.StartsWith(Text.Lower(sheet), "podregion")
        || Text.StartsWith(Text.Lower(sheet), "warszawski") then Subregion
      else District
  }

  /** The nine categories of unemployed broken down per unit. */
  datatype Category =
    | Rural | EmployerReasons | NoQualifications | Under30 | Under25
    | Over50 | LongTerm | Disabled | Foreigners

  const AllCategories: set<Category> :=
    {Rural, EmployerReasons, NoQualifications, Under30, Under25, Over50, LongTerm, Disabled, Foreigners}

  /** The text that labels each category's row. */
  function SearchText(c: Category): string {
    match c
    case Rural => "Zamieszkali na wsi"
    case EmployerReasons => "zwolnione z przyczyn dotyczących"
    case NoQualifications => "bez kwalifikacji"
    case Under30 => "do 30 roku"
    case Under25 => "do 25 roku"
    case Over50 => "powyżej 50"
    case LongTerm => "długotrwale"
    case Disabled => "niepełnosprawni"
    case Foreigners => "Cudzoziemcy"
  }

  /** One unit in one month. `region` is the unit's name, `sheet` the sheet it
      came from; `stock` is the number of unemployed at the end of the month,
      which every record has. */
  datatype StockRecord = StockRecord(
    period: string, year: int, month: int, sortKey: int,
    region: string, sheet: string, level: Level,
    stock: int, stockWomen: Option<int>, registered: Option<int>, withBenefit: Option<int>,
    categories: map<Category, Option<int>>)

  /** Sheets the loader never reads. */
  predicate SkippedName(name: string) {
    name == "dbf" || name == "Arkusz2"
  }

  /** A usable name in the top-left cell. */
  predicate NamesUnit(head: string) {
    head != "nan" && head != "" && !Text.StartsWith(head, "za miesiąc")
  }

  /** `region`: the stripped top-left cell, or the sheet name when that cell
      is empty or holds the "za miesiąc ..." heading. */
  function RegionLabel(f: Frame, sheet: string): string
    requires Height(f) > 0 && Width(f) > 0
  {
    var head := Text.Strip(Str(At(f, 0, 0)));
    if NamesUnit(head) then head else sheet
  }

  /** Row `ri`, column 0 mentions "Ogółem". */
  predicate IsTotalRow(f: Frame, ri: nat) {
    ri < Height(f) && Text.Contains(Str(CellOf(f.rows[ri], 0)), "Ogółem")
  }

  /** `min(25, len(df))`. */
  function AnchorEnd(f: Frame): nat {
    if Height(f) < AnchorStop then Height(f) else AnchorStop
  }

  /** `ogol_row`: the first row in [10, min(25, len)) whose first cell mentions
      "Ogółem", and row 15 when there is none. */
  function TotalRow(f: Frame): (r: nat)
    requires Height(f) >= MinRows
    ensures r < Height(f)
    ensures (exists k :: AnchorStart <= k < AnchorEnd(f) && IsTotalRow(f, k)) ==>
      && AnchorStart <= r < AnchorEnd(f) && IsTotalRow(f, r)
      && forall k :: AnchorStart <= k < r ==> !IsTotalRow(f, k)
    ensures (forall k :: AnchorStart <= k < AnchorEnd(f) ==> !IsTotalRow(f, k)) ==> r == AnchorDefault
  {
    var p := (ri: nat) => IsTotalRow(f, ri);
    assert forall k: nat :: IsTotalRow(f, k) == p(k);
    match Seqs.FirstIn(AnchorStart, AnchorEnd(f), p)
    case Some(ri) => ri
    case None => AnchorDefault
  }

  /** Some cell of row `ri` among the first five columns contains `text`,
      ignoring case. */
  predicate RowMentions(f: Frame, ri: nat, text: string) {
    && ri < Height(f)
    && exists ci :: 0 <= ci < SearchColumns && ci < Width(f) &&
         Text.Contains(Text.Lower(Str(CellOf(f.rows[ri], ci))), Text.Lower(text))
  }

  /** `min(50, len(df))`. */
  function SearchEnd(f: Frame): nat {
    if Height(f) < SearchStop then Height(f) else SearchStop
  }

  /** `znajdz(text)`: the first row from 15 up to min(50, len) that mentions
      `text`. */
  function FindLabel(f: Frame, text: string): (r: Option<nat>)
    ensures r.Some? ==> SearchStart <= r.value < SearchEnd(f) && RowMentions(f, r.value, text)
    ensures r.Some? ==> forall k :: SearchStart <= k < r.value ==> !RowMentions(f, k, text)
    ensures r.None? <==> forall k :: SearchStart <= k < SearchEnd(f) ==> !RowMentions(f, k, text)
  {
    var p := (ri: nat) => RowMentions(f, ri, text);
    assert forall k: nat :: RowMentions(f, k, text) == p(k);
    Seqs.FirstIn(SearchStart, SearchEnd(f), p)
  }

  /** `v(ri, ci)`: the number in a cell; `None` for NaN, for text that is not a
      number, and for a position outside the sheet (where `iloc` raises and
      the exception is caught). */
  function Probe(f: Frame, ri: nat, ci: nat, parseNum: string -> Option<int>): (r: Option<int>)
    ensures r.Some? ==> ri < Height(f) && ci < Width(f)
    ensures ri < Height(f) && ci < Width(f) && At(f, ri, ci).NumberCell? ==> r == Some(At(f, ri, ci).value)
    ensures ri < Height(f) && ci < Width(f) && At(f, ri, ci) == Blank ==> r == None
    ensures ri < Height(f) && ci < Width(f) && At(f, ri, ci).TextCell? ==> r == parseNum(At(f, ri, ci).text)
  {
    if ri < Height(f) && ci < Width(f) then Numeric(At(f, ri, ci), parseNum) else None
  }

  /** `vr(znajdz(SearchText(c)))`: column 12 of the category's row. */
  function CategoryCount(f: Frame, c: Category, parseNum: string -> Option<int>): (r: Option<int>)
    ensures r.Some? ==> exists ri ::
      && SearchStart <= ri < SearchEnd(f) && RowMentions(f, ri, SearchText(c))
      && r == Probe(f, ri, StockColumn, parseNum)
    ensures forall ri ::
      && SearchStart <= ri < SearchEnd(f) && RowMentions(f, ri, SearchText(c))
      && (forall k :: SearchStart <= k < ri ==> !RowMentions(f, k, SearchText(c)))
      ==> r == Probe(f, ri, StockColumn, parseNum)
  {
    match FindLabel(f, SearchText(c))
    case None => None
    case Some(ri) => Probe(f, ri, StockColumn, parseNum)
  }

  function Breakdown(f: Frame, parseNum: string -> Option<int>): (m: map<Category, Option<int>>)
    ensures forall c :: c in m
    ensures forall c :: m[c] == CategoryCount(f, c, parseNum)
  {
    CategoriesListed();
    map c | c in AllCategories :: CategoryCount(f, c, parseNum)
  }

  lemma CategoriesListed()
    ensures forall c: Category :: c in AllCategories
  {
    forall c: Category ensures c in AllCategories {
      match c
      case Rural => case EmployerReasons => case NoQualifications => case Under30 => case Under25 =>
      case Over50 => case LongTerm => case Disabled => case Foreigners =>
    }
  }

  /** A sheet the loader reads past its header: not on the skip list, parsed,
      at least 20 rows, and a top-left cell to read. */
  predicate Readable(sheet: Sheet) {
    && !SkippedName(sheet.name)
    && sheet.frame.Some?
    && Height(sheet.frame.value) >= MinRows
    && Width(sheet.frame.value) > 0
  }

  /** The record of one sheet, if any. */
  function SheetRecord(src: Catalog.SourceFile, sheet: Sheet, parseNum: string -> Option<int>): (r: Option<StockRecord>)
    ensures r.Some? ==> Readable(sheet)
    ensures r.Some? ==>
      && r.value.period == src.caption && r.value.year == src.year
      && r.value.month == src.month && r.value.sortKey == src.sortKey
      && r.value.sheet == sheet.name
    ensures r.Some? ==>
      Probe(sheet.frame.value, TotalRow(sheet.frame.value), StockColumn, parseNum) == Some(r.value.stock)
    ensures Readable(sheet) ==>
      (r.Some? <==> Probe(sheet.frame.value, TotalRow(sheet.frame.value), StockColumn, parseNum).Some?)
    ensures r.Some? ==>
      && r.value.region == Text.Strip(RegionLabel(sheet.frame.value, sheet.name))
      && r.value.level == Classify(sheet.name, RegionLabel(sheet.frame.value, sheet.name))
    ensures r.Some? ==>
      var f := sheet.frame.value;
      && r.value.stockWomen == Probe(f, TotalRow(f), WomenColumn, parseNum)
      && r.value.registered == Probe(f, TotalRow(f), RegisteredColumn, parseNum)
      && r.value.withBenefit == Probe(f, TotalRow(f), BenefitColumn, parseNum)
      && r.value.categories == Breakdown(f, parseNum)
  {
    if !Readable(sheet) then None
    else
      var f := sheet.frame.value;
      var total := TotalRow(f);
      match Probe(f, total, StockColumn, parseNum)
      case None => None
      case Some(stock) =>
        var region := RegionLabel(f, sheet.name);
        Some(StockRecord(
          src.caption, src.year, src.month, src.sortKey,
          Text.Strip(region), sheet.name, Classify(sheet.name, region),
          stock,
          Probe(f, total, WomenColumn, parseNum),
          Probe(f, total, RegisteredColumn, parseNum),
          Probe(f, total, BenefitColumn, parseNum),
          Breakdown(f, parseNum)))
  }

  /** The records of one catalogued file, one per sheet that gives one, in
      sheet order; none when the file cannot be opened. */
  function FileStock(src: Catalog.SourceFile, fs: string -> Option<Workbook>,
                     parseNum: string -> Option<int>): (r: seq<StockRecord>)
    ensures forall x :: x in r ==> x.sortKey == src.sortKey
  {
    match fs(src.path)
    case None => []
    case Some(wb) =>
      var r := Seqs.FilterMap(wb, sheet => SheetRecord(src, sheet, parseNum));
      forall x | x in r ensures x.sortKey == src.sortKey {
        Seqs.FilterMapMembers(wb, sheet => SheetRecord(src, sheet, parseNum), x);
      }
      r
  }

  /** `wczytaj_bezrobocie` over the catalogue, files in catalogue order. */
  function LoadStock(files: seq<Catalog.SourceFile>, fs: string -> Option<Workbook>,
                     parseNum: string -> Option<int>): seq<StockRecord>
  {
    Seqs.FlatMap(files, src => FileStock(src, fs, parseNum))
  }

  function StockKey(x: StockRecord): int { x.sortKey }

  // ---------------------------------------------------------------------------
  // Lemmas

  /** Only the sheet named "WOJEWÓDZTWO OGÓŁEM" describes the province. */
  lemma ProvinceOnlyByName(sheet: string, region: string)
    ensures Classify(sheet, region) == Province <==> sheet == ProvinceSheet
  {
  }

  /** The header text decides the level without regard to its case. */
  lemma ClassifyIgnoresCase(sheet: string, region: string)
    ensures Classify(sheet, Text.Lower(region)) == Classify(sheet, region)
  {
    Text.UpperOfLower(region);
  }

  /** A subregion header is never taken for a region, although "PODREGION"
      contains "REGION": outside the province sheet it is a subregion. */
  lemma SubregionHeader(sheet: string, region: string)
    requires sheet != ProvinceSheet
    requires Text.Contains(Text.Upper(region), "PODREGION")
    ensures Classify(sheet, region) == Subregion
  {
  }

  /** Off the province sheet, a header that mentions "REGION" but not
      "PODREGION" makes the unit a region, whatever the sheet is called. */
  lemma RegionHeader(sheet: string, region: string)
    requires sheet != ProvinceSheet
    requires Text.Contains(Text.Upper(region), "REGION")
    requires !Text.Contains(Text.Upper(region), "PODREGION")
    ensures Classify(sheet, region) == Region
  {
  }

  /** A macroregion header counts as a region, since "MAKROREGION" contains
      "REGION". */
  lemma MacroregionHeader(sheet: string, region: string)
    requires sheet != ProvinceSheet
    requires Text.Contains(Text.Upper(region), "MAKROREGION")
    requires !Text.Contains(Text.Upper(region), "PODREGION")
    ensures Classify(sheet, region) == Region
  {
    Text.ContainsAt("MAKROREGION", "REGION", 5);
    Text.ContainsTransitive(Text.Upper(region), "MAKROREGION", "REGION");
  }

  /** Without a region word in the header, the level comes from the sheet name
      alone: a subregion for the three subregion prefixes, a district
      otherwise. */
  lemma PlainHeader(sheet: string, region: string)
    requires sheet != ProvinceSheet
    requires !Text.Contains(Text.Upper(region), "REGION")
    ensures Classify(sheet, region) == Subregion <==>
      Text.StartsWith(sheet, "R.") || Text.StartsWith(Text.Lower(sheet), "podregion")
      || Text.StartsWith(Text.Lower(sheet), "warszawski")
    ensures Classify(sheet, region) ==
      if Text.StartsWith(sheet, "R.") || Text.StartsWith(Text.Lower(sheet), "podregion")
         || Text.StartsWith(Text.Lower(sheet), "warszawski")
      then Subregion else District
  {
    if Text.Contains(Text.Upper(region), "PODREGION") {
      Text.ContainsAt("PODREGION", "REGION", 3);
      Text.ContainsTransitive(Text.Upper(region), "PODREGION", "REGION");
      assert false;
    }
  }

  /** An empty top-left cell reads as "nan", so the sheet name is used. */
  lemma BlankHeaderUsesSheet(f: Frame, sheet: string)
    requires Height(f) > 0 && Width(f) > 0
    requires At(f, 0, 0) == Blank
    ensures RegionLabel(f, sheet) == sheet
  {
    assert Text.Strip("nan") == "nan";
  }

  /** The "za miesiąc ..." heading in the top-left cell is not a unit name,
      so the sheet name is used. */
  lemma MonthHeadingUsesSheet(f: Frame, sheet: string)
    requires Height(f) > 0 && Width(f) > 0
    requires Text.StartsWith(Text.Strip(Str(At(f, 0, 0))), "za miesiąc")
    ensures RegionLabel(f, sheet) == sheet
  {
  }

  /** The unit name is the stripped top-left cell when that is a usable
      heading, and the sheet name otherwise; either way a heading it takes
      has no blanks around it. */
  lemma RegionLabelShape(f: Frame, sheet: string)
    requires Height(f) > 0 && Width(f) > 0
    ensures RegionLabel(f, sheet) == sheet
      || (NamesUnit(RegionLabel(f, sheet)) && Text.Strip(RegionLabel(f, sheet)) == RegionLabel(f, sheet))
    ensures NamesUnit(Text.Strip(Str(At(f, 0, 0)))) ==> RegionLabel(f, sheet) == Text.Strip(Str(At(f, 0, 0)))
    ensures !NamesUnit(Text.Strip(Str(At(f, 0, 0)))) ==> RegionLabel(f, sheet) == sheet
  {
    Text.StripIdempotent(Str(At(f, 0, 0)));
  }

  /** The unit name is never the NaN placeholder or empty unless the sheet
      itself is named so. */
  lemma RegionNeverPlaceholder(f: Frame, sheet: string)
    requires Height(f) > 0 && Width(f) > 0
    ensures RegionLabel(f, sheet) == "nan" ==> sheet == "nan"
    ensures RegionLabel(f, sheet) == "" ==> sheet == ""
  {
  }

  /** Sheets on the skip list, sheets that fail to parse and sheets shorter
      than 20 rows give no record; a readable sheet gives one exactly when its
      total row has a number in column 12. */
  lemma SheetFilter(src: Catalog.SourceFile, sheet: Sheet, parseNum: string -> Option<int>)
    ensures SkippedName(sheet.name) ==> SheetRecord(src, sheet, parseNum).None?
    ensures sheet.frame.None? ==> SheetRecord(src, sheet, parseNum).None?
    ensures sheet.frame.Some? && Height(sheet.frame.value) < MinRows ==> SheetRecord(src, sheet, parseNum).None?
  {
  }

  /** A readable sheet whose total row holds, in column 12, a number or text
      that coerces to one gives a record with that stock. */
  lemma NumericTotalGivesRecord(src: Catalog.SourceFile, sheet: Sheet, parseNum: string -> Option<int>)
    requires Readable(sheet) && StockColumn < Width(sheet.frame.value)
    requires Numeric(At(sheet.frame.value, TotalRow(sheet.frame.value), StockColumn), parseNum).Some?
    ensures SheetRecord(src, sheet, parseNum).Some?
    ensures Some(SheetRecord(src, sheet, parseNum).value.stock)
      == Numeric(At(sheet.frame.value, TotalRow(sheet.frame.value), StockColumn), parseNum)
  {
  }

  /** A record describes the province exactly when it comes from the sheet
      "WOJEWÓDZTWO OGÓŁEM", whatever its heading says. */
  lemma RecordProvinceByName(src: Catalog.SourceFile, sheet: Sheet, parseNum: string -> Option<int>)
    requires SheetRecord(src, sheet, parseNum).Some?
    ensures SheetRecord(src, sheet, parseNum).value.level == Province <==> sheet.name == ProvinceSheet
  {
    ProvinceOnlyByName(sheet.name, RegionLabel(sheet.frame.value, sheet.name));
  }

  /** Any row in 10-24 that mentions "Ogółem" with none before it is the
      anchor: the search takes the first such row. */
  lemma TotalRowIsFirst(f: Frame, ri: nat)
    requires Height(f) >= MinRows
    requires AnchorStart <= ri < AnchorEnd(f) && IsTotalRow(f, ri)
    requires forall k :: AnchorStart <= k < ri ==> !IsTotalRow(f, k)
    ensures TotalRow(f) == ri
  {
  }

  /** Every category is reported, each as column 12 of its labelled row or as
      missing when no row in 15-49 carries the label. */
  lemma CategoriesComplete(src: Catalog.SourceFile, sheet: Sheet, parseNum: string -> Option<int>, c: Category)
    requires SheetRecord(src, sheet, parseNum).Some?
    ensures c in SheetRecord(src, sheet, parseNum).value.categories
    ensures (forall k :: SearchStart <= k < SearchEnd(sheet.frame.value) ==> !RowMentions(sheet.frame.value, k, SearchText(c)))
      ==> SheetRecord(src, sheet, parseNum).value.categories[c].None?
  {
  }

  /** A record belongs to the result exactly when some catalogued file opens
      and one of its sheets gives that record. */
  lemma LoadStockMembers(files: seq<Catalog.SourceFile>, fs: string -> Option<Workbook>,
                         parseNum: string -> Option<int>, x: StockRecord)
    ensures x in LoadStock(files, fs, parseNum) <==>
      exists i, j :: 0 <= i < |files| && fs(files[i].path).Some? && 0 <= j < |fs(files[i].path).value|
        && SheetRecord(files[i], fs(files[i].path).value[j], parseNum) == Some(x)
  {
    Seqs.FlatMapMembers(files, src => FileStock(src, fs, parseNum), x);
    forall i | 0 <= i < |files| && fs(files[i].path).Some?
      ensures x in FileStock(files[i], fs, parseNum) <==>
        exists j :: 0 <= j < |fs(files[i].path).value| && SheetRecord(files[i], fs(files[i].path).value[j], parseNum) == Some(x)
    {
      Seqs.FilterMapMembers(fs(files[i].path).value, sheet => SheetRecord(files[i], sheet, parseNum), x);
    }
  }

  /** Files taken in catalogue order give records already in sort-key order:
      `sort_values("Sort_key")` only reorders records of the same month. */
  lemma LoadStockOrdered(files: seq<Catalog.SourceFile>, fs: string -> Option<Workbook>,
                         parseNum: string -> Option<int>)
    requires Sorting.SortedBy(files, Catalog.SortKey)
    ensures Sorting.SortedBy(LoadStock(files, fs, parseNum), StockKey)
  {
    Seqs.FlatMapOrdered(files, src => FileStock(src, fs, parseNum), Catalog.SortKey, StockKey);
  }
}
