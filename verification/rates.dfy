/** Unemployment rates from the statistical office's tables
    (`wczytaj_stopa_bezrobocia`, wup_auto_app.py:470-556). Sheet "Tabl.1"
    lists provinces by their four-character statistical code and the Masovian
    macro-region with its regions and subregions; sheet "Tabl.1a" lists
    districts, of which only the Masovian ones (province code "14") are read.

    A row either is skipped, gives a record, or raises (a cell read past the
    last column). A raise ends the whole file: the records already taken from
    it stay, and nothing after the failing row is read, not even the second
    sheet. */
module Rates {
  import opened Wrappers
  import Text
  import Tables
  import opened Sheets
  import Catalog
  import Sorting
  import Seqs

  const Tabl1: string := "Tabl.1"
  const Tabl1a: string := "Tabl.1a"
  const MasovianCode: string := "14"
  const ProvinceDistrictCode: string := "00"

  /** `Typ`: "województwo", "województwo_mazow", "region_mazow",
      "podregion_mazow" and "powiat". */
  datatype RateKind = Province | MasovianWhole | MasovianRegion | MasovianSubregion | District

  /** One unit in one month: its code, its name, what kind of unit it is,
      the number of unemployed in thousands, the rate, and the map name it is
      drawn under, if any. Numbers are abstract, as in the other loaders. */
  datatype RateRecord = RateRecord(
    period: string, year: int, month: int, sortKey: int,
    code: string, name: string, kind: RateKind,
    unemployed: Option<int>, rate: int, geo: Option<string>)

  /** What reading one row does. */
  datatype RowOutcome = Skip | Emit(record: RateRecord) | Raise

  /** The records a sheet gave, and whether reading it raised. */
  datatype Scan = Scan(records: seq<RateRecord>, raised: bool)

  /** The kind and map name of a unit in "Tabl.1". */
  datatype Placement = Placement(kind: RateKind, geo: Option<string>)

  /** The dispatch on the code of a "Tabl.1" row; `None` for the rows the
      loader passes over. */
  function Tabl1Placement(code: string): Option<Placement> {
    if |code| == 4 then Some(Placement(Province, Get(Tables.Nuts2ToGeo, code)))
    else if |code| == 2 then None
    else if code == "PL9" then Some(Placement(MasovianWhole, Some("mazowieckie")))
    else if Text.StartsWith(code, "PL9") && |code| == 4 then Some(Placement(MasovianRegion, None))
    else if Text.StartsWith(code, "PL9") then Some(Placement(MasovianSubregion, None))
    else None
  }

  /** `nazwa.replace("REGION: ", "").replace("PODREGION: ", "")
      .replace("MAKROREGION ", "").strip()`. */
  function CleanRegionName(name: string): (r: string)
    ensures |r| <= |name|
    ensures r != [] ==> !Text.IsSpace(r[0]) && !Text.IsSpace(r[|r| - 1])
  {
    Text.Strip(Text.RemoveAll(Text.RemoveAll(Text.RemoveAll(name, "REGION: "), "PODREGION: "), "MAKROREGION "))
  }

  /** The text of a cell, stripped: `str(df.iloc[i, c]).strip()`. */
  function Field(row: seq<Cell>, c: nat): string {
    Text.Strip(Str(CellOf(row, c)))
  }

  /** Row `i` of "Tabl.1". */
  function Tabl1Row(src: Catalog.SourceFile, f: Frame, i: nat, parseNum: string -> Option<int>): (r: RowOutcome)
    requires i < Height(f)
    ensures r.Raise? <==> Width(f) == 0 || (Text.StartsWith(Field(f.rows[i], 0), "PL") && Width(f) < 7)
    ensures r.Emit? <==>
      && Width(f) >= 7 && Text.StartsWith(Field(f.rows[i], 0), "PL")
      && Numeric(CellOf(f.rows[i], 6), parseNum).Some? && Tabl1Placement(Field(f.rows[i], 0)).Some?
    ensures r.Emit? ==>
      && r.record.code == Field(f.rows[i], 0) && Text.StartsWith(r.record.code, "PL")
      && r.record.kind != District && r.record.kind != MasovianRegion
      && r.record.period == src.caption && r.record.year == src.year
      && r.record.month == src.month && r.record.sortKey == src.sortKey
    ensures r.Emit? ==>
      && r.record.kind == Tabl1Placement(Field(f.rows[i], 0)).value.kind
      && r.record.geo == Tabl1Placement(Field(f.rows[i], 0)).value.geo
      && r.record.name == CleanRegionName(Field(f.rows[i], 4))
      && Some(r.record.rate) == Numeric(CellOf(f.rows[i], 6), parseNum)
      && r.record.unemployed == Numeric(CellOf(f.rows[i], 5), parseNum)
  {
    if Width(f) == 0 then Raise
    else
      var row := f.rows[i];
      var code := Field(row, 0);
      if !Text.StartsWith(code, "PL") then Skip
      else if Width(f) < 7 then Raise
      else
        match Numeric(CellOf(row, 6), parseNum)
        case None => Skip
        case Some(rate) =>
          match Tabl1Placement(code)
          case None => Skip
          case Some(p) =>
            Emit(RateRecord(
              src.caption, src.year, src.month, src.sortKey,
              code, CleanRegionName(Field(row, 4)), p.kind,
              Numeric(CellOf(row, 5), parseNum), rate, p.geo))
  }

  /** `GUS_DO_GEO.get(nazwa)` for a district name. */
  function DistrictGeo(name: string): Option<string> {
    Get(Tables.GusToGeo, name)
  }

  /** `str(df.iloc[i, 2]).strip().lower().strip()`: the district name as
      looked up. */
  function DistrictName(row: seq<Cell>): string {
    Text.Strip(Text.Lower(Field(row, 2)))
  }

  /** Row `i` of "Tabl.1a". */
  function Tabl1aRow(src: Catalog.SourceFile, f: Frame, i: nat, parseNum: string -> Option<int>): (r: RowOutcome)
    requires i < Height(f)
    ensures r.Raise? <==> Width(f) == 0 || (Field(f.rows[i], 0) == MasovianCode && Width(f) < 5)
    ensures r.Emit? <==>
      Width(f) >= 5 && Field(f.rows[i], 0) == MasovianCode && Numeric(CellOf(f.rows[i], 4), parseNum).Some?
    ensures r.Emit? ==>
      && r.record.code == MasovianCode + Field(f.rows[i], 1)
      && (r.record.kind == Province <==> Field(f.rows[i], 1) == ProvinceDistrictCode)
      && (r.record.kind == Province || r.record.kind == District)
      && r.record.period == src.caption && r.record.year == src.year
      && r.record.month == src.month && r.record.sortKey == src.sortKey
    ensures r.Emit? ==>
      && r.record.name == DistrictName(f.rows[i])
      && r.record.geo == DistrictGeo(DistrictName(f.rows[i]))
      && Some(r.record.rate) == Numeric(CellOf(f.rows[i], 4), parseNum)
      && r.record.unemployed == Numeric(CellOf(f.rows[i], 3), parseNum)
  {
    if Width(f) == 0 then Raise
    else
      var row := f.rows[i];
      if Field(row, 0) != MasovianCode then Skip
      else if Width(f) < 5 then Raise
      else
        var district := Field(row, 1);
        var name := DistrictName(row);
        match Numeric(CellOf(row, 4), parseNum)
        case None => Skip
        case Some(rate) =>
          Emit(RateRecord(
            src.caption, src.year, src.month, src.sortKey,
            MasovianCode + district, name,
            if district == ProvinceDistrictCode then Province else District,
            Numeric(CellOf(row, 3), parseNum), rate, DistrictGeo(name)))
  }

  /** Reads outcomes in order until the first raise. */
  function Run(outs: seq<RowOutcome>): (r: Scan)
    ensures |r.records| <= |outs|
    ensures r.raised <==> exists i :: 0 <= i < |outs| && outs[i].Raise?
    decreases |outs|
  {
    if outs == [] then Scan([], false)
    else
      var rest := Run(outs[1..]);
      assert forall i :: 1 <= i < |outs| ==> outs[i] == outs[1..][i - 1];
      match outs[0]
      case Raise => Scan([], true)
      case Skip => rest
      case Emit(x) => Scan([x] + rest.records, rest.raised)
  }

  function Tabl1Outcomes(src: Catalog.SourceFile, f: Frame, parseNum: string -> Option<int>): seq<RowOutcome> {
    seq(Height(f), i requires 0 <= i < Height(f) => Tabl1Row(src, f, i, parseNum))
  }

  function Tabl1aOutcomes(src: Catalog.SourceFile, f: Frame, parseNum: string -> Option<int>): seq<RowOutcome> {
    seq(Height(f), i requires 0 <= i < Height(f) => Tabl1aRow(src, f, i, parseNum))
  }

  /** Reading the sheet called `name` when the workbook has it; a sheet that
      fails to parse raises. */
  function ReadSheet(wb: Workbook, name: string, outcomes: Frame -> seq<RowOutcome>): Scan {
    match SheetNamed(wb, name)
    case None => Scan([], false)
    case Some(sheet) =>
      match sheet.frame
      case None => Scan([], true)
      case Some(f) => Run(outcomes(f))
  }

  function FirstSheet(src: Catalog.SourceFile, wb: Workbook, parseNum: string -> Option<int>): Scan {
    ReadSheet(wb, Tabl1, f => Tabl1Outcomes(src, f, parseNum))
  }

  function SecondSheet(src: Catalog.SourceFile, wb: Workbook, parseNum: string -> Option<int>): Scan {
    ReadSheet(wb, Tabl1a, f => Tabl1aOutcomes(src, f, parseNum))
  }

  /** The records of one workbook: "Tabl.1" first, then "Tabl.1a" unless
      reading "Tabl.1" raised. */
  function WorkbookRates(src: Catalog.SourceFile, wb: Workbook, parseNum: string -> Option<int>): seq<RateRecord> {
    var first := FirstSheet(src, wb, parseNum);
    if first.raised then first.records
    else first.records + SecondSheet(src, wb, parseNum).records
  }

  function FileRates(src: Catalog.SourceFile, fs: string -> Option<Workbook>,
                     parseNum: string -> Option<int>): seq<RateRecord> {
    match fs(src.path)
    case None => []
    case Some(wb) => WorkbookRates(src, wb, parseNum)
  }

  /** `wczytaj_stopa_bezrobocia` over the catalogue, files in catalogue order. */
  function LoadRates(files: seq<Catalog.SourceFile>, fs: string -> Option<Workbook>,
                     parseNum: string -> Option<int>): seq<RateRecord>
  {
    Seqs.FlatMap(files, src => FileRates(src, fs, parseNum))
  }

  function RateKey(x: RateRecord): int { x.sortKey }

  // ---------------------------------------------------------------------------
  // Lemmas

  /** No "Tabl.1" row is ever a Masovian region: every four-character code is
      taken as a province first, so the `region_mazow` branch is dead. */
  lemma RegionBranchDead(code: string)
    ensures Tabl1Placement(code).Some? ==> Tabl1Placement(code).value.kind != MasovianRegion
  {
  }

  /** The dispatch on the code, stated by the code's shape alone. */
  lemma PlacementByShape(code: string)
    requires Text.StartsWith(code, "PL")
    ensures Tabl1Placement(code).Some? && Tabl1Placement(code).value.kind == Province <==> |code| == 4
    ensures Tabl1Placement(code).Some? && Tabl1Placement(code).value.kind == MasovianWhole <==> code == "PL9"
    ensures Tabl1Placement(code).Some? && Tabl1Placement(code).value.kind == MasovianSubregion <==>
      |code| >= 5 && Text.StartsWith(code, "PL9")
    ensures Tabl1Placement(code).None? <==>
      |code| == 2 || (|code| == 3 && code != "PL9") || (|code| >= 5 && !Text.StartsWith(code, "PL9"))
    ensures |code| == 4 ==> Tabl1Placement(code).value.geo == Get(Tables.Nuts2ToGeo, code)
    ensures code == "PL9" ==> Tabl1Placement(code).value.geo == Some("mazowieckie")
    ensures |code| >= 5 && Text.StartsWith(code, "PL9") ==> Tabl1Placement(code).value.geo == None
  {
    if |code| == 3 && Text.StartsWith(code, "PL9") {
      assert code == code[..3];
    }
  }

  /** Every code of the statistical-region table is placed, and drawn under
      the name the table gives it; in particular both Masovian regions, "PL91"
      and "PL92", are drawn as the whole province. */
  lemma RegionCodesOnMap()
    ensures forall k :: k in Tables.Nuts2ToGeo ==>
      Tabl1Placement(k).Some? && Tabl1Placement(k).value.geo == Some(Tables.Nuts2ToGeo[k])
  {
    forall k | k in Tables.Nuts2ToGeo
      ensures Tabl1Placement(k).Some? && Tabl1Placement(k).value.geo == Some(Tables.Nuts2ToGeo[k])
    {
      RegionCodeOnMap(k);
    }
  }

  lemma RegionCodeOnMap(k: string)
    requires k in Tables.Nuts2ToGeo
    ensures Tabl1Placement(k).Some? && Tabl1Placement(k).value.geo == Some(Tables.Nuts2ToGeo[k])
  {
    Tables.Nuts2Lengths();
    if |k| == 4 {
      ProvinceCodePlaced(k);
    } else {
      assert k == "PL9";
      MasovianWholePlaced();
      Tables.Nuts2Masovian();
    }
  }

  lemma ProvinceCodePlaced(k: string)
    requires |k| == 4
    ensures Tabl1Placement(k) == Some(Placement(Province, Get(Tables.Nuts2ToGeo, k)))
  {
  }

  lemma MasovianWholePlaced()
    ensures Tabl1Placement("PL9") == Some(Placement(MasovianWhole, Some("mazowieckie")))
  {
  }

  /** A "Tabl.1" row of a statistical-region code with a rate gives a record
      drawn under the name the region table gives that code. */
  lemma RegionRowOnMap(src: Catalog.SourceFile, f: Frame, i: nat, parseNum: string -> Option<int>)
    requires i < Height(f) && Width(f) >= 7
    requires Field(f.rows[i], 0) in Tables.Nuts2ToGeo
    requires Numeric(CellOf(f.rows[i], 6), parseNum).Some?
    ensures Tabl1Row(src, f, i, parseNum).Emit?
    ensures Tabl1Row(src, f, i, parseNum).record.geo == Some(Tables.Nuts2ToGeo[Field(f.rows[i], 0)])
  {
    var code := Field(f.rows[i], 0);
    Tables.Nuts2Keys();
    assert Text.StartsWith(code, "PL") by {
      assert code[..2] == "PL";
    }
    RegionCodeOnMap(code);
  }

  /** A name with none of the three prefixes and no surrounding blanks is
      kept as it is. */
  predicate PlainName(x: string) {
    && !Text.Contains(x, "REGION: ") && !Text.Contains(x, "PODREGION: ") && !Text.Contains(x, "MAKROREGION ")
    && Text.Strip(x) == x
  }

  lemma PlainNameKept(x: string)
    requires PlainName(x)
    ensures CleanRegionName(x) == x
  {
  }

  /** "REGION: " in front of a name is removed. */
  lemma RegionPrefixDropped(x: string)
    requires PlainName(x)
    ensures CleanRegionName("REGION: " + x) == x
  {
    Text.RemoveAllPrefix("REGION: ", x);
  }

  /** "PODREGION: " in front of a name loses only its "REGION: " part, because
      that replacement runs first: the name keeps "POD" glued to its front. */
  lemma SubregionPrefixMangled(x: string)
    ensures CleanRegionName("PODREGION: " + x) == CleanRegionName("POD" + x)
  {
    var pat := "REGION: ";
    assert "PODREGION: " + x == [ 'P' ] + ([ 'O' ] + ([ 'D' ] + (pat + x)));
    assert "POD" + x == [ 'P' ] + ([ 'O' ] + ([ 'D' ] + x));
    Text.RemoveAllCons('P', [ 'O' ] + ([ 'D' ] + (pat + x)), pat);
    Text.RemoveAllCons('O', [ 'D' ] + (pat + x), pat);
    Text.RemoveAllCons('D', pat + x, pat);
    Text.RemoveAllPrefix(pat, x);
    Text.RemoveAllCons('P', [ 'O' ] + ([ 'D' ] + x), pat);
    Text.RemoveAllCons('O', [ 'D' ] + x, pat);
    Text.RemoveAllCons('D', x, pat);
  }

  /** So "PODREGION: RADOMSKI" is named "PODRADOMSKI", not "RADOMSKI". */
  lemma SubregionNamed(x: string)
    requires PlainName("POD" + x)
    ensures CleanRegionName("PODREGION: " + x) == "POD" + x
  {
    SubregionPrefixMangled(x);
    PlainNameKept("POD" + x);
  }

  /** A row of a Masovian unit with a rate gives a record, drawn under the map
      name its district name finds. */
  lemma MasovianRowEmits(src: Catalog.SourceFile, f: Frame, i: nat, parseNum: string -> Option<int>)
    requires i < Height(f) && Width(f) >= 5
    requires Field(f.rows[i], 0) == MasovianCode
    requires Numeric(CellOf(f.rows[i], 4), parseNum).Some?
    ensures Tabl1aRow(src, f, i, parseNum).Emit?
    ensures Tabl1aRow(src, f, i, parseNum).record.geo == DistrictGeo(DistrictName(f.rows[i]))
  {
  }

  /** A district key, as written in the table or in capitals, and with the
      cell's surrounding blanks, is read back as that key. */
  lemma KeyReadBack(row: seq<Cell>, k: string)
    requires Tables.IsDistrictKey(k)
    requires CellOf(row, 2) == TextCell(k) || CellOf(row, 2) == TextCell(Text.Upper(k))
    ensures DistrictName(row) == k
  {
    assert Text.Strip(k) == k;
    if CellOf(row, 2) == TextCell(Text.Upper(k)) {
      Text.UpperKeepsStripped(k);
      Text.LowerOfUpper(k);
    }
  }

  /** A Masovian district row whose name is a key of the district table, as
      written there or in capitals, is drawn under the table's name. */
  lemma DistrictsOnMap(src: Catalog.SourceFile, f: Frame, i: nat, parseNum: string -> Option<int>, k: string)
    requires i < Height(f) && Width(f) >= 5
    requires Field(f.rows[i], 0) == MasovianCode
    requires Numeric(CellOf(f.rows[i], 4), parseNum).Some?
    requires k in Tables.GusToGeo
    requires CellOf(f.rows[i], 2) == TextCell(k) || CellOf(f.rows[i], 2) == TextCell(Text.Upper(k))
    ensures Tabl1aRow(src, f, i, parseNum).Emit?
    ensures Tabl1aRow(src, f, i, parseNum).record.geo == Some(Tables.GusToGeo[k])
  {
    Tables.GusKeysNormal();
    KeyReadBack(f.rows[i], k);
    MasovianRowEmits(src, f, i, parseNum);
  }

  /** A Masovian district missing from the district table still gives its
      record, with no map name. */
  lemma UnmappedDistrictKept(src: Catalog.SourceFile, f: Frame, i: nat, parseNum: string -> Option<int>)
    requires i < Height(f) && Width(f) >= 5
    requires Field(f.rows[i], 0) == MasovianCode
    requires Numeric(CellOf(f.rows[i], 4), parseNum).Some?
    requires DistrictName(f.rows[i]) !in Tables.GusToGeo
    ensures Tabl1aRow(src, f, i, parseNum).Emit?
    ensures Tabl1aRow(src, f, i, parseNum).record.geo == None
  {
    MasovianRowEmits(src, f, i, parseNum);
  }

  /** No raise among the first `i` outcomes. */
  predicate NoRaiseBefore(outs: seq<RowOutcome>, i: nat) {
    forall j :: 0 <= j < i && j < |outs| ==> !outs[j].Raise?
  }

  /** The records of a run are exactly the records emitted before the first
      raise. */
  lemma {:induction false} RunMembers(outs: seq<RowOutcome>, x: RateRecord)
    ensures x in Run(outs).records <==>
      exists i :: 0 <= i < |outs| && outs[i] == Emit(x) && NoRaiseBefore(outs, i)
    decreases |outs|
  {
    if outs != [] {
      var tail := outs[1..];
      RunMembers(tail, x);
      if exists i :: 0 <= i < |outs| && outs[i] == Emit(x) && NoRaiseBefore(outs, i) {
        var i :| 0 <= i < |outs| && outs[i] == Emit(x) && NoRaiseBefore(outs, i);
        if i > 0 {
          assert !outs[0].Raise?;
          assert tail[i - 1] == outs[i];
          assert NoRaiseBefore(tail, i - 1) by {
            forall j | 0 <= j < i - 1 ensures !tail[j].Raise? {
              assert tail[j] == outs[j + 1];
            }
          }
        }
      }
      if x in Run(tail).records && !outs[0].Raise? {
        var i :| 0 <= i < |tail| && tail[i] == Emit(x) && NoRaiseBefore(tail, i);
        assert outs[i + 1] == tail[i];
        assert NoRaiseBefore(outs, i + 1) by {
          forall j | 0 <= j < i + 1 ensures !outs[j].Raise? {
            if j > 0 {
              assert outs[j] == tail[j - 1];
            }
          }
        }
      }
    }
  }

  /** Reading rows in two stretches is reading them in one: the second
      stretch is read only when the first did not raise. */
  lemma {:induction false} RunAppend(a: seq<RowOutcome>, b: seq<RowOutcome>)
    ensures Run(a + b) == if Run(a).raised then Run(a) else Scan(Run(a).records + Run(b).records, Run(b).raised)
    decreases |a|
  {
    if a == [] {
      assert a + b == b;
    } else {
      assert (a + b)[0] == a[0];
      assert (a + b)[1..] == a[1..] + b;
      RunAppend(a[1..], b);
      if a[0].Emit? {
        var ra := Run(a[1..]);
        if !ra.raised {
          assert [a[0].record] + (ra.records + Run(b).records) == ([a[0].record] + ra.records) + Run(b).records;
        }
      }
    }
  }

  /** Every record of "Tabl.1" is a province or a Masovian unit of this
      file's period, never a district. */
  lemma Tabl1Records(src: Catalog.SourceFile, f: Frame, parseNum: string -> Option<int>, x: RateRecord)
    requires x in Run(Tabl1Outcomes(src, f, parseNum)).records
    ensures x.kind != District && x.kind != MasovianRegion && x.sortKey == src.sortKey
    ensures Text.StartsWith(x.code, "PL")
    ensures Tabl1Placement(x.code) == Some(Placement(x.kind, x.geo))
  {
    var outs := Tabl1Outcomes(src, f, parseNum);
    RunMembers(outs, x);
    var i :| 0 <= i < |outs| && outs[i] == Emit(x) && NoRaiseBefore(outs, i);
    assert outs[i] == Tabl1Row(src, f, i, parseNum);
  }

  /** Every record of "Tabl.1a" is the province or one of its districts, with
      a code starting "14". */
  lemma Tabl1aRecords(src: Catalog.SourceFile, f: Frame, parseNum: string -> Option<int>, x: RateRecord)
    requires x in Run(Tabl1aOutcomes(src, f, parseNum)).records
    ensures (x.kind == Province || x.kind == District) && x.sortKey == src.sortKey
    ensures Text.StartsWith(x.code, MasovianCode)
    ensures exists i ::
      && 0 <= i < Height(f) && Field(f.rows[i], 0) == MasovianCode
      && x.code == MasovianCode + Field(f.rows[i], 1)
      && Some(x.rate) == Numeric(CellOf(f.rows[i], 4), parseNum)
  {
    var outs := Tabl1aOutcomes(src, f, parseNum);
    RunMembers(outs, x);
    var i :| 0 <= i < |outs| && outs[i] == Emit(x) && NoRaiseBefore(outs, i);
    assert outs[i] == Tabl1aRow(src, f, i, parseNum);
    assert (MasovianCode + Field(f.rows[i], 1))[..2] == MasovianCode;
  }

  /** A raise while reading "Tabl.1" costs the file all of its districts:
      "Tabl.1a" is never read. */
  lemma FirstSheetRaiseDropsDistricts(src: Catalog.SourceFile, wb: Workbook, parseNum: string -> Option<int>)
    requires FirstSheet(src, wb, parseNum).raised
    ensures forall x :: x in WorkbookRates(src, wb, parseNum) ==> x.kind != District
  {
    forall x | x in WorkbookRates(src, wb, parseNum) ensures x.kind != District {
      var sheet := SheetNamed(wb, Tabl1).value;
      if sheet.frame.Some? {
        Tabl1Records(src, sheet.frame.value, parseNum, x);
      }
    }
  }

  /** Every record of a workbook carries the file's period. */
  lemma WorkbookKeys(src: Catalog.SourceFile, wb: Workbook, parseNum: string -> Option<int>)
    ensures forall x :: x in WorkbookRates(src, wb, parseNum) ==> x.sortKey == src.sortKey
  {
    forall x | x in WorkbookRates(src, wb, parseNum) ensures x.sortKey == src.sortKey {
      var first := FirstSheet(src, wb, parseNum);
      if x in first.records {
        var sheet := SheetNamed(wb, Tabl1).value;
        Tabl1Records(src, sheet.frame.value, parseNum, x);
      } else {
        var sheet := SheetNamed(wb, Tabl1a).value;
        Tabl1aRecords(src, sheet.frame.value, parseNum, x);
      }
    }
  }

  /** The workbook has a parsed sheet called `name`. */
  predicate HasFrame(wb: Workbook, name: string) {
    SheetNamed(wb, name).Some? && SheetNamed(wb, name).value.frame.Some?
  }

  /** Row `i` of "Tabl.1" emits `x` and no row before it raises. */
  predicate Tabl1Emits(src: Catalog.SourceFile, wb: Workbook, parseNum: string -> Option<int>, x: RateRecord) {
    HasFrame(wb, Tabl1) &&
    var outs := Tabl1Outcomes(src, SheetNamed(wb, Tabl1).value.frame.value, parseNum);
    exists i :: 0 <= i < |outs| && outs[i] == Emit(x) && NoRaiseBefore(outs, i)
  }

  /** Row `i` of "Tabl.1a" emits `x` and no row before it raises. */
  predicate Tabl1aEmits(src: Catalog.SourceFile, wb: Workbook, parseNum: string -> Option<int>, x: RateRecord) {
    HasFrame(wb, Tabl1a) &&
    var outs := Tabl1aOutcomes(src, SheetNamed(wb, Tabl1a).value.frame.value, parseNum);
    exists i :: 0 <= i < |outs| && outs[i] == Emit(x) && NoRaiseBefore(outs, i)
  }

  /** Reading "Tabl.1" raises: the sheet is there but does not parse, or one
      of its rows raises. */
  predicate Tabl1Raises(src: Catalog.SourceFile, wb: Workbook, parseNum: string -> Option<int>) {
    SheetNamed(wb, Tabl1).Some? &&
    (SheetNamed(wb, Tabl1).value.frame.None? ||
     var outs := Tabl1Outcomes(src, SheetNamed(wb, Tabl1).value.frame.value, parseNum);
     exists i :: 0 <= i < |outs| && outs[i].Raise?)
  }

  /** A workbook gives exactly the records of the "Tabl.1" rows read before
      the first raise, and, when "Tabl.1" did not raise, those of the
      "Tabl.1a" rows read before the first raise there. */
  lemma WorkbookMembers(src: Catalog.SourceFile, wb: Workbook, parseNum: string -> Option<int>, x: RateRecord)
    ensures x in WorkbookRates(src, wb, parseNum) <==>
      Tabl1Emits(src, wb, parseNum, x) || (!Tabl1Raises(src, wb, parseNum) && Tabl1aEmits(src, wb, parseNum, x))
  {
    FirstSheetMembers(src, wb, parseNum, x);
    SecondSheetMembers(src, wb, parseNum, x);
  }

  lemma FirstSheetMembers(src: Catalog.SourceFile, wb: Workbook, parseNum: string -> Option<int>, x: RateRecord)
    ensures FirstSheet(src, wb, parseNum).raised <==> Tabl1Raises(src, wb, parseNum)
    ensures x in FirstSheet(src, wb, parseNum).records <==> Tabl1Emits(src, wb, parseNum, x)
  {
    if HasFrame(wb, Tabl1) {
      var f := SheetNamed(wb, Tabl1).value.frame.value;
      var outs := Tabl1Outcomes(src, f, parseNum);
      assert FirstSheet(src, wb, parseNum) == Run(outs);
      RunMembers(outs, x);
    }
  }

  lemma SecondSheetMembers(src: Catalog.SourceFile, wb: Workbook, parseNum: string -> Option<int>, x: RateRecord)
    ensures x in SecondSheet(src, wb, parseNum).records <==> Tabl1aEmits(src, wb, parseNum, x)
  {
    if HasFrame(wb, Tabl1a) {
      var f := SheetNamed(wb, Tabl1a).value.frame.value;
      var outs := Tabl1aOutcomes(src, f, parseNum);
      assert SecondSheet(src, wb, parseNum) == Run(outs);
      RunMembers(outs, x);
    }
  }

  /** A record is loaded exactly when some catalogued file opens and its
      workbook gives that record: a "Tabl.1" row read before any raise, or a
      "Tabl.1a" row read before any raise when "Tabl.1" did not raise. */
  lemma LoadRatesMembers(files: seq<Catalog.SourceFile>, fs: string -> Option<Workbook>,
                         parseNum: string -> Option<int>, x: RateRecord)
    ensures x in LoadRates(files, fs, parseNum) <==>
      exists i :: 0 <= i < |files| && fs(files[i].path).Some?
        && x in WorkbookRates(files[i], fs(files[i].path).value, parseNum)
    ensures x in LoadRates(files, fs, parseNum) <==>
      exists i :: 0 <= i < |files| && fs(files[i].path).Some?
        && (|| Tabl1Emits(files[i], fs(files[i].path).value, parseNum, x)
            || (&& !Tabl1Raises(files[i], fs(files[i].path).value, parseNum)
                && Tabl1aEmits(files[i], fs(files[i].path).value, parseNum, x)))
  {
    Seqs.FlatMapMembers(files, src => FileRates(src, fs, parseNum), x);
    forall i | 0 <= i < |files| && fs(files[i].path).Some? {
      WorkbookMembers(files[i], fs(files[i].path).value, parseNum, x);
    }
  }

  /** Files taken in catalogue order give records already in sort-key order. */
  lemma LoadRatesOrdered(files: seq<Catalog.SourceFile>, fs: string -> Option<Workbook>,
                         parseNum: string -> Option<int>)
    requires Sorting.SortedBy(files, Catalog.SortKey)
    ensures Sorting.SortedBy(LoadRates(files, fs, parseNum), RateKey)
  {
    forall i, y | 0 <= i < |files| && y in FileRates(files[i], fs, parseNum)
      ensures RateKey(y) == Catalog.SortKey(files[i])
    {
      WorkbookKeys(files[i], fs(files[i].path).value, parseNum);
    }
    Seqs.FlatMapOrdered(files, src => FileRates(src, fs, parseNum), Catalog.SortKey, RateKey);
  }
}
