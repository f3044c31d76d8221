# Labour-market dashboard core, modelled in Dafny

The dashboard (`wup_auto_app.py`) reads three kinds of monthly spreadsheet
reports for the Masovian voivodeship and turns them into tables:

- group-layoff notifications;
- registered-unemployment stock (MRPiPS-01);
- unemployment rates from the statistical office.

Each report is one file per month. The month comes from the file name.

This project models the pure core of that pipeline. It proves what the code
guarantees about it.

- **Period resolver** (`period.dfy`, module `PeriodResolver`) models
  `parsuj_nazwe`.
  - It tries four stem grammars in order: year first, month first, Roman
    numeral, Polish month name.
  - It includes the stem computation of `znajdz_pliki`
    (`os.path.basename` plus `os.path.splitext`).
- **Catalog** (`catalog.dfy`, module `Catalog`) models what `znajdz_pliki`
  does after the directory listing:
  - it removes duplicate paths ignoring letter case, keeping the first seen;
  - it resolves each stem to a period and range-checks it;
  - it builds the display label `MIESIAC_PL[m] + " " + year` and the key
    `year*100 + month`;
  - it sorts stably by that key (module `Sorting`, an insertion sort proved
    ordered, permuting and stable).
- **Industry codes** (`pkd.dfy`, module `Pkd`) models `normalizuj_pkd` and
  the description lookup, which falls back to the code.
- **Layoffs** (`layoffs.dfy`) models `wczytaj_zwolnienia`:
  - the data rows from row 7 on;
  - the district-cell filter with its four sentinel words;
  - the employer, code, counts and liquidation flag of each record.
- **Stock** (`stock.dfy`) models `klasyfikuj_jednostke` and
  `wczytaj_bezrobocie`:
  - the sheet filter and the unit name;
  - the "Ogółem" anchor row, which defaults to row 15;
  - the labelled-row search for the nine categories;
  - the record, which is dropped when the stock is not numeric.
- **Rates** (`rates.dfy`) models `wczytaj_stopa_bezrobocia`:
  - the "Tabl.1" dispatch on the unit code;
  - the cleaning of region names;
  - the Masovian district rows of "Tabl.1a";
  - the lookups into the two boundary-name tables;
  - the effect of an exception: it ends the file, but the records already
    taken are kept.
- **Supporting modules:**
  - `Tables` holds the static tables;
  - `Text` holds the Python string operations used, with `str.isspace`,
    `lower`/`upper` for ASCII and Polish letters, `strip`, `in`, `replace`
    and `re.sub` written out;
  - `Sheets` holds a spreadsheet as rows of cells, with `str()` of a cell
    and pandas' `iloc` bounds;
  - `Seqs` holds the two loop shapes the loaders share;
  - `Wrappers` holds `Option`.

**Inputs the model takes as parameters:**
- The directory listing is the input `paths`.
- Opening a workbook is a function `fs: path -> Option<Workbook>`; `None`
  means the open failed.
- `pd.to_numeric(..., errors="coerce")` on text is a function
  `parseNum: string -> Option<int>`.
- Numbers are integers.

**Two places where the code does other than it appears to intend; the model
follows the code:**
- Layoff counts that are empty or not numeric stay absent. `x or 0` on
  lines 614-617 does not replace them with 0, because NaN is truthy.
- The file naming `Pow_MM_YYYY` that the rate loader's docstring gives
  (line 468) is rejected by the period parser. Such files are never
  catalogued (`PeriodResolver.MixedStemRejected`).

## Model

| member | source | states |
|---|---|---|
| PeriodResolver.ParseYearFirst | wup_auto_app.py:371-372 | `YYYY<sep>M` and `YYYY<sep>MM` with sep in `-_.` parse to (YYYY, M) for every digit string, with no range check |
| PeriodResolver.ParseMonthFirst | wup_auto_app.py:373-374 | `M<sep>YYYY` and `MM<sep>YYYY` parse to (YYYY, M), with no range check |
| PeriodResolver.ParseWordFirst | wup_auto_app.py:375-381 | a digit-free word before `<sep>YYYY` is read as a numeral exactly when its upper-case form is a `ROMAN` key; otherwise as a month exactly when its lower-case form is a `PL_NAMES` key; otherwise the stem is rejected |
| PeriodResolver.MonthNameParses | wup_auto_app.py:378-380 | every `PL_NAMES` key, with or without diacritics, followed by `<sep>YYYY` gives that month of that year; no name is mistaken for a numeral |
| PeriodResolver.UnknownNumeralRejected | wup_auto_app.py:375-381 | a word made only of numeral letters that is not one of the twelve numerals (e.g. "XIII") gives no period, since it is no month name either |
| PeriodResolver.ParseStemShapes | wup_auto_app.py:370-381 | a stem gives a period only in one of the four shapes: year first, month first, or a digit-free word before `<sep>YYYY` that is a `ROMAN` or `PL_NAMES` key; stems without separator or year give none |
| PeriodResolver.MixedStemRejected | wup_auto_app.py:370-381 | a stem that starts with a non-digit and has a digit before its `<sep>YYYY` part matches none of the four patterns (e.g. "Pow_01_2026") |
| PeriodResolver.ParseIgnoresFinalNewline | wup_auto_app.py:371-379 | `$` also matches before one final newline, so a stem and the same stem plus "\n" parse alike |
| PeriodResolver.ParseBounds | wup_auto_app.py:370-381 | parsed years are below 10000 and months below 100; only the two numeric forms can yield a month outside 1..12 |
| PeriodResolver.RomanKeysHaveShape | wup_auto_app.py:318-319 | every `ROMAN` key fits the numeral pattern `X{0,3}(IX\|IV\|V?I{0,3})`, so the pattern never hides a table entry |
| PeriodResolver.StemDropsExtension | wup_auto_app.py:572 | the stem of `<dir>/<name>.<ext>` is `name` when `name` is not all dots and `ext` has no dot |
| PeriodResolver.BaseName | wup_auto_app.py:572 | the base name is a suffix of the path and holds no '/' |
| PeriodResolver.StemOf | wup_auto_app.py:572 | the stem is a prefix of the file name |
| PeriodResolver.Example2025Dash13 | wup_auto_app.py:371-372 | "2025-13" parses to month 13: the parser itself does no range check |
| PeriodResolver.Example00Dash2025 | wup_auto_app.py:373-374 | "00-2025" parses to month 0 |
| PeriodResolver.ExampleXii2024 | wup_auto_app.py:375-377 | "xii.2024" parses to December 2024 (numerals in any case) |
| Catalog.EntryFor | wup_auto_app.py:571-581 | a path gives an entry exactly when its stem parses to a period with month 1..12 and year 2000..2100; the entry carries that parsed period, the path, the key year*100+month and the label month name plus year |
| Catalog.YearFirstFileEntry | wup_auto_app.py:571-581 | a file `<dir>/YYYY<sep>MM.<ext>` with an in-range period is catalogued under that year and month |
| Catalog.KeepFirstSeen | wup_auto_app.py:565-570 | the kept paths are pairwise distinct ignoring case, and each was listed and not already seen |
| Catalog.KeepFirstSeenExactly | wup_auto_app.py:565-570 | a path is kept exactly when it is the first listed path of its lower-cased form |
| Catalog.Resolve | wup_auto_app.py:571-581 | an entry is resolved exactly when its path was given and the path's stem yields that entry |
| Catalog.FindFiles | wup_auto_app.py:558-582 | every catalog entry is well formed, entries are in chronological order, and no two share a path ignoring case |
| Catalog.CatalogMembers | wup_auto_app.py:565-582 | an entry is in the catalog exactly when it is built from a path that is the first of its case-folded form and names an in-range period |
| Catalog.SamePeriodBothKept | wup_auto_app.py:565-582 | two differently named files of the same month both stay in the catalog as different entries |
| Catalog.CatalogKeepsListingOrder | wup_auto_app.py:582 | entries of the same period keep their listing order (the sort is stable) |
| Catalog.SortKeyEncodesPeriod | wup_auto_app.py:580 | `year*100+month` orders periods chronologically, is one-to-one, and gives back year and month by `/ 100` and `% 100` |
| Catalog.LabelIdentifiesPeriod | wup_auto_app.py:579 | two entries with the same label name the same period |
| Sorting.SortBy | wup_auto_app.py:582 | the sorted sequence is ordered by key and is a permutation of the input |
| Sorting.SortStable | wup_auto_app.py:582 | for every key, the elements with that key keep their input order |
| Sorting.SortKeepsDistinct | wup_auto_app.py:582 | sorting introduces no two elements with the same tag |
| Pkd.Normalize | wup_auto_app.py:365-367 | the normal form has no dot and no whitespace, is upper case, and is no longer than the input |
| Pkd.Idempotent | wup_auto_app.py:365-367 | normalising twice is normalising once |
| Pkd.NormalFormIsFixed | wup_auto_app.py:365-367 | an upper-case code with no dot or blank is its own normal form |
| Pkd.IgnoresDotsAndBlanks | wup_auto_app.py:367 | deleting one dot or whitespace character anywhere in a code does not change its normal form |
| Pkd.IgnoresCase | wup_auto_app.py:367 | a code and its lower-case spelling have the same normal form |
| Pkd.NormalizeDrops | wup_auto_app.py:367 | the initial `strip()` is redundant: the normal form is the upper-cased input without dots and blanks |
| Pkd.DottedKeyUnreachable | wup_auto_app.py:352 | no input normalises to the table key "2222.Z", so that entry is never used |
| Pkd.KeysAreNormal | wup_auto_app.py:326-363 | every other key of `PKD_OPISY` is its own normal form, so any spelling that normalises to it finds its description |
| Layoffs.LayoffRow | wup_auto_app.py:597-619 | a row gives a record exactly when its district cell (column 1) is text whose stripped form has two or more characters and which contains none of "powiat", "suma", "ogółem", "razem" in any case; the record carries the file's period, the stripped district cell, the employer of column 3, the normalised code of column 5 with its description, the counts of columns 6, 8, 10 and 11 as coerced, and the liquidation flag of column 9 |
| Layoffs.FrameLayoffsMembers | wup_auto_app.py:596-619 | a record comes from the sheet exactly when some row from index 7 on gives it |
| Layoffs.Employer | wup_auto_app.py:606 | the employer name has at most 70 characters, starts with no blank and has no two adjacent blanks |
| Layoffs.EmployerKeepsText | wup_auto_app.py:606 | collapsing blank runs loses no visible character when the result fits in 70 characters |
| Layoffs.ClosureNeedsText | wup_auto_app.py:618 | a blank cell, an empty string or the number 0 in column 9 means "no liquidation" |
| Layoffs.DescriptionFallsBack | wup_auto_app.py:607-613 | the description is the table's entry for the normalised code, or the code itself when the table has none; the stored code is normalised |
| Layoffs.CountsKeepMissing | wup_auto_app.py:614-617 | each of the four counts (columns 6, 8, 10, 11) is absent for an empty cell rather than 0, the number itself (zero included) for a numeric cell, and the coerced value for text |
| Layoffs.SumRowSkipped | wup_auto_app.py:601 | a "SUMA" totals row gives no record |
| Layoffs.DistrictHeadingSkipped | wup_auto_app.py:601 | a "Powiat warszawski" heading gives no record |
| Layoffs.LayoffSheet | wup_auto_app.py:592-595 | the "dane" sheet is read when it exists and parses; otherwise the first sheet is read; the read fails only when the workbook has no sheet or that first sheet fails to parse |
| Layoffs.FileLayoffs | wup_auto_app.py:590-621 | every record of a file carries that file's sort key |
| Layoffs.LoadFollowsCatalog | wup_auto_app.py:588-627 | files taken in catalog order give records in sort-key order |
| Layoffs.LoadLayoffsMembers | wup_auto_app.py:588-621 | a record is loaded exactly when some catalogued file opens, a sheet of it is read, and that sheet's rows give the record |
| Stock.ProvinceOnlyByName | wup_auto_app.py:633-634 | a sheet is classed as the province exactly when it is named "WOJEWÓDZTWO OGÓŁEM" |
| Stock.ClassifyIgnoresCase | wup_auto_app.py:635 | the header's letter case does not affect the level |
| Stock.SubregionHeader | wup_auto_app.py:636-639 | a header containing "PODREGION" makes a subregion, never a region |
| Stock.RegionHeader | wup_auto_app.py:636-637 | off the province sheet, a header containing "REGION" but not "PODREGION" (after upper-casing) gives a region, whatever the sheet name, "R." sheets included |
| Stock.MacroregionHeader | wup_auto_app.py:636-637 | a "MAKROREGION" header counts as a region, since it contains "REGION" |
| Stock.PlainHeader | wup_auto_app.py:636-640 | without "REGION" in the header, the level is subregion when the sheet name starts with "R.", "podregion" or "warszawski" (the last two in any case) and district otherwise |
| Stock.RegionLabelShape | wup_auto_app.py:663-665 | the unit name is the stripped top-left cell when that is usable (not "nan", not empty, not "za miesiąc …"), and the sheet name otherwise |
| Stock.MonthHeadingUsesSheet | wup_auto_app.py:663-665 | a top-left cell whose stripped text starts with "za miesiąc" gives the sheet name |
| Stock.BlankHeaderUsesSheet | wup_auto_app.py:663-665 | an empty top-left cell gives the sheet name |
| Stock.RegionNeverPlaceholder | wup_auto_app.py:663-665 | the unit name is "nan" or empty only when the sheet itself is named so |
| Stock.TotalRow | wup_auto_app.py:668-674 | the anchor is the first row in [10, min(25, rows)) whose first cell mentions "Ogółem", and row 15 when there is none |
| Stock.TotalRowIsFirst | wup_auto_app.py:669-672 | any first "Ogółem" row in that range is the anchor |
| Stock.FindLabel | wup_auto_app.py:682-687 | the search finds the first row in [15, min(50, rows)) with the text in one of its first five cells, ignoring case, or reports none exactly when no such row exists |
| Stock.Probe | wup_auto_app.py:676-680 | a value is read only inside the sheet; inside it a number is read as it is, text is coerced through `pd.to_numeric` (the `parseNum` parameter) and an empty cell is absent |
| Stock.CategoryCount | wup_auto_app.py:682-704 | a category's count is column 12 of the first row in the search range labelled with that category's text, and absent when no row carries the label |
| Stock.Breakdown | wup_auto_app.py:693-728 | all nine categories are present, each with its own count |
| Stock.SheetRecord | wup_auto_app.py:655-729 | a sheet gives a record only if it is readable (not skipped, parsed, 20+ rows); a readable sheet gives one exactly when column 12 of the anchor row is numeric; the record carries the file's period, the sheet name, the stripped unit name, the level `klasyfikuj_jednostke` gives for sheet and unit name, columns 12, 13, 8 and 14 of the anchor row and the category breakdown |
| Stock.SheetFilter | wup_auto_app.py:656-661 | "dbf" and "Arkusz2", unparsable sheets and sheets shorter than 20 rows give no record |
| Stock.NumericTotalGivesRecord | wup_auto_app.py:689-729 | a readable sheet whose column-12 cell in the anchor row is a number, or text that coerces to one, gives a record with that stock |
| Stock.RecordProvinceByName | wup_auto_app.py:706 | a record is at province level exactly when it comes from the sheet "WOJEWÓDZTWO OGÓŁEM" |
| Stock.CategoriesComplete | wup_auto_app.py:693-728 | every record lists every category; a category whose label is missing from rows 15-49 is absent, not zero |
| Stock.FileStock | wup_auto_app.py:652-733 | every record of a file carries that file's sort key |
| Stock.LoadStockMembers | wup_auto_app.py:652-733 | a record is loaded exactly when some catalogued file opens and one of its sheets gives it |
| Stock.LoadStockOrdered | wup_auto_app.py:735-739 | files in catalog order already give sort-key order, so `sort_values` only reorders records of one month |
| Rates.RegionBranchDead | wup_auto_app.py:493-503 | no "Tabl.1" code is classed as a Masovian region, because every four-character code is taken as a province first |
| Rates.PlacementByShape | wup_auto_app.py:493-508 | the dispatch by code shape: four characters is a province drawn under its `NUTS2_DO_GEO` name, "PL9" the Masovian whole drawn as "mazowieckie", longer "PL9…" codes subregions with no map name; two-character and other codes are skipped |
| Rates.RegionCodesOnMap | wup_auto_app.py:432-451 | every code of `NUTS2_DO_GEO` is placed by the dispatch and drawn under that table's name for it |
| Rates.Tabl1Row | wup_auto_app.py:484-521 | a "Tabl.1" row raises exactly when the sheet has no columns, or its code starts with "PL" and the sheet is narrower than 7 columns; it gives a record exactly when the sheet is that wide, the code starts with "PL", column 6 is numeric and the dispatch places the code; the record has the code's kind and map name from the dispatch, the cleaned name of column 4, the rate of column 6, the count of column 5 and the file's period |
| Rates.RegionRowOnMap | wup_auto_app.py:493-495 | a "Tabl.1" row of any `NUTS2_DO_GEO` code with a numeric rate gives a record drawn under that table's name |
| Rates.Tabl1aRow | wup_auto_app.py:527-546 | a "Tabl.1a" row raises exactly when the sheet has no columns, or column 0 is "14" and the sheet is narrower than 5 columns; it gives a record exactly when the sheet is that wide, column 0 is "14" and column 4 is numeric; the record has code "14"+column 1, is the province exactly when column 1 is "00" and a district otherwise, and carries the looked-up name, its `GUS_DO_GEO` entry, the rate of column 4 and the count of column 3 |
| Rates.RegionPrefixDropped | wup_auto_app.py:509-512 | "REGION: " in front of a plain name is removed |
| Rates.SubregionPrefixMangled | wup_auto_app.py:509-512 | "PODREGION: x" is cleaned like "PODx": the "REGION: " replacement runs first and leaves "POD" |
| Rates.SubregionNamed | wup_auto_app.py:509-512 | "PODREGION: x" becomes "PODx" whenever "PODx" has no prefix left and no surrounding blanks, e.g. "PODREGION: RADOMSKI" gives "PODRADOMSKI" |
| Rates.PlainNameKept | wup_auto_app.py:509-512 | a name with none of the three prefixes and no surrounding blanks is kept as it is |
| Rates.CleanRegionName | wup_auto_app.py:509-512 | the cleaned name is no longer than the cell text and has no blank at either end |
| Rates.DistrictsOnMap | wup_auto_app.py:531-537 | a Masovian district row with a numeric rate whose name is a `GUS_DO_GEO` key, as written or in capitals, gives a record drawn under the table's name |
| Rates.UnmappedDistrictKept | wup_auto_app.py:537-546 | a Masovian district row with a numeric rate whose name is missing from the table still gives its record, with no map name |
| Rates.Run | wup_auto_app.py:477-548 | reading rows in order raises exactly when some row raises, and takes at most one record per row |
| Rates.RunMembers | wup_auto_app.py:477-548 | the records of a sheet are exactly those emitted before the first raise |
| Rates.RunAppend | wup_auto_app.py:477-548 | reading two stretches of rows is reading them in one; the second is read only when the first did not raise |
| Rates.Tabl1Records | wup_auto_app.py:481-521 | every "Tabl.1" record has a "PL" code and the file's key, is neither a district nor a Masovian region, and has the kind and map name the dispatch gives its code |
| Rates.Tabl1aRecords | wup_auto_app.py:524-546 | every "Tabl.1a" record is the province or a district, carries the file's key, and comes from a row whose column 0 is "14", with code "14"+column 1 and the rate of column 4 |
| Rates.FirstSheetRaiseDropsDistricts | wup_auto_app.py:477-548 | when reading "Tabl.1" raises, the file yields no district at all |
| Rates.WorkbookKeys | wup_auto_app.py:513-546 | every record of a workbook carries the file's sort key |
| Rates.LoadRatesOrdered | wup_auto_app.py:550-555 | files in catalog order give records already sorted by key |
| Rates.WorkbookMembers | wup_auto_app.py:477-548 | a workbook gives exactly the records of "Tabl.1" rows read before its first raise, plus, when "Tabl.1" did not raise, those of "Tabl.1a" rows read before their first raise |
| Rates.LoadRatesMembers | wup_auto_app.py:476-548 | a record is loaded exactly when some catalogued file opens and either a "Tabl.1" row gives it before any raise, or "Tabl.1" did not raise and a "Tabl.1a" row gives it before any raise there |
| Tables.MonthNamesDomain | wup_auto_app.py:314-317 | exactly the months 1..12 have a display name |
| Tables.MonthNamesDistinct | wup_auto_app.py:314-317 | different months have different display names |
| Tables.RomanTable | wup_auto_app.py:318-319 | every numeral is upper case and denotes a month 1..12 |
| Tables.PlNamesTable | wup_auto_app.py:320-325 | every month name is lower case and denotes a month 1..12 |
| Tables.GusKeysNormal | wup_auto_app.py:385-429 | every district key is lower case with no surrounding blanks, so a cell holding exactly a key finds it after `strip().lower()` |
| Tables.Nuts2Keys | wup_auto_app.py:432-451 | every region code starts with "PL" and has four characters, except the macro-region "PL9" |

## Left out

- Reading files is not modelled: directory listing, Excel parsing, caching
  (`st.cache_data`) and GeoJSON loading. They are the parameters `paths`,
  `fs` and a parsed sheet that is either present or absent.
- Floating point is not modelled. `pd.to_numeric` is the parameter
  `parseNum`, and numbers are integers. For a numeric cell, NaN (`np.isnan`)
  is modelled as an absent value.
- `str.title()` on names (lines 516, 541, 713) is not modelled, because
  Python's title-casing rules are not modelled. The stored name is the value
  before `title()`.
- Letter case is mapped only for ASCII and the nine Polish letters. Python
  maps every Unicode letter, and `re.IGNORECASE` also folds a few
  look-alikes; these are not modelled.
- `\d` and `int()` are modelled for ASCII digits only. Python also accepts
  other Unicode decimal digits.
- `os.path` is modelled for '/'-separated paths only, with no drive letters
  and no backslashes.
- Cell types: cells are blank, text or a number. Dates, booleans and other
  cell types are not modelled.
- The loaders' `pd.Categorical` on the period column (lines 553, 626, 738)
  is not modelled. It only changes how that column sorts in the UI.
- The loaders' final `sort_values("Sort_key")` (lines 554, 739) is not
  modelled. It is pandas' unstable quicksort. The model instead
  proves the records are already in key order
  (`Stock.LoadStockOrdered`, `Rates.LoadRatesOrdered`), so the sort only
  reorders records of the same month. That order is not specified.
- PeriodResolver.ParseStem: has no contract of its own. Its behaviour is
  stated by `ParseYearFirst`, `ParseMonthFirst`, `ParseWordFirst`,
  `ParseStemShapes`, `MixedStemRejected` and `ParseBounds`.
- Stock.Classify: has no contract of its own. Its behaviour is stated by
  `ProvinceOnlyByName`, `RegionHeader`, `SubregionHeader`,
  `MacroregionHeader`, `PlainHeader` and `ClassifyIgnoresCase`.
- Rates.Tabl1Placement: has no contract of its own. Its behaviour is stated
  by `PlacementByShape`, `RegionBranchDead` and `RegionCodesOnMap`.
- Layoffs.IsDistrictCell: a predicate. It is stated as the record condition
  of `LayoffRow` and by `SumRowSkipped` and `DistrictHeadingSkipped`.
- Rates.WorkbookRates: has no contract of its own. Its behaviour is stated
  by `WorkbookMembers`, `WorkbookKeys`, `FirstSheetRaiseDropsDistricts`
  and `LoadRatesMembers`.
- Layoffs.LoadLayoffs, Stock.LoadStock, Rates.LoadRates: have no contract of
  their own. Their behaviour is stated by `LoadLayoffsMembers`,
  `LoadStockMembers` and `LoadRatesMembers`, and by the three ordering
  lemmas.
- Stock.RegionLabel: has no contract of its own. Its behaviour is stated by
  `RegionLabelShape`, `MonthHeadingUsesSheet`, `BlankHeaderUsesSheet` and
  `RegionNeverPlaceholder`.
- Pkd.Describe: has no contract of its own. Its behaviour, the table entry
  or else the code itself, is stated in `Layoffs.DescriptionFallsBack`.
- Exceptions are modelled only where the code can raise on data it
  accepted:
  - a row read past the last column;
  - a sheet that fails to parse;
  - a file that fails to open.

  Other exceptions (memory, I/O in the middle of a read) are not modelled.
- The dashboard UI (everything from line 743 on) is not modelled: filters,
  charts and the export.
