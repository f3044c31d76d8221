/** Reading a reporting period (year, month) out of a file name
    (`parsuj_nazwe`, wup_auto_app.py:370-381, and the stem computation of
    `znajdz_pliki`, wup_auto_app.py:572).

    Four stem grammars are tried in order, the first match wins:
      1. `YYYY<sep>M` or `YYYY<sep>MM`           (year first)
      2. `M<sep>YYYY` or `MM<sep>YYYY`           (month first)
      3. `<Roman numeral><sep>YYYY`              (any letter case)
      4. `<Polish month name><sep>YYYY`          (any letter case)
    where `<sep>` is one of `-`, `_`, `.`. The numeric forms accept any digits:
    the month and year ranges are checked by the catalog, not here. */
module PeriodResolver {
  import opened Wrappers
  import Text
  import Tables

  datatype Period = Period(year: int, month: int)

  // ---------------------------------------------------------------------------
  // File stems

  /** `os.path.basename`: the text after the last '/'. */
  function BaseName(path: string): (r: string)
    ensures |r| <= |path| && path[|path| - |r|..] == r
    ensures '/' !in r
    decreases |path|
  {
    if path == [] || path[|path| - 1] == '/' then []
    else BaseName(path[..|path| - 1]) + [path[|path| - 1]]
  }

  /** Index of the last '.' in `s`, if any. */
  function LastDot(s: string): (r: Option<nat>)
    ensures r.None? ==> '.' !in s
    ensures r.Some? ==> r.value < |s| && s[r.value] == '.' && '.' !in s[r.value + 1..]
    decreases |s|
  {
    if s == [] then None
    else if s[|s| - 1] == '.' then Some(|s| - 1)
    else LastDot(s[..|s| - 1])
  }

  /** `os.path.splitext(name)[0]` for a name without '/': the text before the
      last '.', unless everything before that dot is dots too (".xlsx" and
      "..xlsx" have no extension). */
  function StemOf(name: string): (r: string)
    ensures |r| <= |name| && r == name[..|r|]
  {
    match LastDot(name)
    case None => name
    case Some(d) => if exists i :: 0 <= i < d && name[i] != '.' then name[..d] else name
  }

  /** The stem `znajdz_pliki` hands to the period parser. */
  function Stem(path: string): string {
    StemOf(BaseName(path))
  }

  // ---------------------------------------------------------------------------
  // The four grammars

  predicate IsSep(c: char) {
    c == '-' || c == '_' || c == '.'
  }

  /** Python's `$` also matches just before a final "\n": the part of the stem
      the patterns have to match completely. */
  function EndCore(s: string): string {
    if |s| > 0 && s[|s| - 1] == '\n' then s[..|s| - 1] else s
  }

  /** `^(\d{4})[-_.](\d{1,2})$` */
  function YearFirst(core: string): Option<Period> {
    if (|core| == 6 || |core| == 7) && Text.AllDigits(core[..4]) && IsSep(core[4])
       && Text.AllDigits(core[5..])
    then Some(Period(Text.DigitsValue(core[..4]), Text.DigitsValue(core[5..])))
    else None
  }

  /** `^(\d{1,2})[-_.](\d{4})$` */
  function MonthFirst(core: string): Option<Period> {
    if (|core| == 6 || |core| == 7) && Text.AllDigits(core[..|core| - 5])
       && IsSep(core[|core| - 5]) && Text.AllDigits(core[|core| - 4..])
    then Some(Period(Text.DigitsValue(core[|core| - 4..]), Text.DigitsValue(core[..|core| - 5])))
    else None
  }

  /** The stem ends in `<sep>YYYY`. */
  predicate YearSuffix(core: string) {
    |core| >= 5 && IsSep(core[|core| - 5]) && Text.AllDigits(core[|core| - 4..])
  }

  /** Number of leading copies of `c` in `s`. */
  function CountLeading(s: string, c: char): (n: nat)
    ensures n <= |s|
    decreases |s|
  {
    if s != [] && s[0] == c then 1 + CountLeading(s[1..], c) else 0
  }

  /** `(?:IX|IV|V?I{0,3})` on upper-case text. */
  predicate RomanTail(t: string) {
    || t == "IX" || t == "IV"
    || (var v := if |t| > 0 && t[0] == 'V' then 1 else 0;
        |t| - v <= 3 && forall i :: v <= i < |t| ==> t[i] == 'I')
  }

  /** `X{0,3}(?:IX|IV|V?I{0,3})` on upper-case text. No tail alternative starts
      with X, so the X's a match consumes are exactly the leading ones. */
  predicate RomanShape(u: string) {
    CountLeading(u, 'X') <= 3 && RomanTail(u[CountLeading(u, 'X')..])
  }

  /** `^(X{0,3}(?:IX|IV|V?I{0,3}))[-_.](\d{4})$` under IGNORECASE, then the
      upper-cased numeral must be a key of `ROMAN`. */
  function RomanFirst(core: string): Option<Period> {
    if YearSuffix(core) then
      var numeral := Text.Upper(core[..|core| - 5]);
      if RomanShape(numeral) && numeral in Tables.Roman
      then Some(Period(Text.DigitsValue(core[|core| - 4..]), Tables.Roman[numeral]))
      else None
    else None
  }

  /** A character of `[a-ząćęłńóśźż]` under IGNORECASE. */
  predicate IsNameLetter(c: char) {
    var l := Text.LowerChar(c);
    ('a' <= l <= 'z') || l in Text.LowerPolish
  }

  /** `^([a-ząćęłńóśźż]+)[-_.](\d{4})$` under IGNORECASE, then the lower-cased
      name must be a key of `PL_NAMES`. */
  function NameFirst(core: string): Option<Period> {
    if YearSuffix(core) then
      var name := core[..|core| - 5];
      if |name| >= 1 && (forall i :: 0 <= i < |name| ==> IsNameLetter(name[i]))
         && Text.Lower(name) in Tables.PlNames
      then Some(Period(Text.DigitsValue(core[|core| - 4..]), Tables.PlNames[Text.Lower(name)]))
      else None
    else None
  }

  /** `parsuj_nazwe`: the first grammar that matches decides. */
  function ParseStem(stem: string): Option<Period> {
    var core := EndCore(stem);
    if YearFirst(core).Some? then YearFirst(core)
    else if MonthFirst(core).Some? then MonthFirst(core)
    else if RomanFirst(core).Some? then RomanFirst(core)
    else NameFirst(core)
  }

  // ---------------------------------------------------------------------------
  // Lemmas

  /** Every key of `ROMAN` fits the numeral grammar, so the regular expression
      never rejects a numeral the table knows. */
  lemma RomanKeysHaveShape()
    ensures forall k :: k in Tables.Roman ==> RomanShape(k)
  {
    ShortRomanKeysHaveShape();
    LongRomanKeysHaveShape();
  }

  lemma ShortRomanKeysHaveShape()
    ensures forall k :: k in Tables.Roman && |k| <= 2 ==> RomanShape(k)
  {
  }

  lemma LongRomanKeysHaveShape()
    ensures forall k :: k in Tables.Roman && |k| > 2 ==> RomanShape(k)
  {
  }

  /** The year-first form: `YYYY<sep>M` and `YYYY<sep>MM` give (YYYY, M). */
  lemma ParseYearFirst(y: string, sep: char, m: string)
    requires |y| == 4 && Text.AllDigits(y) && IsSep(sep)
    requires 1 <= |m| <= 2 && Text.AllDigits(m)
    ensures ParseStem(y + [sep] + m) == Some(Period(Text.DigitsValue(y), Text.DigitsValue(m)))
  {
    var core := y + [sep] + m;
    assert EndCore(core) == core;
    assert core[..4] == y && core[4] == sep && core[5..] == m;
  }

  /** The month-first form: `M<sep>YYYY` and `MM<sep>YYYY` give (YYYY, M). */
  lemma ParseMonthFirst(m: string, sep: char, y: string)
    requires 1 <= |m| <= 2 && Text.AllDigits(m) && IsSep(sep)
    requires |y| == 4 && Text.AllDigits(y)
    ensures ParseStem(m + [sep] + y) == Some(Period(Text.DigitsValue(y), Text.DigitsValue(m)))
  {
    var core := m + [sep] + y;
    assert EndCore(core) == core;
    assert core[|m|] == sep && !Text.IsDigit(core[|m|]);
    assert YearFirst(core).None?;
    assert core[..|core| - 5] == m && core[|core| - 4..] == y;
  }

  /** A word before `<sep>YYYY` (no digits in it) is read as a Roman numeral
      exactly when its upper-cased form is a key of `ROMAN`, otherwise as a
      month name exactly when its lower-cased form is a key of `PL_NAMES`, and
      otherwise the stem is rejected. The regular expressions add no further
      condition. */
  lemma ParseWordFirst(w: string, sep: char, y: string)
    requires forall i :: 0 <= i < |w| ==> !Text.IsDigit(w[i])
    requires IsSep(sep) && |y| == 4 && Text.AllDigits(y)
    ensures ParseStem(w + [sep] + y) ==
      if Text.Upper(w) in Tables.Roman then Some(Period(Text.DigitsValue(y), Tables.Roman[Text.Upper(w)]))
      else if Text.Lower(w) in Tables.PlNames then Some(Period(Text.DigitsValue(y), Tables.PlNames[Text.Lower(w)]))
      else None
  {
    var core := w + [sep] + y;
    assert EndCore(core) == core;
    WordIsNotNumeric(w, sep, y);
    WordAsNumeral(w, sep, y);
    WordAsName(w, sep, y);
  }

  lemma WordIsNotNumeric(w: string, sep: char, y: string)
    requires forall i :: 0 <= i < |w| ==> !Text.IsDigit(w[i])
    requires IsSep(sep) && |y| == 4 && Text.AllDigits(y)
    ensures YearFirst(w + [sep] + y).None? && MonthFirst(w + [sep] + y).None?
  {
    var core := w + [sep] + y;
    if |core| == 6 || |core| == 7 {
      assert core[0] == w[0];
      assert !Text.AllDigits(core[..4]);
      assert core[..|core| - 5] == w;
    }
  }

  lemma WordAsNumeral(w: string, sep: char, y: string)
    requires IsSep(sep) && |y| == 4 && Text.AllDigits(y)
    ensures RomanFirst(w + [sep] + y) ==
      if Text.Upper(w) in Tables.Roman then Some(Period(Text.DigitsValue(y), Tables.Roman[Text.Upper(w)]))
      else None
  {
    var core := w + [sep] + y;
    assert core[..|core| - 5] == w && core[|core| - 4..] == y && core[|core| - 5] == sep;
    RomanKeysHaveShape();
  }

  lemma WordAsName(w: string, sep: char, y: string)
    requires IsSep(sep) && |y| == 4 && Text.AllDigits(y)
    ensures NameFirst(w + [sep] + y) ==
      if Text.Lower(w) in Tables.PlNames then Some(Period(Text.DigitsValue(y), Tables.PlNames[Text.Lower(w)]))
      else None
  {
    var core := w + [sep] + y;
    assert core[..|core| - 5] == w && core[|core| - 4..] == y && core[|core| - 5] == sep;
    if Text.Lower(w) in Tables.PlNames {
      NameKeyLetters(w);
    }
  }

  /** A word whose lower-case form is a month name is made of name letters. */
  lemma NameKeyLetters(w: string)
    requires Text.Lower(w) in Tables.PlNames
    ensures |w| >= 1 && forall i :: 0 <= i < |w| ==> IsNameLetter(w[i])
  {
    Tables.PlNamesLetters();
    assert "" !in Tables.PlNames;
    forall i | 0 <= i < |w| ensures IsNameLetter(w[i]) {
      assert Text.LowerChar(w[i]) == Text.Lower(w)[i];
    }
  }

  /** A final newline in the stem is ignored, as Python's `$` allows. */
  lemma ParseIgnoresFinalNewline(s: string)
    requires s == [] || s[|s| - 1] != '\n'
    ensures ParseStem(s + "\n") == ParseStem(s)
  {
    assert EndCore(s + "\n") == s;
  }

  /** No range check happens while parsing: years stay below 10000 and months
      below 100, and only the two numeric forms can give a month outside
      1..12. */
  lemma ParseBounds(s: string)
    requires ParseStem(s).Some?
    ensures 0 <= ParseStem(s).value.year < 10000
    ensures 0 <= ParseStem(s).value.month < 100
    ensures !(1 <= ParseStem(s).value.month <= 12) ==>
      YearFirst(EndCore(s)).Some? || MonthFirst(EndCore(s)).Some?
  {
    var core := EndCore(s);
    Tables.RomanTable();
    Tables.PlNamesTable();
    if YearFirst(core).Some? {
      Text.DigitsValueBound(core[..4]);
      Text.DigitsValueBound(core[5..]);
    } else if MonthFirst(core).Some? {
      Text.DigitsValueBound(core[|core| - 4..]);
      Text.DigitsValueBound(core[..|core| - 5]);
    } else {
      Text.DigitsValueBound(core[|core| - 4..]);
    }
  }

  /** A digit-free word before `<sep>YYYY`. */
  predicate WordYear(core: string) {
    && YearSuffix(core) && |core| >= 6
    && forall i :: 0 <= i < |core| - 5 ==> !Text.IsDigit(core[i])
  }

  /** Only the four shapes give a period: a stem with no separator, with no
      four-digit year, or with digits in the word before the year gives
      none. In the word shape the word is a numeral or a month name. */
  lemma ParseStemShapes(s: string)
    requires ParseStem(s).Some?
    ensures YearFirst(EndCore(s)).Some? || MonthFirst(EndCore(s)).Some? || WordYear(EndCore(s))
    ensures !YearFirst(EndCore(s)).Some? && !MonthFirst(EndCore(s)).Some? ==>
      var w := EndCore(s)[..|EndCore(s)| - 5];
      Text.Upper(w) in Tables.Roman || Text.Lower(w) in Tables.PlNames
  {
    var core := EndCore(s);
    if YearFirst(core).None? && MonthFirst(core).None? {
      var w := core[..|core| - 5];
      if RomanFirst(core).Some? {
        RomanWordHasNoDigit(w);
      } else {
        NameWordHasNoDigit(w);
      }
      forall i | 0 <= i < |core| - 5 ensures !Text.IsDigit(core[i]) {
        assert core[i] == w[i];
      }
    }
  }

  lemma RomanWordHasNoDigit(w: string)
    requires Text.Upper(w) in Tables.Roman
    ensures |w| >= 1 && forall i :: 0 <= i < |w| ==> !Text.IsDigit(w[i])
  {
    Tables.RomanLetters();
    assert "" !in Tables.Roman;
    forall i | 0 <= i < |w| ensures !Text.IsDigit(w[i]) {
      assert Text.Upper(w)[i] == Text.UpperChar(w[i]);
    }
  }

  lemma NameWordHasNoDigit(w: string)
    requires |w| >= 1 && forall i :: 0 <= i < |w| ==> IsNameLetter(w[i])
    ensures forall i :: 0 <= i < |w| ==> !Text.IsDigit(w[i])
  {
    forall i | 0 <= i < |w| ensures !Text.IsDigit(w[i]) {
      assert IsNameLetter(w[i]);
    }
  }

  /** The stem of `<dir>/<name>.<ext>` is `name` whenever `name` is not made
      of dots alone and the extension holds no dot: `splitext` undoes adding an
      extension. */
  lemma StemDropsExtension(dir: string, name: string, ext: string)
    requires '/' !in name && '/' !in ext && '.' !in ext
    requires exists i :: 0 <= i < |name| && name[i] != '.'
    ensures Stem(dir + "/" + name + "." + ext) == name
  {
    var file := name + "." + ext;
    assert dir + "/" + name + "." + ext == dir + "/" + file;
    BaseNameOfFile(dir, file);
    StemOfExtension(name, ext);
  }

  lemma StemOfExtension(name: string, ext: string)
    requires '.' !in ext
    requires exists i :: 0 <= i < |name| && name[i] != '.'
    ensures StemOf(name + "." + ext) == name
  {
    var file := name + "." + ext;
    LastDotBeforeExtension(name, ext);
    var i :| 0 <= i < |name| && name[i] != '.';
    assert file[i] == name[i];
    assert file[..|name|] == name;
  }

  lemma {:induction false} BaseNameOfFile(dir: string, file: string)
    requires '/' !in file
    ensures BaseName(dir + "/" + file) == file
    decreases |file|
  {
    var p := dir + "/" + file;
    if file == [] {
      assert p[|p| - 1] == '/';
    } else {
      var last := file[|file| - 1];
      assert last in file;
      assert p[|p| - 1] == last && last != '/';
      assert BaseName(p) == BaseName(p[..|p| - 1]) + [last];
      assert p[..|p| - 1] == dir + "/" + file[..|file| - 1];
      BaseNameOfFile(dir, file[..|file| - 1]);
      assert file[..|file| - 1] + [last] == file;
    }
  }

  lemma {:induction false} LastDotBeforeExtension(name: string, ext: string)
    requires '.' !in ext
    ensures LastDot(name + "." + ext) == Some(|name|)
    decreases |ext|
  {
    var s := name + "." + ext;
    if ext != [] {
      assert ext[|ext| - 1] in ext;
      assert s[..|s| - 1] == name + "." + ext[..|ext| - 1];
      LastDotBeforeExtension(name, ext[..|ext| - 1]);
    } else {
      assert s[..|s| - 1] == name;
    }
  }

  /** The stems the dashboard's documentation and its data folders use; the
      numeric forms carry no range check, so a thirteenth or a zeroth month
      is still a period. */
  lemma Example2025Dash01()
    ensures ParseStem("2025-01") == Some(Period(2025, 1))
  {
    ParseYearFirst("2025", '-', "01");
    assert "2025" + ['-'] + "01" == "2025-01";
    Text.DigitsValueShort("2025");
    Text.DigitsValueShort("01");
  }

  lemma Example2025Dash13()
    ensures ParseStem("2025-13") == Some(Period(2025, 13))
  {
    ParseYearFirst("2025", '-', "13");
    assert "2025" + ['-'] + "13" == "2025-13";
    Text.DigitsValueShort("2025");
    Text.DigitsValueShort("13");
  }

  lemma Example00Dash2025()
    ensures ParseStem("00-2025") == Some(Period(2025, 0))
  {
    ParseMonthFirst("00", '-', "2025");
    assert "00" + ['-'] + "2025" == "00-2025";
    Text.DigitsValueShort("00");
    Text.DigitsValueShort("2025");
  }

  lemma ExampleXii2024()
    ensures ParseStem("xii.2024") == Some(Period(2024, 12))
  {
    assert Text.Upper("xii") == "XII";
    ParseWordFirst("xii", '.', "2024");
    assert "xii" + ['.'] + "2024" == "xii.2024";
    Text.DigitsValueShort("2024");
  }

  /** A stem with no period in it. */
  lemma ExampleReportFinal()
    ensures ParseStem("report_final") == None
  {
  }

  /** Every month name followed by `<sep>YYYY` gives that month of that year:
      no name is mistaken for a Roman numeral. */
  lemma MonthNameParses(k: string, sep: char, y: string)
    requires k in Tables.PlNames
    requires IsSep(sep) && |y| == 4 && Text.AllDigits(y)
    ensures ParseStem(k + [sep] + y) == Some(Period(Text.DigitsValue(y), Tables.PlNames[k]))
  {
    NameLetters(k);
    NumeralInitial(k[0]);
    NotNumeral(Text.Upper(k), 0);
    Tables.PlNameLower(k);
    ParseWordFirst(k, sep, y);
  }

  /** The spelling facts about one month name. */
  lemma NameLetters(k: string)
    requires k in Tables.PlNames
    ensures |k| > 0 && k[0] != 'i' && k[0] != 'v' && k[0] != 'x'
    ensures forall i :: 0 <= i < |k| ==> !Text.IsDigit(k[i]) && !('A' <= k[i] <= 'Z')
  {
    Tables.PlNamesInitials();
    Tables.PlNamesLetters();
    forall i | 0 <= i < |k| ensures !Text.IsDigit(k[i]) && !('A' <= k[i] <= 'Z') {
      LowerPolishPlain(k[i]);
    }
  }

  lemma LowerPolishPlain(c: char)
    requires ('a' <= c <= 'z') || c in Text.LowerPolish
    ensures !Text.IsDigit(c) && !('A' <= c <= 'Z')
  {
  }

  /** Only i, v and x, in either case, upper-case to a numeral letter, and
      lower-case to i, v or x. */
  lemma NumeralInitial(c: char)
    ensures Text.UpperChar(c) in {'I', 'V', 'X'} <==> c in {'i', 'v', 'x', 'I', 'V', 'X'}
    ensures c in {'i', 'v', 'x', 'I', 'V', 'X'} ==> Text.LowerChar(c) in {'i', 'v', 'x'}
  {
  }

  /** A word with a letter other than I, V, X is not a numeral. */
  lemma NotNumeral(u: string, i: nat)
    requires i < |u| && u[i] !in {'I', 'V', 'X'}
    ensures u !in Tables.Roman
  {
    Tables.RomanLetters();
  }

  /** A word starting with i, v or x is not a month name. */
  lemma NotMonthName(l: string)
    requires |l| > 0 && l[0] in {'i', 'v', 'x'}
    ensures l !in Tables.PlNames
  {
    Tables.PlNamesInitials();
  }

  /** A word of numeral letters that is not one of the twelve numerals, such
      as "XIII" or "iiii", is rejected together with its year: it is not a
      month name either. */
  lemma UnknownNumeralRejected(w: string, sep: char, y: string)
    requires |w| > 0 && forall i :: 0 <= i < |w| ==> Text.UpperChar(w[i]) in {'I', 'V', 'X'}
    requires Text.Upper(w) !in Tables.Roman
    requires IsSep(sep) && |y| == 4 && Text.AllDigits(y)
    ensures ParseStem(w + [sep] + y) == None
  {
    forall i | 0 <= i < |w| ensures !Text.IsDigit(w[i]) {
      assert !Text.IsDigit(Text.UpperChar(w[i]));
    }
    NumeralInitial(w[0]);
    assert Text.Lower(w)[0] == Text.LowerChar(w[0]);
    NotMonthName(Text.Lower(w));
    ParseWordFirst(w, sep, y);
  }

  /** A stem that starts with a non-digit and has a digit before its
      `<sep>YYYY` part matches none of the four patterns. This rejects the
      `Pow_MM_YYYY` naming that the rate loader's docstring gives for its files
      (wup_auto_app.py:468), e.g. "Pow_01_2026". */
  lemma MixedStemRejected(stem: string, i: nat)
    requires stem != [] && !Text.IsDigit(stem[0])
    requires i + 5 < |EndCore(stem)| && Text.IsDigit(stem[i])
    ensures ParseStem(stem) == None
  {
    var core := EndCore(stem);
    assert core[0] == stem[0] && core[i] == stem[i];
    assert core[..4][0] == core[0];
    var head := core[..|core| - 5];
    assert head[0] == core[0] && head[i] == core[i];
    assert Text.Upper(head)[i] == Text.UpperChar(core[i]);
    NotNumeral(Text.Upper(head), i);
    assert !IsNameLetter(head[i]);
  }
}
