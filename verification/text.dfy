/** The Python string operations the dashboard relies on: `str.isspace`,
    `str.lower`/`str.upper`, `str.strip`, `startswith`, the `in` substring test,
    `str.replace(old, "")`, `re.sub(r"\s{2,}", " ", s)`, slicing, and the
    decimal conversions `int(s)` / `str(n)`.

    Case mapping is modelled character by character for ASCII letters and the
    nine Polish letters with diacritics; every other character maps to itself. */
module Text {

  /** The characters Python's `str.isspace()` accepts: what `strip()` removes
      and what `\s` matches in a `str` pattern. */
  predicate IsSpace(c: char) {
    || c == ' ' || c == '\t' || c == '\n' || c == '\r' || c == '\U{B}' || c == '\U{C}'
    || ('\U{1C}' <= c <= '\U{1F}')
    || c == '\U{85}' || c == '\U{A0}' || c == '\U{1680}'
    || ('\U{2000}' <= c <= '\U{200A}')
    || c == '\U{2028}' || c == '\U{2029}' || c == '\U{202F}' || c == '\U{205F}' || c == '\U{3000}'
  }

  /** An ASCII decimal digit. */
  predicate IsDigit(c: char) {
    '0' <= c <= '9'
  }

  predicate AllDigits(s: string) {
    forall i :: 0 <= i < |s| ==> IsDigit(s[i])
  }

  const UpperPolish: string := "ĄĆĘŁŃÓŚŹŻ"
  const LowerPolish: string := "ąćęłńóśźż"

  /** `c.lower()` for ASCII and Polish letters. */
  function LowerChar(c: char): (r: char)
    ensures IsSpace(r) <==> IsSpace(c)
    ensures IsDigit(r) <==> IsDigit(c)
    ensures r == '.' <==> c == '.'
  {
    if 'A' <= c <= 'Z' then (c as int + 32) as char
    else if c == 'Ą' then 'ą' else if c == 'Ć' then 'ć' else if c == 'Ę' then 'ę'
    else if c == 'Ł' then 'ł' else if c == 'Ń' then 'ń' else if c == 'Ó' then 'ó'
    else if c == 'Ś' then 'ś' else if c == 'Ź' then 'ź' else if c == 'Ż' then 'ż'
    else c
  }

  /** `c.upper()` for ASCII and Polish letters. */
  function UpperChar(c: char): (r: char)
    ensures IsSpace(r) <==> IsSpace(c)
    ensures IsDigit(r) <==> IsDigit(c)
    ensures r == '.' <==> c == '.'
  {
    if 'a' <= c <= 'z' then (c as int - 32) as char
    else if c == 'ą' then 'Ą' else if c == 'ć' then 'Ć' else if c == 'ę' then 'Ę'
    else if c == 'ł' then 'Ł' else if c == 'ń' then 'Ń' else if c == 'ó' then 'Ó'
    else if c == 'ś' then 'Ś' else if c == 'ź' then 'Ź' else if c == 'ż' then 'Ż'
    else c
  }

  function Lower(s: string): string {
    seq(|s|, i requires 0 <= i < |s| => LowerChar(s[i]))
  }

  function Upper(s: string): string {
    seq(|s|, i requires 0 <= i < |s| => UpperChar(s[i]))
  }

  /** `s.startswith(p)`. */
  predicate StartsWith(s: string, p: string) {
    |p| <= |s| && s[..|p|] == p
  }

  /** Python's `p in s`. */
  predicate Contains(s: string, p: string)
    decreases |s|
  {
    StartsWith(s, p) || (|s| > 0 && Contains(s[1..], p))
  }

  /** Number of whitespace characters at the front of `s`. */
  function LeadingSpaces(s: string): (n: nat)
    ensures n <= |s|
    ensures forall i :: 0 <= i < n ==> IsSpace(s[i])
    ensures n < |s| ==> !IsSpace(s[n])
  {
    if s == [] || !IsSpace(s[0]) then 0 else 1 + LeadingSpaces(s[1..])
  }

  /** Number of whitespace characters at the end of `s`. */
  function TrailingSpaces(s: string): (n: nat)
    ensures n <= |s|
    ensures forall i :: |s| - n <= i < |s| ==> IsSpace(s[i])
    ensures n < |s| ==> !IsSpace(s[|s| - n - 1])
  {
    if s == [] || !IsSpace(s[|s| - 1]) then 0 else 1 + TrailingSpaces(s[..|s| - 1])
  }

  /** `s.strip()`: the text between the leading and the trailing whitespace. */
  function Strip(s: string): (r: string)
    ensures |r| <= |s|
    ensures r != [] ==> !IsSpace(r[0]) && !IsSpace(r[|r| - 1])
    ensures r == [] <==> forall i :: 0 <= i < |s| ==> IsSpace(s[i])
    ensures (s == [] || (!IsSpace(s[0]) && !IsSpace(s[|s| - 1]))) ==> r == s
  {
    var n := LeadingSpaces(s);
    var t := s[n..];
    var m := TrailingSpaces(t);
    var r := t[..|t| - m];
    StripFacts(s, n, t, m, r);
    r
  }

  lemma StripFacts(s: string, n: nat, t: string, m: nat, r: string)
    requires n == LeadingSpaces(s) && t == s[n..] && m == TrailingSpaces(t) && r == t[..|t| - m]
    ensures r != [] ==> !IsSpace(r[0]) && !IsSpace(r[|r| - 1])
    ensures r == [] <==> forall i :: 0 <= i < |s| ==> IsSpace(s[i])
    ensures (s == [] || (!IsSpace(s[0]) && !IsSpace(s[|s| - 1]))) ==> r == s
  {
    if r != [] {
      assert r[0] == t[0] == s[n];
      assert r[|r| - 1] == t[|t| - m - 1];
    } else {
      assert n == |s|;
    }
    if s != [] && !IsSpace(s[0]) && !IsSpace(s[|s| - 1]) {
      assert n == 0;
      assert t == s;
    }
  }

  /** `s.replace(pat, "")`: every non-overlapping occurrence of `pat`, found
      left to right, is removed; the text is not rescanned after a removal. */
  function RemoveAll(s: string, pat: string): (r: string)
    requires |pat| > 0
    ensures |r| <= |s|
    ensures !Contains(s, pat) ==> r == s
    decreases |s|
  {
    if s == [] then []
    else if StartsWith(s, pat) then RemoveAll(s[|pat|..], pat)
    else [s[0]] + RemoveAll(s[1..], pat)
  }

  /** No two adjacent whitespace characters. */
  predicate NoDoubleSpace(s: string) {
    forall i :: 0 <= i < |s| - 1 ==> !(IsSpace(s[i]) && IsSpace(s[i + 1]))
  }

  /** `re.sub(r"\s{2,}", " ", s)`: every run of two or more whitespace
      characters becomes one space; a lone whitespace character is kept. */
  function CollapseSpaces(s: string): (r: string)
    ensures NoDoubleSpace(r)
    ensures r == [] <==> s == []
    ensures |s| > 0 && !IsSpace(s[0]) ==> r[0] == s[0]
    ensures |s| > 0 && IsSpace(s[0]) ==> IsSpace(r[0])
    ensures |r| <= |s|
    decreases |s|
  {
    if s == [] then []
    else if !IsSpace(s[0]) then [s[0]] + CollapseSpaces(s[1..])
    else if LeadingSpaces(s) >= 2 then " " + CollapseSpaces(s[LeadingSpaces(s)..])
    else [s[0]] + CollapseSpaces(s[1..])
  }

  /** `s` with every character satisfying `drop` removed (an `re.sub` whose
      pattern is a character class and whose replacement is empty). */
  function DropChars(s: string, drop: char -> bool): (r: string)
    ensures forall i :: 0 <= i < |r| ==> !drop(r[i])
    ensures |r| <= |s|
    decreases |s|
  {
    if s == [] then []
    else (if drop(s[0]) then [] else [s[0]]) + DropChars(s[1..], drop)
  }

  /** `s[:n]`. */
  function Take(s: string, n: nat): (r: string)
    ensures |r| <= n && |r| <= |s|
    ensures r == s[..|r|]
    ensures |s| <= n ==> r == s
  {
    if |s| <= n then s else s[..n]
  }

  /** `int(s)` for a string of ASCII digits. */
  function DigitsValue(s: string): (n: nat)
    requires AllDigits(s)
    decreases |s|
  {
    if s == [] then 0
    else DigitsValue(s[..|s| - 1]) * 10 + (s[|s| - 1] as int - '0' as int)
  }

  function DigitChar(d: nat): (c: char)
    requires d < 10
    ensures IsDigit(c)
  {
    ('0' as int + d) as char
  }

  /** `str(n)` for a natural number; reading it back with `int()` gives `n`. */
  function Decimal(n: nat): (r: string)
    ensures |r| > 0
    ensures AllDigits(r)
    ensures DigitsValue(r) == n
    ensures n > 0 ==> r[0] != '0'
    decreases n
  {
    if n < 10 then [DigitChar(n)]
    else
      var r := Decimal(n / 10) + [DigitChar(n % 10)];
      assert r[..|r| - 1] == Decimal(n / 10);
      r
  }

  // ---------------------------------------------------------------------------
  // Lemmas

  /** No ASCII or Polish capital letter in `s`. */
  predicate NoUpper(s: string) {
    forall i :: 0 <= i < |s| ==> !('A' <= s[i] <= 'Z') && s[i] !in UpperPolish
  }

  lemma LowerLetterNotUpper(c: char)
    requires ('a' <= c <= 'z') || c in LowerPolish
    ensures !('A' <= c <= 'Z') && c !in UpperPolish
  {
  }

  /** Text without capitals is its own lower-case form. */
  lemma LowerOfNoUpper(s: string)
    requires NoUpper(s)
    ensures Lower(s) == s
  {
    forall i | 0 <= i < |s| ensures LowerChar(s[i]) == s[i] {
      assert s[i] !in UpperPolish;
    }
  }

  lemma LowerAppend(a: string, b: string)
    ensures Lower(a + b) == Lower(a) + Lower(b)
  {
  }

  /** Upper-casing an upper-cased character changes nothing. */
  lemma UpperCharIdempotent(c: char)
    ensures UpperChar(UpperChar(c)) == UpperChar(c)
  {
  }

  /** Stripping twice is stripping once. */
  lemma StripIdempotent(s: string)
    ensures Strip(Strip(s)) == Strip(s)
  {
  }

  /** Lower-casing keeps every whitespace character where it is, so it
      commutes with stripping already-stripped text. */
  lemma LowerKeepsStripped(s: string)
    requires Strip(s) == s
    ensures Strip(Lower(s)) == Lower(s)
  {
    if s != [] {
      assert !IsSpace(Lower(s)[0]) && !IsSpace(Lower(s)[|s| - 1]);
    }
  }

  /** `strip()` cuts blank runs off both ends and nothing else. */
  lemma StripSplit(s: string) returns (a: nat, b: nat)
    ensures a + |Strip(s)| + b == |s|
    ensures s == s[..a] + Strip(s) + s[a + |Strip(s)|..]
    ensures forall i :: 0 <= i < a ==> IsSpace(s[i])
    ensures forall i :: a + |Strip(s)| <= i < |s| ==> IsSpace(s[i])
  {
    a := LeadingSpaces(s);
    var t := s[a..];
    b := TrailingSpaces(t);
    assert Strip(s) == t[..|t| - b];
    forall i | a + |Strip(s)| <= i < |s| ensures IsSpace(s[i]) {
      assert s[i] == t[i - a];
    }
  }

  /** Text whose every character is dropped drops to nothing. */
  lemma {:induction false} DropEverything(s: string, drop: char -> bool)
    requires forall i :: 0 <= i < |s| ==> drop(s[i])
    ensures DropChars(s, drop) == []
    decreases |s|
  {
    if s != [] {
      DropEverything(s[1..], drop);
    }
  }

  /** Upper-casing forgets any earlier lower-casing. */
  lemma UpperOfLower(s: string)
    ensures Upper(Lower(s)) == Upper(s)
  {
    forall i | 0 <= i < |s| ensures UpperChar(LowerChar(s[i])) == UpperChar(s[i]) {
      UpperOfLowerChar(s[i]);
    }
  }

  lemma UpperOfLowerChar(c: char)
    ensures UpperChar(LowerChar(c)) == UpperChar(c)
  {
  }

  /** Lower-case text comes back unchanged from upper-casing and then
      lower-casing. */
  lemma LowerOfUpper(s: string)
    requires Lower(s) == s
    ensures Lower(Upper(s)) == s
  {
    forall i | 0 <= i < |s| ensures LowerChar(UpperChar(s[i])) == s[i] {
      assert Lower(s)[i] == s[i];
      LowerOfUpperChar(s[i]);
    }
  }

  lemma LowerOfUpperChar(c: char)
    requires LowerChar(c) == c
    ensures LowerChar(UpperChar(c)) == c
  {
  }

  /** Upper-casing keeps the text's outer characters non-blank. */
  lemma UpperKeepsStripped(s: string)
    requires Strip(s) == s
    ensures Strip(Upper(s)) == Upper(s)
  {
    if s != [] {
      assert !IsSpace(Upper(s)[0]) && !IsSpace(Upper(s)[|s| - 1]);
    }
  }

  lemma {:induction false} RemoveAllPrefix(pat: string, s: string)
    requires |pat| > 0
    ensures RemoveAll(pat + s, pat) == RemoveAll(s, pat)
  {
    assert StartsWith(pat + s, pat);
    assert (pat + s)[|pat|..] == s;
  }

  lemma {:induction false} RemoveAllCons(c: char, s: string, pat: string)
    requires |pat| > 0 && pat[0] != c
    ensures RemoveAll([c] + s, pat) == [c] + RemoveAll(s, pat)
  {
    assert !StartsWith([c] + s, pat);
    assert ([c] + s)[1..] == s;
  }

  /** Text that contains `p` still contains it after more text is put in front. */
  lemma {:induction false} ContainsPrefixed(a: string, s: string, p: string)
    requires Contains(s, p)
    ensures Contains(a + s, p)
    decreases |a|
  {
    if a != [] {
      assert (a + s)[1..] == a[1..] + s;
      ContainsPrefixed(a[1..], s, p);
      assert Contains((a + s)[1..], p);
    } else {
      assert a + s == s;
    }
  }

  /** The substring test finds an occurrence at a definite position. */
  lemma {:induction false} ContainsAt(s: string, p: string, k: nat)
    requires k + |p| <= |s| && s[k..k + |p|] == p
    ensures Contains(s, p)
    decreases k
  {
    if k > 0 {
      assert s[1..][k - 1..k - 1 + |p|] == s[k..k + |p|];
      ContainsAt(s[1..], p, k - 1);
    }
  }

  /** ... and every occurrence the test finds sits at a definite position. */
  lemma {:induction false} ContainsWitness(s: string, p: string) returns (k: nat)
    requires Contains(s, p)
    ensures k + |p| <= |s| && s[k..k + |p|] == p
    decreases |s|
  {
    if StartsWith(s, p) {
      k := 0;
    } else {
      var j := ContainsWitness(s[1..], p);
      assert s[1..][j..j + |p|] == s[j + 1..j + 1 + |p|];
      k := j + 1;
    }
  }

  /** Text containing `p` contains everything `p` contains. */
  lemma ContainsTransitive(s: string, p: string, q: string)
    requires Contains(s, p) && Contains(p, q)
    ensures Contains(s, q)
  {
    var k := ContainsWitness(s, p);
    var j := ContainsWitness(p, q);
    forall t | 0 <= t < |q| ensures s[k + j + t] == q[t] {
      assert s[k..k + |p|][j + t] == s[k + j + t];
      assert p[j..j + |q|][t] == p[j + t];
    }
    assert s[k + j..k + j + |q|] == q;
    ContainsAt(s, q, k + j);
  }

  /** Collapsing whitespace runs removes no visible character: with all
      whitespace dropped, the text before and after is the same. */
  lemma {:induction false} CollapseKeepsText(s: string)
    ensures DropChars(CollapseSpaces(s), IsSpace) == DropChars(s, IsSpace)
    decreases |s|
  {
    if s == [] {
    } else if !IsSpace(s[0]) {
      CollapseKeepsText(s[1..]);
      DropAppend([s[0]], CollapseSpaces(s[1..]), IsSpace);
    } else if LeadingSpaces(s) >= 2 {
      var n := LeadingSpaces(s);
      CollapseKeepsText(s[n..]);
      DropAppend(" ", CollapseSpaces(s[n..]), IsSpace);
      DropSpacePrefix(s, n);
    } else {
      CollapseKeepsText(s[1..]);
      DropAppend([s[0]], CollapseSpaces(s[1..]), IsSpace);
    }
  }

  lemma {:induction false} DropAppend(a: string, b: string, drop: char -> bool)
    ensures DropChars(a + b, drop) == DropChars(a, drop) + DropChars(b, drop)
    decreases |a|
  {
    if a != [] {
      assert (a + b)[0] == a[0];
      assert (a + b)[1..] == a[1..] + b;
      DropAppend(a[1..], b, drop);
    } else {
      assert a + b == b;
    }
  }

  lemma {:induction false} DropSpacePrefix(s: string, n: nat)
    requires n <= |s|
    requires forall i :: 0 <= i < n ==> IsSpace(s[i])
    ensures DropChars(s, IsSpace) == DropChars(s[n..], IsSpace)
    decreases n
  {
    if n > 0 {
      DropSpacePrefix(s[1..], n - 1);
      assert s[1..][n - 1..] == s[n..];
    }
  }

  function Pow10(n: nat): (r: nat)
    ensures r >= 1
  {
    if n == 0 then 1 else 10 * Pow10(n - 1)
  }

  /** A string of `k` digits denotes a number below 10^k. */
  lemma {:induction false} DigitsValueBound(s: string)
    requires AllDigits(s)
    ensures DigitsValue(s) < Pow10(|s|)
    decreases |s|
  {
    if s != [] {
      DigitsValueBound(s[..|s| - 1]);
    }
  }

  /** `int()` of a one-, two- or four-digit string, digit by digit. */
  lemma DigitsValueShort(s: string)
    requires AllDigits(s) && (|s| == 1 || |s| == 2 || |s| == 4)
    ensures |s| == 1 ==> DigitsValue(s) == s[0] as int - '0' as int
    ensures |s| == 2 ==> DigitsValue(s) == (s[0] as int - '0' as int) * 10 + (s[1] as int - '0' as int)
    ensures |s| == 4 ==>
              DigitsValue(s) == (s[0] as int - '0' as int) * 1000 + (s[1] as int - '0' as int) * 100
                                + (s[2] as int - '0' as int) * 10 + (s[3] as int - '0' as int)
  {
    if |s| == 4 {
      assert s[..3][..2] == s[..2] && s[..2][..1] == s[..1] && s[..1][..0] == [];
    } else if |s| == 2 {
      assert s[..1][..0] == [];
    } else {
      assert s[..0] == [];
    }
  }

  /** `int(str(n)) == n`, and two numbers with the same decimal text are equal. */
  lemma DecimalInjective(a: nat, b: nat)
    requires Decimal(a) == Decimal(b)
    ensures a == b
  {
    assert DigitsValue(Decimal(a)) == a;
  }

  /** A four-digit number is written with exactly four characters. */
  lemma {:induction false} DecimalFourDigits(n: nat)
    requires 1000 <= n <= 9999
    ensures |Decimal(n)| == 4
  {
    assert |Decimal(n / 1000)| == 1;
    assert |Decimal(n / 100)| == 2;
    assert |Decimal(n / 10)| == 3;
  }
}
