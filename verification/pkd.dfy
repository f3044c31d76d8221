/** Industry (PKD) codes in the layoff reports: `normalizuj_pkd`
    (wup_auto_app.py:365-367) and the description lookup with the code itself
    as fallback (wup_auto_app.py:613). */
module Pkd {
  import opened Wrappers
  import Text
  import Tables

  /** The characters `[.\s]` matches. */
  predicate Removed(c: char) {
    c == '.' || Text.IsSpace(c)
  }

  /** `re.sub(r'[.\s]', '', str(pkd).strip()).upper()`. */
  function Normalize(pkd: string): (r: string)
    ensures forall i :: 0 <= i < |r| ==> r[i] != '.' && !Text.IsSpace(r[i])
    ensures Text.Upper(r) == r
    ensures |r| <= |pkd|
  {
    var kept := Text.DropChars(Text.Strip(pkd), Removed);
    var r := Text.Upper(kept);
    forall i | 0 <= i < |r| ensures Text.UpperChar(r[i]) == r[i] {
      Text.UpperCharIdempotent(kept[i]);
    }
    r
  }

  /** `PKD_OPISY.get(pkd, pkd)`. */
  function Describe(pkd: string): string {
    Get(Tables.PkdDescriptions, pkd).GetOr(pkd)
  }

  // ---------------------------------------------------------------------------
  // Lemmas

  /** A string with no dot and no whitespace that is already upper case is its
      own normal form. */
  lemma {:induction false} NormalFormIsFixed(s: string)
    requires forall i :: 0 <= i < |s| ==> s[i] != '.' && !Text.IsSpace(s[i])
    requires Text.Upper(s) == s
    ensures Normalize(s) == s
  {
    assert Text.Strip(s) == s;
    DropNothing(s);
  }

  lemma {:induction false} DropNothing(s: string)
    requires forall i :: 0 <= i < |s| ==> !Removed(s[i])
    ensures Text.DropChars(s, Removed) == s
    decreases |s|
  {
    if s != [] {
      DropNothing(s[1..]);
      assert [s[0]] + s[1..] == s;
    }
  }

  /** Normalising twice is normalising once. */
  lemma Idempotent(pkd: string)
    ensures Normalize(Normalize(pkd)) == Normalize(pkd)
  {
    NormalFormIsFixed(Normalize(pkd));
  }

  /** Stripping first changes nothing: the blanks it removes are removed
      anyway. */
  lemma StripIrrelevant(s: string)
    ensures Text.DropChars(Text.Strip(s), Removed) == Text.DropChars(s, Removed)
  {
    var a, b := Text.StripSplit(s);
    var mid := Text.Strip(s);
    var front, back := s[..a], s[a + |mid|..];
    forall i | 0 <= i < |front| ensures Removed(front[i]) {
      assert front[i] == s[i];
    }
    forall i | 0 <= i < |back| ensures Removed(back[i]) {
      assert back[i] == s[a + |mid| + i];
    }
    Text.DropAppend(front + mid, back, Removed);
    Text.DropAppend(front, mid, Removed);
    Text.DropEverything(front, Removed);
    Text.DropEverything(back, Removed);
  }

  /** What `Normalize` computes, with the strip left out. */
  lemma NormalizeDrops(s: string)
    ensures Normalize(s) == Text.Upper(Text.DropChars(s, Removed))
  {
    StripIrrelevant(s);
  }

  /** A dot or a blank anywhere in a code is ignored: "2222.Z", "2222 Z" and
      "2222Z" are one code. */
  lemma IgnoresDotsAndBlanks(a: string, c: char, b: string)
    requires Removed(c)
    ensures Normalize(a + [c] + b) == Normalize(a + b)
  {
    NormalizeDrops(a + [c] + b);
    NormalizeDrops(a + b);
    DropRemoved(a, c, b);
  }

  lemma DropRemoved(a: string, c: char, b: string)
    requires Removed(c)
    ensures Text.DropChars(a + [c] + b, Removed) == Text.DropChars(a + b, Removed)
  {
    Text.DropAppend(a + [c], b, Removed);
    Text.DropAppend(a, [c], Removed);
    Text.DropEverything([c], Removed);
    Text.DropAppend(a, b, Removed);
  }

  /** Letter case is ignored: "2910b" and "2910B" are one code. */
  lemma IgnoresCase(s: string)
    ensures Normalize(Text.Lower(s)) == Normalize(s)
  {
    NormalizeDrops(Text.Lower(s));
    NormalizeDrops(s);
    DropLower(s);
    Text.UpperOfLower(Text.DropChars(s, Removed));
  }

  lemma {:induction false} DropLower(s: string)
    ensures Text.DropChars(Text.Lower(s), Removed) == Text.Lower(Text.DropChars(s, Removed))
    decreases |s|
  {
    if s != [] {
      DropLower(s[1..]);
      assert Text.Lower(s)[1..] == Text.Lower(s[1..]);
      var head: string := if Removed(s[0]) then [] else [s[0]];
      assert Text.DropChars(s, Removed) == head + Text.DropChars(s[1..], Removed);
      Text.LowerAppend(head, Text.DropChars(s[1..], Removed));
    }
  }

  /** No code ever normalises to the dotted key "2222.Z", so that entry of the
      description table is never used. */
  lemma DottedKeyUnreachable(pkd: string)
    ensures Normalize(pkd) != "2222.Z"
    ensures "2222.Z" in Tables.PkdDescriptions
  {
    assert "2222.Z"[4] == '.';
  }

  /** Already in the normal form `Normalize` produces. */
  predicate NormalShape(k: string) {
    (forall i :: 0 <= i < |k| ==> k[i] != '.' && !Text.IsSpace(k[i])) && Text.Upper(k) == k
  }

  /** Four digits and a capital section letter, as in "6419Z". */
  predicate CodeShape(k: string) {
    |k| == 5 && Text.AllDigits(k[..4]) && 'A' <= k[4] <= 'Z'
  }

  lemma CodeShapeIsNormal(k: string)
    requires CodeShape(k)
    ensures NormalShape(k)
  {
    forall i | 0 <= i < 5 ensures Text.UpperChar(k[i]) == k[i] && k[i] != '.' && !Text.IsSpace(k[i]) {
      if i < 4 {
        assert k[..4][i] == k[i];
      }
    }
    assert Text.Upper(k) == k;
  }

  /** Every key of the description table except "2222.Z" is its own normal
      form, so a report cell holding that code, in any case and with dots or
      blanks, finds its description. */
  lemma KeysAreNormal()
    ensures forall k :: k in Tables.PkdDescriptions && k != "2222.Z" ==> Normalize(k) == k
  {
    forall k | k in Tables.PkdDescriptions && k != "2222.Z" ensures Normalize(k) == k {
      KeyHasShape(k);
      CodeShapeIsNormal(k);
      NormalFormIsFixed(k);
    }
  }

  lemma KeyHasShape(k: string)
    requires k in Tables.PkdDescriptions && k != "2222.Z"
    ensures CodeShape(k)
  {
    PkdFinanceKeys();
    PkdItTelecomKeys();
    PkdTradeKeys();
    PkdTransportKeys();
    PkdManufacturingKeys();
    PkdProfessionalKeys();
    PkdOtherKeys();
  }

  lemma PkdFinanceKeys()
    ensures forall k :: k in Tables.PkdFinance && k != "2222.Z" ==> CodeShape(k)
  {
  }

  lemma PkdItTelecomKeys()
    ensures forall k :: k in Tables.PkdItTelecom && k != "2222.Z" ==> CodeShape(k)
  {
  }

  lemma PkdTradeKeys()
    ensures forall k :: k in Tables.PkdTrade && k != "2222.Z" ==> CodeShape(k)
  {
  }

  lemma PkdTransportKeys()
    ensures forall k :: k in Tables.PkdTransport && k != "2222.Z" ==> CodeShape(k)
  {
  }

  lemma PkdManufacturingKeys()
    ensures forall k :: k in Tables.PkdManufacturing && k != "2222.Z" ==> CodeShape(k)
  {
  }

  lemma PkdProfessionalKeys()
    ensures forall k :: k in Tables.PkdProfessional && k != "2222.Z" ==> CodeShape(k)
  {
  }

  lemma PkdOtherKeys()
    ensures forall k :: k in Tables.PkdOther && k != "2222.Z" ==> CodeShape(k)
  {
  }
}
