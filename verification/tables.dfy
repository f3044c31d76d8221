/** The dashboard's static lookup tables (wup_auto_app.py:314-363 and 385-451):
    month names, Roman numerals and Polish month names used to read file names,
    industry-code descriptions, and the two tables that join official unit names
    and codes to the map boundary files.

    The larger tables are written as unions of smaller ones (the code-description
    table by the groups the source comments delimit, the district table by
    alphabet) so that facts about every entry can be checked group by group. */
module Tables {
  import Text

  /** `MIESIAC_PL`: the display name of each month. */
  const MonthNamesPl: map<int, string> := map[
    1 := "Styczeń", 2 := "Luty", 3 := "Marzec", 4 := "Kwiecień", 5 := "Maj", 6 := "Czerwiec",
    7 := "Lipiec", 8 := "Sierpień", 9 := "Wrzesień", 10 := "Październik", 11 := "Listopad",
    12 := "Grudzień"
  ]

  /** `ROMAN`: the upper-case Roman numerals of the twelve months. */
  const Roman: map<string, int> := map[
    "I" := 1, "II" := 2, "III" := 3, "IV" := 4, "V" := 5, "VI" := 6,
    "VII" := 7, "VIII" := 8, "IX" := 9, "X" := 10, "XI" := 11, "XII" := 12
  ]

  /** `PL_NAMES`: lower-case Polish month names, with and without diacritics. */
  const PlNames: map<string, int> := map[
    "styczen" := 1, "styczeń" := 1, "luty" := 2, "marzec" := 3, "kwiecien" := 4, "kwiecień" := 4,
    "maj" := 5, "czerwiec" := 6, "lipiec" := 7, "sierpien" := 8, "sierpień" := 8,
    "wrzesien" := 9, "wrzesień" := 9, "pazdziernik" := 10, "październik" := 10,
    "listopad" := 11, "grudzien" := 12, "grudzień" := 12
  ]

  /** Industry codes: financial services and insurance. */
  const PkdFinance: map<string, string> := map[
    "6419Z" := "Pozostałe usługi kredytowe",
    "6499Z" := "Pozostałe usługi finansowe",
    "6619Z" := "Pozostałe usługi wspomagające finanse",
    "6622Z" := "Agenci ubezpieczeniowi",
    "6492Z" := "Udzielanie pożyczek poza systemem bankowym"
  ]

  /** Industry codes: IT and telecommunications. */
  const PkdItTelecom: map<string, string> := map[
    "6110Z" := "Telekomunikacja przewodowa",
    "6120Z" := "Telekomunikacja bezprzewodowa",
    "6130Z" := "Telekomunikacja satelitarna",
    "6190Z" := "Pozostała telekomunikacja",
    "6201Z" := "Działalność związana z oprogramowaniem",
    "6202Z" := "Doradztwo w zakresie informatyki",
    "6203Z" := "Zarządzanie urządzeniami informatycznymi",
    "6209Z" := "Pozostała działalność usługowa w zakresie IT",
    "6311Z" := "Przetwarzanie danych",
    "6312Z" := "Portale internetowe",
    "6391Z" := "Działalność agencji informacyjnych"
  ]

  /** Industry codes: trade. */
  const PkdTrade: map<string, string> := map[
    "4651Z" := "Sprzedaż hurtowa komputerów i elektroniki",
    "4711Z" := "Handel detaliczny w niewyspecjalizowanych sklepach",
    "4719Z" := "Pozostały handel detaliczny niewyspecjalizowany",
    "4730Z" := "Sprzedaż detaliczna paliw",
    "4776Z" := "Sprzedaż detaliczna kwiatów i roślin"
  ]

  /** Industry codes: transport and logistics. */
  const PkdTransport: map<string, string> := map[
    "4920Z" := "Transport kolejowy towarów",
    "5310Z" := "Działalność pocztowa objęta obowiązkiem świadczenia usług powszechnych",
    "5320Z" := "Pozostała działalność pocztowa i kurierska"
  ]

  /** Industry codes: manufacturing. */
  const PkdManufacturing: map<string, string> := map[
    "2042Z" := "Produkcja pozostałych wyrobów chemicznych",
    "2222Z" := "Produkcja opakowań z tworzyw sztucznych",
    "2222.Z" := "Produkcja opakowań z tworzyw sztucznych",
    "2351Z" := "Produkcja cementu",
    "2732Z" := "Produkcja pozostałych przewodów elektrycznych",
    "2910B" := "Produkcja pozostałych pojazdów samochodowych"
  ]

  /** Industry codes: professional activities. */
  const PkdProfessional: map<string, string> := map[
    "7211Z" := "Badania naukowe i prace rozwojowe w dziedzinie biotechnologii",
    "7311Z" := "Działalność agencji reklamowych",
    "7021Z" := "Public relations i komunikacja",
    "7490Z" := "Pozostała działalność profesjonalna, naukowa i techniczna"
  ]

  /** Industry codes: other services. */
  const PkdOther: map<string, string> := map[
    "8220Z" := "Działalność centrów telefonicznych (call center)",
    "9200Z" := "Działalność związana z grami losowymi i zakładami wzajemnymi"
  ]

  /** `PKD_OPISY`: description of each industry code. */
  const PkdDescriptions: map<string, string> :=
    PkdFinance + PkdItTelecom + PkdTrade + PkdTransport + PkdManufacturing + PkdProfessional + PkdOther

  /** Boundary-file names of Masovian districts and cities, "białobrzeski" to "gostyniński". */
  const GusDistricts1: map<string, string> := map[
    "białobrzeski" := "powiat białobrzeski",
    "ciechanowski" := "powiat ciechanowski",
    "garwoliński" := "powiat garwoliński",
    "gostyniński" := "powiat gostyniński"
  ]

  /** Boundary-file names of Masovian districts and cities, "grodziski" to "legionowski". */
  const GusDistricts2: map<string, string> := map[
    "grodziski" := "powiat grodziski",
    "grójecki" := "powiat grójecki",
    "kozienicki" := "powiat kozienicki",
    "legionowski" := "powiat legionowski"
  ]

  /** Boundary-file names of Masovian districts and cities, "lipski" to "miński". */
  const GusDistricts3: map<string, string> := map[
    "lipski" := "powiat lipski",
    "łosicki" := "powiat łosicki",
    "makowski" := "powiat makowski",
    "miński" := "powiat miński"
  ]

  /** Boundary-file names of Masovian districts and cities, "mławski" to "ostrowski". */
  const GusDistricts4: map<string, string> := map[
    "mławski" := "powiat mławski",
    "nowodworski" := "powiat nowodworski",
    "ostrołęcki" := "powiat ostrołęcki",
    "ostrowski" := "powiat ostrowski"
  ]

  /** Boundary-file names of Masovian districts and cities, "otwocki" to "płoński". */
  const GusDistricts5: map<string, string> := map[
    "otwocki" := "powiat otwocki",
    "piaseczyński" := "powiat piaseczyński",
    "płocki" := "powiat płocki",
    "płoński" := "powiat płoński"
  ]

  /** Boundary-file names of Masovian districts and cities, "pruszkowski" to "pułtuski". */
  const GusDistricts6: map<string, string> := map[
    "pruszkowski" := "powiat pruszkowski",
    "przasnyski" := "powiat przasnyski",
    "przysuski" := "powiat przysuski",
    "pułtuski" := "powiat pułtuski"
  ]

  /** Boundary-file names of Masovian districts and cities, "radomski" to "sochaczewski". */
  const GusDistricts7: map<string, string> := map[
    "radomski" := "powiat radomski",
    "siedlecki" := "powiat siedlecki",
    "sierpecki" := "powiat sierpecki",
    "sochaczewski" := "powiat sochaczewski"
  ]

  /** Boundary-file names of Masovian districts and cities, "sokołowski" to "węgrowski". */
  const GusDistricts8: map<string, string> := map[
    "sokołowski" := "powiat sokołowski",
    "szydłowiecki" := "powiat szydłowiecki",
    "warszawski zachodni" := "powiat warszawski zachodni",
    "węgrowski" := "powiat węgrowski"
  ]

  /** Boundary-file names of Masovian districts and cities, "wołomiński" to "żuromiński". */
  const GusDistricts9: map<string, string> := map[
    "wołomiński" := "powiat wołomiński",
    "wyszkowski" := "powiat wyszkowski",
    "zwoleński" := "powiat zwoleński",
    "żuromiński" := "powiat żuromiński"
  ]

  /** Boundary-file names of Masovian districts and cities, "żyrardowski" to "m. radom". */
  const GusDistricts10: map<string, string> := map[
    "żyrardowski" := "powiat żyrardowski",
    "m. ostrołęka" := "powiat Ostrołęka",
    "m. płock" := "powiat Płock",
    "m. radom" := "powiat Radom"
  ]

  /** Boundary-file names of Masovian districts and cities, "m. siedlce" to "warszawa". */
  const GusDistricts11: map<string, string> := map[
    "m. siedlce" := "powiat Siedlce",
    "m. warszawa" := "powiat Warszawa",
    "warszawa" := "powiat Warszawa"
  ]

  /** `GUS_DO_GEO`: lower-case official district name -> boundary-file district name. */
  const GusToGeo: map<string, string> :=
    GusDistricts1 + GusDistricts2 + GusDistricts3 + GusDistricts4 + GusDistricts5 + GusDistricts6
    + GusDistricts7 + GusDistricts8 + GusDistricts9 + GusDistricts10 + GusDistricts11

  /** `NUTS2_DO_GEO`: statistical unit code -> boundary-file province name. */
  const Nuts2ToGeo: map<string, string> := map[
    "PL21" := "małopolskie",
    "PL22" := "śląskie",
    "PL41" := "wielkopolskie",
    "PL42" := "zachodniopomorskie",
    "PL43" := "lubuskie",
    "PL51" := "dolnośląskie",
    "PL52" := "opolskie",
    "PL61" := "kujawsko-pomorskie",
    "PL62" := "warmińsko-mazurskie",
    "PL63" := "pomorskie",
    "PL71" := "łódzkie",
    "PL72" := "świętokrzyskie",
    "PL81" := "lubelskie",
    "PL82" := "podkarpackie",
    "PL84" := "podlaskie",
    "PL9" := "mazowieckie",
    "PL91" := "mazowieckie",
    "PL92" := "mazowieckie"
  ]


  // ---------------------------------------------------------------------------
  // Facts about the tables

  /** The months 1..12, and nothing else, have a display name. */
  lemma MonthNamesDomain()
    ensures forall m :: m in MonthNamesPl <==> 1 <= m <= 12
  {
  }

  /** Different months have different display names. */
  lemma MonthNamesDistinct(a: int, b: int)
    requires a in MonthNamesPl && b in MonthNamesPl
    requires MonthNamesPl[a] == MonthNamesPl[b]
    ensures a == b
  {
  }

  /** Every numeral is written in upper case and denotes a month. */
  lemma RomanTable()
    ensures forall k :: k in Roman ==> Text.Upper(k) == k && 1 <= Roman[k] <= 12
  {
  }

  /** Every month name is written in lower case and denotes a month. */
  lemma PlNamesTable()
    ensures forall k :: k in PlNames ==> Text.Lower(k) == k && 1 <= PlNames[k] <= 12
  {
    PlNamesLower();
  }

  lemma PlNamesLower()
    ensures forall k :: k in PlNames ==> Text.Lower(k) == k
  {
    forall k | k in PlNames ensures Text.Lower(k) == k {
      PlNameLower(k);
    }
  }

  lemma PlNameLower(k: string)
    requires k in PlNames
    ensures Text.Lower(k) == k
  {
    PlNamesLetters();
    forall i | 0 <= i < |k| ensures !('A' <= k[i] <= 'Z') && k[i] !in Text.UpperPolish {
      Text.LowerLetterNotUpper(k[i]);
    }
    Text.LowerOfNoUpper(k);
  }

  /** Every month name is spelt with the lower-case letters of the name class
      `[a-ząćęłńóśźż]`. */
  lemma PlNamesLetters()
    ensures forall k, i :: k in PlNames && 0 <= i < |k| ==> ('a' <= k[i] <= 'z') || k[i] in Text.LowerPolish
  {
  }

  /** No month name starts with a letter a Roman numeral uses. */
  lemma PlNamesInitials()
    ensures forall k :: k in PlNames ==> |k| > 0 && k[0] != 'i' && k[0] != 'v' && k[0] != 'x'
  {
  }

  /** The numerals are spelt with I, V and X only. */
  lemma RomanLetters()
    ensures forall k, i :: k in Roman && 0 <= i < |k| ==> k[i] == 'I' || k[i] == 'V' || k[i] == 'X'
  {
  }

  /** A table key is in normal form for the district lookup: lower case, and no
      surrounding whitespace. */
  predicate IsDistrictKey(k: string) {
    Text.Lower(k) == k && k != [] && !Text.IsSpace(k[0]) && !Text.IsSpace(k[|k| - 1])
  }

  /** Every key of the district table is lower case with no surrounding
      whitespace, so lower-casing and stripping a cell that holds exactly a key
      finds that key's entry. */
  lemma GusKeysNormal()
    ensures forall k :: k in GusToGeo ==> IsDistrictKey(k)
  {
    GusDistricts1Normal();
    GusDistricts2Normal();
    GusDistricts3Normal();
    GusDistricts4Normal();
    GusDistricts5Normal();
    GusDistricts6Normal();
    GusDistricts7Normal();
    GusDistricts8Normal();
    GusDistricts9Normal();
    GusDistricts10Normal();
    GusDistricts11Normal();
  }

  lemma GusDistricts1Normal()
    ensures forall k :: k in GusDistricts1 ==> IsDistrictKey(k)
  {
  }

  lemma GusDistricts2Normal()
    ensures forall k :: k in GusDistricts2 ==> IsDistrictKey(k)
  {
  }

  lemma GusDistricts3Normal()
    ensures forall k :: k in GusDistricts3 ==> IsDistrictKey(k)
  {
  }

  lemma GusDistricts4Normal()
    ensures forall k :: k in GusDistricts4 ==> IsDistrictKey(k)
  {
  }

  lemma GusDistricts5Normal()
    ensures forall k :: k in GusDistricts5 ==> IsDistrictKey(k)
  {
  }

  lemma GusDistricts6Normal()
    ensures forall k :: k in GusDistricts6 ==> IsDistrictKey(k)
  {
  }

  lemma GusDistricts7Normal()
    ensures forall k :: k in GusDistricts7 ==> IsDistrictKey(k)
  {
  }

  lemma GusDistricts8Normal()
    ensures forall k :: k in GusDistricts8 ==> IsDistrictKey(k)
  {
  }

  lemma GusDistricts9Normal()
    ensures forall k :: k in GusDistricts9 ==> IsDistrictKey(k)
  {
  }

  lemma GusDistricts10Normal()
    ensures forall k :: k in GusDistricts10 ==> IsDistrictKey(k)
  {
  }

  lemma GusDistricts11Normal()
    ensures forall k :: k in GusDistricts11 ==> IsDistrictKey(k)
  {
  }

  /** The Masovian macro-region "PL9" is drawn as the whole province. */
  lemma Nuts2Masovian()
    ensures "PL9" in Nuts2ToGeo && Nuts2ToGeo["PL9"] == "mazowieckie"
  {
  }

  /** Every statistical-unit code has four characters except "PL9". */
  lemma Nuts2Lengths()
    ensures forall k :: k in Nuts2ToGeo ==> |k| == 4 || k == "PL9"
  {
  }

  /** The statistical-unit codes: all start with "PL" and have four characters,
      except the Masovian macro-region "PL9". */
  lemma Nuts2Keys()
    ensures forall k :: k in Nuts2ToGeo ==> |k| >= 2 && k[..2] == "PL" && (|k| == 4 || k == "PL9")
  {
  }
}
