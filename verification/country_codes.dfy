/** The client-side mapping from a country name, in one of several spellings,
    to the two-letter code used to pick a flag. Lower-casing and trimming are
    Unicode operations of the host language and are taken as parameters. */
module CountryCodes {
  import opened Wrappers

  /** The code for a country that cannot be resolved. */
  const UnknownCode := "un"

  /** `COUNTRY_CODES` as its entries, in the order the object literal gives
      them, split by the literal's regional groups. A key written twice in the
      literal keeps the position of its first occurrence (the later occurrences
      repeat the same code), so the Spanish group holds only the names not
      listed before it, and each key appears once (`TableWellFormed`). */
  const CountryCodeTable: seq<(string, string)> :=
    America + Europe + Asia + Africa + Oceania + SpanishNames

  /** The American names, in three blocks so that each proof about one block
      stays small. */
  const America: seq<(string, string)> := America1 + America2 + America3

  const America1: seq<(string, string)> := [
    ("United States", "us"), ("United States of America", "us"), ("USA", "us"),
    ("Canada", "ca"), ("Mexico", "mx"), ("Brazil", "br"), ("Argentina", "ar"),
    ("Colombia", "co"), ("Peru", "pe")
  ]

  const America2: seq<(string, string)> := [
    ("Chile", "cl"), ("Ecuador", "ec"), ("Venezuela", "ve"), ("Guatemala", "gt"),
    ("Cuba", "cu"), ("Bolivia", "bo"), ("Dominican Republic", "do"), ("Honduras", "hn"),
    ("Paraguay", "py")
  ]

  const America3: seq<(string, string)> := [
    ("El Salvador", "sv"), ("Nicaragua", "ni"), ("Costa Rica", "cr"), ("Panama", "pa"),
    ("Uruguay", "uy"), ("Jamaica", "jm"), ("Global", "un"), ("Unknown", "un")
  ]

  /** The European names, in three blocks so that each proof about one block
      stays small. */
  const Europe: seq<(string, string)> := Europe1 + Europe2 + Europe3

  const Europe1: seq<(string, string)> := [
    ("United Kingdom", "gb"), ("Great Britain", "gb"), ("UK", "gb"), ("Germany", "de"),
    ("France", "fr"), ("Italy", "it"), ("Spain", "es"), ("Portugal", "pt"),
    ("Netherlands", "nl")
  ]

  const Europe2: seq<(string, string)> := [
    ("Belgium", "be"), ("Switzerland", "ch"), ("Austria", "at"), ("Sweden", "se"),
    ("Norway", "no"), ("Denmark", "dk"), ("Finland", "fi"), ("Ireland", "ie")
  ]

  const Europe3: seq<(string, string)> := [
    ("Poland", "pl"), ("Czech Republic", "cz"), ("Hungary", "hu"), ("Romania", "ro"),
    ("Greece", "gr"), ("Ukraine", "ua"), ("Russia", "ru"), ("Russian Federation", "ru")
  ]

  /** The Asian names, in three blocks so that each proof about one block
      stays small. */
  const Asia: seq<(string, string)> := Asia1 + Asia2 + Asia3

  const Asia1: seq<(string, string)> := [
    ("China", "cn"), ("Japan", "jp"), ("India", "in"), ("South Korea", "kr"),
    ("Korea, Republic of", "kr"), ("Indonesia", "id"), ("Vietnam", "vn")
  ]

  const Asia2: seq<(string, string)> := [
    ("Thailand", "th"), ("Malaysia", "my"), ("Philippines", "ph"), ("Singapore", "sg"),
    ("Israel", "il"), ("Saudi Arabia", "sa"), ("United Arab Emirates", "ae")
  ]

  const Asia3: seq<(string, string)> := [
    ("Qatar", "qa"), ("Kuwait", "kw"), ("Turkey", "tr"), ("Iran", "ir"), ("Iraq", "iq"),
    ("Pakistan", "pk"), ("Bangladesh", "bd")
  ]

  const Africa: seq<(string, string)> := [
    ("Egypt", "eg"), ("South Africa", "za"), ("Nigeria", "ng"), ("Ethiopia", "et"),
    ("Kenya", "ke"), ("Ghana", "gh"), ("Morocco", "ma"), ("Algeria", "dz")
  ]

  const Oceania: seq<(string, string)> := [
    ("Australia", "au"), ("New Zealand", "nz")
  ]

  const SpanishNames: seq<(string, string)> := [
    ("España", "es"), ("México", "mx"), ("Perú", "pe"), ("República Dominicana", "do"),
    ("Panamá", "pa")
  ]

  /** A two-letter lower-case code. */
  predicate IsFlagCode(code: string)
  {
    |code| == 2 && 'a' <= code[0] <= 'z' && 'a' <= code[1] <= 'z'
  }

  /** `code` is the code of some entry of the table. */
  predicate IsTableCode(code: string)
  {
    exists i :: 0 <= i < |CountryCodeTable| && CountryCodeTable[i].1 == code
  }

  /** The index of the first entry, in table order, whose key satisfies
      `matches`. */
  function FirstMatch(table: seq<(string, string)>, matches: string -> bool): (r: Option<nat>)
    ensures r.Some? ==> r.value < |table| && matches(table[r.value].0)
    ensures r.Some? ==> forall j :: 0 <= j < r.value ==> !matches(table[j].0)
    ensures r.None? <==> forall j :: 0 <= j < |table| ==> !matches(table[j].0)
  {
    if table == [] then None
    else if matches(table[0].0) then Some(0)
    else
      match FirstMatch(table[1..], matches)
      case None => None
      case Some(i) => Some(i + 1)
  }

  /** The exact lookup `COUNTRY_CODES[name]`. */
  function SameKey(name: string): string -> bool
  {
    key => key == name
  }

  /** The comparison of the scan: `key.toLowerCase() === name.toLowerCase()`. */
  function SameFolded(lower: string -> string, name: string): string -> bool
  {
    key => lower(key) == lower(name)
  }

  /** `getCountryCode`: a truthy provided code wins, lower-cased; otherwise a
      falsy name gives "un"; otherwise the trimmed name is looked up exactly,
      then case-insensitively in table order, and "un" when both fail. */
  function GetCountryCode(countryName: Option<string>, providedCode: Option<string>,
                          lower: string -> string, trim: string -> string): (r: string)
    ensures Truthy(providedCode) ==> r == lower(providedCode.value)
    ensures !Truthy(providedCode) && !Truthy(countryName) ==> r == UnknownCode
    ensures !Truthy(providedCode) ==> r == UnknownCode || IsTableCode(r)
  {
    if Truthy(providedCode) then lower(providedCode.value)
    else if !Truthy(countryName) then UnknownCode
    else
      var name := trim(countryName.value);
      match FirstMatch(CountryCodeTable, SameKey(name))
      case Some(i) => CountryCodeTable[i].1
      case None =>
        match FirstMatch(CountryCodeTable, SameFolded(lower, name))
        case Some(i) => CountryCodeTable[i].1
        case None => UnknownCode
  }

  // ---------------------------------------------------------------------------
  // Facts about the table, proved group by group
  // ---------------------------------------------------------------------------

  predicate KeysDistinct(t: seq<(string, string)>)
  {
    forall i, j :: 0 <= i < j < |t| ==> t[i].0 != t[j].0
  }

  predicate KeysDisjoint(a: seq<(string, string)>, b: seq<(string, string)>)
  {
    forall i, j :: 0 <= i < |a| && 0 <= j < |b| ==> a[i].0 != b[j].0
  }

  lemma DistinctAppend(a: seq<(string, string)>, b: seq<(string, string)>)
    requires KeysDistinct(a) && KeysDistinct(b) && KeysDisjoint(a, b)
    ensures KeysDistinct(a + b)
  {
    var t := a + b;
    forall i, j | 0 <= i < j < |t|
      ensures t[i].0 != t[j].0
    {
      if j < |a| {
        assert t[i] == a[i] && t[j] == a[j];
      } else if i < |a| {
        assert t[i] == a[i] && t[j] == b[j - |a|];
      } else {
        assert t[i] == b[i - |a|] && t[j] == b[j - |a|];
      }
    }
  }

  lemma DisjointAppend(a: seq<(string, string)>, b: seq<(string, string)>, c: seq<(string, string)>)
    requires KeysDisjoint(a, c) && KeysDisjoint(b, c)
    ensures KeysDisjoint(a + b, c)
  {
    forall i, j | 0 <= i < |a + b| && 0 <= j < |c|
      ensures (a + b)[i].0 != c[j].0
    {
      if i < |a| {
        assert (a + b)[i] == a[i];
      } else {
        assert (a + b)[i] == b[i - |a|];
      }
    }
  }

  /** Within one group: no key twice, no empty key, every code a flag code. */
  predicate GroupWellFormed(g: seq<(string, string)>)
  {
    KeysDistinct(g) && AllKeysNonEmpty(g) && AllFlagCodes(g)
  }

  predicate AllFlagCodes(t: seq<(string, string)>)
  {
    forall i :: 0 <= i < |t| ==> IsFlagCode(t[i].1)
  }

  predicate AllKeysNonEmpty(t: seq<(string, string)>)
  {
    forall i :: 0 <= i < |t| ==> t[i].0 != ""
  }

  /** Two well-formed groups with no key in common make a well-formed group. */
  lemma WellFormedAppend(a: seq<(string, string)>, b: seq<(string, string)>)
    requires GroupWellFormed(a) && GroupWellFormed(b) && KeysDisjoint(a, b)
    ensures GroupWellFormed(a + b)
  {
    DistinctAppend(a, b);
    forall i | 0 <= i < |a + b|
      ensures IsFlagCode((a + b)[i].1) && (a + b)[i].0 != ""
    {
      if i < |a| {
        assert (a + b)[i] == a[i];
      } else {
        assert (a + b)[i] == b[i - |a|];
      }
    }
  }

  lemma DisjointAppendRight(a: seq<(string, string)>, b: seq<(string, string)>, c: seq<(string, string)>)
    requires KeysDisjoint(a, b) && KeysDisjoint(a, c)
    ensures KeysDisjoint(a, b + c)
  {
    forall i, j | 0 <= i < |a| && 0 <= j < |b + c|
      ensures a[i].0 != (b + c)[j].0
    {
      if j < |b| {
        assert (b + c)[j] == b[j];
      } else {
        assert (b + c)[j] == c[j - |b|];
      }
    }
  }

  // Each block on its own
  lemma America1WellFormed() ensures GroupWellFormed(America1) { }
  lemma America2WellFormed() ensures GroupWellFormed(America2) { }
  lemma America3WellFormed() ensures GroupWellFormed(America3) { }
  lemma Europe1WellFormed() ensures GroupWellFormed(Europe1) { }
  lemma Europe2WellFormed() ensures GroupWellFormed(Europe2) { }
  lemma Europe3WellFormed() ensures GroupWellFormed(Europe3) { }
  lemma Asia1WellFormed() ensures GroupWellFormed(Asia1) { }
  lemma Asia2WellFormed() ensures GroupWellFormed(Asia2) { }
  lemma Asia3WellFormed() ensures GroupWellFormed(Asia3) { }
  lemma AfricaWellFormed() ensures GroupWellFormed(Africa) { }
  lemma OceaniaWellFormed() ensures GroupWellFormed(Oceania) { }
  lemma SpanishNamesWellFormed() ensures GroupWellFormed(SpanishNames) { }

  // The blocks of one region against each other

  lemma AmericaBlocksApart()
    ensures KeysDisjoint(America1, America2) && KeysDisjoint(America1, America3) && KeysDisjoint(America2, America3)
  {
  }

  lemma AmericaWellFormed()
    ensures GroupWellFormed(America)
  {
    America1WellFormed();
    America2WellFormed();
    America3WellFormed();
    AmericaBlocksApart();
    WellFormedAppend(America1, America2);
    DisjointAppend(America1, America2, America3);
    WellFormedAppend(America1 + America2, America3);
  }

  lemma EuropeBlocksApart()
    ensures KeysDisjoint(Europe1, Europe2) && KeysDisjoint(Europe1, Europe3) && KeysDisjoint(Europe2, Europe3)
  {
  }

  lemma EuropeWellFormed()
    ensures GroupWellFormed(Europe)
  {
    Europe1WellFormed();
    Europe2WellFormed();
    Europe3WellFormed();
    EuropeBlocksApart();
    WellFormedAppend(Europe1, Europe2);
    DisjointAppend(Europe1, Europe2, Europe3);
    WellFormedAppend(Europe1 + Europe2, Europe3);
  }

  lemma AsiaBlocksApart()
    ensures KeysDisjoint(Asia1, Asia2) && KeysDisjoint(Asia1, Asia3) && KeysDisjoint(Asia2, Asia3)
  {
  }

  lemma AsiaWellFormed()
    ensures GroupWellFormed(Asia)
  {
    Asia1WellFormed();
    Asia2WellFormed();
    Asia3WellFormed();
    AsiaBlocksApart();
    WellFormedAppend(Asia1, Asia2);
    DisjointAppend(Asia1, Asia2, Asia3);
    WellFormedAppend(Asia1 + Asia2, Asia3);
  }

  // Each block against the regions before it

  lemma Europe1ApartFromAmerica()
    ensures KeysDisjoint(America1, Europe1) && KeysDisjoint(America2, Europe1) && KeysDisjoint(America3, Europe1)
  {
  }

  lemma Europe2ApartFromAmerica()
    ensures KeysDisjoint(America1, Europe2) && KeysDisjoint(America2, Europe2) && KeysDisjoint(America3, Europe2)
  {
  }

  lemma Europe3ApartFromAmerica()
    ensures KeysDisjoint(America1, Europe3) && KeysDisjoint(America2, Europe3) && KeysDisjoint(America3, Europe3)
  {
  }

  lemma Asia1ApartFromAmerica()
    ensures KeysDisjoint(America1, Asia1) && KeysDisjoint(America2, Asia1) && KeysDisjoint(America3, Asia1)
  {
  }

  lemma Asia1ApartFromEurope()
    ensures KeysDisjoint(Europe1, Asia1) && KeysDisjoint(Europe2, Asia1) && KeysDisjoint(Europe3, Asia1)
  {
  }

  lemma Asia2ApartFromAmerica()
    ensures KeysDisjoint(America1, Asia2) && KeysDisjoint(America2, Asia2) && KeysDisjoint(America3, Asia2)
  {
  }

  lemma Asia2ApartFromEurope()
    ensures KeysDisjoint(Europe1, Asia2) && KeysDisjoint(Europe2, Asia2) && KeysDisjoint(Europe3, Asia2)
  {
  }

  lemma Asia3ApartFromAmerica()
    ensures KeysDisjoint(America1, Asia3) && KeysDisjoint(America2, Asia3) && KeysDisjoint(America3, Asia3)
  {
  }

  lemma Asia3ApartFromEurope()
    ensures KeysDisjoint(Europe1, Asia3) && KeysDisjoint(Europe2, Asia3) && KeysDisjoint(Europe3, Asia3)
  {
  }

  lemma AfricaApartFromAmerica()
    ensures KeysDisjoint(America1, Africa) && KeysDisjoint(America2, Africa) && KeysDisjoint(America3, Africa)
  {
  }

  lemma AfricaApartFromEurope()
    ensures KeysDisjoint(Europe1, Africa) && KeysDisjoint(Europe2, Africa) && KeysDisjoint(Europe3, Africa)
  {
  }

  lemma AfricaApartFromAsia()
    ensures KeysDisjoint(Asia1, Africa) && KeysDisjoint(Asia2, Africa) && KeysDisjoint(Asia3, Africa)
  {
  }

  lemma OceaniaApartFromAmerica()
    ensures KeysDisjoint(America1, Oceania) && KeysDisjoint(America2, Oceania) && KeysDisjoint(America3, Oceania)
  {
  }

  lemma OceaniaApartFromEurope()
    ensures KeysDisjoint(Europe1, Oceania) && KeysDisjoint(Europe2, Oceania) && KeysDisjoint(Europe3, Oceania)
  {
  }

  lemma OceaniaApartFromAsia()
    ensures KeysDisjoint(Asia1, Oceania) && KeysDisjoint(Asia2, Oceania) && KeysDisjoint(Asia3, Oceania)
  {
  }

  lemma OceaniaApartFromAfrica()
    ensures KeysDisjoint(Africa, Oceania)
  {
  }

  lemma SpanishNamesApartFromAmerica()
    ensures KeysDisjoint(America1, SpanishNames) && KeysDisjoint(America2, SpanishNames) && KeysDisjoint(America3, SpanishNames)
  {
  }

  lemma SpanishNamesApartFromEurope()
    ensures KeysDisjoint(Europe1, SpanishNames) && KeysDisjoint(Europe2, SpanishNames) && KeysDisjoint(Europe3, SpanishNames)
  {
  }

  lemma SpanishNamesApartFromAsia()
    ensures KeysDisjoint(Asia1, SpanishNames) && KeysDisjoint(Asia2, SpanishNames) && KeysDisjoint(Asia3, SpanishNames)
  {
  }

  lemma SpanishNamesApartFromAfrica()
    ensures KeysDisjoint(Africa, SpanishNames)
  {
  }

  lemma SpanishNamesApartFromOceania()
    ensures KeysDisjoint(Oceania, SpanishNames)
  {
  }

  // Each region against the regions before it

  lemma EuropeKeysNew()
    ensures KeysDisjoint(America, Europe)
  {
    Europe1ApartFromAmerica();
    DisjointAppend(America1, America2, Europe1);
    DisjointAppend(America1 + America2, America3, Europe1);
    Europe2ApartFromAmerica();
    DisjointAppend(America1, America2, Europe2);
    DisjointAppend(America1 + America2, America3, Europe2);
    Europe3ApartFromAmerica();
    DisjointAppend(America1, America2, Europe3);
    DisjointAppend(America1 + America2, America3, Europe3);
    DisjointAppendRight(America, Europe1, Europe2);
    DisjointAppendRight(America, Europe1 + Europe2, Europe3);
  }

  lemma AsiaKeysNew()
    ensures KeysDisjoint(America, Asia) && KeysDisjoint(Europe, Asia)
  {
    Asia1ApartFromAmerica();
    DisjointAppend(America1, America2, Asia1);
    DisjointAppend(America1 + America2, America3, Asia1);
    Asia2ApartFromAmerica();
    DisjointAppend(America1, America2, Asia2);
    DisjointAppend(America1 + America2, America3, Asia2);
    Asia3ApartFromAmerica();
    DisjointAppend(America1, America2, Asia3);
    DisjointAppend(America1 + America2, America3, Asia3);
    DisjointAppendRight(America, Asia1, Asia2);
    DisjointAppendRight(America, Asia1 + Asia2, Asia3);
    Asia1ApartFromEurope();
    DisjointAppend(Europe1, Europe2, Asia1);
    DisjointAppend(Europe1 + Europe2, Europe3, Asia1);
    Asia2ApartFromEurope();
    DisjointAppend(Europe1, Europe2, Asia2);
    DisjointAppend(Europe1 + Europe2, Europe3, Asia2);
    Asia3ApartFromEurope();
    DisjointAppend(Europe1, Europe2, Asia3);
    DisjointAppend(Europe1 + Europe2, Europe3, Asia3);
    DisjointAppendRight(Europe, Asia1, Asia2);
    DisjointAppendRight(Europe, Asia1 + Asia2, Asia3);
  }

  lemma AfricaKeysNew()
    ensures KeysDisjoint(America, Africa) && KeysDisjoint(Europe, Africa) && KeysDisjoint(Asia, Africa)
  {
    AfricaApartFromAmerica();
    DisjointAppend(America1, America2, Africa);
    DisjointAppend(America1 + America2, America3, Africa);
    AfricaApartFromEurope();
    DisjointAppend(Europe1, Europe2, Africa);
    DisjointAppend(Europe1 + Europe2, Europe3, Africa);
    AfricaApartFromAsia();
    DisjointAppend(Asia1, Asia2, Africa);
    DisjointAppend(Asia1 + Asia2, Asia3, Africa);
  }

  lemma OceaniaKeysNew()
    ensures KeysDisjoint(America, Oceania) && KeysDisjoint(Europe, Oceania) && KeysDisjoint(Asia, Oceania) && KeysDisjoint(Africa, Oceania)
  {
    OceaniaApartFromAmerica();
    DisjointAppend(America1, America2, Oceania);
    DisjointAppend(America1 + America2, America3, Oceania);
    OceaniaApartFromEurope();
    DisjointAppend(Europe1, Europe2, Oceania);
    DisjointAppend(Europe1 + Europe2, Europe3, Oceania);
    OceaniaApartFromAsia();
    DisjointAppend(Asia1, Asia2, Oceania);
    DisjointAppend(Asia1 + Asia2, Asia3, Oceania);
    OceaniaApartFromAfrica();
  }

  /** The Spanish group repeats none of the names before it. */
  lemma SpanishNamesKeysNew()
    ensures KeysDisjoint(America, SpanishNames) && KeysDisjoint(Europe, SpanishNames) && KeysDisjoint(Asia, SpanishNames) && KeysDisjoint(Africa, SpanishNames) && KeysDisjoint(Oceania, SpanishNames)
  {
    SpanishNamesApartFromAmerica();
    DisjointAppend(America1, America2, SpanishNames);
    DisjointAppend(America1 + America2, America3, SpanishNames);
    SpanishNamesApartFromEurope();
    DisjointAppend(Europe1, Europe2, SpanishNames);
    DisjointAppend(Europe1 + Europe2, Europe3, SpanishNames);
    SpanishNamesApartFromAsia();
    DisjointAppend(Asia1, Asia2, SpanishNames);
    DisjointAppend(Asia1 + Asia2, Asia3, SpanishNames);
    SpanishNamesApartFromAfrica();
    SpanishNamesApartFromOceania();
  }

  /** Every key of the table appears once (the object literal's repeated
      keys have been folded into their first position), no key is empty and
      every code is two lower-case letters. */
  lemma TableWellFormed()
    ensures KeysDistinct(CountryCodeTable)
    ensures AllKeysNonEmpty(CountryCodeTable) && AllFlagCodes(CountryCodeTable)
  {
    AmericaWellFormed();
    EuropeWellFormed();
    AsiaWellFormed();
    AfricaWellFormed();
    OceaniaWellFormed();
    SpanishNamesWellFormed();
    EuropeKeysNew();
    AsiaKeysNew();
    AfricaKeysNew();
    OceaniaKeysNew();
    SpanishNamesKeysNew();
    WellFormedAppend(America, Europe);
    DisjointAppend(America, Europe, Asia);
    WellFormedAppend(America + Europe, Asia);
    DisjointAppend(America, Europe, Africa);
    DisjointAppend(America + Europe, Asia, Africa);
    WellFormedAppend(America + Europe + Asia, Africa);
    DisjointAppend(America, Europe, Oceania);
    DisjointAppend(America + Europe, Asia, Oceania);
    DisjointAppend(America + Europe + Asia, Africa, Oceania);
    WellFormedAppend(America + Europe + Asia + Africa, Oceania);
    DisjointAppend(America, Europe, SpanishNames);
    DisjointAppend(America + Europe, Asia, SpanishNames);
    DisjointAppend(America + Europe + Asia, Africa, SpanishNames);
    DisjointAppend(America + Europe + Asia + Africa, Oceania, SpanishNames);
    WellFormedAppend(America + Europe + Asia + Africa + Oceania, SpanishNames);
  }

  // ---------------------------------------------------------------------------
  // The resolution order of getCountryCode
  // ---------------------------------------------------------------------------

  /** Without a provided code the result is always a two-letter lower-case
      code: "un" or a code of the table. */
  lemma {:induction false} ResolvedCodeIsFlagCode(countryName: Option<string>, providedCode: Option<string>,
                                                  lower: string -> string, trim: string -> string)
    requires !Truthy(providedCode)
    ensures IsFlagCode(GetCountryCode(countryName, providedCode, lower, trim))
  {
    TableWellFormed();
  }

  /** An entry whose key is exactly the trimmed name decides the result,
      whatever the case-insensitive scan would find. */
  lemma {:induction false} ExactMatchWins(countryName: Option<string>, providedCode: Option<string>,
                                          lower: string -> string, trim: string -> string, i: nat)
    requires !Truthy(providedCode) && Truthy(countryName)
    requires i < |CountryCodeTable| && CountryCodeTable[i].0 == trim(countryName.value)
    ensures GetCountryCode(countryName, providedCode, lower, trim) == CountryCodeTable[i].1
  {
    TableWellFormed();
    var m := FirstMatch(CountryCodeTable, SameKey(trim(countryName.value)));
    assert SameKey(trim(countryName.value))(CountryCodeTable[i].0);
    assert m == Some(i);
  }

  /** With no exact key, the first entry in table order whose lower-cased key
      equals the lower-cased trimmed name decides the result. */
  lemma {:induction false} FoldedMatchDecides(countryName: Option<string>, providedCode: Option<string>,
                                              lower: string -> string, trim: string -> string, i: nat)
    requires !Truthy(providedCode) && Truthy(countryName)
    requires forall j :: 0 <= j < |CountryCodeTable| ==> CountryCodeTable[j].0 != trim(countryName.value)
    requires i < |CountryCodeTable| && lower(CountryCodeTable[i].0) == lower(trim(countryName.value))
    requires forall j :: 0 <= j < i ==> lower(CountryCodeTable[j].0) != lower(trim(countryName.value))
    ensures GetCountryCode(countryName, providedCode, lower, trim) == CountryCodeTable[i].1
  {
    var name := trim(countryName.value);
    assert FirstMatch(CountryCodeTable, SameKey(name)).None?;
    var m := FirstMatch(CountryCodeTable, SameFolded(lower, name));
    assert SameFolded(lower, name)(CountryCodeTable[i].0);
    assert m == Some(i);
  }

  /** A name that matches no key, exactly or case-insensitively, gives "un". */
  lemma {:induction false} NoMatchIsUnknown(countryName: Option<string>, providedCode: Option<string>,
                                            lower: string -> string, trim: string -> string)
    requires !Truthy(providedCode)
    requires countryName.Some? ==>
      forall j :: 0 <= j < |CountryCodeTable| ==> lower(CountryCodeTable[j].0) != lower(trim(countryName.value))
    ensures GetCountryCode(countryName, providedCode, lower, trim) == UnknownCode
  {
    if Truthy(countryName) {
      var name := trim(countryName.value);
      assert FirstMatch(CountryCodeTable, SameKey(name)).None?;
      assert FirstMatch(CountryCodeTable, SameFolded(lower, name)).None?;
    }
  }

  /** A name that trims to nothing matches no key and gives "un", provided
      lower-casing maps the empty string to itself and nothing else to it. */
  lemma {:induction false} BlankNameIsUnknown(countryName: Option<string>, providedCode: Option<string>,
                                              lower: string -> string, trim: string -> string)
    requires !Truthy(providedCode)
    requires countryName.Some? && trim(countryName.value) == ""
    requires lower("") == "" && forall s :: s != "" ==> lower(s) != ""
    ensures GetCountryCode(countryName, providedCode, lower, trim) == UnknownCode
  {
    TableWellFormed();
    NoMatchIsUnknown(countryName, providedCode, lower, trim);
  }

  // ---------------------------------------------------------------------------
  // Worked examples, with lower-casing of the Latin-1 letters
  // ---------------------------------------------------------------------------

  /** Lower case of a Latin-1 letter; every other character is kept. */
  function LowerLatin1Char(c: char): char
  {
    if 'A' <= c <= 'Z' || ('\U{C0}' <= c <= '\U{DE}' && c != '\U{D7}') then (c as int + 32) as char else c
  }

  /** `toLowerCase` restricted to Latin-1 text, where it maps character by
      character. */
  function LowerLatin1(s: string): (r: string)
    ensures |r| == |s|
    ensures forall i :: 0 <= i < |s| ==> r[i] == LowerLatin1Char(s[i])
  {
    seq(|s|, i requires 0 <= i < |s| => LowerLatin1Char(s[i]))
  }

  /** A cheap witness that `key` does not lower-case to `folded`: the lengths
      differ, or one of the first two characters does. */
  predicate FoldDiffers(key: string, folded: string)
  {
    |key| != |folded| || (|key| > 1 && (LowerLatin1Char(key[0]) != folded[0] || LowerLatin1Char(key[1]) != folded[1]))
  }

  /** No key of `g` lower-cases to `folded`, by the witness above. */
  predicate NoFoldedKey(g: seq<(string, string)>, folded: string)
  {
    forall j :: 0 <= j < |g| ==> FoldDiffers(g[j].0, folded)
  }

  lemma NoFoldedKeyAppend(a: seq<(string, string)>, b: seq<(string, string)>, folded: string)
    requires NoFoldedKey(a, folded) && NoFoldedKey(b, folded)
    ensures NoFoldedKey(a + b, folded)
  {
    forall j | 0 <= j < |a + b|
      ensures FoldDiffers((a + b)[j].0, folded)
    {
      if j < |a| {
        assert (a + b)[j] == a[j];
      } else {
        assert (a + b)[j] == b[j - |a|];
      }
    }
  }

  lemma NoFoldedKeyMeansNoMatch(g: seq<(string, string)>, folded: string)
    requires NoFoldedKey(g, folded)
    ensures forall j :: 0 <= j < |g| ==> LowerLatin1(g[j].0) != folded
  {
    forall j | 0 <= j < |g|
      ensures LowerLatin1(g[j].0) != folded
    {
      var k := g[j].0;
      if |k| == |folded| {
        assert LowerLatin1(k)[0] != folded[0] || LowerLatin1(k)[1] != folded[1];
      }
    }
  }

  /** The regions before the Spanish group, and its first entry "España". */
  const BeforeMexico: seq<(string, string)> := America + Europe + Asia + Africa + Oceania + SpanishNames[..1]

  lemma MexicoNotInAmerica()
    ensures NoFoldedKey(America, "méxico")
  {
    assert NoFoldedKey(America1, "méxico");
    assert NoFoldedKey(America2, "méxico");
    assert NoFoldedKey(America3, "méxico");
    NoFoldedKeyAppend(America1, America2, "méxico");
    NoFoldedKeyAppend(America1 + America2, America3, "méxico");
  }

  lemma MexicoNotInEurope()
    ensures NoFoldedKey(Europe, "méxico")
  {
    assert NoFoldedKey(Europe1, "méxico");
    assert NoFoldedKey(Europe2, "méxico");
    assert NoFoldedKey(Europe3, "méxico");
    NoFoldedKeyAppend(Europe1, Europe2, "méxico");
    NoFoldedKeyAppend(Europe1 + Europe2, Europe3, "méxico");
  }

  lemma MexicoNotInAsia()
    ensures NoFoldedKey(Asia, "méxico")
  {
    assert NoFoldedKey(Asia1, "méxico");
    assert NoFoldedKey(Asia2, "méxico");
    assert NoFoldedKey(Asia3, "méxico");
    NoFoldedKeyAppend(Asia1, Asia2, "méxico");
    NoFoldedKeyAppend(Asia1 + Asia2, Asia3, "méxico");
  }

  lemma MexicoNotInAfrica()
    ensures NoFoldedKey(Africa, "méxico")
  {
    assert NoFoldedKey(Africa, "méxico");
  }

  lemma MexicoNotInOceania()
    ensures NoFoldedKey(Oceania, "méxico")
  {
    assert NoFoldedKey(Oceania, "méxico");
  }

  /** "méxico" has no exact key, and "México" is the first key that
      lower-cases to it, so it resolves to "mx". */
  lemma {:induction false} MexicoResolves(trim: string -> string)
    requires trim("méxico") == "méxico"
    ensures GetCountryCode(Some("méxico"), None, LowerLatin1, trim) == "mx"
  {
    var t := CountryCodeTable;
    var name := "méxico";
    assert LowerLatin1(name) == name;
    MexicoNotInAmerica();
    MexicoNotInEurope();
    MexicoNotInAsia();
    MexicoNotInAfrica();
    MexicoNotInOceania();
    assert NoFoldedKey(SpanishNames[..1], name) && NoFoldedKey(SpanishNames[2..], name);
    NoFoldedKeyAppend(America, Europe, name);
    NoFoldedKeyAppend(America + Europe, Asia, name);
    NoFoldedKeyAppend(America + Europe + Asia, Africa, name);
    NoFoldedKeyAppend(America + Europe + Asia + Africa, Oceania, name);
    NoFoldedKeyAppend(America + Europe + Asia + Africa + Oceania, SpanishNames[..1], name);
    NoFoldedKeyMeansNoMatch(BeforeMexico, name);
    NoFoldedKeyMeansNoMatch(SpanishNames[2..], name);
    var i := |BeforeMexico|;
    assert t == BeforeMexico + [SpanishNames[1]] + SpanishNames[2..];
    assert t[i] == ("México", "mx");
    assert LowerLatin1(t[i].0) == name;
    forall j | 0 <= j < i
      ensures LowerLatin1(t[j].0) != name
    {
      assert t[j] == BeforeMexico[j];
    }
    forall j | 0 <= j < |t|
      ensures t[j].0 != name
    {
      if j < i {
        assert t[j] == BeforeMexico[j];
      } else if j > i {
        assert t[j] == SpanishNames[2..][j - i - 1];
      }
    }
    FoldedMatchDecides(Some(name), None, LowerLatin1, trim, i);
  }

  lemma AtlantisNotInAmerica()
    ensures NoFoldedKey(America, "atlantis")
  {
    assert NoFoldedKey(America1, "atlantis");
    assert NoFoldedKey(America2, "atlantis");
    assert NoFoldedKey(America3, "atlantis");
    NoFoldedKeyAppend(America1, America2, "atlantis");
    NoFoldedKeyAppend(America1 + America2, America3, "atlantis");
  }

  lemma AtlantisNotInEurope()
    ensures NoFoldedKey(Europe, "atlantis")
  {
    assert NoFoldedKey(Europe1, "atlantis");
    assert NoFoldedKey(Europe2, "atlantis");
    assert NoFoldedKey(Europe3, "atlantis");
    NoFoldedKeyAppend(Europe1, Europe2, "atlantis");
    NoFoldedKeyAppend(Europe1 + Europe2, Europe3, "atlantis");
  }

  lemma AtlantisNotInAsia()
    ensures NoFoldedKey(Asia, "atlantis")
  {
    assert NoFoldedKey(Asia1, "atlantis");
    assert NoFoldedKey(Asia2, "atlantis");
    assert NoFoldedKey(Asia3, "atlantis");
    NoFoldedKeyAppend(Asia1, Asia2, "atlantis");
    NoFoldedKeyAppend(Asia1 + Asia2, Asia3, "atlantis");
  }

  lemma AtlantisNotInAfrica()
    ensures NoFoldedKey(Africa, "atlantis")
  {
    assert NoFoldedKey(Africa, "atlantis");
  }

  lemma AtlantisNotInOceania()
    ensures NoFoldedKey(Oceania, "atlantis")
  {
    assert NoFoldedKey(Oceania, "atlantis");
  }

  /** "Atlantis" matches no key in any spelling and resolves to "un". */
  lemma {:induction false} AtlantisIsUnknown(trim: string -> string)
    requires trim("Atlantis") == "Atlantis"
    ensures GetCountryCode(Some("Atlantis"), None, LowerLatin1, trim) == UnknownCode
  {
    var folded := "atlantis";
    assert LowerLatin1("Atlantis") == folded;
    AtlantisNotInAmerica();
    AtlantisNotInEurope();
    AtlantisNotInAsia();
    AtlantisNotInAfrica();
    AtlantisNotInOceania();
    assert NoFoldedKey(SpanishNames, folded);
    NoFoldedKeyAppend(America, Europe, folded);
    NoFoldedKeyAppend(America + Europe, Asia, folded);
    NoFoldedKeyAppend(America + Europe + Asia, Africa, folded);
    NoFoldedKeyAppend(America + Europe + Asia + Africa, Oceania, folded);
    NoFoldedKeyAppend(America + Europe + Asia + Africa + Oceania, SpanishNames, folded);
    NoFoldedKeyMeansNoMatch(CountryCodeTable, folded);
    NoMatchIsUnknown(Some("Atlantis"), None, LowerLatin1, trim);
  }
}
