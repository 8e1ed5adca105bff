/**
 * `countryOptions.js`: the country list the forms offer, the lookups of a country's name and flagged label
 * by its ISO code, and the short list of common countries. The list is written in the source's order, in
 * blocks that follow its regional sections, and `Options` is their concatenation.
 */
module Countries {
  import opened Wrappers

  /** One entry of `COUNTRY_OPTIONS`; every label is the flag of the code, a space and the name. */
  datatype Country = Country(value: string, labelText: string, name: string, region: string)

  /** One entry of `COMMON_COUNTRIES`. */
  datatype Common = Common(value: string, labelText: string)

  const EuropeAustriaToFrance: seq<Country> := [
    Country("AT", "\U{1F1E6}\U{1F1F9} Austria", "Austria", "Europe"),
    Country("BE", "\U{1F1E7}\U{1F1EA} Belgium", "Belgium", "Europe"),
    Country("BG", "\U{1F1E7}\U{1F1EC} Bulgaria", "Bulgaria", "Europe"),
    Country("HR", "\U{1F1ED}\U{1F1F7} Croatia", "Croatia", "Europe"),
    Country("CY", "\U{1F1E8}\U{1F1FE} Cyprus", "Cyprus", "Europe"),
    Country("CZ", "\U{1F1E8}\U{1F1FF} Czech Republic", "Czech Republic", "Europe"),
    Country("DK", "\U{1F1E9}\U{1F1F0} Denmark", "Denmark", "Europe"),
    Country("EE", "\U{1F1EA}\U{1F1EA} Estonia", "Estonia", "Europe"),
    Country("FI", "\U{1F1EB}\U{1F1EE} Finland", "Finland", "Europe"),
    Country("FR", "\U{1F1EB}\U{1F1F7} France", "France", "Europe")
  ]

  const EuropeGermanyToNetherlands: seq<Country> := [
    Country("DE", "\U{1F1E9}\U{1F1EA} Germany", "Germany", "Europe"),
    Country("GR", "\U{1F1EC}\U{1F1F7} Greece", "Greece", "Europe"),
    Country("HU", "\U{1F1ED}\U{1F1FA} Hungary", "Hungary", "Europe"),
    Country("IE", "\U{1F1EE}\U{1F1EA} Ireland", "Ireland", "Europe"),
    Country("IT", "\U{1F1EE}\U{1F1F9} Italy", "Italy", "Europe"),
    Country("LV", "\U{1F1F1}\U{1F1FB} Latvia", "Latvia", "Europe"),
    Country("LT", "\U{1F1F1}\U{1F1F9} Lithuania", "Lithuania", "Europe"),
    Country("LU", "\U{1F1F1}\U{1F1FA} Luxembourg", "Luxembourg", "Europe"),
    Country("MT", "\U{1F1F2}\U{1F1F9} Malta", "Malta", "Europe"),
    Country("NL", "\U{1F1F3}\U{1F1F1} Netherlands", "Netherlands", "Europe")
  ]

  const EuropeNorwayToUnitedKingdom: seq<Country> := [
    Country("NO", "\U{1F1F3}\U{1F1F4} Norway", "Norway", "Europe"),
    Country("PL", "\U{1F1F5}\U{1F1F1} Poland", "Poland", "Europe"),
    Country("PT", "\U{1F1F5}\U{1F1F9} Portugal", "Portugal", "Europe"),
    Country("RO", "\U{1F1F7}\U{1F1F4} Romania", "Romania", "Europe"),
    Country("SK", "\U{1F1F8}\U{1F1F0} Slovakia", "Slovakia", "Europe"),
    Country("SI", "\U{1F1F8}\U{1F1EE} Slovenia", "Slovenia", "Europe"),
    Country("ES", "\U{1F1EA}\U{1F1F8} Spain", "Spain", "Europe"),
    Country("SE", "\U{1F1F8}\U{1F1EA} Sweden", "Sweden", "Europe"),
    Country("CH", "\U{1F1E8}\U{1F1ED} Switzerland", "Switzerland", "Europe"),
    Country("GB", "\U{1F1EC}\U{1F1E7} United Kingdom", "United Kingdom", "Europe")
  ]

  const Americas: seq<Country> := [
    Country("US", "\U{1F1FA}\U{1F1F8} United States", "United States", "Americas"),
    Country("CA", "\U{1F1E8}\U{1F1E6} Canada", "Canada", "Americas"),
    Country("MX", "\U{1F1F2}\U{1F1FD} Mexico", "Mexico", "Americas"),
    Country("BR", "\U{1F1E7}\U{1F1F7} Brazil", "Brazil", "Americas"),
    Country("AR", "\U{1F1E6}\U{1F1F7} Argentina", "Argentina", "Americas"),
    Country("CL", "\U{1F1E8}\U{1F1F1} Chile", "Chile", "Americas"),
    Country("CO", "\U{1F1E8}\U{1F1F4} Colombia", "Colombia", "Americas"),
    Country("PE", "\U{1F1F5}\U{1F1EA} Peru", "Peru", "Americas")
  ]

  const Asia: seq<Country> := [
    Country("CN", "\U{1F1E8}\U{1F1F3} China", "China", "Asia"),
    Country("IN", "\U{1F1EE}\U{1F1F3} India", "India", "Asia"),
    Country("JP", "\U{1F1EF}\U{1F1F5} Japan", "Japan", "Asia"),
    Country("KR", "\U{1F1F0}\U{1F1F7} South Korea", "South Korea", "Asia"),
    Country("SG", "\U{1F1F8}\U{1F1EC} Singapore", "Singapore", "Asia"),
    Country("TH", "\U{1F1F9}\U{1F1ED} Thailand", "Thailand", "Asia"),
    Country("VN", "\U{1F1FB}\U{1F1F3} Vietnam", "Vietnam", "Asia"),
    Country("MY", "\U{1F1F2}\U{1F1FE} Malaysia", "Malaysia", "Asia"),
    Country("ID", "\U{1F1EE}\U{1F1E9} Indonesia", "Indonesia", "Asia"),
    Country("PH", "\U{1F1F5}\U{1F1ED} Philippines", "Philippines", "Asia"),
    Country("HK", "\U{1F1ED}\U{1F1F0} Hong Kong", "Hong Kong", "Asia")
  ]

  const Oceania: seq<Country> := [
    Country("AU", "\U{1F1E6}\U{1F1FA} Australia", "Australia", "Oceania"),
    Country("NZ", "\U{1F1F3}\U{1F1FF} New Zealand", "New Zealand", "Oceania")
  ]

  const MiddleEastAndAfrica: seq<Country> := [
    Country("AE", "\U{1F1E6}\U{1F1EA} United Arab Emirates", "United Arab Emirates", "Middle East"),
    Country("SA", "\U{1F1F8}\U{1F1E6} Saudi Arabia", "Saudi Arabia", "Middle East"),
    Country("TR", "\U{1F1F9}\U{1F1F7} Turkey", "Turkey", "Middle East"),
    Country("EG", "\U{1F1EA}\U{1F1EC} Egypt", "Egypt", "Africa"),
    Country("ZA", "\U{1F1FF}\U{1F1E6} South Africa", "South Africa", "Africa")
  ]

  /** `COUNTRY_OPTIONS`. */
  const Options: seq<Country> := EuropeAustriaToFrance + EuropeGermanyToNetherlands + EuropeNorwayToUnitedKingdom + Americas + Asia + Oceania + MiddleEastAndAfrica

  const CommonCountries: seq<Common> := [
    Common("US", "\U{1F1FA}\U{1F1F8} United States"),
    Common("GB", "\U{1F1EC}\U{1F1E7} United Kingdom"),
    Common("DE", "\U{1F1E9}\U{1F1EA} Germany"),
    Common("FR", "\U{1F1EB}\U{1F1F7} France"),
    Common("ES", "\U{1F1EA}\U{1F1F8} Spain"),
    Common("IT", "\U{1F1EE}\U{1F1F9} Italy"),
    Common("CA", "\U{1F1E8}\U{1F1E6} Canada"),
    Common("AU", "\U{1F1E6}\U{1F1FA} Australia"),
    Common("JP", "\U{1F1EF}\U{1F1F5} Japan"),
    Common("CN", "\U{1F1E8}\U{1F1F3} China")
  ]

  /** `find(c => c.value === code)`, as a position: the first entry whose code is exactly `code`. */
  function FindIndex(options: seq<Country>, code: string): (r: Option<nat>)
    ensures r.Some? ==> r.value < |options| && options[r.value].value == code
    ensures r.Some? ==> forall j :: 0 <= j < r.value ==> options[j].value != code
    ensures r.None? ==> forall j :: 0 <= j < |options| ==> options[j].value != code
  {
    if options == [] then None
    else if options[0].value == code then Some(0)
    else
      match FindIndex(options[1..], code)
      case None => None
      case Some(k) => Some(k + 1)
  }

  /** The name of the first entry with the code, or the code itself. */
  function NameIn(options: seq<Country>, code: string): string {
    match FindIndex(options, code)
    case Some(i) => options[i].name
    case None => code
  }

  /** The label of the first entry with the code, or the code itself. */
  function LabelIn(options: seq<Country>, code: string): string {
    match FindIndex(options, code)
    case Some(i) => options[i].labelText
    case None => code
  }

  /** `getCountryName`. */
  function GetCountryName(code: string): string {
    NameIn(Options, code)
  }

  /** `getCountryLabel`. */
  function GetCountryLabel(code: string): string {
    LabelIn(Options, code)
  }

  /** The entry at `i` is the one both lookups answer from when no earlier entry has its code. */
  lemma LookupsAnswerFirstMatch(options: seq<Country>, i: nat)
    requires i < |options|
    requires forall j :: 0 <= j < i ==> options[j].value != options[i].value
    ensures NameIn(options, options[i].value) == options[i].name
    ensures LabelIn(options, options[i].value) == options[i].labelText
  {
  }

  /** A code no entry has comes back unchanged from both lookups. */
  lemma UnknownCodeUnchanged(options: seq<Country>, code: string)
    requires forall j :: 0 <= j < |options| ==> options[j].value != code
    ensures NameIn(options, code) == code && LabelIn(options, code) == code
  {
  }

  predicate UpperCode(s: string) {
    |s| == 2 && 'A' <= s[0] <= 'Z' && 'A' <= s[1] <= 'Z'
  }

  predicate AllUpper(options: seq<Country>) {
    forall j :: 0 <= j < |options| ==> UpperCode(options[j].value)
  }

  lemma AllUpperAppend(a: seq<Country>, b: seq<Country>)
    requires AllUpper(a) && AllUpper(b)
    ensures AllUpper(a + b)
  {
    forall j | 0 <= j < |a + b| ensures UpperCode((a + b)[j].value) {
      if j >= |a| {
        assert (a + b)[j] == b[j - |a|];
      }
    }
  }

  // One lemma per block: the steps of `CodesAreUpperCase`, which `LowerCaseNotResolved` rests on.

  lemma EuropeAustriaToFranceUpper()
    ensures AllUpper(EuropeAustriaToFrance)
  {
  }

  lemma EuropeGermanyToNetherlandsUpper()
    ensures AllUpper(EuropeGermanyToNetherlands)
  {
  }

  lemma EuropeNorwayToUnitedKingdomUpper()
    ensures AllUpper(EuropeNorwayToUnitedKingdom)
  {
  }

  lemma AmericasUpper()
    ensures AllUpper(Americas)
  {
  }

  lemma AsiaUpper()
    ensures AllUpper(Asia)
  {
  }

  lemma OceaniaUpper()
    ensures AllUpper(Oceania)
  {
  }

  lemma MiddleEastAndAfricaUpper()
    ensures AllUpper(MiddleEastAndAfrica)
  {
  }

  /** Every code is two upper-case letters. */
  lemma CodesAreUpperCase()
    ensures AllUpper(Options)
  {
    EuropeAustriaToFranceUpper();
    EuropeGermanyToNetherlandsUpper();
    EuropeNorwayToUnitedKingdomUpper();
    AmericasUpper();
    AsiaUpper();
    OceaniaUpper();
    MiddleEastAndAfricaUpper();
    AllUpperAppend(EuropeAustriaToFrance, EuropeGermanyToNetherlands);
    AllUpperAppend(EuropeAustriaToFrance + EuropeGermanyToNetherlands, EuropeNorwayToUnitedKingdom);
    AllUpperAppend(EuropeAustriaToFrance + EuropeGermanyToNetherlands + EuropeNorwayToUnitedKingdom, Americas);
    AllUpperAppend(EuropeAustriaToFrance + EuropeGermanyToNetherlands + EuropeNorwayToUnitedKingdom + Americas, Asia);
    AllUpperAppend(EuropeAustriaToFrance + EuropeGermanyToNetherlands + EuropeNorwayToUnitedKingdom + Americas + Asia, Oceania);
    AllUpperAppend(EuropeAustriaToFrance + EuropeGermanyToNetherlands + EuropeNorwayToUnitedKingdom + Americas + Asia + Oceania, MiddleEastAndAfrica);
  }

  /** Matching is exact: a lower-case code is not resolved. */
  lemma LowerCaseNotResolved()
    ensures GetCountryName("us") == "us"
    ensures GetCountryLabel("us") == "us"
  {
    CodesAreUpperCase();
    forall j | 0 <= j < |Options| ensures Options[j].value != "us" {
      assert UpperCode(Options[j].value);
    }
    UnknownCodeUnchanged(Options, "us");
  }

  /** Where each common country sits in the full list. */
  const CommonAt: seq<nat> := [30, 29, 10, 9, 26, 14, 31, 49, 40, 38]

  /** Every common country is in the full list, with the same label. */
  lemma CommonCountriesListed(k: nat)
    requires k < |CommonCountries|
    ensures exists i :: 0 <= i < |Options| && Options[i].value == CommonCountries[k].value &&
                        Options[i].labelText == CommonCountries[k].labelText
  {
    var i := CommonAt[k];
    assert Options[i].value == CommonCountries[k].value && Options[i].labelText == CommonCountries[k].labelText;
  }
}
