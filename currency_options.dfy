/**
 * `currencyOptions.js`: the currency list the forms offer, its grouping by region, and the short list of
 * common currencies. The list is written in the source's order, in blocks that follow its regional
 * sections, and `Options` is their concatenation.
 */
module CurrencyOptions {
  /** One entry of `CURRENCY_OPTIONS`. */
  datatype CurrencyOption = CurrencyOption(value: string, labelText: string, region: string)

  /** One entry of `COMMON_CURRENCIES`. */
  datatype Common = Common(value: string, labelText: string)

  const Europe: seq<CurrencyOption> := [
    CurrencyOption("EUR", "\U{20AC} EUR - Euro", "Europe"),
    CurrencyOption("GBP", "\U{00A3} GBP - British Pound", "Europe"),
    CurrencyOption("CHF", "CHF - Swiss Franc", "Europe"),
    CurrencyOption("SEK", "kr SEK - Swedish Krona", "Europe"),
    CurrencyOption("NOK", "kr NOK - Norwegian Krone", "Europe"),
    CurrencyOption("DKK", "kr DKK - Danish Krone", "Europe")
  ]

  const EasternEurope: seq<CurrencyOption> := [
    CurrencyOption("RON", "lei RON - Romanian Leu", "Eastern Europe"),
    CurrencyOption("PLN", "z\U{0142} PLN - Polish Z\U{0142}oty", "Eastern Europe"),
    CurrencyOption("CZK", "K\U{010D} CZK - Czech Koruna", "Eastern Europe"),
    CurrencyOption("HUF", "Ft HUF - Hungarian Forint", "Eastern Europe"),
    CurrencyOption("BGN", "\U{043B}\U{0432} BGN - Bulgarian Lev", "Eastern Europe"),
    CurrencyOption("RUB", "\U{20BD} RUB - Russian Ruble", "Eastern Europe")
  ]

  const Americas: seq<CurrencyOption> := [
    CurrencyOption("USD", "$ USD - US Dollar", "Americas"),
    CurrencyOption("CAD", "C$ CAD - Canadian Dollar", "Americas"),
    CurrencyOption("BRL", "R$ BRL - Brazilian Real", "Americas"),
    CurrencyOption("MXN", "MX$ MXN - Mexican Peso", "Americas")
  ]

  const Asia: seq<CurrencyOption> := [
    CurrencyOption("JPY", "\U{00A5} JPY - Japanese Yen", "Asia"),
    CurrencyOption("CNY", "\U{00A5} CNY - Chinese Yuan", "Asia"),
    CurrencyOption("INR", "\U{20B9} INR - Indian Rupee", "Asia"),
    CurrencyOption("KRW", "\U{20A9} KRW - South Korean Won", "Asia"),
    CurrencyOption("SGD", "S$ SGD - Singapore Dollar", "Asia"),
    CurrencyOption("HKD", "HK$ HKD - Hong Kong Dollar", "Asia"),
    CurrencyOption("THB", "\U{0E3F} THB - Thai Baht", "Asia"),
    CurrencyOption("MYR", "RM MYR - Malaysian Ringgit", "Asia"),
    CurrencyOption("IDR", "Rp IDR - Indonesian Rupiah", "Asia"),
    CurrencyOption("PHP", "\U{20B1} PHP - Philippine Peso", "Asia"),
    CurrencyOption("VND", "\U{20AB} VND - Vietnamese Dong", "Asia")
  ]

  const Oceania: seq<CurrencyOption> := [
    CurrencyOption("AUD", "A$ AUD - Australian Dollar", "Oceania"),
    CurrencyOption("NZD", "NZ$ NZD - New Zealand Dollar", "Oceania")
  ]

  const MiddleEastAndAfrica: seq<CurrencyOption> := [
    CurrencyOption("AED", "\U{062F}.\U{0625} AED - UAE Dirham", "Middle East"),
    CurrencyOption("SAR", "SR SAR - Saudi Riyal", "Middle East"),
    CurrencyOption("TRY", "\U{20BA} TRY - Turkish Lira", "Middle East"),
    CurrencyOption("EGP", "E\U{00A3} EGP - Egyptian Pound", "Africa"),
    CurrencyOption("ZAR", "R ZAR - South African Rand", "Africa")
  ]

  /** `CURRENCY_OPTIONS`. */
  const Options: seq<CurrencyOption> := Europe + EasternEurope + Americas + Asia + Oceania + MiddleEastAndAfrica

  const CommonCurrencies: seq<Common> := [
    Common("EUR", "\U{20AC} EUR - Euro"),
    Common("USD", "$ USD - US Dollar"),
    Common("GBP", "\U{00A3} GBP - British Pound"),
    Common("JPY", "\U{00A5} JPY - Japanese Yen"),
    Common("CHF", "CHF - Swiss Franc"),
    Common("CAD", "C$ CAD - Canadian Dollar"),
    Common("AUD", "A$ AUD - Australian Dollar"),
    Common("CNY", "\U{00A5} CNY - Chinese Yuan")
  ]

  /** The regions of `s` in order of first appearance: the key order of the grouped object. */
  function Regions(s: seq<CurrencyOption>): seq<string> {
    if s == [] then []
    else
      var earlier := Regions(s[..|s| - 1]);
      if s[|s| - 1].region in earlier then earlier else earlier + [s[|s| - 1].region]
  }

  /** The options of `s` in region `r`, in their order in `s`. */
  function InRegion(s: seq<CurrencyOption>, r: string): seq<CurrencyOption> {
    if s == [] then []
    else InRegion(s[..|s| - 1], r) + (if s[|s| - 1].region == r then [s[|s| - 1]] else [])
  }

  predicate Distinct(keys: seq<string>) {
    forall i, j :: 0 <= i < j < |keys| ==> keys[i] != keys[j]
  }

  /**
   * `getCurrencyOptionsByRegion`, over any option list: `grouped` is the object it builds and `order` the
   * order its keys were created in. Each option is pushed onto the group of its region, which is created
   * empty on the region's first appearance.
   */
  method GroupByRegion(options: seq<CurrencyOption>) returns (grouped: map<string, seq<CurrencyOption>>, order: seq<string>)
    ensures order == Regions(options)
    ensures forall r :: r in grouped <==> r in order
    ensures forall r :: r in grouped ==> grouped[r] == InRegion(options, r)
    ensures forall r :: r in grouped ==> grouped[r] != []
  {
    grouped := map[];
    order := [];
    var i := 0;
    while i < |options|
      invariant 0 <= i <= |options|
      invariant order == Regions(options[..i])
      invariant forall r :: r in grouped <==> r in order
      invariant forall r :: r in grouped ==> grouped[r] == InRegion(options[..i], r)
    {
      var option := options[i];
      assert options[..i + 1][..i] == options[..i] && options[..i + 1][i] == option;
      if option.region !in grouped {
        GroupsNonEmpty(options[..i], option.region);
        grouped := grouped[option.region := []];
        order := order + [option.region];
      }
      grouped := grouped[option.region := grouped[option.region] + [option]];
      i := i + 1;
    }
    assert options[..i] == options;
    forall r | r in grouped ensures grouped[r] != [] {
      GroupsNonEmpty(options, r);
    }
  }

  /** Some option of `s` has region `r`. */
  predicate Occurs(s: seq<CurrencyOption>, r: string) {
    exists i :: 0 <= i < |s| && s[i].region == r
  }

  /** A region occurs in `s` exactly when it occurs before the last option or is the last option's. */
  lemma OccursSnoc(s: seq<CurrencyOption>, r: string)
    requires s != []
    ensures Occurs(s, r) <==> Occurs(s[..|s| - 1], r) || s[|s| - 1].region == r
  {
    var t := s[..|s| - 1];
    if Occurs(t, r) {
      var i :| 0 <= i < |t| && t[i].region == r;
      assert s[i] == t[i];
    }
    if Occurs(s, r) {
      var i :| 0 <= i < |s| && s[i].region == r;
      if i < |t| {
        assert t[i] == s[i];
      }
    }
  }

  /** A new key at the end keeps the keys distinct. */
  lemma DistinctSnoc(keys: seq<string>, x: string)
    requires Distinct(keys) && x !in keys
    ensures Distinct(keys + [x])
  {
  }

  /** The keys are exactly the regions that occur, each once. */
  lemma {:induction false} RegionsAreTheRegions(s: seq<CurrencyOption>)
    ensures Distinct(Regions(s))
    ensures forall r :: r in Regions(s) <==> Occurs(s, r)
  {
    if s != [] {
      var t := s[..|s| - 1];
      RegionsAreTheRegions(t);
      if s[|s| - 1].region !in Regions(t) {
        DistinctSnoc(Regions(t), s[|s| - 1].region);
      }
      forall r ensures r in Regions(s) <==> Occurs(s, r) {
        OccursSnoc(s, r);
      }
    }
  }

  /** A group holds exactly the options of its region. */
  lemma {:induction false} InRegionMembers(s: seq<CurrencyOption>, r: string, x: CurrencyOption)
    ensures x in InRegion(s, r) <==> x in s && x.region == r
  {
    if s != [] {
      var t := s[..|s| - 1];
      InRegionMembers(t, r, x);
      assert s == t + [s[|s| - 1]];
    }
  }

  /** A region that occurs has a non-empty group; one that does not has none. */
  lemma {:induction false} GroupsNonEmpty(s: seq<CurrencyOption>, r: string)
    ensures r in Regions(s) <==> InRegion(s, r) != []
  {
    if s != [] {
      GroupsNonEmpty(s[..|s| - 1], r);
    }
  }

  /** The sum of the group sizes over `keys`. */
  function Total(s: seq<CurrencyOption>, keys: seq<string>): nat {
    if keys == [] then 0 else Total(s, keys[..|keys| - 1]) + |InRegion(s, keys[|keys| - 1])|
  }

  /** One more option adds one to the total over distinct keys that contain its region, and nothing otherwise. */
  lemma {:induction false} TotalStep(t: seq<CurrencyOption>, x: CurrencyOption, keys: seq<string>)
    requires Distinct(keys)
    ensures Total(t + [x], keys) == Total(t, keys) + (if x.region in keys then 1 else 0)
  {
    if keys != [] {
      var front := keys[..|keys| - 1];
      assert Distinct(front);
      TotalStep(t, x, front);
      assert (t + [x])[..|t + [x]| - 1] == t;
      assert x.region in keys <==> x.region in front || x.region == keys[|keys| - 1];
    }
  }

  /** The group sizes add up to the number of options. */
  lemma {:induction false} GroupSizesSum(s: seq<CurrencyOption>)
    ensures Total(s, Regions(s)) == |s|
  {
    if s != [] {
      var t := s[..|s| - 1];
      var x := s[|s| - 1];
      assert s == t + [x];
      GroupSizesSum(t);
      RegionsAreTheRegions(t);
      TotalStep(t, x, Regions(t));
      if x.region !in Regions(t) {
        GroupsNonEmpty(t, x.region);
        assert Regions(s) == Regions(t) + [x.region];
        assert Regions(s)[..|Regions(s)| - 1] == Regions(t);
      }
    }
  }

  /** Where each common currency sits in the full list. */
  const CommonAt: seq<nat> := [0, 12, 1, 16, 2, 13, 27, 17]

  /** Every common currency is in the full list, with the same label. */
  lemma CommonCurrenciesListed(k: nat)
    requires k < |CommonCurrencies|
    ensures exists i :: 0 <= i < |Options| && Options[i].value == CommonCurrencies[k].value &&
                        Options[i].labelText == CommonCurrencies[k].labelText
  {
    var i := CommonAt[k];
    assert Options[i].value == CommonCurrencies[k].value && Options[i].labelText == CommonCurrencies[k].labelText;
  }
}
