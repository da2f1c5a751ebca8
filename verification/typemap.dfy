/**
  The three normalisers of utils/typeMap.js. Each first takes the canonical form of its input
  (`String(input || '').trim().toLowerCase()`, here `Canon`; callers pass "" for an absent value)
  and then consults a fixed table, keyword fragments and a default.
 */
module TypeMap {
  import opened Text

  const MapRecommend := "map-recommend"
  const Yoga := "yoga"

  /** Exact-match routing table. */
  const RouteTable: map<string, string> := map[
    "map" := MapRecommend, "map-recommend" := MapRecommend, "地图" := MapRecommend, "poi" := MapRecommend,
    "yoga" := Yoga, "pose" := Yoga, "瑜伽" := Yoga, "瑜珈" := Yoga, "yujia" := Yoga,
    "瑜伽馆" := Yoga, "瑜珈馆" := Yoga
  ]

  /** Fragments that route to the map recommender; checked before the yoga fragments. */
  predicate HasMapFragment(s: string) {
    Contains(s, "map") || Contains(s, "地图") || Contains(s, "poi")
  }

  predicate HasYogaFragment(s: string) {
    Contains(s, "yoga") || Contains(s, "瑜") || Contains(s, "pose")
  }

  /** Routing of a label already in canonical form. */
  function Route(s: string): (r: string)
    ensures r == MapRecommend || r == Yoga
  {
    if s == "" then MapRecommend
    else if s in RouteTable then RouteTable[s]
    else if HasMapFragment(s) then MapRecommend
    else if HasYogaFragment(s) then Yoga
    else MapRecommend
  }

  /** `normalizeType`: route an arbitrary label to one of the two handlers. */
  function NormalizeType(input: string): (r: string)
    ensures r == MapRecommend || r == Yoga
    ensures AllSpace(input) ==> r == MapRecommend
  {
    Route(Canon(input))
  }

  /** What the routing table's keys have in common with the fragment rules: a yoga key holds no
      map fragment and (apart from "yujia") a yoga fragment; a map key holds a map fragment. */
  lemma RouteKeyFragments(s: string)
    requires s in RouteTable
    ensures RouteTable[s] == Yoga ==> !HasMapFragment(s) && (s == "yujia" || HasYogaFragment(s))
    ensures RouteTable[s] == MapRecommend ==> HasMapFragment(s)
  {
    if s in MapKeys {
      MapKeyFragment(s);
    } else {
      assert s in YogaKeys && RouteTable[s] == Yoga;
      YogaKeyNoMapFragment(s);
      YogaKeyFragment(s);
    }
  }

  /** The keys of the routing table, by destination. */
  const MapKeys: set<string> := {"map", "map-recommend", "地图", "poi"}
  const YogaKeys: set<string> := {"yoga", "pose", "瑜伽", "瑜珈", "yujia", "瑜伽馆", "瑜珈馆"}

  lemma MapKeyFragment(s: string)
    requires s in MapKeys
    ensures RouteTable[s] == MapRecommend && HasMapFragment(s)
  {
    if s == "map" || s == "map-recommend" {
      assert StartsWith(s, "map");
    } else if s == "地图" {
      assert StartsWith(s, "地图");
    } else {
      assert StartsWith(s, "poi");
    }
  }

  lemma YogaKeyNoMapFragment(s: string)
    requires s in YogaKeys
    ensures !HasMapFragment(s)
  {
    NotContains(s, "map", 0);
    NotContains(s, "地图", 0);
    NotContains(s, "poi", if s == "pose" then 2 else 0);
  }

  lemma YogaKeyFragment(s: string)
    requires s in YogaKeys
    ensures s == "yujia" || HasYogaFragment(s)
  {
    if s == "yoga" {
      assert StartsWith(s, "yoga");
    } else if s == "pose" {
      assert StartsWith(s, "pose");
    } else if s != "yujia" {
      assert StartsWith(s, "瑜");
    }
  }

  /** Containment precedence: a label holding a map fragment routes to the map recommender,
      whatever yoga fragment it also holds. */
  lemma MapFragmentWins(input: string)
    requires HasMapFragment(Canon(input))
    ensures NormalizeType(input) == MapRecommend
  {
    var s := Canon(input);
    if s in RouteTable {
      RouteKeyFragments(s);
    }
  }

  /** Exactly which labels route to yoga: the table alias "yujia", or a yoga fragment without a
      map fragment. */
  lemma NormalizeTypeYogaIff(input: string)
    ensures NormalizeType(input) == Yoga
        <==> (Canon(input) == "yujia" || (!HasMapFragment(Canon(input)) && HasYogaFragment(Canon(input))))
  {
    var s := Canon(input);
    if s in RouteTable {
      RouteKeyFragments(s);
    }
    if s == "" {
      NotContains(s, "yoga", 0);
      NotContains(s, "瑜", 0);
      NotContains(s, "pose", 0);
    }
  }

  /** A routing token is canonical and routes to itself. */
  lemma RouteTokenFixed(token: string)
    requires token == MapRecommend || token == Yoga
    ensures Canon(token) == token && Route(token) == token
  {
    TokenCanonical(token);
    TokenRoutes(token);
  }

  /** The route and locale names are their own canonical forms. */
  lemma TokenCanonical(token: string)
    requires token == MapRecommend || token == Yoga || token == "zh" || token == "en"
    ensures Canon(token) == token
  {
    LowerWordCanon(token);
  }

  lemma TokenRoutes(token: string)
    requires token == MapRecommend || token == Yoga
    ensures Route(token) == token
  {
    assert token in RouteTable && RouteTable[token] == token;
    TableRoute(token);
  }

  /** A label in the table routes by the table. */
  lemma TableRoute(s: string)
    requires s in RouteTable
    ensures Route(s) == RouteTable[s]
  {
    assert s != "";
  }

  /** Routing ignores case and surrounding white space. */
  lemma NormalizeTypeIgnoresCase(input: string)
    ensures NormalizeType(Canon(input)) == NormalizeType(input)
  {
    CanonIdempotent(input);
  }

  /** A routing token routes to itself, so routing twice changes nothing. */
  lemma NormalizeTypeIdempotent(input: string)
    ensures NormalizeType(NormalizeType(input)) == NormalizeType(input)
  {
    RouteTokenFixed(NormalizeType(input));
  }

  /** The search keyword for the yoga category in the given locale. */
  function YogaKeyword(locale: string): (k: string)
    ensures k == "瑜伽" || k == "yoga"
    ensures k == "瑜伽" <==> locale == "zh"
  {
    if locale == "zh" then "瑜伽" else "yoga"
  }

  const YogaVariants: set<string> := {"yoga", "pose", "yujia", "瑜伽", "瑜珈", "瑜伽馆", "瑜珈馆", "瑜伽馆yoga"}

  predicate IsYogaBusiness(raw: string) {
    raw in YogaVariants || Contains(raw, "瑜") || Contains(raw, "yoga")
  }

  /** Business-type normalisation of a label already in canonical form. */
  function Business(raw: string, locale: string): string {
    if raw == "" then YogaKeyword(locale)
    else if IsYogaBusiness(raw) then YogaKeyword(locale)
    else raw
  }

  /** `normalizeBizType`: collapse every yoga synonym (and the empty label) to the locale's
      keyword and pass every other label through in canonical form. */
  function NormalizeBizType(input: string, locale: string): (r: string)
    ensures r == YogaKeyword(locale) || r == Canon(input)
    ensures AllSpace(input) ==> r == YogaKeyword(locale)
  {
    Business(Canon(input), locale)
  }

  /** Which labels collapse to the yoga keyword, without reference to the variant set: empty,
      "pose", "yujia", or anything containing 瑜 or "yoga". */
  lemma NormalizeBizTypeYogaIff(input: string, locale: string)
    ensures NormalizeBizType(input, locale) == YogaKeyword(locale)
        <==> (|| Canon(input) == "" || Canon(input) == "pose" || Canon(input) == "yujia"
              || Contains(Canon(input), "瑜") || Contains(Canon(input), "yoga"))
  {
    var raw := Canon(input);
    if raw in YogaVariants {
      VariantCovered(raw);
    }
  }

  /** Each member of the variant set is "pose", "yujia" or holds one of the yoga fragments. */
  lemma VariantCovered(raw: string)
    requires raw in YogaVariants
    ensures raw == "pose" || raw == "yujia" || Contains(raw, "瑜") || Contains(raw, "yoga")
  {
    if raw == "yoga" {
      assert StartsWith(raw, "yoga");
    } else if raw != "pose" && raw != "yujia" {
      assert |raw| >= 1 && raw[..1] == "瑜";
      assert StartsWith(raw, "瑜");
    }
  }

  /** For a fixed locale, normalising a business type twice changes nothing. */
  lemma NormalizeBizTypeIdempotent(input: string, locale: string)
    ensures NormalizeBizType(NormalizeBizType(input, locale), locale) == NormalizeBizType(input, locale)
  {
    var r := NormalizeBizType(input, locale);
    var raw := Canon(input);
    if raw == "" || IsYogaBusiness(raw) {
      KeywordFixed(r);
    } else {
      CanonIdempotent(input);
    }
  }

  /** Every synonym of the yoga category, in any case and with any surrounding white space,
      routes to yoga and searches with the locale's yoga keyword, also when routed first. */
  lemma YogaSynonymsAgree(input: string, locale: string)
    requires Canon(input) in YogaKeys
    ensures NormalizeType(input) == Yoga
    ensures NormalizeBizType(input, locale) == YogaKeyword(locale)
    ensures NormalizeBizType(NormalizeType(input), locale) == YogaKeyword(locale)
  {
    SynonymRoutes(Canon(input));
    KeywordFixed(Yoga);
  }

  /** A yoga keyword is canonical and names the yoga business. */
  lemma KeywordFixed(k: string)
    requires k == "瑜伽" || k == "yoga"
    ensures Canon(k) == k && k != "" && IsYogaBusiness(k)
  {
    if k == "yoga" {
      LowerWordCanon(k);
    } else {
      CanonOfToken(k);
    }
    assert k in YogaVariants;
  }

  /** The yoga aliases of the routing table route to yoga and name the yoga business. */
  lemma SynonymRoutes(raw: string)
    requires raw in YogaKeys
    ensures Route(raw) == Yoga && raw != "" && IsYogaBusiness(raw)
  {
    assert raw in RouteTable && RouteTable[raw] == Yoga;
    TableRoute(raw);
  }

  /** Locale of a hint already in canonical form. */
  function LocaleOf(v: string): string {
    if StartsWith(v, "zh") || v == "cn" || v == "chinese" then "zh" else "en"
  }

  /** `toLocale`: "zh" for a zh-prefixed tag or the aliases "cn" and "chinese", otherwise "en". */
  function ToLocale(input: string): (r: string)
    ensures r == "zh" || r == "en"
    ensures r == "zh" <==> StartsWith(Canon(input), "zh") || Canon(input) == "cn" || Canon(input) == "chinese"
    ensures AllSpace(input) ==> r == "en"
  {
    LocaleOf(Canon(input))
  }

  /** A locale token is canonical and selects itself. */
  lemma LocaleTokenFixed(token: string)
    requires token == "zh" || token == "en"
    ensures Canon(token) == token && LocaleOf(token) == token
  {
    TokenCanonical(token);
    if token == "zh" {
      assert StartsWith(token, "zh");
    } else {
      assert token[0] != 'z';
      assert !StartsWith(token, "zh");
    }
  }

  /** Locale selection ignores case and surrounding white space. */
  lemma ToLocaleIgnoresCase(input: string)
    ensures ToLocale(Canon(input)) == ToLocale(input)
  {
    CanonIdempotent(input);
  }

  /** Locale tokens are fixed points, so selecting twice changes nothing. */
  lemma ToLocaleIdempotent(input: string)
    ensures ToLocale(ToLocale(input)) == ToLocale(input)
  {
    LocaleTokenFixed(ToLocale(input));
  }
}
