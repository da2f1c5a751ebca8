# map-recommend in Dafny

A model of the core of **map-recommend**, a cloud function that finds yoga studios (or other
businesses) around a coordinate through the AMap (Gaode) "place around" web service and writes
a short recommendation reason for each place.

The modules follow the repository's files:

| module | file | what it holds |
|---|---|---|
| `TypeMap` | utils/typeMap.js | `normalizeType`, `normalizeBizType`, `toLocale` |
| `Reason` | utils/reason.js | the rule-based reason, the generation-service reason with its fallbacks, the batch, intent inference |
| `Amap` | utils/amap.js | `buildQueryString`, the request `searchAround` sends, its error handling and the formatting of the reply |
| `Router` | router/map-recommend.js | `handleMapRecommend` and `handleMapRecommendSimple` |
| `Entry` | index.js | `main`: parameter parsing, coordinate and radius normalisation, validation and the call into `searchAround` |
| `JsValues`, `Text`, `Uri`, `Records`, `Wrappers` | — | JavaScript values and coercions, string helpers, `encodeURIComponent` with its inverse, the place record, `Option`/`Result` |

JavaScript values are modelled by `JsValues.JsVal`. It has undefined, null, booleans, numbers,
strings and plain objects. Numbers are finite reals, NaN or an infinity. The conversions the
engine performs but the model cannot compute are fields of a `Runtime` value. These are
`Number(string)`, the text of a non-integral number, and `JSON.parse`. The same holds for
the other things outside the model:

- The HTTPS request to AMap is a `fetch` parameter from URL to outcome.
- The generation service is an `LlmService` for each record.
- The timing of the race against the five-second timer is a `RaceOutcome`.

An exception that escapes `searchAround`, the router or `main` becomes an `Err` or a 500
response. The exceptions the source catches itself are modelled the way it handles them: an
unparsable HTTP body counts as empty, and a failed or unavailable generation call falls back to
the rule reason. A photo entry that is null, which would throw while formatting a place, is not
represented (see "## Left out").

The configuration module is modelled as shipped. Both `require('../config')` and
`require('./config')` resolve to config.js, which defines `AMAP_KEY` but none of
`AMAP_RADIUS_DEFAULT`, `DEFAULT_RADIUS_M`, `LOG_LEVEL` or `LLM_CONFIG`.

A worked example shows the length limit at work. Take a studio 450 m away in 朝阳区 of 北京市,
rated 4.6, with the default intent. All four of its clauses apply, but joined they come to 34
characters. That is over the 30-character limit, so the code keeps only the first clause and
the intent phrase. The reason is "步行可达 450米 · 瑜伽练习优选" (`Reason.RuleReasonExample`).

## Model

| member | source | states |
|---|---|---|
| Text.Trim | map-recommend/utils/typeMap.js:8 | the result is a contiguous slice of the input with only white space removed before and after it, and has no white space at either end; it is empty exactly when the input is all white space; an already trimmed string is unchanged |
| Text.Canon | map-recommend/utils/typeMap.js:8 | the canonical form used by all three normalisers is the trimmed input with each ASCII capital lowered and every other character kept, so it has the trimmed length and no capitals; it is empty exactly for blank input |
| Text.CanonIdempotent | map-recommend/utils/typeMap.js:8 | canonicalising twice is the same as once |
| Text.SplitJoin | map-recommend/utils/amap.js:12 | fields without the separator, joined with it, are recovered by splitting at it |
| Text.JoinSplit | map-recommend/utils/amap.js:12 | splitting a string and re-joining the pieces gives the string back |
| Text.ParseNatText | map-recommend/utils/reason.js:18 | the decimal text of a whole number of metres reads back as that number |
| JsValues.Coalesce | map-recommend/index.js:36 | a `??` chain yields the first operand that is neither null nor undefined, or the last operand |
| JsValues.Merge | map-recommend/index.js:27 | in an object spread of query and body, a key the body owns takes the body's value and every other key keeps the query's |
| JsValues.TextOr | map-recommend/utils/typeMap.js:8 | `String(input \|\| '')` is empty for a falsy input and is `String(input)` for a truthy one, so a non-empty string is kept as it is |
| Records.WithReason | map-recommend/utils/reason.js:126 | setting the reason sets it and leaves every other field of the place unchanged |
| TypeMap.NormalizeType | map-recommend/utils/typeMap.js:7-46 | the route is always map-recommend or yoga, and blank input routes to map-recommend |
| TypeMap.RouteKeyFragments | map-recommend/utils/typeMap.js:14-43 | the exact-match table agrees with the fragment rules: yoga keys have no map fragment and, apart from "yujia", a yoga fragment; map keys have a map fragment |
| TypeMap.MapFragmentWins | map-recommend/utils/typeMap.js:37-39 | any label containing "map", "地图" or "poi" routes to map-recommend, even if it also names yoga |
| TypeMap.NormalizeTypeYogaIff | map-recommend/utils/typeMap.js:7-46 | a label routes to yoga exactly when it is "yujia" or holds a yoga fragment and no map fragment |
| TypeMap.RouteTokenFixed | map-recommend/utils/typeMap.js:32-34 | each route name routes to itself |
| TypeMap.NormalizeTypeIgnoresCase | map-recommend/utils/typeMap.js:8 | routing ignores ASCII case and surrounding white space |
| TypeMap.NormalizeTypeIdempotent | map-recommend/utils/typeMap.js:7-46 | routing a route name again leaves it unchanged |
| TypeMap.YogaKeyword | map-recommend/utils/typeMap.js:56 | the yoga keyword is 瑜伽 exactly for locale "zh" and "yoga" otherwise |
| TypeMap.NormalizeBizType | map-recommend/utils/typeMap.js:52-71 | the result is the yoga keyword of the locale or the canonical input, and blank input gives the yoga keyword |
| TypeMap.NormalizeBizTypeYogaIff | map-recommend/utils/typeMap.js:53-67 | an input collapses to the yoga keyword exactly when it is blank, "pose" or "yujia", or contains 瑜 or "yoga"; the variant set adds nothing beyond these |
| TypeMap.NormalizeBizTypeIdempotent | map-recommend/utils/typeMap.js:52-71 | normalising a business keyword twice is the same as once |
| TypeMap.YogaSynonymsAgree | map-recommend/utils/typeMap.js:22-28 | every yoga alias of the routing table also selects the yoga business keyword, both directly and after routing |
| TypeMap.ToLocale | map-recommend/utils/typeMap.js:76-86 | the locale is "zh" exactly when the canonical hint starts with "zh" or is "cn" or "chinese", and "en" otherwise (including a blank hint) |
| TypeMap.LocaleTokenFixed | map-recommend/utils/typeMap.js:80-85 | each locale name selects itself |
| TypeMap.ToLocaleIgnoresCase | map-recommend/utils/typeMap.js:77 | the locale ignores ASCII case and surrounding white space |
| TypeMap.ToLocaleIdempotent | map-recommend/utils/typeMap.js:76-86 | normalising a locale twice is the same as once |
| Reason.IntentPhrase | map-recommend/utils/reason.js:42-53 | a known intent gets its table phrase, any other gets "适合…体验" around it, and the phrase is never empty |
| Reason.KmTenths | map-recommend/utils/reason.js:16 | the kilometre figure is the distance in tenths of a kilometre, rounded half up |
| Reason.ReadTenthsText | map-recommend/utils/reason.js:16-22 | the printed kilometre figure reads back as the same number of tenths |
| Reason.DistanceClause | map-recommend/utils/reason.js:15 | a distance clause appears exactly when the distance is present, non-zero and under 5000 m |
| Reason.TierTextReadsBack | map-recommend/utils/reason.js:14-24 | each phrasing of the distance clause (walking metres, "about" kilometres, "within" kilometres) reads back to the tier and figure it was written from |
| Reason.DistanceClauseReadsBack | map-recommend/utils/reason.js:14-24 | the clause states its tier and figure faithfully: metres up to 500, "about" km up to 2000, "within" km beyond |
| Reason.AreaClause | map-recommend/utils/reason.js:27-29 | the district clause appears exactly when the district is non-empty and differs from the city, and names it |
| Reason.RatingClause | map-recommend/utils/reason.js:31-39 | "高评分推荐" exactly from 4.5, "口碑不错" exactly in [4.0, 4.5), nothing otherwise |
| Reason.RuleClauses | map-recommend/utils/reason.js:12-54 | the clauses are exactly the distance, district and rating clauses that apply, in that order, followed by the intent phrase, and nothing else |
| Reason.BuildReasonByRule | map-recommend/utils/reason.js:56-63 | the reason starts with the first clause and ends with the intent phrase; it is the full join when that fits in 30 characters, otherwise first clause and intent phrase |
| Reason.JoinContainsParts | map-recommend/utils/reason.js:57 | every part occurs in the joined text |
| Reason.RuleReasonMentionsClauses | map-recommend/utils/reason.js:11-64 | a reason that fits mentions the district, rating and distance clauses that apply, and a distance clause always leads |
| Reason.IntentOnlyReason | map-recommend/utils/reason.js:53-61 | with no other clause the reason is the intent phrase, doubled around the separator when that phrase alone is over 30 characters |
| Reason.RuleReasonExample | map-recommend/utils/reason.js:11-64 | the 450 m / 朝阳区 / 4.6 studio gets "步行可达 450米 · 瑜伽练习优选" |
| Reason.Clip | map-recommend/utils/reason.js:106-108 | a reply of at most 30 characters is kept; a longer one keeps its first 30 and gains "..." |
| Reason.ReplyReason | map-recommend/utils/reason.js:105-110 | a reply is used exactly when the service answered with non-blank text, and a used reply is non-empty and at most 33 characters |
| Reason.BuildReasonByLLM | map-recommend/utils/reason.js:69-116 | the reason is never empty; without credentials or module, on a thrown call and on a blank reply it is the rule reason; otherwise it is at most 33 characters |
| Reason.LlmReplyUsed | map-recommend/utils/reason.js:99-110 | with service configured and a non-blank reply, the reason is that reply trimmed and clipped |
| Reason.ShippedLlmFallsBack | map-recommend/utils/reason.js:72-78 | with the shipped configuration the generation path always gives the rule reason |
| Reason.ItemReason | map-recommend/utils/reason.js:124-134 | each record gets a non-empty reason: the generation-service reason when generation is on, the rule reason when it is off |
| Reason.BatchBuildReasons | map-recommend/utils/reason.js:121-143 | the batch keeps the order and number of records, changes nothing but the reason, and gives each record its own reason |
| Reason.BatchReasons | map-recommend/utils/reason.js:121-143 | every record leaves the batch with a reason, the rule reason when generation is off |
| Reason.BatchIsolation | map-recommend/utils/reason.js:122-137 | a record's outcome depends only on its own service call, so one failure does not affect the others |
| Reason.FailedCallGetsRuleReason | map-recommend/utils/reason.js:112-115 | a record whose service call throws gets the rule reason |
| Reason.InferIntentFromSequence | map-recommend/utils/reason.js:148-163 | a known training sequence maps to its intent, anything else to 瑜伽练习 |
| Reason.InferredIntentHasPhrase | map-recommend/utils/reason.js:148-163 | an inferred intent has its own phrase exactly unless the sequence is flexibility, stress-relief or balance |
| Uri.EncodeUriComponent | map-recommend/utils/amap.js:11 | the encoded value consists of unreserved characters and '%' only, and unreserved text is unchanged |
| Uri.DecodeEncode | map-recommend/utils/amap.js:11 | `decodeURIComponent` recovers every encoded value |
| Amap.Kept | map-recommend/utils/amap.js:10 | every surviving value is present (not undefined, null or empty), and no more entries than given survive |
| Amap.KeptMembers | map-recommend/utils/amap.js:10 | an entry survives exactly when it was given with a present value |
| Amap.KeptAllPresent | map-recommend/utils/amap.js:10 | when every value is present nothing is dropped |
| Amap.KeptConcat | map-recommend/utils/amap.js:10 | filtering distributes over concatenation, so survivors keep their order and multiplicity |
| Amap.BuildQueryString | map-recommend/utils/amap.js:8-13 | the query string is empty exactly when no parameter survives, and otherwise starts with the first survivor's `k=v` field |
| Amap.FieldShape | map-recommend/utils/amap.js:11 | a field contains no '&' and reads back as its key and the text of its value |
| Amap.ParseRenderedFields | map-recommend/utils/amap.js:11 | a list of fields reads back as the keys with the texts of their values |
| Amap.KeptPlain | map-recommend/utils/amap.js:10 | keys free of '&' and '=' stay so after filtering, which the round trip needs |
| Amap.QueryStringRoundTrip | map-recommend/utils/amap.js:8-13 | the query string reads back as exactly the surviving parameters, in order, each with its text |
| Amap.OptionsFrom | map-recommend/utils/amap.js:41 | destructuring a non-nullish primitive gives every option undefined |
| Amap.Keywords | map-recommend/utils/amap.js:52-62 | yoga (in either spelling) gives the Chinese keyword list for locale "zh" and the English list otherwise; any other business is its own keyword |
| Amap.YogaSpellingsAgree | map-recommend/utils/amap.js:52-57 | "yoga" and "瑜伽" produce the same request URL |
| Amap.RequestUrl | map-recommend/utils/amap.js:78 | the URL is the place-around endpoint followed by the query string |
| Amap.RequestQueryContents | map-recommend/utils/amap.js:65-78 | the request carries key, "lng,lat", radius or 3000, offset 20, page 1, the keywords when present, extensions all and output json; the empty types entry is dropped |
| Amap.NonEmpty | map-recommend/utils/amap.js:107 | the photo URLs kept are exactly the non-empty ones, and a list without empty URLs is kept whole |
| Amap.NonEmptyConcat | map-recommend/utils/amap.js:107 | the filter distributes over concatenation, so the kept URLs keep their order and multiplicity |
| Amap.Photos | map-recommend/utils/amap.js:106-108 | at most three photos, the first three non-empty URLs, none without a photo list |
| Amap.FormatPoi | map-recommend/utils/amap.js:93-109 | a formatted place keeps id, name, type, type code, address, location, telephone, district, city and distance; has a rating exactly when the provider gave a non-empty one, with that value; has a cost exactly when the business extension gives a non-empty one, with that value; its photos are the first three non-empty URLs; and it has no reason |
| Amap.FormatPois | map-recommend/utils/amap.js:93-109 | every provider place is formatted, in order |
| Amap.SummaryLine | map-recommend/utils/amap.js:114-119 | summary line i starts with "推荐", the one-based rank, "：" and the place's name |
| Amap.Summary | map-recommend/utils/amap.js:113-119 | the summary covers the first three places, one line each, in order |
| Amap.SearchAround | map-recommend/utils/amap.js:40-127 | a missing key fails with "Missing AMAP_KEY" and then a falsy coordinate with "Missing lat/lng"; a result's total is its number of places |
| Amap.SearchAroundOkOnlyWhenAccepted | map-recommend/utils/amap.js:84-87 | a search succeeds only with key and coordinates present and a reply whose status is "1" |
| Amap.SearchAroundErrors | map-recommend/utils/amap.js:81-87 | a failed request passes its error on; a rejected reply fails with "AMap API error: " and its info, infocode or a placeholder |
| Amap.SearchAroundResults | map-recommend/utils/amap.js:89-126 | an accepted reply gives every provider place formatted in order, with a summary exactly when reasons are wanted and places exist |
| Router.WithDefault | map-recommend/router/map-recommend.js:21-22 | a destructuring default applies exactly when the property is undefined |
| Router.Intent | map-recommend/router/map-recommend.js:61-63 | a sequence type decides the intent; without one a truthy user intent is used as text; without both the default intent is used |
| Router.Enrich | map-recommend/router/map-recommend.js:67-81 | the race changes only reasons; records whose batch finished in time carry their reason, the rest are untouched |
| Router.Handle | map-recommend/router/map-recommend.js:13-126 | the handler answers 200 with data, or 400 or 500 without; a nullish event is an internal error; a 200 answer implies numeric coordinates and a successful search |
| Router.HandleValidation | map-recommend/router/map-recommend.js:31-48 | 400 exactly when a coordinate is not a number or is out of range, echoing the coordinates received when not a number |
| Router.NaNReachesSearch | map-recommend/router/map-recommend.js:42-48 | NaN coordinates pass validation |
| Router.HandleSearchFailure | map-recommend/router/map-recommend.js:104-124 | a failed search gives the internal error response |
| Router.HandleSuccess | map-recommend/router/map-recommend.js:84-100 | a successful search answers 200 with all places, changed at most in their reasons, their total and the search parameters used |
| Router.HandleWithoutReasons | map-recommend/router/map-recommend.js:59-98 | with reasons off, the places are the search's own and `hasReasons` echoes the flag |
| Router.HandleWithReasons | map-recommend/router/map-recommend.js:58-98 | when the batch cannot be overtaken, every place carries its reason and `hasReasons` is true exactly when places were found |
| Router.HandleTimerFirst | map-recommend/router/map-recommend.js:68-98 | when the timer wins, places whose reasons were already written carry their own item reason, the rest are returned as found, and `hasReasons` is true exactly when some returned place has a reason |
| Router.ShippedConfigUsesRules | map-recommend/router/map-recommend.js:68-75 | with the shipped configuration every returned place carries the rule reason |
| Router.PositionalCall | map-recommend/router/map-recommend.js:53 | calling `searchAround` with positional arguments always fails with "Missing AMAP_KEY" |
| Router.AsWrittenAlwaysFails | map-recommend/router/map-recommend.js:13-126 | as written the handler never answers 200; every request that passes validation ends in the internal error |
| Router.HandleMapRecommendSimple | map-recommend/router/map-recommend.js:131-136 | the simple handler never answers 200 as written, and non-numeric coordinates give the 400 response |
| Router.EchoedIntent | map-recommend/router/map-recommend.js:95 | the echoed intent is the user's when truthy, else the intent inferred from a truthy sequence type, else null |
| Router.HandleMapRecommend | map-recommend/router/map-recommend.js:13-126 | the handler as written, with its positional call, never answers 200 and never carries data |
| Router.SimpleHasNoReasons | map-recommend/router/map-recommend.js:131-136 | over a working search, the simple handler returns the search's places untouched with `hasReasons` false |
| Entry.Failure | map-recommend/index.js:90-93 | an exception gives 500 with its message, or a non-empty placeholder, and no data |
| Entry.HttpBody | map-recommend/index.js:23-26 | a string body is parsed, and an unparsable one counts as empty; any other truthy body is taken as it is, and a falsy one is empty |
| Entry.Params | map-recommend/index.js:17-32 | HTTP events merge query and body; a string event that parses gives the parsed value; other non-strings are taken as they are, a falsy one as `{}`; only an unparsable string event fails |
| Entry.BodyOverridesQuery | map-recommend/index.js:27 | a parameter the body defines overrides the query's |
| Entry.SearchRadius | map-recommend/index.js:52 | a positive requested radius is used; otherwise the configured default when it is truthy, and 3000 m when it is not |
| Entry.Normalize | map-recommend/index.js:35-52 | coordinates come from the first non-nullish alias; the locale is `toLocale` of the locale hint; the route is `normalizeType` of type, else bizType, else "map-recommend"; the business keyword is `normalizeBizType` of bizType, else type, else "yoga", in that locale; the radius is the search radius; reasons are wanted exactly when the flag is truthy |
| Entry.LatAliases | map-recommend/index.js:36 | `lat` wins over `latitude`, which is used only when `lat` is nullish |
| Entry.YogaRequestKeywords | map-recommend/index.js:51 | a yoga-like business asks the provider for the yoga keyword list of the locale |
| Entry.ShippedRadius | map-recommend/index.js:52 | with the shipped configuration a non-positive radius falls back to 3000 m |
| Entry.Respond | map-recommend/index.js:57-88 | non-finite coordinates give 400; a missing key then gives 500 "AMAP_KEY 未配置"; otherwise a successful search gives 200 "success" with its result and a failed one gives 500 with its message |
| Entry.Main | map-recommend/index.js:14-94 | the entry point answers 200 with data and "success", or 400 or 500 without, deciding on the normalised parameters; parameters that are null or undefined give 500 with the engine's message for reading `lat` of null |
| Entry.MainCoordinateCheck | map-recommend/index.js:57-59 | 400 exactly when parameters were read and a coordinate is not a finite number, always with the missing-coordinates message |
| Entry.MainKeyCheck | map-recommend/index.js:61-64 | finite coordinates without a key give 500 "AMAP_KEY 未配置" |
| Entry.ZeroCoordinateRejected | map-recommend/index.js:77-85 | a zero latitude or longitude passes the entry point's check but the search refuses it, so the answer is 500 "Missing lat/lng" |
| Entry.MainUnparsableEvent | map-recommend/index.js:28-29 | an unparsable string event gives 500 with the parser's message |
| Entry.MainSuccess | map-recommend/index.js:77-88 | a 200 answer carries exactly the successful search's result |
| Entry.MainSearchOutcome | map-recommend/index.js:77-93 | with parameters read, finite coordinates and a key, a successful search gives 200 "success" with its result and a failed one gives 500 with its message |

## Left out

- Logging is left out everywhere. This covers `logger`, `console.log` of the request URL and the `log` helper of index.js. None of it affects a result.
- httpGetJSON is left out: the HTTPS request and JSON decoding of the provider's reply are the `fetch` parameter.
- utils/call_llm.js and utils/llm.js are left out. The generation service is an `LlmService` parameter, and whether the module loads is `LlmConfig.moduleAvailable`.
- `searchText` is left out. It is an unused stub that always returns no places.
- Timers are not modelled. The five-second race is abstracted as `RaceOutcome`. Reasons a losing batch writes into the records after the response has been built are not modelled.
- The router's debug-mode 500 response is left out. It exists only when `LOG_LEVEL` is "debug", and the shipped configuration has no `LOG_LEVEL`. The stack trace is not modelled either. The 400 debug echo is the `received` field.
- Lower-casing covers ASCII letters only, where `toLowerCase` folds every Unicode capital. This changes results for some non-ASCII input. "POİ yoga" lower-cases in JavaScript to "poi̇ yoga", which contains "poi" and routes to map-recommend, while the model keeps "İ" and routes it to yoga. `normalizeBizType("CAFÉ")` asks the provider for "café", while the model asks for "cafÉ". The Chinese keywords the tables hold have no case and are unaffected.
- TypeMap.NormalizeType: the route table is a plain object literal, so keys it inherits from `Object.prototype` also match. `normalizeType("constructor")` returns the function `Object`, and `normalizeType(" __PROTO__ ")` returns `Object.prototype`. Routing `Object` again gives "map-recommend". So the source is neither limited to the two routes nor idempotent on these inputs, and `TypeMap.NormalizeTypeIdempotent` and the two-route guarantee hold for the model only. The route is only logged (index.js:49,54), so no response depends on it.
- Keys inherited from `Object.prototype` are not modelled. Intent or sequence names such as "constructor" would find an inherited member in the source's object tables. The model treats such names as absent.
- `JsVal` has no arrays. Parameter values that are arrays are not modelled. The provider's place list and photo list are modelled as optional sequences in `Amap.Reply`.
- Provider fields are strings, and an absent text field reads as "". A photo entry that is null would throw in the source, and the model does not represent it.
- Distances are whole metres. Ratings are kept as text together with their value in tenths rounded down. Since the thresholds 4.0 and 4.5 are whole tenths, this classifies every rating as `parseFloat` does.
- String lengths count code points, not UTF-16 units. A character outside the Basic Multilingual Plane counts once in the model and twice in the source. This matters for the 30-character limits.
- Spreading a string body is not modelled: copying its character indices as keys is only approximated by treating any non-object as empty.
- `routeType` in index.js is computed and only logged. It is modelled as a field of `Entry.Normalized` that nothing reads.
- The message for reading `lat` from a `null` parameters value is fixed to V8's wording (`NullParamsMessage`); other engines word it differently.

## Findings

| source | as written | input that shows it | evidently intended | confidence | as-written member | corrected member |
|---|---|---|---|---|---|---|
| map-recommend/router/map-recommend.js:53 | `searchAround(standardLat, standardLng, standardBizType, standardRadius)` passes positional arguments to a function that destructures one options object, and the handler uses the result as an array of places | `{lat: 39.9, lng: 116.4}`: the options are destructured from the number 39.9, so `key` is undefined, `searchAround` throws "Missing AMAP_KEY" and the handler answers 500 | call `searchAround` with an options object (including the key) and use its `pois` list, so that a valid request is answered with the places found (`Router.HandleSuccess` proves this of the corrected handler) | not executed | Router.AsWrittenAlwaysFails | Router.Handle |
