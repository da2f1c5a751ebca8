/**
  utils/amap.js: the AMap nearby-search client. It validates its options, chooses search
  keywords, builds the request URL with an encoded query string, interprets the provider's reply,
  formats each place into a `Poi` and optionally writes short summary lines. The HTTPS request
  and JSON decoding happen outside the model: `fetch` maps the URL to what the request yielded.
 */
module Amap {
  import opened Wrappers
  import opened Text
  import opened JsValues
  import opened Records
  import opened Uri

  const Endpoint := "https://restapi.amap.com/v3/place/around?"
  const DefaultRadius := 3000
  const PageSize := 20
  const SummaryCount := 3
  const PhotoCount := 3
  const ZhYogaKeywords := "瑜伽|瑜珈|yoga|瑜伽馆|瑜伽会所|瑜伽工作室"
  const EnYogaKeywords := "yoga|yoga studio|yoga center|pilates"

  function IntValue(n: int): JsVal {
    Num(Finite(n as real))
  }

  // ---------------------------------------------------------------- query string

  /** `v !== undefined && v !== null && v !== ''`. */
  predicate Present(v: JsVal) {
    !v.Undefined? && !v.Null? && v != Str("")
  }

  /** The parameters that survive the filter, in order: every present entry and nothing else. */
  function Kept(params: seq<(string, JsVal)>): (r: seq<(string, JsVal)>)
    ensures |r| <= |params|
    ensures forall i :: 0 <= i < |r| ==> Present(r[i].1)
  {
    if params == [] then []
    else
      var rest := Kept(params[1..]);
      if Present(params[0].1) then [params[0]] + rest else rest
  }

  /** An entry survives the filter exactly when it was passed in with a present value. */
  lemma {:induction false} KeptMembers(params: seq<(string, JsVal)>)
    ensures forall kv :: kv in Kept(params) <==> kv in params && Present(kv.1)
    decreases |params|
  {
    if params != [] {
      KeptMembers(params[1..]);
      assert params == [params[0]] + params[1..];
    }
  }

  /** With every value present nothing is dropped. */
  lemma {:induction false} KeptAllPresent(params: seq<(string, JsVal)>)
    requires forall i :: 0 <= i < |params| ==> Present(params[i].1)
    ensures Kept(params) == params
    decreases |params|
  {
    if params != [] {
      assert forall i :: 0 <= i < |params[1..]| ==> Present(params[1..][i].1) by {
        forall i | 0 <= i < |params[1..]|
          ensures Present(params[1..][i].1)
        {
          assert params[1..][i] == params[i + 1];
        }
      }
      KeptAllPresent(params[1..]);
      assert params == [params[0]] + params[1..];
    }
  }

  /** Filtering distributes over concatenation, so the survivors keep their relative order. */
  lemma {:induction false} KeptConcat(a: seq<(string, JsVal)>, b: seq<(string, JsVal)>)
    ensures Kept(a + b) == Kept(a) + Kept(b)
    decreases |a|
  {
    if a != [] {
      assert (a + b)[1..] == a[1..] + b;
      KeptConcat(a[1..], b);
    } else {
      assert a + b == b;
    }
  }

  /** `k=encodeURIComponent(String(v))`; the key itself is not encoded. */
  function Field(rt: Runtime, kv: (string, JsVal)): string {
    kv.0 + "=" + EncodeUriComponent(ToText(rt, kv.1))
  }

  function Fields(rt: Runtime, params: seq<(string, JsVal)>): (fs: seq<string>)
    ensures |fs| == |params|
    ensures forall i :: 0 <= i < |params| ==> fs[i] == Field(rt, params[i])
  {
    seq(|params|, i requires 0 <= i < |params| => Field(rt, params[i]))
  }

  /** `buildQueryString`: the present parameters as `k=v` fields joined by '&'. */
  function BuildQueryString(rt: Runtime, params: seq<(string, JsVal)>): (qs: string)
    ensures qs == "" <==> Kept(params) == []
    ensures Kept(params) != [] ==> StartsWith(qs, Field(rt, Kept(params)[0]))
  {
    var fs := Fields(rt, Kept(params));
    assert fs != [] ==> |fs[0]| > 0;
    Join(fs, "&")
  }

  /** Reads one `k=v` field, splitting at the first '=' and decoding the value. */
  function ParseField(f: string): Option<(string, string)> {
    if '=' !in f then None
    else
      var i := IndexOf(f, '=');
      var v := DecodeUriComponent(f[i + 1..]);
      if v.Some? then Some((f[..i], v.value)) else None
  }

  function ParseFields(fs: seq<string>): Option<seq<(string, string)>> {
    if fs == [] then Some([])
    else
      match (ParseField(fs[0]), ParseFields(fs[1..]))
      case (Some(kv), Some(rest)) => Some([kv] + rest)
      case _ => None
  }

  /** Reads a query string back into decoded key/value pairs. */
  function ParseQuery(qs: string): Option<seq<(string, string)>> {
    if qs == "" then Some([]) else ParseFields(Split(qs, '&'))
  }

  /** The pairs a query string should carry: each key with the text of its value. */
  function Rendered(rt: Runtime, params: seq<(string, JsVal)>): (r: seq<(string, string)>)
    ensures |r| == |params|
    ensures forall i :: 0 <= i < |params| ==> r[i] == (params[i].0, ToText(rt, params[i].1))
  {
    seq(|params|, i requires 0 <= i < |params| => (params[i].0, ToText(rt, params[i].1)))
  }

  predicate PlainKey(k: string) {
    '&' !in k && '=' !in k
  }

  lemma FieldShape(rt: Runtime, kv: (string, JsVal))
    requires PlainKey(kv.0)
    ensures '&' !in Field(rt, kv)
    ensures ParseField(Field(rt, kv)) == Some((kv.0, ToText(rt, kv.1)))
  {
    var k := kv.0;
    var e := EncodeUriComponent(ToText(rt, kv.1));
    var f := Field(rt, kv);
    assert f == k + ['='] + e;
    assert '&' !in e;
    IndexOfAfterPrefix(k, '=', e);
    assert f[..|k|] == k;
    assert f[|k| + 1..] == e;
    DecodeEncode(ToText(rt, kv.1));
  }

  lemma {:induction false} ParseRenderedFields(rt: Runtime, params: seq<(string, JsVal)>)
    requires forall i :: 0 <= i < |params| ==> PlainKey(params[i].0)
    ensures ParseFields(Fields(rt, params)) == Some(Rendered(rt, params))
    decreases |params|
  {
    if params != [] {
      FieldShape(rt, params[0]);
      ParseRenderedFields(rt, params[1..]);
      FieldsRenderedCons(rt, params);
      ParseFieldsCons(Field(rt, params[0]), Fields(rt, params[1..]));
    }
  }

  lemma FieldsRenderedCons(rt: Runtime, params: seq<(string, JsVal)>)
    requires params != []
    ensures Fields(rt, params) == [Field(rt, params[0])] + Fields(rt, params[1..])
    ensures Rendered(rt, params) == [(params[0].0, ToText(rt, params[0].1))] + Rendered(rt, params[1..])
  {
  }

  lemma ParseFieldsCons(f: string, fs: seq<string>)
    requires ParseField(f).Some? && ParseFields(fs).Some?
    ensures ParseFields([f] + fs) == Some([ParseField(f).value] + ParseFields(fs).value)
  {
    assert ([f] + fs)[1..] == fs;
  }

  /** Filtering keeps plain keys plain. */
  lemma {:induction false} KeptPlain(params: seq<(string, JsVal)>)
    requires forall i :: 0 <= i < |params| ==> PlainKey(params[i].0)
    ensures forall i :: 0 <= i < |Kept(params)| ==> PlainKey(Kept(params)[i].0)
    decreases |params|
  {
    if params != [] {
      KeptPlain(params[1..]);
    }
  }

  /** The query string carries exactly the present parameters, in order, each value being the
      text of the original one. */
  lemma QueryStringRoundTrip(rt: Runtime, params: seq<(string, JsVal)>)
    requires forall i :: 0 <= i < |params| ==> PlainKey(params[i].0)
    ensures ParseQuery(BuildQueryString(rt, params)) == Some(Rendered(rt, Kept(params)))
  {
    var kept := Kept(params);
    var fs := Fields(rt, kept);
    KeptPlain(params);
    if kept != [] {
      forall i | 0 <= i < |fs|
        ensures '&' !in fs[i]
      {
        FieldShape(rt, kept[i]);
      }
      SplitJoin(fs, '&');
      assert BuildQueryString(rt, params) != "" by {
        assert |fs[0]| > 0;
      }
      ParseRenderedFields(rt, kept);
    }
  }

  // ---------------------------------------------------------------- request

  /** The options `searchAround` destructures. */
  datatype SearchOptions = SearchOptions(
    key: JsVal, lat: JsVal, lng: JsVal, radius: JsVal, locale: JsVal, bizType: JsVal, enableReasons: JsVal)

  /** `const { key, lat, ... } = options` for a value that is not null or undefined (those make
      the destructuring throw, and no caller passes them): the properties of a primitive read as
      undefined. */
  function OptionsFrom(v: JsVal): (o: SearchOptions)
    requires !Nullish(v)
    ensures !v.Obj? ==> o == SearchOptions(Undefined, Undefined, Undefined, Undefined, Undefined, Undefined, Undefined)
  {
    SearchOptions(Get(v, "key"), Get(v, "lat"), Get(v, "lng"), Get(v, "radius"), Get(v, "locale"),
                  Get(v, "bizType"), Get(v, "enableReasons"))
  }

  /** The yoga category searches with a union of synonyms in the locale's language; any other
      business type is the keyword itself. */
  function Keywords(opts: SearchOptions): (k: JsVal)
    ensures (opts.bizType == Str("yoga") || opts.bizType == Str("瑜伽")) && opts.locale == Str("zh") ==>
              k == Str(ZhYogaKeywords)
    ensures (opts.bizType == Str("yoga") || opts.bizType == Str("瑜伽")) && opts.locale != Str("zh") ==>
              k == Str(EnYogaKeywords)
    ensures opts.bizType != Str("yoga") && opts.bizType != Str("瑜伽") ==> k == opts.bizType
  {
    if opts.bizType == Str("yoga") || opts.bizType == Str("瑜伽") then
      Str(if opts.locale == Str("zh") then ZhYogaKeywords else EnYogaKeywords)
    else
      opts.bizType
  }

  function LocationText(rt: Runtime, opts: SearchOptions): string {
    ToText(rt, opts.lng) + "," + ToText(rt, opts.lat)
  }

  function RequestParams(rt: Runtime, opts: SearchOptions): seq<(string, JsVal)> {
    [("key", opts.key),
     ("location", Str(LocationText(rt, opts))),
     ("radius", Or(opts.radius, IntValue(DefaultRadius))),
     ("offset", IntValue(PageSize)),
     ("page", IntValue(1)),
     ("keywords", Keywords(opts)),
     ("types", Str("")),
     ("extensions", Str("all")),
     ("output", Str("json"))]
  }

  function RequestQuery(rt: Runtime, opts: SearchOptions): string {
    BuildQueryString(rt, RequestParams(rt, opts))
  }

  function RequestUrl(rt: Runtime, opts: SearchOptions): (url: string)
    ensures StartsWith(url, Endpoint) && url[|Endpoint|..] == RequestQuery(rt, opts)
  {
    Endpoint + RequestQuery(rt, opts)
  }

  /** The filter over a request-shaped list: the sixth entry may be dropped, the seventh is. */
  lemma KeptShape(ps: seq<(string, JsVal)>)
    requires |ps| == 9
    requires Present(ps[0].1) && Present(ps[1].1) && Present(ps[2].1) && Present(ps[3].1) && Present(ps[4].1)
    requires !Present(ps[6].1) && Present(ps[7].1) && Present(ps[8].1)
    ensures Kept(ps) == ps[..5] + (if Present(ps[5].1) then [ps[5]] else []) + ps[7..]
  {
    assert ps == ps[..5] + [ps[5]] + [ps[6]] + ps[7..];
    KeptConcat(ps[..5] + [ps[5]] + [ps[6]], ps[7..]);
    KeptConcat(ps[..5] + [ps[5]], [ps[6]]);
    KeptConcat(ps[..5], [ps[5]]);
    KeptSingle(ps[5]);
    KeptSingle(ps[6]);
    KeptAllPresent(ps[..5]);
    KeptAllPresent(ps[7..]);
  }

  lemma KeptSingle(kv: (string, JsVal))
    ensures Kept([kv]) == if Present(kv.1) then [kv] else []
  {
    assert [kv][1..] == [];
  }

  /** What the provider is asked: the key, the location as "lng,lat", the radius (3000 m when
      none is given), 20 results of page 1, the keywords when there are any, all details, JSON.
      The empty `types` field is dropped. */
  lemma RequestQueryContents(rt: Runtime, opts: SearchOptions)
    requires Truthy(opts.key)
    ensures ParseQuery(RequestQuery(rt, opts))
         == Some([("key", ToText(rt, opts.key)),
                  ("location", ToText(rt, opts.lng) + "," + ToText(rt, opts.lat)),
                  ("radius", ToText(rt, Or(opts.radius, IntValue(DefaultRadius)))),
                  ("offset", "20"),
                  ("page", "1")]
                 + (if Present(Keywords(opts)) then [("keywords", ToText(rt, Keywords(opts)))] else [])
                 + [("extensions", "all"), ("output", "json")])
  {
    var ps := RequestParams(rt, opts);
    RequestKeysPlain(rt, opts);
    assert LocationText(rt, opts) != "";
    RequestShapedQuery(rt, ps);
    RenderedRequestParts(rt, opts);
  }

  lemma RenderedRequestParts(rt: Runtime, opts: SearchOptions)
    ensures Rendered(rt, RequestParams(rt, opts)[..5])
         == [("key", ToText(rt, opts.key)),
             ("location", ToText(rt, opts.lng) + "," + ToText(rt, opts.lat)),
             ("radius", ToText(rt, Or(opts.radius, IntValue(DefaultRadius)))),
             ("offset", "20"),
             ("page", "1")]
    ensures Rendered(rt, if Present(RequestParams(rt, opts)[5].1) then [RequestParams(rt, opts)[5]] else [])
         == (if Present(Keywords(opts)) then [("keywords", ToText(rt, Keywords(opts)))] else [])
    ensures Rendered(rt, RequestParams(rt, opts)[7..]) == [("extensions", "all"), ("output", "json")]
  {
    assert NatText(20) == "20";
    assert PrintsAsInteger(20.0) && PrintsAsInteger(1.0);
  }

  lemma RequestShapedQuery(rt: Runtime, ps: seq<(string, JsVal)>)
    requires |ps| == 9
    requires forall i :: 0 <= i < |ps| ==> PlainKey(ps[i].0)
    requires Present(ps[0].1) && Present(ps[1].1) && Present(ps[2].1) && Present(ps[3].1) && Present(ps[4].1)
    requires !Present(ps[6].1) && Present(ps[7].1) && Present(ps[8].1)
    ensures ParseQuery(BuildQueryString(rt, ps))
         == Some(Rendered(rt, ps[..5]) + Rendered(rt, if Present(ps[5].1) then [ps[5]] else []) + Rendered(rt, ps[7..]))
  {
    QueryStringRoundTrip(rt, ps);
    KeptShape(ps);
    var kw := if Present(ps[5].1) then [ps[5]] else [];
    RenderedConcat(rt, ps[..5] + kw, ps[7..]);
    RenderedConcat(rt, ps[..5], kw);
  }

  lemma RequestKeysPlain(rt: Runtime, opts: SearchOptions)
    ensures forall i :: 0 <= i < |RequestParams(rt, opts)| ==> PlainKey(RequestParams(rt, opts)[i].0)
  {
    var ps := RequestParams(rt, opts);
    forall i | 0 <= i < |ps| ensures PlainKey(ps[i].0) {
      LowerWordPlain(ps[i].0);
    }
  }

  /** A key made of lower-case ASCII letters needs no escaping. */
  lemma LowerWordPlain(k: string)
    requires forall i :: 0 <= i < |k| ==> 'a' <= k[i] <= 'z'
    ensures PlainKey(k)
  {
  }

  lemma RenderedConcat(rt: Runtime, a: seq<(string, JsVal)>, b: seq<(string, JsVal)>)
    ensures Rendered(rt, a + b) == Rendered(rt, a) + Rendered(rt, b)
  {
  }

  // ---------------------------------------------------------------- reply

  /** The `biz_ext` block of a place: its rating and average cost as the provider sends them. */
  datatype BizExt = BizExt(rating: Rating, cost: string)

  /** One place as the provider sends it; absent text fields are "", `distance` is the metre
      count when the provider sends one, and `photoUrls` holds the `url` of each photo when
      `photos` is an array. */
  datatype ProviderPoi = ProviderPoi(
    id: string,
    name: string,
    poiType: string,
    typecode: string,
    address: string,
    location: string,
    tel: string,
    cityname: string,
    adname: string,
    distance: Option<nat>,
    bizExt: Option<BizExt>,
    photoUrls: Option<seq<string>>)

  /** The decoded reply: the body without its `pois` array, and the array when it is one. */
  datatype Reply = Reply(body: JsVal, pois: Option<seq<ProviderPoi>>)

  /** What the HTTPS request produced: a rejection with its message, or a decoded reply. */
  datatype HttpOutcome = RequestFailed(message: string) | Received(reply: Reply)

  datatype SearchResult = SearchResult(pois: seq<Poi>, reasons: Option<seq<string>>, total: nat)

  /** `filter(Boolean)` over photo URLs. */
  function NonEmpty(urls: seq<string>): (r: seq<string>)
    ensures |r| <= |urls|
    ensures forall u :: u in r <==> u in urls && u != ""
    ensures "" !in urls ==> r == urls
  {
    if urls == [] then []
    else
      assert urls == [urls[0]] + urls[1..];
      (if urls[0] != "" then [urls[0]] else []) + NonEmpty(urls[1..])
  }

  /** The filter distributes over concatenation: order and multiplicity are kept. */
  lemma {:induction false} NonEmptyConcat(a: seq<string>, b: seq<string>)
    ensures NonEmpty(a + b) == NonEmpty(a) + NonEmpty(b)
    decreases |a|
  {
    if a != [] {
      assert (a + b)[1..] == a[1..] + b;
      NonEmptyConcat(a[1..], b);
    } else {
      assert a + b == b;
    }
  }

  function Photos(urls: Option<seq<string>>): (r: seq<string>)
    ensures |r| <= PhotoCount
    ensures forall u :: u in r ==> u != "" && urls.Some? && u in urls.value
    ensures urls.Some? ==> r == NonEmpty(urls.value)[..if |NonEmpty(urls.value)| < PhotoCount then |NonEmpty(urls.value)| else PhotoCount]
  {
    if urls.None? then []
    else
      var all := NonEmpty(urls.value);
      var r := if |all| <= PhotoCount then all else all[..PhotoCount];
      assert forall u :: u in r ==> u in all;
      r
  }

  /** The formatted record: text fields copied, a rating or cost only when non-empty, at most
      three non-empty photo URLs, no reason yet. */
  function FormatPoi(pp: ProviderPoi): (p: Poi)
    ensures p.recommendReason.None?
    ensures p.id == pp.id && p.name == pp.name && p.poiType == pp.poiType && p.typecode == pp.typecode
    ensures p.address == pp.address && p.location == pp.location && p.tel == pp.tel
    ensures p.adname == pp.adname && p.cityname == pp.cityname
    ensures p.distance == pp.distance
    ensures p.rating.Some? <==> pp.bizExt.Some? && pp.bizExt.value.rating.text != ""
    ensures p.rating.Some? ==> HasRating(p) && p.rating.value == pp.bizExt.value.rating
    ensures p.cost.Some? <==> pp.bizExt.Some? && pp.bizExt.value.cost != ""
    ensures p.cost.Some? ==> p.cost.value == pp.bizExt.value.cost
    ensures p.photos == Photos(pp.photoUrls) && |p.photos| <= PhotoCount
  {
    Poi(pp.id, pp.name, pp.poiType, pp.typecode, pp.address, pp.location, pp.tel, pp.cityname, pp.adname,
        pp.distance,
        if pp.bizExt.Some? && pp.bizExt.value.rating.text != "" then Some(pp.bizExt.value.rating) else None,
        if pp.bizExt.Some? && pp.bizExt.value.cost != "" then Some(pp.bizExt.value.cost) else None,
        Photos(pp.photoUrls),
        None)
  }

  function FormatPois(pps: seq<ProviderPoi>): (ps: seq<Poi>)
    ensures |ps| == |pps|
    ensures forall i :: 0 <= i < |pps| ==> ps[i] == FormatPoi(pps[i])
  {
    seq(|pps|, i requires 0 <= i < |pps| => FormatPoi(pps[i]))
  }

  /** One summary line: "推荐<n>：<name>" followed by the distance, rating and address parts
      that are present. A distance of 0 is still reported. */
  function SummaryLine(p: Poi, index: nat): (line: string)
    ensures StartsWith(line, "推荐" + NatText(index + 1) + "：" + p.name)
  {
    var distanceText := if p.distance.Some? then "，距离约 " + NatText(p.distance.value) + " 米" else "";
    var ratingText := if HasRating(p) then "，评分 " + p.rating.value.text else "";
    var addressText := if p.address != "" then "，位于" + p.address else "";
    var prefix := "推荐" + NatText(index + 1) + "：" + p.name;
    assert (prefix + distanceText + ratingText + addressText)[..|prefix|] == prefix;
    prefix + distanceText + ratingText + addressText
  }

  /** Summary lines for the first three records, numbered from 1. */
  function Summary(pois: seq<Poi>): (lines: seq<string>)
    ensures |lines| == if |pois| < SummaryCount then |pois| else SummaryCount
    ensures forall i :: 0 <= i < |lines| ==> lines[i] == SummaryLine(pois[i], i)
  {
    var n := if |pois| < SummaryCount then |pois| else SummaryCount;
    seq(n, i requires 0 <= i < n => SummaryLine(pois[i], i))
  }

  /** `data && data.status === '1'`. */
  predicate Accepted(body: JsVal) {
    Truthy(body) && Get(body, "status") == Str("1")
  }

  /** The text after "AMap API error: ": the provider's `info`, else its `infocode`, else a
      placeholder; "No response" for a falsy body. */
  function ErrorInfo(rt: Runtime, body: JsVal): string {
    if Truthy(body) then ToText(rt, Or(Or(Get(body, "info"), Get(body, "infocode")), Str("Unknown error")))
    else "No response"
  }

  function ResultOf(reply: Reply, enableReasons: JsVal): SearchResult {
    var pois := FormatPois(if reply.pois.Some? then reply.pois.value else []);
    SearchResult(pois, if Truthy(enableReasons) && |pois| > 0 then Some(Summary(pois)) else None, |pois|)
  }

  /** `searchAround`: check the key and the coordinates, ask the provider, and format its places. */
  function SearchAround(rt: Runtime, opts: SearchOptions, fetch: string -> HttpOutcome): (r: Result<SearchResult>)
    ensures !Truthy(opts.key) ==> r == Err("Missing AMAP_KEY")
    ensures Truthy(opts.key) && (!Truthy(opts.lat) || !Truthy(opts.lng)) ==> r == Err("Missing lat/lng")
    ensures r.Ok? ==> r.value.total == |r.value.pois|
  {
    if !Truthy(opts.key) then Err("Missing AMAP_KEY")
    else if !Truthy(opts.lat) || !Truthy(opts.lng) then Err("Missing lat/lng")
    else
      match fetch(RequestUrl(rt, opts))
      case RequestFailed(message) => Err(message)
      case Received(reply) =>
        if !Accepted(reply.body) then Err("AMap API error: " + ErrorInfo(rt, reply.body))
        else Ok(ResultOf(reply, opts.enableReasons))
  }

  /** A search succeeds only with a key, non-zero coordinates and a reply the provider marked as
      successful. */
  lemma SearchAroundOkOnlyWhenAccepted(rt: Runtime, opts: SearchOptions, fetch: string -> HttpOutcome)
    requires SearchAround(rt, opts, fetch).Ok?
    ensures Truthy(opts.key) && Truthy(opts.lat) && Truthy(opts.lng)
    ensures fetch(RequestUrl(rt, opts)).Received? && Accepted(fetch(RequestUrl(rt, opts)).reply.body)
  {
  }

  /** Failures of the request and refusals by the provider surface as errors with their text. */
  lemma SearchAroundErrors(rt: Runtime, opts: SearchOptions, fetch: string -> HttpOutcome)
    requires Truthy(opts.key) && Truthy(opts.lat) && Truthy(opts.lng)
    ensures fetch(RequestUrl(rt, opts)).RequestFailed? ==>
              SearchAround(rt, opts, fetch) == Err(fetch(RequestUrl(rt, opts)).message)
    ensures fetch(RequestUrl(rt, opts)).Received? && !Accepted(fetch(RequestUrl(rt, opts)).reply.body) ==>
              SearchAround(rt, opts, fetch) == Err("AMap API error: " + ErrorInfo(rt, fetch(RequestUrl(rt, opts)).reply.body))
  {
  }

  /** An accepted reply yields one formatted record per provider place, in order (none when `pois`
      is not an array), and summary lines for the first three exactly when reasons were asked
      for and there is at least one place. */
  lemma SearchAroundResults(rt: Runtime, opts: SearchOptions, fetch: string -> HttpOutcome)
    requires Truthy(opts.key) && Truthy(opts.lat) && Truthy(opts.lng)
    requires fetch(RequestUrl(rt, opts)).Received? && Accepted(fetch(RequestUrl(rt, opts)).reply.body)
    ensures var reply := fetch(RequestUrl(rt, opts)).reply;
            var places := if reply.pois.Some? then reply.pois.value else [];
            var r := SearchAround(rt, opts, fetch);
            && r.Ok?
            && |r.value.pois| == |places| == r.value.total
            && (forall i :: 0 <= i < |places| ==> r.value.pois[i] == FormatPoi(places[i]))
            && (r.value.reasons.Some? <==> Truthy(opts.enableReasons) && |places| > 0)
            && (r.value.reasons.Some? ==>
                  && |r.value.reasons.value| == (if |places| < SummaryCount then |places| else SummaryCount)
                  && forall i :: 0 <= i < |r.value.reasons.value| ==>
                       StartsWith(r.value.reasons.value[i], "推荐" + NatText(i + 1) + "：" + places[i].name))
  {
  }

  /** The yoga category, given either as "yoga" or as "瑜伽", searches with the synonym union of
      the locale; the two spellings send the same request. */
  lemma YogaSpellingsAgree(rt: Runtime, opts: SearchOptions)
    requires opts.bizType == Str("yoga")
    ensures RequestUrl(rt, opts) == RequestUrl(rt, opts.(bizType := Str("瑜伽")))
    ensures Keywords(opts) == Str(if opts.locale == Str("zh") then ZhYogaKeywords else EnYogaKeywords)
  {
  }
}
