/**
  index.js: the cloud-function entry point. It accepts an HTTP gateway event (query merged with
  a JSON body), a JSON string or a plain object; reads the coordinates under several aliases;
  normalises the business type, locale and radius; checks the coordinates and the AMap key; and
  wraps the nearby search in a `{ code, message, data }` response.
 */
module Entry {
  import opened Wrappers
  import opened Text
  import opened JsValues
  import opened TypeMap
  import Amap

  const DefaultRadius := 3000
  const MissingCoordinates := "缺少必需参数: lat/lng"
  const MissingKey := "AMAP_KEY 未配置"

  /** The configuration the entry point reads: the AMap key from the environment and a radius
      default. The configuration file it loads defines no radius default, so as shipped that is
      undefined. */
  datatype MainConfig = MainConfig(amapKey: JsVal, defaultRadius: JsVal)

  function ShippedConfig(envKey: JsVal): MainConfig {
    MainConfig(envKey, Undefined)
  }

  datatype MainResponse = MainResponse(code: int, message: string, data: Option<Amap.SearchResult>)

  /** The 500 response for an exception: its message, or "Internal Error" when that is empty. */
  function Failure(message: string): (r: MainResponse)
    ensures r.code == 500 && r.data.None? && r.message != ""
    ensures message != "" ==> r.message == message
  {
    MainResponse(500, if message == "" then "Internal Error" else message, None)
  }

  const EmptyObject := Obj(map[])

  /** An HTTP gateway event: truthy and carrying a truthy `httpMethod` or `path`. */
  predicate IsHttp(ev: JsVal) {
    Truthy(ev) && (Truthy(Get(ev, "httpMethod")) || Truthy(Get(ev, "path")))
  }

  /** `JSON.parse(text || '{}')`. */
  function ParseOrEmpty(rt: Runtime, text: string): ParseOutcome {
    rt.parseJson(if text == "" then "{}" else text)
  }

  /** The body of an HTTP event: parsed when it is a string (an unparsable body counts as empty),
      otherwise taken as it is. */
  function HttpBody(rt: Runtime, ev: JsVal): (body: JsVal)
    ensures Get(ev, "body").Str? && ParseOrEmpty(rt, Get(ev, "body").s).SyntaxError? ==> body == EmptyObject
    ensures Get(ev, "body").Str? && ParseOrEmpty(rt, Get(ev, "body").s).Parsed? ==>
              body == ParseOrEmpty(rt, Get(ev, "body").s).value
    ensures !Get(ev, "body").Str? && Truthy(Get(ev, "body")) ==> body == Get(ev, "body")
    ensures !Get(ev, "body").Str? && !Truthy(Get(ev, "body")) ==> body == EmptyObject
  {
    var raw := Get(ev, "body");
    if raw.Str? then
      match ParseOrEmpty(rt, raw.s)
      case Parsed(v) => v
      case SyntaxError(_) => EmptyObject
    else Or(raw, EmptyObject)
  }

  /** The request parameters, or the message of the exception obtaining them threw. */
  function Params(rt: Runtime, ev: JsVal): (r: Result<JsVal>)
    ensures IsHttp(ev) ==> r == Ok(Merge(Or(Get(ev, "queryStringParameters"), EmptyObject), HttpBody(rt, ev)))
    ensures !IsHttp(ev) && !ev.Str? ==> r == Ok(Or(ev, EmptyObject))
    ensures !IsHttp(ev) && ev.Str? && ParseOrEmpty(rt, ev.s).Parsed? ==> r == Ok(ParseOrEmpty(rt, ev.s).value)
    ensures r.Err? <==> !IsHttp(ev) && ev.Str? && ParseOrEmpty(rt, ev.s).SyntaxError?
  {
    if IsHttp(ev) then
      Ok(Merge(Or(Get(ev, "queryStringParameters"), EmptyObject), HttpBody(rt, ev)))
    else if ev.Str? then
      match ParseOrEmpty(rt, ev.s)
      case Parsed(v) => Ok(v)
      case SyntaxError(message) => Err(message)
    else
      Ok(Or(ev, EmptyObject))
  }

  /** The body's fields override the query's. */
  lemma BodyOverridesQuery(rt: Runtime, ev: JsVal, key: string)
    requires IsHttp(ev)
    ensures var body := HttpBody(rt, ev);
            Get(Params(rt, ev).value, key)
              == if key in OwnFields(body) then Get(body, key) else Get(Or(Get(ev, "queryStringParameters"), EmptyObject), key)
  {
  }

  function LatCandidates(p: JsVal): seq<JsVal> {
    [Get(p, "lat"), Get(p, "latitude"), Get(Get(p, "location"), "lat"), Get(Get(p, "location"), "latitude"),
     Get(Get(p, "coords"), "lat")]
  }

  function LngCandidates(p: JsVal): seq<JsVal> {
    [Get(p, "lng"), Get(p, "lon"), Get(p, "longitude"), Get(Get(p, "location"), "lng"),
     Get(Get(p, "location"), "longitude"), Get(Get(p, "coords"), "lng")]
  }

  /** What the entry point derives from the parameters before validating them. `routeType` is
      only logged. */
  datatype Normalized = Normalized(
    lat: JsNumber, lng: JsNumber, routeType: string, locale: string, bizType: string, radius: JsVal, enableReasons: bool)

  /** The search radius: the requested one when it is a positive number, else the configured
      default, else 3000 m. */
  function SearchRadius(rt: Runtime, cfg: MainConfig, radius: JsVal): (r: JsVal)
    ensures Positive(ToNumber(rt, radius)) ==> r == Num(ToNumber(rt, radius))
    ensures !Positive(ToNumber(rt, radius)) && Truthy(cfg.defaultRadius) ==> r == cfg.defaultRadius
    ensures !Positive(ToNumber(rt, radius)) && !Truthy(cfg.defaultRadius) ==> r == Amap.IntValue(DefaultRadius)
  {
    if Positive(ToNumber(rt, radius)) then Num(ToNumber(rt, radius)) else Or(cfg.defaultRadius, Amap.IntValue(DefaultRadius))
  }

  /** Each field is read from its aliases and normalised: the coordinates from the first
      non-nullish alias, the route from `type || bizType || 'map-recommend'`, the business from
      `bizType || type || 'yoga'` in the request's locale, the radius by `SearchRadius`, and the
      reasons switch by truthiness. */
  function Normalize(rt: Runtime, cfg: MainConfig, p: JsVal): (n: Normalized)
    ensures n.lat == ToNumber(rt, Coalesce(LatCandidates(p))) && n.lng == ToNumber(rt, Coalesce(LngCandidates(p)))
    ensures n.locale == ToLocale(TextOr(rt, Get(p, "locale")))
    ensures n.routeType == NormalizeType(TextOr(rt, Or(Or(Get(p, "type"), Get(p, "bizType")), Str(MapRecommend))))
    ensures n.bizType == NormalizeBizType(TextOr(rt, Or(Or(Get(p, "bizType"), Get(p, "type")), Str("yoga"))), n.locale)
    ensures n.radius == SearchRadius(rt, cfg, Get(p, "radius"))
    ensures n.enableReasons == Truthy(Get(p, "enableReasons"))
    ensures n.locale == "zh" || n.locale == "en"
    ensures n.routeType == MapRecommend || n.routeType == Yoga
    ensures n.bizType == YogaKeyword(n.locale) || n.bizType == Canon(TextOr(rt, Or(Or(Get(p, "bizType"), Get(p, "type")), Str("yoga"))))
  {
    var rawType := Get(p, "type");
    var rawBizType := Get(p, "bizType");
    var locale := ToLocale(TextOr(rt, Get(p, "locale")));
    Normalized(
      ToNumber(rt, Coalesce(LatCandidates(p))),
      ToNumber(rt, Coalesce(LngCandidates(p))),
      NormalizeType(TextOr(rt, Or(Or(rawType, rawBizType), Str(MapRecommend)))),
      locale,
      NormalizeBizType(TextOr(rt, Or(Or(rawBizType, rawType), Str("yoga"))), locale),
      SearchRadius(rt, cfg, Get(p, "radius")),
      Truthy(Get(p, "enableReasons")))
  }

  /** The options the entry point passes to the search. */
  function SearchOptionsOf(cfg: MainConfig, n: Normalized): Amap.SearchOptions {
    Amap.SearchOptions(cfg.amapKey, Num(n.lat), Num(n.lng), n.radius, Str(n.locale), Str(n.bizType), Bool(n.enableReasons))
  }

  /** V8's message for reading `lat` from null, the only nullish value parsing can produce. */
  const NullParamsMessage := "Cannot read properties of null (reading 'lat')"

  /** The response for parameters already normalised. */
  function Respond(rt: Runtime, cfg: MainConfig, n: Normalized, fetch: string -> Amap.HttpOutcome): (r: MainResponse)
    ensures !IsFinite(n.lat) || !IsFinite(n.lng) ==> r == MainResponse(400, MissingCoordinates, None)
    ensures IsFinite(n.lat) && IsFinite(n.lng) ==> r.code != 400
    ensures IsFinite(n.lat) && IsFinite(n.lng) && !Truthy(cfg.amapKey) ==> r == MainResponse(500, MissingKey, None)
    ensures r.code == 200 ==> && Amap.SearchAround(rt, SearchOptionsOf(cfg, n), fetch).Ok?
                              && r.data == Some(Amap.SearchAround(rt, SearchOptionsOf(cfg, n), fetch).value)
    ensures IsFinite(n.lat) && IsFinite(n.lng) && Truthy(cfg.amapKey) && Amap.SearchAround(rt, SearchOptionsOf(cfg, n), fetch).Ok? ==>
              r == MainResponse(200, "success", Some(Amap.SearchAround(rt, SearchOptionsOf(cfg, n), fetch).value))
    ensures IsFinite(n.lat) && IsFinite(n.lng) && Truthy(cfg.amapKey) && Amap.SearchAround(rt, SearchOptionsOf(cfg, n), fetch).Err? ==>
              r == Failure(Amap.SearchAround(rt, SearchOptionsOf(cfg, n), fetch).message)
    ensures r.code == 200 || r.code == 400 || r.code == 500
    ensures r.code == 200 <==> r.data.Some?
  {
    if !IsFinite(n.lat) || !IsFinite(n.lng) then MainResponse(400, MissingCoordinates, None)
    else if !Truthy(cfg.amapKey) then MainResponse(500, MissingKey, None)
    else
      match Amap.SearchAround(rt, SearchOptionsOf(cfg, n), fetch)
      case Err(message) => Failure(message)
      case Ok(result) => MainResponse(200, "success", Some(result))
  }

  /** `main`. */
  function Main(rt: Runtime, cfg: MainConfig, ev: JsVal, fetch: string -> Amap.HttpOutcome): (r: MainResponse)
    ensures r.code == 200 <==> r.data.Some?
    ensures r.code == 200 || r.code == 400 || r.code == 500
    ensures r.code == 200 ==> r.message == "success"
    ensures Params(rt, ev).Ok? && !Nullish(Params(rt, ev).value) ==>
              r == Respond(rt, cfg, Normalize(rt, cfg, Params(rt, ev).value), fetch)
    ensures Params(rt, ev).Ok? && Nullish(Params(rt, ev).value) ==> r == Failure(NullParamsMessage)
  {
    match Params(rt, ev)
    case Err(message) => Failure(message)
    case Ok(p) =>
      if Nullish(p) then Failure(NullParamsMessage)
      else Respond(rt, cfg, Normalize(rt, cfg, p), fetch)
  }

  /** The coordinate check comes first: a request is refused with 400 exactly when its
      parameters were obtained and a coordinate is not a finite number, whatever the key. */
  lemma MainCoordinateCheck(rt: Runtime, cfg: MainConfig, ev: JsVal, fetch: string -> Amap.HttpOutcome)
    ensures Main(rt, cfg, ev, fetch).code == 400
        <==> (&& Params(rt, ev).Ok? && !Nullish(Params(rt, ev).value)
              && (!IsFinite(ToNumber(rt, Coalesce(LatCandidates(Params(rt, ev).value))))
                  || !IsFinite(ToNumber(rt, Coalesce(LngCandidates(Params(rt, ev).value))))))
    ensures Main(rt, cfg, ev, fetch).code == 400 ==> Main(rt, cfg, ev, fetch).message == MissingCoordinates
  {
    if Params(rt, ev).Ok? && !Nullish(Params(rt, ev).value) {
      var n := Normalize(rt, cfg, Params(rt, ev).value);
      assert Main(rt, cfg, ev, fetch) == Respond(rt, cfg, n, fetch);
    }
  }

  /** With finite coordinates and no key the search is never attempted. */
  lemma MainKeyCheck(rt: Runtime, cfg: MainConfig, ev: JsVal, fetch: string -> Amap.HttpOutcome)
    requires Params(rt, ev).Ok? && !Nullish(Params(rt, ev).value)
    requires var n := Normalize(rt, cfg, Params(rt, ev).value); IsFinite(n.lat) && IsFinite(n.lng)
    requires !Truthy(cfg.amapKey)
    ensures Main(rt, cfg, ev, fetch) == MainResponse(500, MissingKey, None)
  {
  }

  /** A latitude or longitude of exactly 0 passes the entry point's check but is falsy for the
      search client, so the request fails with "Missing lat/lng". */
  lemma ZeroCoordinateRejected(rt: Runtime, cfg: MainConfig, ev: JsVal, fetch: string -> Amap.HttpOutcome)
    requires Params(rt, ev).Ok? && !Nullish(Params(rt, ev).value)
    requires var n := Normalize(rt, cfg, Params(rt, ev).value);
             IsFinite(n.lat) && IsFinite(n.lng) && (n.lat == Finite(0.0) || n.lng == Finite(0.0))
    requires Truthy(cfg.amapKey)
    ensures Main(rt, cfg, ev, fetch) == MainResponse(500, "Missing lat/lng", None)
  {
    RespondZeroCoordinate(rt, cfg, Normalize(rt, cfg, Params(rt, ev).value), fetch);
  }

  lemma RespondZeroCoordinate(rt: Runtime, cfg: MainConfig, n: Normalized, fetch: string -> Amap.HttpOutcome)
    requires IsFinite(n.lat) && IsFinite(n.lng) && (n.lat == Finite(0.0) || n.lng == Finite(0.0))
    requires Truthy(cfg.amapKey)
    ensures Respond(rt, cfg, n, fetch) == MainResponse(500, "Missing lat/lng", None)
  {
    var opts := SearchOptionsOf(cfg, n);
    assert !Truthy(opts.lat) || !Truthy(opts.lng);
    assert Amap.SearchAround(rt, opts, fetch) == Err("Missing lat/lng");
  }

  /** An unparsable string event is answered with a 500 carrying the parser's message. */
  lemma MainUnparsableEvent(rt: Runtime, cfg: MainConfig, s: string, fetch: string -> Amap.HttpOutcome)
    requires ParseOrEmpty(rt, s).SyntaxError?
    ensures Main(rt, cfg, Str(s), fetch) == Failure(ParseOrEmpty(rt, s).message)
  {
    assert !IsHttp(Str(s));
    assert Params(rt, Str(s)) == Err(ParseOrEmpty(rt, s).message);
  }

  /** A successful response carries the search result unchanged, and the search was asked with
      the normalised parameters. */
  lemma MainSuccess(rt: Runtime, cfg: MainConfig, ev: JsVal, fetch: string -> Amap.HttpOutcome)
    requires Main(rt, cfg, ev, fetch).code == 200
    ensures Params(rt, ev).Ok? && !Nullish(Params(rt, ev).value)
    ensures var n := Normalize(rt, cfg, Params(rt, ev).value);
            && Amap.SearchAround(rt, SearchOptionsOf(cfg, n), fetch).Ok?
            && Main(rt, cfg, ev, fetch).data == Some(Amap.SearchAround(rt, SearchOptionsOf(cfg, n), fetch).value)
  {
    var n := Normalize(rt, cfg, Params(rt, ev).value);
    var r := Respond(rt, cfg, n, fetch);
    assert r.code == 200;
  }

  /** The converse of `MainSuccess`: once the parameters are read, the coordinates are finite and
      the key is set, a working search is answered with 200 and its result, and a failing one
      with 500 and its message. */
  lemma MainSearchOutcome(rt: Runtime, cfg: MainConfig, ev: JsVal, fetch: string -> Amap.HttpOutcome)
    requires Params(rt, ev).Ok? && !Nullish(Params(rt, ev).value)
    requires var n := Normalize(rt, cfg, Params(rt, ev).value); IsFinite(n.lat) && IsFinite(n.lng)
    requires Truthy(cfg.amapKey)
    ensures var search := Amap.SearchAround(rt, SearchOptionsOf(cfg, Normalize(rt, cfg, Params(rt, ev).value)), fetch);
            search.Ok? ==> Main(rt, cfg, ev, fetch) == MainResponse(200, "success", Some(search.value))
    ensures var search := Amap.SearchAround(rt, SearchOptionsOf(cfg, Normalize(rt, cfg, Params(rt, ev).value)), fetch);
            search.Err? ==> Main(rt, cfg, ev, fetch) == Failure(search.message)
  {
  }

  /** Coordinate aliases: `lat` wins over `latitude` unless it is null or undefined (0 does not
      fall through). */
  lemma LatAliases(p: JsVal)
    ensures !Nullish(Get(p, "lat")) ==> Coalesce(LatCandidates(p)) == Get(p, "lat")
    ensures Nullish(Get(p, "lat")) && !Nullish(Get(p, "latitude")) ==> Coalesce(LatCandidates(p)) == Get(p, "latitude")
  {
    var cs := LatCandidates(p);
    assert cs[0] == Get(p, "lat") && cs[1] == Get(p, "latitude");
  }

  /** Any yoga synonym, in any case, sends the locale's yoga keyword union to the provider. */
  lemma YogaRequestKeywords(rt: Runtime, cfg: MainConfig, p: JsVal)
    requires var raw := Canon(TextOr(rt, Or(Or(Get(p, "bizType"), Get(p, "type")), Str("yoga"))));
             raw == "" || raw == "pose" || raw == "yujia" || Contains(raw, "瑜") || Contains(raw, "yoga")
    ensures var n := Normalize(rt, cfg, p);
            Amap.Keywords(SearchOptionsOf(cfg, n))
              == Str(if n.locale == "zh" then Amap.ZhYogaKeywords else Amap.EnYogaKeywords)
  {
    var n := Normalize(rt, cfg, p);
    NormalizeBizTypeYogaIff(TextOr(rt, Or(Or(Get(p, "bizType"), Get(p, "type")), Str("yoga"))), n.locale);
  }

  /** As shipped, a missing or non-positive radius becomes 3000 m. */
  lemma ShippedRadius(rt: Runtime, envKey: JsVal, p: JsVal)
    requires !Positive(ToNumber(rt, Get(p, "radius")))
    ensures Normalize(rt, ShippedConfig(envKey), p).radius == Amap.IntValue(DefaultRadius)
  {
  }
}
