/**
  router/map-recommend.js: the enhanced recommendation handler. It reads the request under
  several aliases, validates the coordinates, runs the nearby search, races reason generation
  against a five-second timer and reports the search parameters it used.

  The handler calls `searchAround(lat, lng, bizType, radius)` and treats the result as an array
  of records, while utils/amap.js exports `searchAround(options)` returning an object. `Handle`
  models the handler's logic over a search of the shape it expects; `HandleMapRecommend` plugs
  in the call as written, which always fails (see `AsWrittenAlwaysFails`).
 */
module Router {
  import opened Wrappers
  import opened Text
  import opened JsValues
  import opened Records
  import opened Reason
  import Amap

  /** `searchAround(lat, lng, bizType, radius)` as the handler expects it: the records found. */
  type PositionalSearch = (JsNumber, JsNumber, JsVal, JsVal) -> Result<seq<Poi>>

  /** The configuration module the handler loads: its radius fallback (absent in the shipped
      module, so undefined) and the generation service settings. */
  datatype RouterConfig = RouterConfig(radiusDefault: JsVal, llm: LlmConfig)

  const ShippedRouterConfig := RouterConfig(Undefined, ShippedLlmConfig)

  /** How the race between the reason batch and the five-second timer ended when the batch has
      to wait for the generation service: the batch first, or the timer first, at which point the
      records at the indices in `settled` had received their reasons. */
  datatype RaceOutcome = BatchFirst | TimerFirst(settled: set<nat>)

  /** What the handler cannot compute itself: the engine services, the generation service as
      each record's call experiences it, and the timing of the race. */
  datatype RouterEnv = RouterEnv(rt: Runtime, llms: nat -> LlmService, race: RaceOutcome)

  datatype SearchParams = SearchParams(lat: JsNumber, lng: JsNumber, bizType: JsVal, radius: JsVal, userIntent: JsVal)

  datatype RouterData = RouterData(pois: seq<Poi>, searchParams: SearchParams, total: nat, hasReasons: JsVal)

  /** A handler response; `received` is the debug echo of the rejected coordinates. */
  datatype RouterResponse = RouterResponse(code: int, message: string, data: Option<RouterData>, received: Option<(JsVal, JsVal)>)

  const InternalError := RouterResponse(500, "Internal server error", None, None)

  /** A destructuring default: applies only when the property is undefined. */
  function WithDefault(v: JsVal, default: JsVal): (r: JsVal)
    ensures !v.Undefined? ==> r == v
    ensures v.Undefined? ==> r == default
  {
    if v.Undefined? then default else v
  }

  function RequestLat(ev: JsVal): JsVal {
    Or(Get(ev, "lat"), Get(ev, "latitude"))
  }

  function RequestLng(ev: JsVal): JsVal {
    Or(Get(ev, "lng"), Get(ev, "longitude"))
  }

  function RequestBizType(ev: JsVal): JsVal {
    Or(Or(Or(Get(ev, "bizType"), Get(ev, "type")), Get(ev, "category")), Str("yoga"))
  }

  function EnableReasons(ev: JsVal): JsVal {
    WithDefault(Get(ev, "enableReasons"), Bool(true))
  }

  function UseLlm(ev: JsVal): bool {
    Truthy(WithDefault(Get(ev, "useLLM"), Bool(false)))
  }

  /** Outside [-90, 90] x [-180, 180]; NaN is never outside. */
  predicate OutOfRange(lat: JsNumber, lng: JsNumber) {
    Below(lat, -90.0) || Above(lat, 90.0) || Below(lng, -180.0) || Above(lng, 180.0)
  }

  /** The intent reasons are written for: the sequence type's intent when one is given,
      otherwise the user's intent, otherwise the default. */
  function Intent(rt: Runtime, ev: JsVal): (intent: string)
    ensures Truthy(Get(ev, "sequenceType")) ==> intent == InferIntentFromSequence(ToText(rt, Get(ev, "sequenceType")))
    ensures !Truthy(Get(ev, "sequenceType")) && Truthy(Get(ev, "userIntent")) ==> intent == ToText(rt, Get(ev, "userIntent"))
    ensures !Truthy(Get(ev, "sequenceType")) && !Truthy(Get(ev, "userIntent")) ==> intent == DefaultIntent
  {
    var sequenceType := Get(ev, "sequenceType");
    if Truthy(sequenceType) then InferIntentFromSequence(ToText(rt, sequenceType))
    else ToText(rt, Or(Get(ev, "userIntent"), Str(DefaultIntent)))
  }

  /** The intent echoed in the response: the user's own when truthy, else the inferred one when a
      sequence type is given, else null. */
  function EchoedIntent(rt: Runtime, ev: JsVal): (r: JsVal)
    ensures Truthy(Get(ev, "userIntent")) ==> r == Get(ev, "userIntent")
    ensures !Truthy(Get(ev, "userIntent")) && Truthy(Get(ev, "sequenceType")) ==>
              r == Str(InferIntentFromSequence(ToText(rt, Get(ev, "sequenceType"))))
    ensures !Truthy(Get(ev, "userIntent")) && !Truthy(Get(ev, "sequenceType")) ==> r == Null
  {
    var sequenceType := Get(ev, "sequenceType");
    Or(Get(ev, "userIntent"), if Truthy(sequenceType) then Str(InferIntentFromSequence(ToText(rt, sequenceType))) else Null)
  }

  /** Whether the batch has to wait for the generation service, so that the timer can fire
      first. Otherwise every reason is written before the timer can fire. */
  predicate BatchWaits(useLlm: bool, cfg: LlmConfig) {
    useLlm && LlmConfigured(cfg) && cfg.moduleAvailable
  }

  /** The records after the race: all with their reasons when the batch won, otherwise those that
      settled in time; the batch writes into the records themselves. */
  function Enrich(pois: seq<Poi>, intent: string, useLlm: bool, cfg: LlmConfig, llms: nat -> LlmService,
                  race: RaceOutcome): (r: seq<Poi>)
    ensures |r| == |pois|
    ensures forall i :: 0 <= i < |pois| ==> r[i].(recommendReason := pois[i].recommendReason) == pois[i]
    ensures forall i :: 0 <= i < |pois| && (!BatchWaits(useLlm, cfg) || race.BatchFirst? || i in race.settled) ==>
              r[i].recommendReason == Some(ItemReason(pois[i], intent, useLlm, cfg, llms(i)))
    ensures forall i :: 0 <= i < |pois| && BatchWaits(useLlm, cfg) && race.TimerFirst? && i !in race.settled ==>
              r[i] == pois[i]
  {
    var done := BatchBuildReasons(pois, intent, useLlm, cfg, llms);
    if !BatchWaits(useLlm, cfg) || race.BatchFirst? then done
    else seq(|pois|, i requires 0 <= i < |pois| => if i in race.settled then done[i] else pois[i])
  }

  predicate AnyReason(pois: seq<Poi>) {
    exists i :: 0 <= i < |pois| && HasReason(pois[i])
  }

  /** `handleMapRecommend` over a search of the shape the handler expects. */
  function Handle(cfg: RouterConfig, env: RouterEnv, ev: JsVal, search: PositionalSearch): (r: RouterResponse)
    ensures r.code == 200 <==> r.data.Some?
    ensures r.code == 200 || r.code == 400 || r.code == 500
    ensures Nullish(ev) ==> r == InternalError
    ensures r.code == 200 ==>
              && !Nullish(ev) && RequestLat(ev).Num? && RequestLng(ev).Num?
              && search(RequestLat(ev).n, RequestLng(ev).n, RequestBizType(ev), Or(Get(ev, "radius"), cfg.radiusDefault)).Ok?
  {
    if Nullish(ev) then InternalError
    else
      var lat := RequestLat(ev);
      var lng := RequestLng(ev);
      var bizType := RequestBizType(ev);
      var radius := Or(Get(ev, "radius"), cfg.radiusDefault);
      var enableReasons := EnableReasons(ev);
      if !lat.Num? || !lng.Num? then
        RouterResponse(400, "Missing/invalid lat or lng parameters", None, Some((lat, lng)))
      else if OutOfRange(lat.n, lng.n) then
        RouterResponse(400, "Invalid coordinate range", None, None)
      else
        match search(lat.n, lng.n, bizType, radius)
        case Err(_) => InternalError
        case Ok(pois) =>
          var finalPois :=
            if Truthy(enableReasons) && |pois| > 0
            then Enrich(pois, Intent(env.rt, ev), UseLlm(ev), cfg.llm, env.llms, env.race)
            else pois;
          var hasReasons := if Truthy(enableReasons) then Bool(AnyReason(finalPois)) else enableReasons;
          RouterResponse(200, "success",
            Some(RouterData(finalPois, SearchParams(lat.n, lng.n, bizType, radius, EchoedIntent(env.rt, ev)),
                            |finalPois|, hasReasons)),
            None)
  }

  /** Validation: a request is refused with 400 exactly when a coordinate is not a number or a
      number outside the valid range; NaN passes both checks. */
  lemma HandleValidation(cfg: RouterConfig, env: RouterEnv, ev: JsVal, search: PositionalSearch)
    requires !Nullish(ev)
    ensures var r := Handle(cfg, env, ev, search);
            r.code == 400 <==> (!RequestLat(ev).Num? || !RequestLng(ev).Num? || OutOfRange(RequestLat(ev).n, RequestLng(ev).n))
    ensures var r := Handle(cfg, env, ev, search);
            (!RequestLat(ev).Num? || !RequestLng(ev).Num?) ==>
              r.message == "Missing/invalid lat or lng parameters" && r.received == Some((RequestLat(ev), RequestLng(ev)))
  {
  }

  /** NaN coordinates are numbers and compare false against every bound, so they reach the
      search. */
  lemma NaNReachesSearch(cfg: RouterConfig, env: RouterEnv, ev: JsVal, search: PositionalSearch)
    requires !Nullish(ev) && RequestLat(ev) == Num(NaN) && RequestLng(ev) == Num(NaN)
    ensures Handle(cfg, env, ev, search).code != 400
  {
  }

  /** A search failure is reported as a 500 without detail. */
  lemma HandleSearchFailure(cfg: RouterConfig, env: RouterEnv, ev: JsVal, search: PositionalSearch)
    requires !Nullish(ev) && RequestLat(ev).Num? && RequestLng(ev).Num? && !OutOfRange(RequestLat(ev).n, RequestLng(ev).n)
    requires search(RequestLat(ev).n, RequestLng(ev).n, RequestBizType(ev), Or(Get(ev, "radius"), cfg.radiusDefault)).Err?
    ensures Handle(cfg, env, ev, search) == InternalError
  {
  }

  /** A successful search is returned record for record: only reasons are added, the total is
      the record count, and the search parameters are those used. */
  lemma HandleSuccess(cfg: RouterConfig, env: RouterEnv, ev: JsVal, search: PositionalSearch)
    requires !Nullish(ev) && RequestLat(ev).Num? && RequestLng(ev).Num? && !OutOfRange(RequestLat(ev).n, RequestLng(ev).n)
    requires search(RequestLat(ev).n, RequestLng(ev).n, RequestBizType(ev), Or(Get(ev, "radius"), cfg.radiusDefault)).Ok?
    ensures var found := search(RequestLat(ev).n, RequestLng(ev).n, RequestBizType(ev), Or(Get(ev, "radius"), cfg.radiusDefault)).value;
            var r := Handle(cfg, env, ev, search);
            && r.code == 200 && r.message == "success"
            && |r.data.value.pois| == |found| == r.data.value.total
            && (forall i :: 0 <= i < |found| ==> r.data.value.pois[i].(recommendReason := found[i].recommendReason) == found[i])
            && r.data.value.searchParams
                 == SearchParams(RequestLat(ev).n, RequestLng(ev).n, RequestBizType(ev),
                                 Or(Get(ev, "radius"), cfg.radiusDefault), EchoedIntent(env.rt, ev))
  {
  }

  /** With reasons switched off (any falsy `enableReasons` other than undefined) the records are
      returned untouched and `hasReasons` echoes the switch itself. */
  lemma HandleWithoutReasons(cfg: RouterConfig, env: RouterEnv, ev: JsVal, search: PositionalSearch)
    requires !Nullish(ev) && !Truthy(EnableReasons(ev))
    requires Handle(cfg, env, ev, search).code == 200
    ensures var found := search(RequestLat(ev).n, RequestLng(ev).n, RequestBizType(ev), Or(Get(ev, "radius"), cfg.radiusDefault)).value;
            var d := Handle(cfg, env, ev, search).data.value;
            d.pois == found && d.hasReasons == EnableReasons(ev)
  {
  }

  /** When the batch does not wait for the generation service (the default), every record comes
      back with its rule reason or the service's reply, and `hasReasons` is true exactly when
      there is a record. */
  lemma HandleWithReasons(cfg: RouterConfig, env: RouterEnv, ev: JsVal, search: PositionalSearch)
    requires !Nullish(ev) && Truthy(EnableReasons(ev)) && !BatchWaits(UseLlm(ev), cfg.llm)
    requires Handle(cfg, env, ev, search).code == 200
    ensures var found := search(RequestLat(ev).n, RequestLng(ev).n, RequestBizType(ev), Or(Get(ev, "radius"), cfg.radiusDefault)).value;
            var d := Handle(cfg, env, ev, search).data.value;
            && (forall i :: 0 <= i < |found| ==>
                  d.pois[i].recommendReason == Some(ItemReason(found[i], Intent(env.rt, ev), UseLlm(ev), cfg.llm, env.llms(i))))
            && d.hasReasons == Bool(|found| > 0)
  {
    var found := search(RequestLat(ev).n, RequestLng(ev).n, RequestBizType(ev), Or(Get(ev, "radius"), cfg.radiusDefault)).value;
    var d := Handle(cfg, env, ev, search).data.value;
    if |found| > 0 {
      assert HasReason(d.pois[0]);
    }
  }

  /** When the timer fires first, only the records that settled in time carry new reasons, and
      `hasReasons` says whether any record ended up with one. */
  lemma HandleTimerFirst(cfg: RouterConfig, env: RouterEnv, ev: JsVal, search: PositionalSearch, i: nat)
    requires !Nullish(ev) && Truthy(EnableReasons(ev)) && BatchWaits(UseLlm(ev), cfg.llm) && env.race.TimerFirst?
    requires Handle(cfg, env, ev, search).code == 200
    requires i < |Handle(cfg, env, ev, search).data.value.pois|
    ensures var found := search(RequestLat(ev).n, RequestLng(ev).n, RequestBizType(ev), Or(Get(ev, "radius"), cfg.radiusDefault)).value;
            var d := Handle(cfg, env, ev, search).data.value;
            && (i !in env.race.settled ==> d.pois[i] == found[i])
            && (i in env.race.settled ==>
                  d.pois[i].recommendReason == Some(ItemReason(found[i], Intent(env.rt, ev), UseLlm(ev), cfg.llm, env.llms(i))))
            && d.hasReasons == Bool(AnyReason(d.pois))
  {
  }

  /** The shipped configuration never waits for the generation service, so the timer never
      matters and every record gets its rule reason. */
  lemma ShippedConfigUsesRules(env: RouterEnv, ev: JsVal, search: PositionalSearch, i: nat)
    requires !Nullish(ev) && Truthy(EnableReasons(ev))
    requires Handle(ShippedRouterConfig, env, ev, search).code == 200
    requires i < |Handle(ShippedRouterConfig, env, ev, search).data.value.pois|
    ensures var found := search(RequestLat(ev).n, RequestLng(ev).n, RequestBizType(ev),
                                Or(Get(ev, "radius"), ShippedRouterConfig.radiusDefault)).value;
            Handle(ShippedRouterConfig, env, ev, search).data.value.pois[i].recommendReason
              == Some(BuildReasonByRule(found[i], Intent(env.rt, ev)))
  {
    var found := search(RequestLat(ev).n, RequestLng(ev).n, RequestBizType(ev),
                        Or(Get(ev, "radius"), ShippedRouterConfig.radiusDefault)).value;
    HandleWithReasons(ShippedRouterConfig, env, ev, search);
    ShippedLlmFallsBack(found[i], Intent(env.rt, ev), env.llms(i));
  }

  // ---------------------------------------------------------------- the handler as written

  /** The handler's call as written: `searchAround` destructures the latitude as its options, so
      every option reads as undefined and the key check rejects the call. */
  function PositionalCall(rt: Runtime, lat: JsNumber, fetch: string -> Amap.HttpOutcome): (r: Result<seq<Poi>>)
    ensures r == Err("Missing AMAP_KEY")
  {
    match Amap.SearchAround(rt, Amap.OptionsFrom(Num(lat)), fetch)
    case Err(message) => Err(message)
    case Ok(_) => assert false; Ok([])
  }

  function AsWrittenSearch(rt: Runtime, fetch: string -> Amap.HttpOutcome): PositionalSearch {
    (lat: JsNumber, lng: JsNumber, bizType: JsVal, radius: JsVal) => PositionalCall(rt, lat, fetch)
  }

  /** `handleMapRecommend` as shipped. */
  function HandleMapRecommend(cfg: RouterConfig, env: RouterEnv, ev: JsVal, fetch: string -> Amap.HttpOutcome): (r: RouterResponse)
    ensures r.code != 200 && r.data.None?
  {
    Handle(cfg, env, ev, AsWrittenSearch(env.rt, fetch))
  }

  /** As written, no request succeeds: whatever passes validation ends in a 500. */
  lemma AsWrittenAlwaysFails(cfg: RouterConfig, env: RouterEnv, ev: JsVal, fetch: string -> Amap.HttpOutcome)
    ensures HandleMapRecommend(cfg, env, ev, fetch).code != 200
    ensures !Nullish(ev) && RequestLat(ev).Num? && RequestLng(ev).Num? && !OutOfRange(RequestLat(ev).n, RequestLng(ev).n) ==>
              HandleMapRecommend(cfg, env, ev, fetch) == InternalError
  {
  }

  // ---------------------------------------------------------------- simple handler

  /** The request `handleMapRecommendSimple` builds: reasons off, business type "yoga" when the
      argument is undefined. */
  function SimpleEvent(lat: JsVal, lng: JsVal, bizType: JsVal, radius: JsVal): JsVal {
    Obj(map["lat" := lat, "lng" := lng, "bizType" := WithDefault(bizType, Str("yoga")), "radius" := radius,
            "enableReasons" := Bool(false)])
  }

  function HandleMapRecommendSimple(cfg: RouterConfig, env: RouterEnv, lat: JsVal, lng: JsVal, bizType: JsVal,
                                    radius: JsVal, fetch: string -> Amap.HttpOutcome): (r: RouterResponse)
    ensures r.code != 200 && r.data.None?
    ensures (!lat.Num? || !lng.Num?) ==> r.code == 400 && r.message == "Missing/invalid lat or lng parameters"
  {
    SimpleEventFields(lat, lng, bizType, radius);
    AsWrittenAlwaysFails(cfg, env, SimpleEvent(lat, lng, bizType, radius), fetch);
    HandleValidation(cfg, env, SimpleEvent(lat, lng, bizType, radius), AsWrittenSearch(env.rt, fetch));
    HandleMapRecommend(cfg, env, SimpleEvent(lat, lng, bizType, radius), fetch)
  }

  /** The simple handler never generates reasons: the records are the search's own and
      `hasReasons` is false. */
  lemma SimpleHasNoReasons(cfg: RouterConfig, env: RouterEnv, lat: JsVal, lng: JsVal, bizType: JsVal, radius: JsVal,
                           search: PositionalSearch)
    requires Handle(cfg, env, SimpleEvent(lat, lng, bizType, radius), search).code == 200
    ensures var ev := SimpleEvent(lat, lng, bizType, radius);
            var d := Handle(cfg, env, ev, search).data.value;
            && d.hasReasons == Bool(false)
            && d.pois == search(RequestLat(ev).n, RequestLng(ev).n, RequestBizType(ev), Or(Get(ev, "radius"), cfg.radiusDefault)).value
  {
    var ev := SimpleEvent(lat, lng, bizType, radius);
    SimpleEventFields(lat, lng, bizType, radius);
    HandleValidation(cfg, env, ev, search);
    HandleWithoutReasons(cfg, env, ev, search);
  }

  lemma SimpleEventFields(lat: JsVal, lng: JsVal, bizType: JsVal, radius: JsVal)
    ensures var ev := SimpleEvent(lat, lng, bizType, radius);
            && !Nullish(ev) && EnableReasons(ev) == Bool(false)
            && RequestLat(ev) == Or(lat, Undefined) && RequestLng(ev) == Or(lng, Undefined)
            && Get(ev, "radius") == radius
  {
  }
}
