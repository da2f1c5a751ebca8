/**
  utils/reason.js: the recommendation-reason engine. A deterministic rule strategy builds a
  short reason from distance, district, rating and intent clauses; a generative strategy asks an
  external text-generation service and falls back to the rule reason on every failure; a batch
  writes one reason into each record of a result list.
 */
module Reason {
  import opened Wrappers
  import opened Text
  import opened Records

  const Separator := " · "
  const MaxReasonLength := 30
  const DefaultIntent := "瑜伽练习"

  /** Dedicated intent phrases; any other intent gets the generic phrase. */
  const IntentPhrases: map<string, string> := map[
    "肩颈舒缓" := "适合肩颈放松课程",
    "核心训练" := "核心力量训练佳选",
    "冥想放松" := "静心冥想好去处",
    "入门体验" := "新手友好环境",
    "高温瑜伽" := "专业热瑜伽体验",
    "阴瑜伽" := "深度拉伸放松",
    "流瑜伽" := "动态流畅练习",
    "瑜伽练习" := "瑜伽练习优选"
  ]

  function IntentPhrase(intent: string): (p: string)
    ensures p != ""
    ensures intent in IntentPhrases ==> p == IntentPhrases[intent]
    ensures intent !in IntentPhrases ==> p == "适合" + intent + "体验"
  {
    if intent in IntentPhrases then IntentPhrases[intent] else "适合" + intent + "体验"
  }

  // ---------------------------------------------------------------- distance clause

  /** `Math.round(d / 100)`: the distance in tenths of a kilometre, halves rounded up. */
  function KmTenths(d: nat): (t: nat)
    ensures 100 * t <= d + 50 < 100 * t + 100
  {
    (d + 50) / 100
  }

  /** `String(t / 10)` for a whole number of tenths: one decimal place, none when it is zero. */
  function TenthsText(t: nat): string {
    if t % 10 == 0 then NatText(t / 10) else NatText(t / 10) + "." + [DigitChar(t % 10)]
  }

  /** Reads back a decimal with at most one fractional digit, in tenths. */
  function ReadTenths(s: string): Option<nat> {
    if AllDigits(s) && s != [] then Some(ParseNat(s) * 10)
    else if |s| >= 3 && s[|s| - 2] == '.' && IsDigit(s[|s| - 1]) && AllDigits(s[..|s| - 2]) && |s[..|s| - 2]| > 0
    then Some(ParseNat(s[..|s| - 2]) * 10 + DigitValue(s[|s| - 1]))
    else None
  }

  lemma ReadTenthsText(t: nat)
    ensures ReadTenths(TenthsText(t)) == Some(t)
  {
    ParseNatText(t / 10);
    var s := TenthsText(t);
    if t % 10 != 0 {
      assert s[..|s| - 2] == NatText(t / 10);
      assert !AllDigits(s) by { assert s[|s| - 2] == '.'; }
    }
  }

  /** The three phrasings of the distance clause. */
  datatype DistanceTier = Walk(metres: nat) | Near(tenths: nat) | Far(tenths: nat)

  function TierOf(d: nat): DistanceTier {
    if d <= 500 then Walk(d) else if d <= 2000 then Near(KmTenths(d)) else Far(KmTenths(d))
  }

  function TierText(t: DistanceTier): string {
    match t
    case Walk(m) => "步行可达 " + NatText(m) + "米"
    case Near(k) => "距离约" + TenthsText(k) + "公里"
    case Far(k) => TenthsText(k) + "公里内"
  }

  /** Present only for a truthy distance under 5 km. */
  function DistanceClause(p: Poi): (c: Option<string>)
    ensures c.Some? <==> HasDistance(p) && p.distance.value < 5000
  {
    if HasDistance(p) && p.distance.value < 5000 then Some(TierText(TierOf(p.distance.value))) else None
  }

  /** Reads a distance clause back into its tier and figure. */
  function ReadDistanceClause(c: string): Option<DistanceTier> {
    if StartsWith(c, "步行可达 ") && EndsWith(c, "米") && |c| > 6 && AllDigits(c[5..|c| - 1])
    then Some(Walk(ParseNat(c[5..|c| - 1])))
    else if StartsWith(c, "距离约") && EndsWith(c, "公里") && |c| >= 5 && ReadTenths(c[3..|c| - 2]).Some?
    then Some(Near(ReadTenths(c[3..|c| - 2]).value))
    else if EndsWith(c, "公里内") && ReadTenths(c[..|c| - 3]).Some?
    then Some(Far(ReadTenths(c[..|c| - 3]).value))
    else None
  }

  /** The distance clause states the tier faithfully: walking distance to the metre up to 500 m,
      otherwise "about" up to 2 km and "within" beyond, with the distance in tenths of a
      kilometre rounded half up. */
  lemma DistanceClauseReadsBack(p: Poi)
    requires HasDistance(p) && p.distance.value < 5000
    ensures var d := p.distance.value;
            ReadDistanceClause(DistanceClause(p).value)
              == Some(if d <= 500 then Walk(d) else if d <= 2000 then Near(KmTenths(d)) else Far(KmTenths(d)))
  {
    TierTextReadsBack(TierOf(p.distance.value));
  }

  /** Each phrasing of the distance clause reads back to its tier and figure. */
  lemma TierTextReadsBack(t: DistanceTier)
    ensures ReadDistanceClause(TierText(t)) == Some(t)
  {
    match t
    case Walk(m) => WalkTextReadsBack(m);
    case Near(k) => NearTextReadsBack(k);
    case Far(k) => FarTextReadsBack(k);
  }

  lemma WalkTextReadsBack(m: nat)
    ensures ReadDistanceClause(TierText(Walk(m))) == Some(Walk(m))
  {
    var c := TierText(Walk(m));
    assert c[5..|c| - 1] == NatText(m);
    ParseNatText(m);
  }

  lemma NearTextReadsBack(k: nat)
    ensures ReadDistanceClause(TierText(Near(k))) == Some(Near(k))
  {
    var c := TierText(Near(k));
    assert c[3..|c| - 2] == TenthsText(k);
    ReadTenthsText(k);
    assert !StartsWith(c, "步行可达 ") by { assert c[0] != "步行可达 "[0]; }
  }

  lemma FarTextReadsBack(k: nat)
    ensures ReadDistanceClause(TierText(Far(k))) == Some(Far(k))
  {
    var c := TierText(Far(k));
    var text := TenthsText(k);
    assert c[..|c| - 3] == text;
    ReadTenthsText(k);
    assert IsDigit(c[0]);
    assert !StartsWith(c, "步行可达 ") by { assert c[0] != "步行可达 "[0]; }
    assert !StartsWith(c, "距离约") by { assert c[0] != "距离约"[0]; }
  }

  // ---------------------------------------------------------------- area and rating clauses

  /** Present only for a non-empty district that differs from the city. */
  function AreaClause(p: Poi): (c: Option<string>)
    ensures c.Some? <==> p.adname != "" && p.adname != p.cityname
    ensures c.Some? ==> c.value == "位于" + p.adname
  {
    if p.adname != "" && p.adname != p.cityname then Some("位于" + p.adname) else None
  }

  /** The rating in tenths when `poi.rating && parseFloat(poi.rating) > 0`. */
  function PositiveRating(p: Poi): Option<int> {
    if HasRating(p) && p.rating.value.tenths.Some? && p.rating.value.tenths.value > 0
    then p.rating.value.tenths
    else None
  }

  /** "Highly rated" from 4.5, "well regarded" from 4.0, nothing below 4.0 or without a rating. */
  function RatingClause(p: Poi): (c: Option<string>)
    ensures c == Some("高评分推荐") <==> PositiveRating(p).Some? && PositiveRating(p).value >= 45
    ensures c == Some("口碑不错") <==> PositiveRating(p).Some? && 40 <= PositiveRating(p).value < 45
    ensures c.None? <==> PositiveRating(p).None? || PositiveRating(p).value < 40
  {
    match PositiveRating(p)
    case None => None
    case Some(t) => if t >= 45 then Some("高评分推荐") else if t >= 40 then Some("口碑不错") else None
  }

  // ---------------------------------------------------------------- rule strategy

  function Listed(c: Option<string>): seq<string> {
    if c.Some? then [c.value] else []
  }

  /** How many clauses an optional clause contributes. */
  function Count(c: Option<string>): nat {
    if c.Some? then 1 else 0
  }

  /** The clauses in priority order: distance, area, rating, then the intent phrase; nothing
      else is listed. */
  function RuleClauses(p: Poi, intent: string): (cs: seq<string>)
    ensures |cs| == Count(DistanceClause(p)) + Count(AreaClause(p)) + Count(RatingClause(p)) + 1
    ensures cs[|cs| - 1] == IntentPhrase(intent)
    ensures DistanceClause(p).Some? ==> cs[0] == DistanceClause(p).value
    ensures AreaClause(p).Some? ==> cs[Count(DistanceClause(p))] == AreaClause(p).value
    ensures RatingClause(p).Some? ==> cs[Count(DistanceClause(p)) + Count(AreaClause(p))] == RatingClause(p).value
  {
    Listed(DistanceClause(p)) + Listed(AreaClause(p)) + Listed(RatingClause(p)) + [IntentPhrase(intent)]
  }

  lemma JoinPair(a: string, b: string, sep: string)
    ensures Join([a, b], sep) == a + sep + b
  {
    assert [a, b][1..] == [b];
  }

  /** `buildReasonByRule`: the clauses joined with " · " when that fits in 30 characters,
      otherwise the leading clause and the intent phrase only. */
  function BuildReasonByRule(p: Poi, intent: string): (r: string)
    ensures EndsWith(r, IntentPhrase(intent))
    ensures StartsWith(r, RuleClauses(p, intent)[0])
    ensures |Join(RuleClauses(p, intent), Separator)| <= MaxReasonLength ==>
              r == Join(RuleClauses(p, intent), Separator)
    ensures |Join(RuleClauses(p, intent), Separator)| > MaxReasonLength ==>
              r == RuleClauses(p, intent)[0] + Separator + IntentPhrase(intent)
  {
    var parts := RuleClauses(p, intent);
    var joined := Join(parts, Separator);
    if |joined| > MaxReasonLength then
      JoinPair(parts[0], IntentPhrase(intent), Separator);
      Join(parts[..1] + [IntentPhrase(intent)], Separator)
    else
      joined
  }

  /** A joined string contains each of its parts. */
  lemma {:induction false} JoinContainsParts(parts: seq<string>, sep: string, k: nat)
    requires k < |parts|
    ensures Contains(Join(parts, sep), parts[k])
    decreases |parts|
  {
    if k == 0 {
      PrefixContained(Join(parts, sep), parts[0]);
    } else {
      JoinContainsParts(parts[1..], sep, k - 1);
      JoinUnfold(parts, sep);
      ContainsSuffix(parts[0] + sep, Join(parts[1..], sep), parts[k]);
    }
  }

  lemma PrefixContained(s: string, fragment: string)
    requires StartsWith(s, fragment)
    ensures Contains(s, fragment)
  {
  }

  lemma JoinUnfold(parts: seq<string>, sep: string)
    requires |parts| >= 2
    ensures Join(parts, sep) == (parts[0] + sep) + Join(parts[1..], sep)
  {
  }

  lemma {:induction false} ContainsSuffix(a: string, s: string, fragment: string)
    requires Contains(s, fragment)
    ensures Contains(a + s, fragment)
    decreases |a|
  {
    if a == [] {
      assert a + s == s;
    } else {
      assert (a + s)[1..] == a[1..] + s;
      ContainsSuffix(a[1..], s, fragment);
    }
  }

  /** When the clauses fit, the reason mentions the district, the rating verdict and the distance
      whenever their clauses are present; when they do not fit, the distance clause (if any)
      still leads. */
  lemma RuleReasonMentionsClauses(p: Poi, intent: string)
    ensures var r := BuildReasonByRule(p, intent);
            |Join(RuleClauses(p, intent), Separator)| <= MaxReasonLength ==>
              && (AreaClause(p).Some? ==> Contains(r, "位于" + p.adname))
              && (RatingClause(p).Some? ==> Contains(r, RatingClause(p).value))
              && (DistanceClause(p).Some? ==> Contains(r, DistanceClause(p).value))
    ensures DistanceClause(p).Some? ==> StartsWith(BuildReasonByRule(p, intent), DistanceClause(p).value)
  {
    var cs := RuleClauses(p, intent);
    var a := Listed(DistanceClause(p));
    var b := Listed(AreaClause(p));
    var c := Listed(RatingClause(p));
    if |Join(cs, Separator)| <= MaxReasonLength {
      if AreaClause(p).Some? {
        assert cs[|a|] == "位于" + p.adname;
        JoinContainsParts(cs, Separator, |a|);
      }
      if RatingClause(p).Some? {
        assert cs[|a| + |b|] == RatingClause(p).value;
        JoinContainsParts(cs, Separator, |a| + |b|);
      }
      if DistanceClause(p).Some? {
        JoinContainsParts(cs, Separator, 0);
      }
    }
  }

  /** With no distance, area or rating clause the intent phrase stands alone if it fits, and is
      otherwise written twice (the fallback keeps the first clause, which is the phrase itself). */
  lemma IntentOnlyReason(p: Poi, intent: string)
    requires DistanceClause(p).None? && AreaClause(p).None? && RatingClause(p).None?
    ensures |IntentPhrase(intent)| <= MaxReasonLength ==> BuildReasonByRule(p, intent) == IntentPhrase(intent)
    ensures |IntentPhrase(intent)| > MaxReasonLength ==>
              BuildReasonByRule(p, intent) == IntentPhrase(intent) + Separator + IntentPhrase(intent)
  {
    assert RuleClauses(p, intent) == [IntentPhrase(intent)];
  }

  /** A yoga studio 450 m away in 朝阳区 (city 北京市) rated 4.6, for the default intent: the four
      clauses join to 34 characters, so only the distance and intent clauses are kept. */
  lemma RuleReasonExample()
    ensures var p := Poi("B0", "Studio", "", "", "", "", "", "北京市", "朝阳区", Some(450),
                         Some(Rating("4.6", Some(46))), None, [], None);
            BuildReasonByRule(p, DefaultIntent) == "步行可达 450米 · 瑜伽练习优选"
  {
    var p := Poi("B0", "Studio", "", "", "", "", "", "北京市", "朝阳区", Some(450),
                 Some(Rating("4.6", Some(46))), None, [], None);
    ExampleDistanceClause(p);
    assert "位于" + "朝阳区" == "位于朝阳区";
    assert AreaClause(p) == Some("位于朝阳区");
    assert RatingClause(p) == Some("高评分推荐");
    var cs := ["步行可达 450米", "位于朝阳区", "高评分推荐", "瑜伽练习优选"];
    assert RuleClauses(p, DefaultIntent) == cs;
    ExampleJoinTooLong(cs);
  }

  lemma ExampleDistanceClause(p: Poi)
    requires p.distance == Some(450)
    ensures DistanceClause(p) == Some("步行可达 450米")
  {
    assert NatText(45) == "45" by { assert NatText(4) == "4"; }
    assert NatText(450) == "450";
    assert TierOf(450) == Walk(450);
    assert "步行可达 " + "450" + "米" == "步行可达 450米";
  }

  lemma ExampleJoinTooLong(cs: seq<string>)
    requires cs == ["步行可达 450米", "位于朝阳区", "高评分推荐", "瑜伽练习优选"]
    ensures |Join(cs, Separator)| == 34
    ensures cs[0] + Separator + IntentPhrase(DefaultIntent) == "步行可达 450米 · 瑜伽练习优选"
  {
    assert cs[1..] == ["位于朝阳区", "高评分推荐", "瑜伽练习优选"];
    assert cs[1..][1..] == ["高评分推荐", "瑜伽练习优选"];
    JoinUnfold(cs, Separator);
    JoinUnfold(cs[1..], Separator);
    JoinPair("高评分推荐", "瑜伽练习优选", Separator);
    assert |Join(cs, Separator)| == 9 + 3 + (5 + 3 + (5 + 3 + 6));
  }

  // ---------------------------------------------------------------- generative strategy

  /** Which generation credentials are configured, and whether the client module loads. */
  datatype LlmConfig = LlmConfig(hunyuanKey: string, openAiKey: string, moduleAvailable: bool)

  predicate LlmConfigured(cfg: LlmConfig) {
    cfg.hunyuanKey != "" || cfg.openAiKey != ""
  }

  /** The shipped configuration module defines no generation credentials. */
  const ShippedLlmConfig := LlmConfig("", "", true)

  datatype LlmRequest = LlmRequest(system: string, user: string)

  /** What one call to the generation service did: threw, or returned a value. A value that is
      not a string makes `trim` throw, which is the same as `Threw`. */
  datatype LlmOutcome = Threw | Replied(text: string)

  type LlmService = LlmRequest -> LlmOutcome

  const SystemPrompt := "你是专业的瑜伽顾问，善于写简洁有力的推荐语。"

  function UserPrompt(p: Poi, intent: string): string {
    var distanceText := if HasDistance(p) then "距离" + NatText(p.distance.value) + "米" else "";
    var locationText := if p.adname != "" then "位于" + p.adname else "";
    var ratingText := if HasRating(p) then "评分" + p.rating.value.text else "";
    "为瑜伽馆\"" + p.name + "\"写一句15字以内的推荐理由。\n场馆信息：" + distanceText + " " + locationText + " "
      + ratingText + "\n用户需求：" + intent + "\n要求：简洁有吸引力，突出适合该用户需求的特点。"
  }

  function Request(p: Poi, intent: string): LlmRequest {
    LlmRequest(SystemPrompt, UserPrompt(p, intent))
  }

  /** Cuts a reply to 30 characters and marks the cut with "...". */
  function Clip(s: string): (r: string)
    ensures |r| <= MaxReasonLength + 3
    ensures |s| <= MaxReasonLength ==> r == s
    ensures |s| > MaxReasonLength ==> StartsWith(r, s[..MaxReasonLength]) && EndsWith(r, "...") && |r| == MaxReasonLength + 3
  {
    if |s| > MaxReasonLength then s[..MaxReasonLength] + "..." else s
  }

  /** The reason a reply yields, or None when the rule reason must be used instead. */
  function ReplyReason(o: LlmOutcome): (r: Option<string>)
    ensures r.Some? ==> r.value != "" && |r.value| <= MaxReasonLength + 3
    ensures r.Some? <==> o.Replied? && Trim(o.text) != ""
  {
    match o
    case Threw => None
    case Replied(text) =>
      var s := Trim(text);
      if s == "" then None else Some(Clip(s))
  }

  /** `buildReasonByLLM`: the rule reason unless the service is configured, loads, and returns
      non-blank text; then that text trimmed and cut to 30 characters plus "...". */
  function BuildReasonByLLM(p: Poi, intent: string, cfg: LlmConfig, llm: LlmService): (r: string)
    ensures r != ""
    ensures !LlmConfigured(cfg) || !cfg.moduleAvailable ==> r == BuildReasonByRule(p, intent)
    ensures llm(Request(p, intent)).Threw? ==> r == BuildReasonByRule(p, intent)
    ensures (llm(Request(p, intent)).Replied? && Trim(llm(Request(p, intent)).text) == "") ==>
              r == BuildReasonByRule(p, intent)
    ensures r == BuildReasonByRule(p, intent) || |r| <= MaxReasonLength + 3
  {
    if !LlmConfigured(cfg) || !cfg.moduleAvailable then
      BuildReasonByRule(p, intent)
    else
      match ReplyReason(llm(Request(p, intent)))
      case Some(reason) => reason
      case None => BuildReasonByRule(p, intent)
  }

  /** A configured service's non-blank reply is used, trimmed and clipped. */
  lemma LlmReplyUsed(p: Poi, intent: string, cfg: LlmConfig, llm: LlmService)
    requires LlmConfigured(cfg) && cfg.moduleAvailable
    requires llm(Request(p, intent)).Replied?
    requires Trim(llm(Request(p, intent)).text) != ""
    ensures BuildReasonByLLM(p, intent, cfg, llm) == Clip(Trim(llm(Request(p, intent)).text))
  {
  }

  /** As shipped, no credentials are configured, so the generative strategy always yields the
      rule reason. */
  lemma ShippedLlmFallsBack(p: Poi, intent: string, llm: LlmService)
    ensures BuildReasonByLLM(p, intent, ShippedLlmConfig, llm) == BuildReasonByRule(p, intent)
  {
  }

  // ---------------------------------------------------------------- batch

  function ItemReason(p: Poi, intent: string, useLlm: bool, cfg: LlmConfig, llm: LlmService): (r: string)
    ensures r != ""
    ensures !useLlm ==> r == BuildReasonByRule(p, intent)
    ensures useLlm ==> r == BuildReasonByLLM(p, intent, cfg, llm)
  {
    if useLlm then BuildReasonByLLM(p, intent, cfg, llm) else BuildReasonByRule(p, intent)
  }

  /** `batchBuildReasons`: every record, in order, receives its own reason and keeps every other
      field. `llms(i)` is the generation service as the i-th record's call experiences it. */
  function BatchBuildReasons(pois: seq<Poi>, intent: string, useLlm: bool, cfg: LlmConfig,
                             llms: nat -> LlmService): (r: seq<Poi>)
    ensures |r| == |pois|
    ensures forall i :: 0 <= i < |pois| ==> r[i].(recommendReason := pois[i].recommendReason) == pois[i]
    ensures forall i :: 0 <= i < |pois| ==>
              r[i].recommendReason == Some(ItemReason(pois[i], intent, useLlm, cfg, llms(i)))
  {
    Attach(pois, seq(|pois|, i requires 0 <= i < |pois| => ItemReason(pois[i], intent, useLlm, cfg, llms(i))))
  }

  /** Gives each record the reason at its own index. */
  function Attach(pois: seq<Poi>, reasons: seq<string>): (r: seq<Poi>)
    requires |reasons| == |pois|
    ensures |r| == |pois|
    ensures forall i :: 0 <= i < |pois| ==> r[i] == WithReason(pois[i], reasons[i])
  {
    seq(|pois|, i requires 0 <= i < |pois| => WithReason(pois[i], reasons[i]))
  }

  /** Every record leaves the batch with a non-empty reason; without the generative strategy it
      is the rule reason. */
  lemma BatchReasons(pois: seq<Poi>, intent: string, useLlm: bool, cfg: LlmConfig, llms: nat -> LlmService, i: nat)
    requires i < |pois|
    ensures HasReason(BatchBuildReasons(pois, intent, useLlm, cfg, llms)[i])
    ensures !useLlm ==>
              BatchBuildReasons(pois, intent, useLlm, cfg, llms)[i].recommendReason == Some(BuildReasonByRule(pois[i], intent))
  {
  }

  /** Per-item isolation: a record's reason depends only on the reply to its own request, so a
      failing sibling call cannot change it. */
  lemma BatchIsolation(pois: seq<Poi>, intent: string, useLlm: bool, cfg: LlmConfig,
                       llms1: nat -> LlmService, llms2: nat -> LlmService, i: nat)
    requires i < |pois|
    requires llms1(i)(Request(pois[i], intent)) == llms2(i)(Request(pois[i], intent))
    ensures BatchBuildReasons(pois, intent, useLlm, cfg, llms1)[i] == BatchBuildReasons(pois, intent, useLlm, cfg, llms2)[i]
  {
  }

  /** A call that throws still leaves its record with the rule reason. */
  lemma FailedCallGetsRuleReason(pois: seq<Poi>, intent: string, cfg: LlmConfig, llms: nat -> LlmService, i: nat)
    requires i < |pois|
    requires llms(i)(Request(pois[i], intent)).Threw?
    ensures BatchBuildReasons(pois, intent, true, cfg, llms)[i].recommendReason == Some(BuildReasonByRule(pois[i], intent))
  {
  }

  // ---------------------------------------------------------------- intent inference

  /** Training-sequence codes and the intents they stand for. */
  const SequenceIntents: map<string, string> := map[
    "neck-relief" := "肩颈舒缓",
    "core-strength" := "核心训练",
    "meditation" := "冥想放松",
    "beginner" := "入门体验",
    "hot-yoga" := "高温瑜伽",
    "yin-yoga" := "阴瑜伽",
    "vinyasa" := "流瑜伽",
    "flexibility" := "柔韧性训练",
    "stress-relief" := "压力释放",
    "balance" := "平衡训练"
  ]

  /** `inferIntentFromSequence`, keyed by `String(sequenceType)`; unknown codes (an absent one
      reads as "undefined") give the default intent. */
  function InferIntentFromSequence(code: string): (r: string)
    ensures r in SequenceIntents.Values || r == DefaultIntent
    ensures code in SequenceIntents ==> r == SequenceIntents[code]
    ensures code !in SequenceIntents ==> r == DefaultIntent
  {
    if code in SequenceIntents then SequenceIntents[code] else DefaultIntent
  }

  /** Three of the ten sequence intents have no dedicated phrase and fall back to the generic
      "适合<intent>体验"; all others, and the default, have one. */
  lemma InferredIntentHasPhrase(code: string)
    ensures InferIntentFromSequence(code) in IntentPhrases
        <==> code !in {"flexibility", "stress-relief", "balance"}
  {
  }
}
