/** The point-of-interest record that flows from the search through reason generation. */
module Records {
  import opened Wrappers

  /** A provider rating: the text as the provider sent it, and `parseFloat(text)` in tenths,
      rounded down (None when it does not parse). Every threshold the service applies (0, 4.0,
      4.5) is a whole number of tenths, so rounding down never changes a comparison. */
  datatype Rating = Rating(text: string, tenths: Option<int>)

  /** One formatted search result. `distance` is in whole metres; `recommendReason` is absent
      until reason generation writes it. */
  datatype Poi = Poi(
    id: string,
    name: string,
    poiType: string,
    typecode: string,
    address: string,
    location: string,
    tel: string,
    cityname: string,
    adname: string,
    distance: Option<nat>,
    rating: Option<Rating>,
    cost: Option<string>,
    photos: seq<string>,
    recommendReason: Option<string>)

  /** `poi.distance` is truthy. */
  predicate HasDistance(p: Poi) {
    p.distance.Some? && p.distance.value != 0
  }

  /** `poi.rating` is truthy. */
  predicate HasRating(p: Poi) {
    p.rating.Some? && p.rating.value.text != ""
  }

  /** `poi.recommendReason` is truthy. */
  predicate HasReason(p: Poi) {
    p.recommendReason.Some? && p.recommendReason.value != ""
  }

  /** The same record with a reason written into it. */
  function WithReason(p: Poi, reason: string): (q: Poi)
    ensures q.recommendReason == Some(reason)
    ensures q.(recommendReason := p.recommendReason) == p
  {
    p.(recommendReason := Some(reason))
  }
}
