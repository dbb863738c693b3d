/**
 * The search orchestration of `RealTravelRepository`: single-centre,
 * multi-centre and polygon searches, the merge of per-category chunks, the
 * `excludeIds` filter for expansion, and the rerank-with-fallback step.
 *
 * The place search (`KakaoLocalService.searchByCategories`), geocoding, the
 * weather lookup, the GPT reranker and `rebalanceByCategory` are parameters.
 * A search or geocode that throws is `Failure`; the fan-outs, concurrent in
 * the source, are sequential maps that keep task order.
 */
module Repository {
  import opened Wrappers
  import opened Text
  import opened Places
  import opened Geometry

  /** One `searchByCategories` call. */
  datatype SearchRequest = SearchRequest(centerLat: real, centerLng: real, categories: Categories, radiusMeters: int, size: int)

  /** What the reranker returns: the candidates reordered, a reason per id, and the ids it marks as its top picks. */
  datatype RerankOutput = RerankOutput(places: seq<Place>, reasons: map<string, string>, aiTopIds: set<string>)

  /** One reranker call: the filter, the weather and the candidates. */
  datatype RerankRequest = RerankRequest(filter: FilterState, weather: Option<WeatherInfo>, candidates: seq<Place>)

  /** `rebalanceByCategory(candidates, cats, minPerCat = 4, perCatTop = 1, totalCap = null)`, returning (top, ordered). */
  type Rebalance = (seq<Place>, Categories) -> (seq<Place>, seq<Place>)

  /** The soft size at which `recommend` stops taking further categories. */
  const MergeSoftCap: int := 60

  // ----- clamps -----

  /** `min(20_000, max(1, r))`. */
  function ClampRadius(r: int): (c: int)
    ensures 1 <= c <= 20000
    ensures 1 <= r <= 20000 ==> c == r
    ensures r < 1 ==> c == 1
    ensures r > 20000 ==> c == 20000
  {
    if r < 1 then 1 else if r > 20000 then 20000 else r
  }

  /** `min(15, max(1, s))`: Kakao accepts at most 15 results per page. */
  function ClampSize(s: int): (c: int)
    ensures 1 <= c <= 15
    ensures 1 <= s <= 15 ==> c == s
    ensures s < 1 ==> c == 1
    ensures s > 15 ==> c == 15
  {
    if s < 1 then 1 else if s > 15 then 15 else s
  }

  // ----- rerank with fallback -----

  /** `runCatching { rerank } .getOrElse { RerankOutput(candidates, emptyMap()) }`. */
  function RerankedOrFallback(out: Outcome<RerankOutput>, candidates: seq<Place>): (r: RerankOutput)
    ensures out.Success? ==> r == out.value
    ensures out.Failure? ==> r.places == candidates && r.reasons == map[] && r.aiTopIds == {}
  {
    match out
    case Success(o) => o
    case Failure => RerankOutput(candidates, map[], {})
  }

  /** The result built from a rerank output: rebalanced order and top picks, plus the reasons and AI picks. */
  function RankedResult(out: RerankOutput, cats: Categories, weather: Option<WeatherInfo>, rebalance: Rebalance): (r: RecommendationResult)
    ensures r.places == rebalance(out.places, cats).1 && r.topPicks == rebalance(out.places, cats).0
    ensures r.weather == weather && r.gptReasons == out.reasons && r.aiTopIds == out.aiTopIds
  {
    var (top, ordered) := rebalance(out.places, cats);
    RecommendationResult(ordered, weather, top, out.reasons, out.aiTopIds)
  }

  /** A failed rerank leaves the Kakao order to the rebalancer, with no reasons and no AI picks. */
  lemma RerankFailureFallsBack(candidates: seq<Place>, cats: Categories, weather: Option<WeatherInfo>, rebalance: Rebalance)
    ensures var r := RankedResult(RerankedOrFallback(Failure, candidates), cats, weather, rebalance);
      r.places == rebalance(candidates, cats).1 && r.topPicks == rebalance(candidates, cats).0
      && r.gptReasons == map[] && r.aiTopIds == {}
  {
  }

  // ----- recommend: merge of per-category chunks -----

  function ChunkRequest(center: LatLng, cat: Category): SearchRequest {
    SearchRequest(center.lat, center.lng, [cat], ClampRadius(3000), 15)
  }

  /**
   * The merge loop of `recommend`: each category's chunk is put into the
   * map if its id is absent; after each whole chunk, 60 or more entries
   * stop the loop. `consumed` is everything put so far.
   */
  function MergeUntil(consumed: seq<Place>, cats: Categories, center: LatLng, search: SearchRequest -> Outcome<seq<Place>>)
    : Outcome<seq<Place>>
    decreases |cats|
  {
    if cats == [] then Success(DistinctById(consumed))
    else
      match search(ChunkRequest(center, cats[0]))
      case Failure => Failure
      case Success(chunk) =>
        if |DistinctById(consumed + chunk)| >= MergeSoftCap then Success(DistinctById(consumed + chunk))
        else MergeUntil(consumed + chunk, cats[1..], center, search)
  }

  /** One round of the merge: the chunk of category `cats[i]` either fails the merge, ends it at the cap, or carries on. */
  lemma MergeStep(consumed: seq<Place>, cats: Categories, i: nat, center: LatLng, search: SearchRequest -> Outcome<seq<Place>>)
    requires i < |cats|
    ensures var chunk := search(ChunkRequest(center, cats[i]));
      && (chunk.Failure? ==> MergeUntil(consumed, cats[i..], center, search) == Failure)
      && (chunk.Success? ==>
            var merged := DistinctById(consumed + chunk.value);
            MergeUntil(consumed, cats[i..], center, search)
              == if |merged| >= MergeSoftCap then Success(merged) else MergeUntil(consumed + chunk.value, cats[i + 1..], center, search))
  {
    assert cats[i..][0] == cats[i] && cats[i..][1..] == cats[i + 1..];
  }

  /** The merge has one place per id, and keeps every id already put. */
  lemma {:induction false} MergeDistinct(consumed: seq<Place>, cats: Categories, center: LatLng, search: SearchRequest -> Outcome<seq<Place>>)
    requires MergeUntil(consumed, cats, center, search).Success?
    ensures DistinctIds(MergeUntil(consumed, cats, center, search).value)
    ensures Ids(consumed) <= Ids(MergeUntil(consumed, cats, center, search).value)
    decreases |cats|
  {
    if cats != [] {
      var chunk := search(ChunkRequest(center, cats[0])).value;
      IdsAppend(consumed, chunk);
      if |DistinctById(consumed + chunk)| < MergeSoftCap {
        MergeDistinct(consumed + chunk, cats[1..], center, search);
      }
    }
  }

  /** A merge that ends below 60 entries took every category's chunk. */
  lemma {:induction false} MergeBelowCapTakesAll(consumed: seq<Place>, cats: Categories, center: LatLng, search: SearchRequest -> Outcome<seq<Place>>)
    requires MergeUntil(consumed, cats, center, search).Success?
    requires |MergeUntil(consumed, cats, center, search).value| < MergeSoftCap
    ensures forall c <- cats :: search(ChunkRequest(center, c)).Success?
    decreases |cats|
  {
    if cats != [] {
      var chunk := search(ChunkRequest(center, cats[0])).value;
      MergeBelowCapTakesAll(consumed + chunk, cats[1..], center, search);
      assert forall c <- cats :: c == cats[0] || c in cats[1..];
    }
  }

  /** The cap is checked only after a whole chunk: a first chunk of 60 or more distinct places is kept whole. */
  lemma MergeOvershoots(cats: Categories, center: LatLng, search: SearchRequest -> Outcome<seq<Place>>, chunk: seq<Place>)
    requires cats != [] && search(ChunkRequest(center, cats[0])) == Success(chunk)
    requires DistinctIds(chunk) && |chunk| >= MergeSoftCap
    ensures MergeUntil([], cats, center, search) == Success(chunk)
  {
    assert [] + chunk == chunk;
    DistinctByIdOfDistinct(chunk);
  }

  /** `chunk.forEach { p -> merged.putIfAbsent(p.id, p) }` on an insertion-ordered map. */
  method PutAllIfAbsent(merged: seq<Place>, chunk: seq<Place>) returns (m: seq<Place>)
    requires DistinctIds(merged)
    ensures m == DistinctById(merged + chunk)
    ensures merged <= m
  {
    DistinctByIdOfDistinct(merged);
    assert merged + chunk[..0] == merged;
    m := merged;
    for j := 0 to |chunk|
      invariant m == DistinctById(merged + chunk[..j])
      invariant merged <= m
    {
      var p := chunk[j];
      var before := merged + chunk[..j];
      PutOneMore(merged, chunk, j);
      DistinctByIdSnoc(before, p);
      if p.id !in Ids(m) {
        m := m + [p];
      }
    }
    assert chunk[..|chunk|] == chunk;
  }

  lemma PutOneMore(merged: seq<Place>, chunk: seq<Place>, j: nat)
    requires j < |chunk|
    ensures merged + chunk[..j + 1] == (merged + chunk[..j]) + [chunk[j]]
  {
    assert chunk[..j + 1] == chunk[..j] + [chunk[j]];
  }

  // ----- weather -----

  /**
   * `getWeather(region)`: geocode the region, then ask for the weather at
   * its centre. Only the weather call is guarded (`runCatching`): a geocode
   * that throws fails the lookup, and a region that does not geocode has no
   * weather.
   */
  function GetWeather(geocode: string -> Outcome<Option<LatLng>>, weatherAt: (real, real) -> Option<WeatherInfo>,
                      region: string): (r: Outcome<Option<WeatherInfo>>)
    ensures r.Failure? <==> geocode(region).Failure?
    ensures geocode(region) == Success(None) ==> r == Success(None)
    ensures geocode(region).Success? && geocode(region).value.Some? ==>
      r == Success(weatherAt(geocode(region).value.value.lat, geocode(region).value.value.lng))
  {
    match geocode(region)
    case Failure => Failure
    case Success(None) => Success(None)
    case Success(Some(c)) => Success(weatherAt(c.lat, c.lng))
  }

  /** The outcome `recommend` promises. */
  function RecommendOutcome(filter: FilterState, weather: Option<WeatherInfo>, geocode: string -> Outcome<Option<LatLng>>,
                            search: SearchRequest -> Outcome<seq<Place>>, rebalance: Rebalance): Outcome<RecommendationResult>
  {
    match geocode(IfBlank(filter.region, "서울"))
    case Failure => Failure
    case Success(None) => Success(PlainResult([], weather))
    case Success(Some(center)) =>
      var cats := DefaultCategories(filter.categories);
      match MergeUntil([], cats, center, search)
      case Failure => Failure
      case Success(merged) =>
        var (top, ordered) := rebalance(merged, cats);
        Success(RecommendationResult(ordered, weather, top, map[], {}))
  }

  /**
   * `recommend`: geocode the region (blank means "서울"), merge the
   * per-category chunks around it, and rebalance.
   */
  method Recommend(filter: FilterState, weather: Option<WeatherInfo>, geocode: string -> Outcome<Option<LatLng>>,
                   search: SearchRequest -> Outcome<seq<Place>>, rebalance: Rebalance)
    returns (r: Outcome<RecommendationResult>)
    ensures r == RecommendOutcome(filter, weather, geocode, search, rebalance)
  {
    var regionText := IfBlank(filter.region, "서울");
    var center := geocode(regionText);
    if center.Failure? {
      return Failure;
    }
    if center.value.None? {
      return Success(PlainResult([], weather));
    }
    var c := center.value.value;
    var cats := DefaultCategories(filter.categories);
    var merged: seq<Place> := [];
    ghost var consumed: seq<Place> := [];
    var i := 0;
    var stop := false;
    while i < |cats| && !stop
      invariant 0 <= i <= |cats|
      invariant merged == DistinctById(consumed)
      invariant stop ==> MergeUntil([], cats, c, search) == Success(merged)
      invariant !stop ==> MergeUntil([], cats, c, search) == MergeUntil(consumed, cats[i..], c, search)
      decreases |cats| - i, !stop
    {
      MergeStep(consumed, cats, i, c, search);
      var chunk := search(ChunkRequest(c, cats[i]));
      if chunk.Failure? {
        return Failure;
      }
      DistinctByIdOfPrefix(consumed, chunk.value);
      merged := PutAllIfAbsent(merged, chunk.value);
      consumed := consumed + chunk.value;
      if |merged| >= MergeSoftCap {
        stop := true;
      } else {
        i := i + 1;
      }
    }
    var (top, ordered) := rebalance(merged, cats);
    r := Success(RecommendationResult(ordered, weather, top, map[], {}));
  }

  // ----- recommendWithGpt -----

  /**
   * `recommendWithGpt`: one clamped search around the given centre, a
   * rerank (given the filter without its region) that falls back to the
   * search order, and a rebalance. A failing search fails the call.
   */
  function RecommendWithGpt(filter: FilterState, centerLat: real, centerLng: real, radiusMeters: int, candidateSize: int,
                            weatherAt: (real, real) -> Option<WeatherInfo>, search: SearchRequest -> Outcome<seq<Place>>,
                            rerank: RerankRequest -> Outcome<RerankOutput>, rebalance: Rebalance)
    : (r: Outcome<RecommendationResult>)
    ensures
      var req := SearchRequest(centerLat, centerLng, DefaultCategories(filter.categories), ClampRadius(radiusMeters), ClampSize(candidateSize));
      && (r.Failure? <==> search(req).Failure?)
      && (r.Success? ==>
            var weather := weatherAt(centerLat, centerLng);
            var out := rerank(RerankRequest(filter.(region := ""), weather, search(req).value));
            r.value == RankedResult(RerankedOrFallback(out, search(req).value), DefaultCategories(filter.categories), weather, rebalance))
  {
    var weather := weatherAt(centerLat, centerLng);
    var cats := DefaultCategories(filter.categories);
    match search(SearchRequest(centerLat, centerLng, cats, ClampRadius(radiusMeters), ClampSize(candidateSize)))
    case Failure => Failure
    case Success(candidates) =>
      var out := RerankedOrFallback(rerank(RerankRequest(filter.(region := ""), weather, candidates)), candidates);
      Success(RankedResult(out, cats, weather, rebalance))
  }

  /** The search `recommendWithGpt` sends always has a usable radius and page size, and at least one category. */
  lemma RecommendWithGptRequestInRange(filter: FilterState, centerLat: real, centerLng: real, radiusMeters: int, candidateSize: int)
    ensures var req := SearchRequest(centerLat, centerLng, DefaultCategories(filter.categories), ClampRadius(radiusMeters), ClampSize(candidateSize));
      1 <= req.radiusMeters <= 20000 && 1 <= req.size <= 15 && req.categories != []
      && (filter.categories == [] ==> req.categories == [FOOD])
  {
  }

  // ----- searchMultiplePoints and recommendWideWithGpt -----

  /** One sub-region's batch: geocode "main sub", then search; a missing centre or any failure gives nothing. */
  function SubRegionBatch(mainRegion: string, subRegion: string, cats: Categories, radiusPerPoint: int, sizePerPoint: int,
                          geocode: string -> Outcome<Option<LatLng>>, search: SearchRequest -> Outcome<seq<Place>>): seq<Place>
  {
    match geocode(mainRegion + " " + subRegion)
    case Failure => []
    case Success(None) => []
    case Success(Some(c)) =>
      match search(SearchRequest(c.lat, c.lng, cats, radiusPerPoint, sizePerPoint))
      case Failure => []
      case Success(places) => places
  }

  function SubRegionBatches(mainRegion: string, subRegions: seq<string>, cats: Categories, radiusPerPoint: int, sizePerPoint: int,
                            geocode: string -> Outcome<Option<LatLng>>, search: SearchRequest -> Outcome<seq<Place>>): (b: seq<seq<Place>>)
    ensures |b| == |subRegions|
  {
    seq(|subRegions|, i requires 0 <= i < |subRegions| =>
      SubRegionBatch(mainRegion, subRegions[i], cats, radiusPerPoint, sizePerPoint, geocode, search))
  }

  /**
   * `searchMultiplePoints`: the first-seen deduplication of the sub-region
   * batches concatenated in sub-region order.
   */
  method SearchMultiplePoints(mainRegion: string, subRegions: seq<string>, categories: Categories, radiusPerPoint: int, sizePerPoint: int,
                              geocode: string -> Outcome<Option<LatLng>>, search: SearchRequest -> Outcome<seq<Place>>)
    returns (places: seq<Place>)
    ensures places == DistinctById(Flatten(SubRegionBatches(mainRegion, subRegions, DefaultCategories(categories), radiusPerPoint, sizePerPoint, geocode, search)))
    ensures DistinctIds(places)
  {
    var cats := DefaultCategories(categories);
    ghost var batches := SubRegionBatches(mainRegion, subRegions, cats, radiusPerPoint, sizePerPoint, geocode, search);
    var allPlaces: seq<Place> := [];
    for i := 0 to |subRegions|
      invariant allPlaces == Flatten(batches[..i])
    {
      var batch: seq<Place> := [];
      var coords := geocode(mainRegion + " " + subRegions[i]);
      if coords.Success? && coords.value.Some? {
        var found := search(SearchRequest(coords.value.value.lat, coords.value.value.lng, cats, radiusPerPoint, sizePerPoint));
        if found.Success? {
          batch := found.value;
        }
      }
      assert batch == batches[i];
      assert batches[..i + 1] == batches[..i] + [batch];
      FlattenAppend(batches[..i], batch);
      allPlaces := allPlaces + batch;
    }
    assert batches[..|subRegions|] == batches;
    places := DistinctById(allPlaces);
  }

  /** A sub-region that cannot be geocoded adds nothing: dropping it gives the same places. */
  lemma {:induction false} UngeocodableSubRegionAddsNothing(mainRegion: string, before: seq<string>, sub: string, after: seq<string>,
      cats: Categories, radius: int, size: int, geocode: string -> Outcome<Option<LatLng>>, search: SearchRequest -> Outcome<seq<Place>>)
    requires geocode(mainRegion + " " + sub) != Success(None) ==> geocode(mainRegion + " " + sub).Failure?
    ensures Flatten(SubRegionBatches(mainRegion, before + [sub] + after, cats, radius, size, geocode, search))
         == Flatten(SubRegionBatches(mainRegion, before + after, cats, radius, size, geocode, search))
  {
    var all := SubRegionBatches(mainRegion, before + [sub] + after, cats, radius, size, geocode, search);
    var bs := SubRegionBatches(mainRegion, before, cats, radius, size, geocode, search);
    var rest := SubRegionBatches(mainRegion, after, cats, radius, size, geocode, search);
    assert all == bs + [[]] + rest;
    assert SubRegionBatches(mainRegion, before + after, cats, radius, size, geocode, search) == bs + rest;
    FlattenConcat(bs + [[]], rest);
    FlattenConcat(bs, rest);
    FlattenAppend(bs, []);
  }

  lemma {:induction false} FlattenConcat(a: seq<seq<Place>>, b: seq<seq<Place>>)
    ensures Flatten(a + b) == Flatten(a) + Flatten(b)
    decreases |b|
  {
    if b == [] {
      assert a + b == a;
    } else {
      var pre := b[..|b| - 1];
      assert a + b == (a + pre) + [b[|b| - 1]];
      FlattenAppend(a + pre, b[|b| - 1]);
      FlattenConcat(a, pre);
      FlattenAppend(pre, b[|b| - 1]);
      assert pre + [b[|b| - 1]] == b;
    }
  }

  /** The result of ranking non-empty candidates, or the empty result when there are none. */
  function RankOrEmpty(filter: FilterState, weather: Option<WeatherInfo>, candidates: seq<Place>, cats: Categories,
                       rerank: RerankRequest -> Outcome<RerankOutput>, rebalance: Rebalance): (r: RecommendationResult)
    ensures candidates == [] ==> r == PlainResult([], weather)
    ensures candidates != [] && rerank(RerankRequest(filter, weather, candidates)).Failure? ==>
      r.places == rebalance(candidates, cats).1 && r.topPicks == rebalance(candidates, cats).0
      && r.weather == weather && r.gptReasons == map[] && r.aiTopIds == {}
    ensures candidates != [] && rerank(RerankRequest(filter, weather, candidates)).Success? ==>
      var out := rerank(RerankRequest(filter, weather, candidates)).value;
      r.places == rebalance(out.places, cats).1 && r.topPicks == rebalance(out.places, cats).0
      && r.weather == weather && r.gptReasons == out.reasons && r.aiTopIds == out.aiTopIds
  {
    if candidates == [] then PlainResult([], weather)
    else RankedResult(RerankedOrFallback(rerank(RerankRequest(filter, weather, candidates)), candidates), cats, weather, rebalance)
  }

  /** What `recommendWideWithGpt` promises. */
  function WideRecommendation(filter: FilterState, subRegions: seq<string>, radiusMeters: int, candidateSizePerRegion: int,
                              weatherAt: (real, real) -> Option<WeatherInfo>, geocode: string -> Outcome<Option<LatLng>>,
                              search: SearchRequest -> Outcome<seq<Place>>, rerank: RerankRequest -> Outcome<RerankOutput>,
                              rebalance: Rebalance): Outcome<RecommendationResult>
  {
    var mainRegion := IfBlank(filter.region, "서울");
    match GetWeather(geocode, weatherAt, mainRegion)
    case Failure => Failure
    case Success(weather) =>
      var cats := DefaultCategories(filter.categories);
      var candidates := DistinctById(Flatten(SubRegionBatches(mainRegion, subRegions, cats, radiusMeters, candidateSizePerRegion, geocode, search)));
      Success(RankOrEmpty(filter, weather, candidates, cats, rerank, rebalance))
  }

  /**
   * The wide recommendation fails exactly when the main region's geocode
   * (made for its weather) throws; sub-regions never fail it. On success it
   * carries the main region's weather.
   */
  lemma WideRecommendationFailure(filter: FilterState, subRegions: seq<string>, radiusMeters: int, candidateSizePerRegion: int,
                                  weatherAt: (real, real) -> Option<WeatherInfo>, geocode: string -> Outcome<Option<LatLng>>,
                                  search: SearchRequest -> Outcome<seq<Place>>, rerank: RerankRequest -> Outcome<RerankOutput>,
                                  rebalance: Rebalance)
    ensures var mainRegion := IfBlank(filter.region, "서울");
      var r := WideRecommendation(filter, subRegions, radiusMeters, candidateSizePerRegion, weatherAt, geocode, search, rerank, rebalance);
      && (r.Failure? <==> geocode(mainRegion).Failure?)
      && (r.Success? ==> r.value.weather == GetWeather(geocode, weatherAt, mainRegion).value)
  {
  }

  /**
   * `recommendWideWithGpt`: weather for the main region (blank means
   * "서울"), a multi-centre search, then rerank with fallback and rebalance;
   * no candidates gives an empty result.
   */
  method RecommendWideWithGpt(filter: FilterState, subRegions: seq<string>, radiusMeters: int, candidateSizePerRegion: int,
                              weatherAt: (real, real) -> Option<WeatherInfo>, geocode: string -> Outcome<Option<LatLng>>,
                              search: SearchRequest -> Outcome<seq<Place>>, rerank: RerankRequest -> Outcome<RerankOutput>,
                              rebalance: Rebalance)
    returns (r: Outcome<RecommendationResult>)
    ensures r == WideRecommendation(filter, subRegions, radiusMeters, candidateSizePerRegion, weatherAt, geocode, search, rerank, rebalance)
  {
    var mainRegion := IfBlank(filter.region, "서울");
    var weather := GetWeather(geocode, weatherAt, mainRegion);
    if weather.Failure? {
      return Failure;
    }
    var cats := DefaultCategories(filter.categories);
    var candidates := SearchMultiplePoints(mainRegion, subRegions, cats, radiusMeters, candidateSizePerRegion, geocode, search);
    if |candidates| == 0 {
      return Success(PlainResult([], weather.value));
    }
    var out := RerankedOrFallback(rerank(RerankRequest(filter, weather.value, candidates)), candidates);
    r := Success(RankedResult(out, cats, weather.value, rebalance));
  }

  // ----- expandSearch -----

  function NotExcluded(excludeIds: set<string>): Place -> bool {
    (p: Place) => p.id !in excludeIds
  }

  /**
   * `expandSearch`: a 15-result search with the new radius, minus the
   * places already shown, in search order. A failing search fails the call.
   */
  function ExpandSearch(centerLat: real, centerLng: real, categories: Categories, newRadius: int, excludeIds: set<string>,
                        search: SearchRequest -> Outcome<seq<Place>>): (r: Outcome<seq<Place>>)
    ensures
      var found := search(SearchRequest(centerLat, centerLng, DefaultCategories(categories), newRadius, 15));
      && (r.Failure? <==> found.Failure?)
      && (r.Success? ==> r.value == Filter(found.value, NotExcluded(excludeIds)))
      && (r.Success? ==> forall p :: p in r.value <==> p in found.value && p.id !in excludeIds)
  {
    match search(SearchRequest(centerLat, centerLng, DefaultCategories(categories), newRadius, 15))
    case Failure => Failure
    case Success(found) => Success(Filter(found, NotExcluded(excludeIds)))
  }

  /** The expansion never repeats a shown place, and repeats nothing it found twice unless the search did. */
  lemma ExpandSearchIsNew(centerLat: real, centerLng: real, categories: Categories, newRadius: int, excludeIds: set<string>,
                          search: SearchRequest -> Outcome<seq<Place>>)
    requires ExpandSearch(centerLat, centerLng, categories, newRadius, excludeIds, search).Success?
    ensures Ids(ExpandSearch(centerLat, centerLng, categories, newRadius, excludeIds, search).value) !! excludeIds
    ensures var found := search(SearchRequest(centerLat, centerLng, DefaultCategories(categories), newRadius, 15)).value;
      DistinctIds(found) ==> DistinctIds(ExpandSearch(centerLat, centerLng, categories, newRadius, excludeIds, search).value)
  {
    var found := search(SearchRequest(centerLat, centerLng, DefaultCategories(categories), newRadius, 15)).value;
    if DistinctIds(found) {
      FilterKeepsDistinct(found, NotExcluded(excludeIds));
    }
  }

  // ----- searchWithinPolygon and recommendPolygonWithGpt -----

  function InsidePolygon(polygon: seq<LatLng>): Place -> bool {
    (p: Place) => InPolygon(p.lat, p.lng, polygon)
  }

  /** One grid point's batch; a failing search gives nothing. */
  function GridBatch(point: LatLng, cats: Categories, radiusPerPoint: int, sizePerPoint: int, search: SearchRequest -> Outcome<seq<Place>>)
    : seq<Place>
  {
    match search(SearchRequest(point.lat, point.lng, cats, radiusPerPoint, sizePerPoint))
    case Failure => []
    case Success(places) => places
  }

  function GridBatches(points: seq<LatLng>, cats: Categories, radiusPerPoint: int, sizePerPoint: int, search: SearchRequest -> Outcome<seq<Place>>)
    : (b: seq<seq<Place>>)
    ensures |b| == |points|
  {
    seq(|points|, i requires 0 <= i < |points| => GridBatch(points[i], cats, radiusPerPoint, sizePerPoint, search))
  }

  /** What `searchWithinPolygon` promises, as a function of its inputs. */
  function PolygonPlaces(polygon: seq<LatLng>, categories: Categories, gridSpacing: real, radiusPerPoint: int, sizePerPoint: int,
                         maxGridPoints: int, search: SearchRequest -> Outcome<seq<Place>>): seq<Place>
    requires gridSpacing > 0.0
  {
    if polygon == [] then []
    else
      var grid := Prefix(GridCandidates(polygon, gridSpacing), maxGridPoints);
      if grid == [] then []
      else
        var batches := GridBatches(grid, DefaultCategories(categories), radiusPerPoint, sizePerPoint, search);
        Filter(DistinctById(Flatten(batches)), InsidePolygon(polygon))
  }

  /** Every place of a polygon search lies inside the polygon, once, and was found from some grid point. */
  lemma PolygonPlacesProperties(polygon: seq<LatLng>, categories: Categories, gridSpacing: real, radiusPerPoint: int, sizePerPoint: int,
                                maxGridPoints: int, search: SearchRequest -> Outcome<seq<Place>>)
    requires gridSpacing > 0.0
    ensures var r := PolygonPlaces(polygon, categories, gridSpacing, radiusPerPoint, sizePerPoint, maxGridPoints, search);
      && DistinctIds(r)
      && (forall p <- r :: InPolygon(p.lat, p.lng, polygon))
      && (polygon == [] || maxGridPoints <= 0 ==> r == [])
  {
    if polygon != [] {
      var grid := Prefix(GridCandidates(polygon, gridSpacing), maxGridPoints);
      PrefixFacts(GridCandidates(polygon, gridSpacing), maxGridPoints);
      if grid != [] {
        var all := Flatten(GridBatches(grid, DefaultCategories(categories), radiusPerPoint, sizePerPoint, search));
        FilterKeepsDistinct(DistinctById(all), InsidePolygon(polygon));
      }
    }
  }

  /**
   * `searchWithinPolygon`: grid points inside the polygon (at most
   * `maxGridPoints`), one search per point, first-seen deduplication, and
   * a final containment filter. The source's grid loop only terminates for
   * a positive spacing, hence the precondition.
   */
  method SearchWithinPolygon(polygon: seq<LatLng>, categories: Categories, gridSpacing: real, radiusPerPoint: int, sizePerPoint: int,
                             maxGridPoints: int, search: SearchRequest -> Outcome<seq<Place>>)
    returns (inside: seq<Place>)
    requires gridSpacing > 0.0
    ensures inside == PolygonPlaces(polygon, categories, gridSpacing, radiusPerPoint, sizePerPoint, maxGridPoints, search)
    ensures DistinctIds(inside)
    ensures forall p <- inside :: InPolygon(p.lat, p.lng, polygon)
  {
    PolygonPlacesProperties(polygon, categories, gridSpacing, radiusPerPoint, sizePerPoint, maxGridPoints, search);
    if |polygon| == 0 {
      return [];
    }
    var cats := DefaultCategories(categories);
    var gridPoints := GenerateGrid(polygon, gridSpacing, maxGridPoints);
    if |gridPoints| == 0 {
      return [];
    }
    var allPlaces := SearchGridPoints(gridPoints, cats, radiusPerPoint, sizePerPoint, search);
    var uniquePlaces := DistinctById(allPlaces);
    inside := KeepInside(uniquePlaces, polygon);
  }

  /** The per-point searches of `searchWithinPolygon`, concatenated in grid order; a failing point adds nothing. */
  method SearchGridPoints(gridPoints: seq<LatLng>, cats: Categories, radiusPerPoint: int, sizePerPoint: int,
                          search: SearchRequest -> Outcome<seq<Place>>)
    returns (allPlaces: seq<Place>)
    ensures allPlaces == Flatten(GridBatches(gridPoints, cats, radiusPerPoint, sizePerPoint, search))
  {
    ghost var batches := GridBatches(gridPoints, cats, radiusPerPoint, sizePerPoint, search);
    allPlaces := [];
    for i := 0 to |gridPoints|
      invariant allPlaces == Flatten(batches[..i])
    {
      var batch: seq<Place> := [];
      var found := search(SearchRequest(gridPoints[i].lat, gridPoints[i].lng, cats, radiusPerPoint, sizePerPoint));
      if found.Success? {
        batch := found.value;
      }
      assert batch == batches[i];
      assert batches[..i + 1] == batches[..i] + [batch];
      FlattenAppend(batches[..i], batch);
      allPlaces := allPlaces + batch;
    }
    assert batches[..|gridPoints|] == batches;
  }

  /** The containment post-filter: the places that pass `isPointInPolygon`, in order. */
  method KeepInside(places: seq<Place>, polygon: seq<LatLng>) returns (inside: seq<Place>)
    ensures inside == Filter(places, InsidePolygon(polygon))
    ensures forall p <- inside :: InPolygon(p.lat, p.lng, polygon)
  {
    inside := [];
    for k := 0 to |places|
      invariant inside == Filter(places[..k], InsidePolygon(polygon))
    {
      var p := places[k];
      var ok := IsPointInPolygon(p.lat, p.lng, polygon);
      assert places[..k + 1] == places[..k] + [p];
      FilterAppend(places[..k], [p], InsidePolygon(polygon));
      if ok {
        inside := inside + [p];
      }
    }
    assert places[..|places|] == places;
  }

  /** What `recommendPolygonWithGpt` promises. */
  function PolygonRecommendation(filter: FilterState, polygonCoords: seq<LatLng>, weather: Option<WeatherInfo>,
                                 search: SearchRequest -> Outcome<seq<Place>>, rerank: RerankRequest -> Outcome<RerankOutput>,
                                 rebalance: Rebalance): RecommendationResult
  {
    var cats := DefaultCategories(filter.categories);
    RankOrEmpty(filter, weather, PolygonPlaces(polygonCoords, cats, 0.05, 3000, 15, 50, search), cats, rerank, rebalance)
  }

  /**
   * `recommendPolygonWithGpt`: a polygon search with the default grid
   * (spacing 0.05, radius 3000, 15 per point, at most 50 points), then
   * rerank with fallback and rebalance; no candidates gives an empty
   * result. The weather at the polygon's centroid is an input.
   */
  method RecommendPolygonWithGpt(filter: FilterState, polygonCoords: seq<LatLng>, weather: Option<WeatherInfo>,
                                 search: SearchRequest -> Outcome<seq<Place>>, rerank: RerankRequest -> Outcome<RerankOutput>,
                                 rebalance: Rebalance)
    returns (r: RecommendationResult)
    ensures r == PolygonRecommendation(filter, polygonCoords, weather, search, rerank, rebalance)
  {
    var cats := DefaultCategories(filter.categories);
    var candidates := SearchWithinPolygon(polygonCoords, cats, 0.05, 3000, 15, 50, search);
    if |candidates| == 0 {
      return PlainResult([], weather);
    }
    var out := RerankedOrFallback(rerank(RerankRequest(filter, weather, candidates)), candidates);
    r := RankedResult(out, cats, weather, rebalance);
  }
}
