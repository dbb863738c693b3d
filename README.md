# Travel recommendation core, modelled in Dafny

This project models the search-and-ranking core of a Korean travel
recommendation app, together with the small state machines of its two
screens:

- **Region catalogue** (`RegionCatalog`). A fixed table maps each
  metropolitan region to five representative sub-regions. A keyword list of
  well-known neighbourhoods sits on top of it. Together they classify a
  query as a WIDE search (several centres) or a NARROW one (one centre).
- **Point-in-polygon and the search grid** (`Geometry`). Ray casting over an
  implicitly closed ring. A row-major walk of the bounding box, capped at
  `maxGridPoints`.
- **Candidate pipeline** (`Repository`). Per-category merging with a soft
  stop at 60 places. Multi-centre searches that tolerate failing centres.
  The polygon search with its containment filter. The expansion search that
  drops places already shown. Radius and size clamps, and the fallback when
  reranking fails.
- **Provider adapters**:
  - `Kakao`: category codes, document-to-place conversion, first-seen
    deduplication followed by a stable distance sort, geocoding and
    reverse-geocoding document choice.
  - `VWorld`: GeoJSON outer-ring extraction with the `[lng, lat]` axis
    order of RFC 7946 section 3.1.1, and per-feature polygons and labels.
- **Screen state**:
  - `MainUi`: the main screen's in-flight guard and WIDE/NARROW dispatch,
    category toggling, region-name extraction and the autocomplete merge.
  - `ResultUi`: the result screen's view model, with a bounded,
    duplicate-free selection and a one-shot search expansion.
  - `ResultView`: the result screen's own state, with toggle, reorder and
    remove on the selection, the route guard, marker styles, segment
    highlighting, `formatDuration` and `buildNaverQuery`.

Shared helpers:

- `Wrappers`: `Option` and `Outcome`.
- `Text`: Kotlin's `trim`, `split`, `joinToString`, `contains`,
  `replace(x, "")` and integer rendering.
- `Places`: the domain records, first-seen deduplication by id, and
  filtering.

Network services, geocoding, weather, reranking and `rebalanceByCategory`
are passed in as function parameters. An exception such a call throws is
the `Failure` case of `Outcome`. Coordinates are exact `real`s. Kotlin
`Set`s whose iteration order matters are duplicate-free sequences.

Code written as loops or in-place updates is modelled as methods with
loops or as classes, each proved against a specification function:

- `isPointInPolygon`;
- the grid walk;
- the per-category and per-point merges;
- `categoryCodesFor`;
- the three view-state holders.

The pure transformations are functions with lemmas.

## Model

| member | source | states |
|---|---|---|
| Places.DefaultCategories | app/src/main/java/domain/RealTravelRepository.kt:60-61 | The categories searched are never empty: an empty selection becomes FOOD alone, and any other selection is kept as is. |
| Places.IndexOfId | app/src/main/java/ui/ResultViewModel.kt:34-35 | For an id that occurs, the index of its first occurrence: the place there has the id and no earlier place does. |
| Places.DistinctById | app/src/main/java/domain/RealTravelRepository.kt:246 | First-seen deduplication by id. The result has pairwise-distinct ids and the same id set as the input. It holds only input places and is no longer than the input. |
| Places.DistinctByIdFirstSeen | app/src/main/java/domain/RealTravelRepository.kt:246 | Each kept place is the first input place carrying its id. |
| Places.DistinctByIdOrder | app/src/main/java/domain/RealTravelRepository.kt:246 | Kept places appear in the order of their ids' first occurrences in the input. |
| Places.DistinctByIdOfDistinct | app/src/main/java/domain/RealTravelRepository.kt:246 | Deduplicating a list whose ids are already distinct returns the list unchanged. |
| Places.DistinctByIdOfPrefix | app/src/main/java/domain/RealTravelRepository.kt:78 | Deduplicating incrementally (merge a chunk into an already deduplicated prefix) equals deduplicating the whole concatenation. |
| Places.FindById | app/src/main/java/ui/ResultViewModel.kt:34-35 | `firstOrNull { it.id == id }`: none exactly when the id is absent, otherwise the first place with that id. |
| Places.Filter | app/src/main/java/domain/RealTravelRepository.kt:451-453 | A place is kept exactly when it is in the input and passes the test. The result is no longer than the input. |
| Places.FilterAppend | app/src/main/java/domain/RealTravelRepository.kt:451-453 | Filtering distributes over concatenation, so the filter keeps input order. |
| Places.FilterKeepsDistinct | app/src/main/java/domain/RealTravelRepository.kt:451-453 | Filtering a list with distinct ids leaves distinct ids. |
| Text.TrimProperties | app/src/main/java/domain/SubRegionsData.kt:114 | Trimming is idempotent, and a string trims to empty exactly when it is blank. |
| Text.Split | app/src/main/java/domain/SubRegionsData.kt:145 | n delimiters give n + 1 parts, and no part holds a delimiter. |
| Text.JoinSplit | app/src/main/java/ui/ResultScreen.kt:1382-1392 | Joining a split with its delimiter gives the string back. |
| Text.SplitJoin | app/src/main/java/ui/ResultScreen.kt:1382-1392 | Splitting a join of delimiter-free parts gives the parts back. |
| Text.Contains | app/src/main/java/domain/SubRegionsData.kt:124-128 | `q.contains(k)` holds exactly when some window of `q` spells `k`. |
| Text.RemoveCharAll | app/src/main/java/ui/MainViewModel.kt:262 | Removing a one-letter pattern keeps exactly the other letters, in order, and the letter no longer occurs. |
| Text.RemoveAllChars | app/src/main/java/ui/MainViewModel.kt:258-259 | Removing a pattern never introduces a letter. |
| Text.ReadNatToString | app/src/main/java/ui/ResultScreen.kt:270-276 | Reading back the decimal rendering of a number gives the number. |
| Geometry.IsPointInPolygon | app/src/main/java/domain/RealTravelRepository.kt:532-556 | The loop's answer is the parity of the crossing count over the implicitly closed ring. Any polygon with fewer than three vertices is outside. The crossing test never divides by zero. |
| Geometry.NorthOfAllIsOutside | app/src/main/java/domain/RealTravelRepository.kt:540-553 | A point at or above every vertex's latitude crosses no edge, so it is outside. |
| Geometry.SouthOfAllIsOutside | app/src/main/java/domain/RealTravelRepository.kt:540-553 | A point below every vertex's latitude crosses no edge, so it is outside. |
| Geometry.EastOfAllIsOutside | app/src/main/java/domain/RealTravelRepository.kt:540-553 | A point at or east of every vertex's longitude crosses no edge, so it is outside. |
| Geometry.ExplicitlyClosedRingSameAnswer | app/src/main/java/domain/RealTravelRepository.kt:540-553 | Repeating the first vertex at the end does not change the answer: the ring is closed implicitly. |
| Geometry.SquareCentreInside | app/src/main/java/domain/RealTravelRepository.kt:532-556 | The centre of any axis-aligned square, wherever it lies, is inside it. |
| Geometry.MinLat | app/src/main/java/domain/RealTravelRepository.kt:390-393 | The smallest vertex latitude: a lower bound that some vertex attains. MaxLat, MinLng and MaxLng are the same for the other bounds. |
| Geometry.StepsProperties | app/src/main/java/domain/RealTravelRepository.kt:398-410 | The positions a positive grid step visits lie in `[lo, hi]` and strictly increase. |
| Geometry.GridCandidatesProperties | app/src/main/java/domain/RealTravelRepository.kt:398-410 | Every uncapped grid point is inside the polygon. Its latitude and longitude are positions the two `+= gridSpacing` walks visit, so it lies within the bounding box. The points are in row-major order. |
| Geometry.GridPrefixProperties | app/src/main/java/domain/RealTravelRepository.kt:398-410 | The capped grid keeps both properties. |
| Geometry.WalkRow | app/src/main/java/domain/RealTravelRepository.kt:402-408 | The inner loop appends the inside points of one row, west to east, until the cap is reached. |
| Geometry.RowLoopStep | app/src/main/java/domain/RealTravelRepository.kt:403-407 | One point of a row keeps what is left to emit equal to the capped rest of the row. The remaining step budget shrinks. |
| Geometry.GridLoopStep | app/src/main/java/domain/RealTravelRepository.kt:400-409 | One row keeps what is left to emit equal to the capped rest of the grid. The remaining step budget shrinks. |
| Geometry.GenerateGrid | app/src/main/java/domain/RealTravelRepository.kt:398-410 | The nested loop yields the first `maxGridPoints` inside points in row-major order, and never more than the cap. Every point is inside the polygon. |
| RegionCatalog.KeysMatchTable | app/src/main/java/domain/SubRegionsData.kt:18-74 | The declared key order lists exactly the table's keys. |
| RegionCatalog.EveryEntryHasFiveSubRegions | app/src/main/java/domain/SubRegionsData.kt:18-74 | Every table entry lists exactly five sub-regions. |
| RegionCatalog.GetSubRegions | app/src/main/java/domain/SubRegionsData.kt:113-116 | Sub-regions are found exactly when the trimmed query is a table key. They are that key's table entry, five names. |
| RegionCatalog.GetSubRegionsIgnoresPadding | app/src/main/java/domain/SubRegionsData.kt:113-116 | Surrounding whitespace does not change the lookup: the query and its trim find the same entry. |
| RegionCatalog.ContainsDetailedRegionKeyword | app/src/main/java/domain/SubRegionsData.kt:124-128 | True exactly when some neighbourhood keyword occurs in the query. |
| RegionCatalog.DetermineSearchType | app/src/main/java/domain/SubRegionsData.kt:136-157 | WIDE exactly when the trimmed query holds no keyword, holds no delimiter, and is a table key. Otherwise NARROW, with the keyword and delimiter checks taking precedence. |
| RegionCatalog.WideHasSubRegions | app/src/main/java/domain/SubRegionsData.kt:151-153 | A WIDE query always has sub-regions. |
| RegionCatalog.DelimitedIsNarrow | app/src/main/java/domain/SubRegionsData.kt:144-148 | A trimmed query holding a space, slash or comma is NARROW. |
| RegionCatalog.KeywordMeansNarrow | app/src/main/java/domain/SubRegionsData.kt:140-142 | A query holding a keyword is NARROW whatever else it holds. |
| RegionCatalog.KeywordQueryIsNarrow | app/src/main/java/domain/SubRegionsData.kt:140-142 | Any query that starts with a keyword is NARROW. |
| RegionCatalog.GangnamIsNarrow | app/src/main/java/domain/SubRegionsData.kt:82-105 | "강남" is one of the "서울" entry's sub-regions, yet every query starting with it is NARROW, because it is also a keyword. |
| RegionCatalog.KeyIsWide | app/src/main/java/domain/SubRegionsData.kt:136-157 | A Hangul table key that shares no letter with a set holding every keyword's last letter classifies WIDE. |
| RegionCatalog.KeywordEndingsCover | app/src/main/java/domain/SubRegionsData.kt:82-105 | Every detailed keyword is non-empty and ends in one of 38 listed letters. |
| RegionCatalog.LetterCleanKeysAreWide | app/src/main/java/domain/SubRegionsData.kt:136-157 | Each of the ten table keys 서울, 광주, 제주, 경기, 속초, 전주, 경주, 통영, 거제 and 청주 classifies WIDE. |
| RegionCatalog.GetAllWideRegions | app/src/main/java/domain/SubRegionsData.kt:162-164 | Lists exactly the table's keys, each once. |
| Kakao.CodesOf | app/src/main/java/data/KakaoLocalService.kt:170-195 | Every category searches one or two category group codes. |
| Kakao.CategoryCodesFor | app/src/main/java/data/KakaoLocalService.kt:170-195 | The loop's list is each category's codes in turn, duplicates kept. It has between one and two codes per category, and is empty for no categories. |
| Kakao.AllCodesMembers | app/src/main/java/data/KakaoLocalService.kt:170-195 | A code is searched exactly when it belongs to one of the categories. |
| Kakao.CodesRoundTrip | app/src/main/java/data/KakaoLocalService.kt:264-273 | Searching a category and decoding its codes gives the category back exactly for the recoverable ones. HEALING and EXPERIENCE come back as PHOTO, and STAY as NIGHT. |
| Kakao.DecodedCodeIsSearched | app/src/main/java/data/KakaoLocalService.kt:264-273 | A recognised code is among the codes searched for the category it decodes to. Any other code decodes as CULTURE. |
| Kakao.ToPlace | app/src/main/java/data/KakaoLocalService.kt:260-285 | No place exactly when y or x does not parse. Otherwise latitude comes from y and longitude from x, the distance is the parsed `distance` when present and absent otherwise, there is no rating, and the category is the decoded group code. |
| Kakao.ToPlaces | app/src/main/java/data/KakaoLocalService.kt:133-135 | `mapNotNull` over the documents: every converted document is kept and nothing else. |
| Kakao.SortProperties | app/src/main/java/data/KakaoLocalService.kt:141 | The distance sort is ordered by distance (missing distance counts as `Int.MAX_VALUE`) and is a permutation. |
| Kakao.SortStable | app/src/main/java/data/KakaoLocalService.kt:141 | The sort is stable: places with equal distance keep their relative order. |
| Kakao.SortKeepsDistinct | app/src/main/java/data/KakaoLocalService.kt:141 | Sorting keeps ids distinct. |
| Kakao.DedupAndSortProperties | app/src/main/java/data/KakaoLocalService.kt:140-141 | The post-processing yields distinct ids sorted by distance. It is a permutation of the first-seen deduplication and keeps the id set. Each place is the first one with its id. |
| Kakao.CategoryRequests | app/src/main/java/data/KakaoLocalService.kt:124-132 | One distance-sorted request per code, in code order, with x the longitude and y the latitude. |
| Kakao.SearchByCategories | app/src/main/java/data/KakaoLocalService.kt:114-142 | Returns empty when uninitialised or without codes. Fails when any request fails. Otherwise it returns the post-processed concatenation of the responses, which has distinct ids and is sorted by distance. |
| Kakao.FetchPlacesSources | app/src/main/java/data/KakaoLocalService.kt:124-136 | Every place a category search returns was read from the response to one of its requests. |
| Kakao.SearchByKeyword | app/src/main/java/data/KakaoLocalService.kt:145-165 | Returns empty when uninitialised, and fails exactly when the request fails. Otherwise the result is the first-seen deduplication of the converted documents, stably sorted by distance. It has their ids, and each place is the first converted place with its id. |
| Kakao.Geocode | app/src/main/java/data/KakaoLocalService.kt:54-62 | Uses only the first address document. When both its y and x parse, the centre is (y, x). When either fails to parse, or there is no document, there is no centre. A failed request fails. |
| Kakao.FirstLegalDistrict | app/src/main/java/data/KakaoLocalService.kt:76 | The first document of region type "B", if there is one. |
| Kakao.SelectRegionDoc | app/src/main/java/data/KakaoLocalService.kt:76-82 | The first legal-district ("B") document when there is one, otherwise the first document, and nothing for no documents. |
| Kakao.RegionInfoOf | app/src/main/java/data/KakaoLocalService.kt:93-105 | The display name is region2 when it is not blank, else region1. The depth names are copied. |
| Kakao.DisplayNameBlank | app/src/main/java/data/KakaoLocalService.kt:93 | The display name is blank exactly when both region1 and region2 are. |
| Kakao.FullNameSplits | app/src/main/java/data/KakaoLocalService.kt:101-102 | With clean depth names, the full name splits on spaces into the three depth names, and the city-district name into the first two. |
| Kakao.Coord2RegionCode | app/src/main/java/data/KakaoLocalService.kt:65-107 | The lookup is sent with longitude as x. It returns nothing when uninitialised or for no documents, and fails exactly when the lookup fails. Otherwise the region is built from the selected document: the first "B" document, else the first one. |
| VWorld.Positions | app/src/main/java/data/VWorldService.kt:138-143 | A decoded ring is no longer than its positions. |
| VWorld.ExtractCoordinates | app/src/main/java/data/VWorldService.kt:128-165 | Geometry types other than Polygon and MultiPolygon, and missing or empty coordinates, give no points. |
| VWorld.PositionsRoundTrip | app/src/main/java/data/VWorldService.kt:138-143 | Encoding points as `[lng, lat]` positions and decoding them gives the points back: the axis swap of RFC 7946 section 3.1.1. |
| VWorld.PolygonRoundTrip | app/src/main/java/data/VWorldService.kt:131-144 | A Polygon yields exactly its first ring (the exterior ring of RFC 7946 section 3.1.6), whatever holes follow. |
| VWorld.MultiPolygonRoundTrip | app/src/main/java/data/VWorldService.kt:145-159 | A MultiPolygon yields exactly the first ring of its first polygon (RFC 7946 section 3.1.7). |
| VWorld.PositionShapes | app/src/main/java/data/VWorldService.kt:138-143 | A position with at least two numbers becomes `(lat = p[1], lng = p[0])` and extra members are ignored. A position with fewer than two members is dropped. |
| VWorld.BadPositionEmptiesRing | app/src/main/java/data/VWorldService.kt:161-164 | A malformed member anywhere in the ring makes the whole extraction empty, not an error. |
| VWorld.CalculateCenter | app/src/main/java/data/VWorldService.kt:170-177 | No points give (0, 0). Otherwise the centre is the mean latitude and mean longitude. |
| VWorld.CenterInBoundingBox | app/src/main/java/data/VWorldService.kt:170-177 | The centre of a non-empty ring lies within its bounding box. |
| VWorld.AdminPolygons | app/src/main/java/data/VWorldService.kt:71-79 | One polygon per feature, in order. Each carries its feature's extracted ring and is named after `sig_kor_nm`, or after the query when that is absent. |
| VWorld.GetAdminBoundary | app/src/main/java/data/VWorldService.kt:54-82 | No key or a failed call gives no polygons. Otherwise one per feature. |
| VWorld.DongLabels | app/src/main/java/data/VWorldService.kt:104-116 | One label per feature, named `emd_kor_nm` (empty when absent) and placed at the centre of the feature's ring. |
| VWorld.GetDongLabels | app/src/main/java/data/VWorldService.kt:89-120 | No key or a failed call gives no labels. Otherwise one per feature. |
| VWorld.LabelPlacement | app/src/main/java/data/VWorldService.kt:104-116 | A label sits inside its ring's bounding box, or at (0, 0) when the ring yields no points. |
| Repository.ClampRadius | app/src/main/java/domain/RealTravelRepository.kt:118 | The radius sent lies in [1, 20000], and equals the request when that is already in range. |
| Repository.ClampSize | app/src/main/java/domain/RealTravelRepository.kt:119 | The page size sent lies in [1, 15], and equals the request when that is already in range. |
| Repository.RerankedOrFallback | app/src/main/java/domain/RealTravelRepository.kt:133-139 | A failed rerank falls back to the candidates in search order, with no reasons and no AI picks. |
| Repository.RankedResult | app/src/main/java/domain/RealTravelRepository.kt:163-177 | The result's places and top picks are the rebalance of the reranked places. Weather, reasons and AI picks are passed through. |
| Repository.RerankFailureFallsBack | app/src/main/java/domain/RealTravelRepository.kt:133-139 | After a failed rerank, the rebalance runs on the unreranked candidates, and the result has no reasons and no AI picks. |
| Repository.MergeDistinct | app/src/main/java/domain/RealTravelRepository.kt:67-80 | The per-category merge has distinct ids and keeps every place already merged. |
| Repository.MergeBelowCapTakesAll | app/src/main/java/domain/RealTravelRepository.kt:67-80 | A merge that ends below 60 places has queried, successfully, every category. |
| Repository.MergeOvershoots | app/src/main/java/domain/RealTravelRepository.kt:67-80 | The stop is checked only after a whole chunk: a first chunk of 60 or more distinct places is kept whole and ends the merge. |
| Repository.PutAllIfAbsent | app/src/main/java/domain/RealTravelRepository.kt:78 | `putIfAbsent` over a chunk yields the first-seen deduplication of old and new places, and extends the old list. |
| Repository.Recommend | app/src/main/java/domain/RealTravelRepository.kt:46-98 | The loop computes `recommend`: geocode the region (blank means "서울"), where no centre gives an empty result. Then merge chunks until 60 places, and rebalance. |
| Repository.RecommendWithGpt | app/src/main/java/domain/RealTravelRepository.kt:101-178 | Fails exactly when the clamped search fails. Otherwise the result is the rebalance of the rerank (given the filter without its region), or of the candidates when the rerank fails. |
| Repository.RecommendWithGptRequestInRange | app/src/main/java/domain/RealTravelRepository.kt:116-119 | The search sent has a radius in [1, 20000], a size in [1, 15] and at least one category, namely FOOD when none was chosen. |
| Repository.SubRegionBatches | app/src/main/java/domain/RealTravelRepository.kt:209-230 | One batch per sub-region, in order. |
| Repository.SearchMultiplePoints | app/src/main/java/domain/RealTravelRepository.kt:191-252 | The loop's result is the first-seen deduplication of the sub-region batches concatenated in sub-region order, and has distinct ids. |
| Repository.UngeocodableSubRegionAddsNothing | app/src/main/java/domain/RealTravelRepository.kt:209-216 | A sub-region whose "main sub" address does not geocode, or fails to, contributes nothing. |
| Repository.RankOrEmpty | app/src/main/java/domain/RealTravelRepository.kt:285-319 | No candidates give the empty result with the weather. A failed rerank ranks the candidates themselves (rebalanced order and top picks), with no reasons and no AI picks. A successful rerank ranks its own places and carries its reasons and AI picks. Either way the weather is kept. |
| Repository.GetWeather | app/src/main/java/domain/RealTravelRepository.kt:25-35 | Fails exactly when the region's geocode fails. No centre gives no weather, and a centre gives the weather reported there. |
| Repository.WideRecommendationFailure | app/src/main/java/domain/RealTravelRepository.kt:263-320 | The wide recommendation fails exactly when the main region's geocode fails, and on success carries that region's weather. |
| Repository.RecommendWideWithGpt | app/src/main/java/domain/RealTravelRepository.kt:263-320 | Equals `WideRecommendation`: the main region's weather first (its geocode failing fails the call), then the multi-centre candidates, then rerank with fallback and rebalance. |
| Repository.ExpandSearch | app/src/main/java/domain/RealTravelRepository.kt:332-357 | Fails exactly when the 15-result search fails. Otherwise it returns, in search order, exactly the found places whose id is not excluded. |
| Repository.ExpandSearchIsNew | app/src/main/java/domain/RealTravelRepository.kt:352 | The expansion repeats no shown id, and repeats nothing unless the search did. |
| Repository.GridBatches | app/src/main/java/domain/RealTravelRepository.kt:420-445 | One batch per grid point, in order. A failing point contributes an empty batch. |
| Repository.PolygonPlacesProperties | app/src/main/java/domain/RealTravelRepository.kt:372-459 | A polygon search returns distinct ids, all inside the polygon. An empty polygon or a grid cap of zero gives nothing. |
| Repository.SearchWithinPolygon | app/src/main/java/domain/RealTravelRepository.kt:372-459 | The method is the grid, a per-point search, first-seen deduplication and containment filtering. The result has distinct ids and lies inside the polygon. |
| Repository.SearchGridPoints | app/src/main/java/domain/RealTravelRepository.kt:420-445 | The loop concatenates the per-point batches in grid order. |
| Repository.KeepInside | app/src/main/java/domain/RealTravelRepository.kt:451-453 | The containment loop keeps exactly the places inside the polygon, in order. |
| Repository.RecommendPolygonWithGpt | app/src/main/java/domain/RealTravelRepository.kt:468-522 | A polygon search on the default grid (spacing 0.05, radius 3000, 15 per point, at most 50 points), then rerank with fallback and rebalance. No candidates give an empty result. |
| MainUi.Dispatch | app/src/main/java/ui/MainViewModel.kt:61-90 | A blank region becomes "서울" and no categories become FOOD. The plan is WIDE exactly when the region classifies WIDE, and then has the region's five sub-regions, radius 3000 and five per region. Otherwise the plan is NARROW with radius 3000 and 15 candidates. |
| MainUi.NarrowCenter | app/src/main/java/ui/MainViewModel.kt:127-145 | The region's centre, else "서울"'s centre when the region has none, else failure. A failed geocode fails. |
| MainUi.WideSearchFailure | app/src/main/java/ui/MainViewModel.kt:106-122 | A WIDE search fails exactly when the geocode of the normalised region fails. |
| MainUi.NarrowSearchFailure | app/src/main/java/ui/MainViewModel.kt:127-145 | A NARROW search fails exactly when no centre is found or the candidate search around it fails. |
| MainUi.RunSearch | app/src/main/java/ui/MainViewModel.kt:72-90 | The dispatch runs the wide or the narrow recommendation of the normalised filter. Its failure cases are those of `WideSearchFailure` and `NarrowSearchFailure`. |
| MainUi.Remove | app/src/main/java/ui/MainViewModel.kt:172 | `current - category`: every other category stays and the removed one is gone. A missing category changes nothing. |
| MainUi.RemoveKeepsDistinct | app/src/main/java/ui/MainViewModel.kt:172 | Removal keeps the categories distinct. |
| MainUi.Toggle | app/src/main/java/ui/MainViewModel.kt:168-176 | The toggled category's presence flips, no other category changes, an absent one is appended, and distinctness is kept. |
| MainUi.ToggleTwice | app/src/main/java/ui/MainViewModel.kt:168-176 | Toggling an absent category twice restores the list. Toggling a present one twice moves it to the end. |
| MainUi.StripProvince | app/src/main/java/ui/MainViewModel.kt:258-259 | The first word after removing the province suffixes holds no "도", and only letters of the word. |
| MainUi.StripProvincePlain | app/src/main/java/ui/MainViewModel.kt:258-259 | On a word without "광" and "특", only the letters "도" go. With a trailing "도" added, the result is the same. |
| MainUi.StripProvinceMetropolitan | app/src/main/java/ui/MainViewModel.kt:258-259 | A "광역시" suffix comes off whole, leaving the word without its "도" letters. |
| MainUi.StripProvinceSpecialCity | app/src/main/java/ui/MainViewModel.kt:258-259 | A "특별시" suffix comes off whole, leaving the word without its "도" letters. |
| MainUi.StripProvinceSelfGoverningCity | app/src/main/java/ui/MainViewModel.kt:258-259 | A "특별자치시" suffix comes off whole, because the earlier "특별시" removal does not touch it. |
| MainUi.StripDistrict | app/src/main/java/ui/MainViewModel.kt:262-264 | The second word with every "구" and then every "군" removed, the other letters kept in order. |
| MainUi.ExtractRegionName | app/src/main/java/ui/MainViewModel.kt:251-271 | No name exactly for a blank address. The name holds a space exactly when the address does. A one-word address gives that word stripped as a province. |
| MainUi.ExtractRegionNameWords | app/src/main/java/ui/MainViewModel.kt:251-271 | For an address of several words, the name is the stripped first word and the stripped second word joined by one space. |
| MainUi.AddressWordsExample | app/src/main/java/ui/MainViewModel.kt:254 | "부산광역시 해운대구 우동" splits into its three words. |
| MainUi.StripProvinceExample | app/src/main/java/ui/MainViewModel.kt:258-259 | "부산광역시" becomes "부산". |
| MainUi.StripDistrictExample | app/src/main/java/ui/MainViewModel.kt:262-264 | "해운대구" becomes "해운대". |
| MainUi.StripDistrictRemovesEveryGu | app/src/main/java/ui/MainViewModel.kt:262-264 | Every "구" goes, not only the suffix: "구로구" becomes "로". |
| MainUi.RegionNames | app/src/main/java/ui/MainViewModel.kt:222-225 | Every extracted name comes from the address of some found place, and every non-blank address contributes its name. There are no more names than places. |
| MainUi.RegionNamesAppend | app/src/main/java/ui/MainViewModel.kt:222-225 | The extraction works place by place: it distributes over concatenation, so names keep the order of their places. |
| MainUi.Distinct | app/src/main/java/ui/MainViewModel.kt:226 | `distinct()`: no repeats and the same members. |
| MainUi.DistinctOrder | app/src/main/java/ui/MainViewModel.kt:226 | Kept elements appear in the order of their first occurrences in the input. |
| MainUi.DistinctAppend | app/src/main/java/ui/MainViewModel.kt:233 | The distinct concatenation starts with the distinct first part, and what follows is not in the first part. |
| MainUi.Take | app/src/main/java/ui/MainViewModel.kt:226 | `take(n)`: the first `min(n, size)` entries. |
| MainUi.Containing | app/src/main/java/ui/MainViewModel.kt:229-231 | Keeps exactly the names that contain the query. |
| MainUi.ContainingAppend | app/src/main/java/ui/MainViewModel.kt:229-231 | The filter keeps order: it distributes over concatenation. |
| MainUi.WideMatches | app/src/main/java/ui/MainViewModel.kt:229-231 | The first three table keys, in table order, that contain the query. When at most three match, every matching key is offered. |
| MainUi.Suggestions | app/src/main/java/ui/MainViewModel.kt:211-237 | At most five suggestions without repeats. A failed search gives none. |
| MainUi.SuggestionsWideFirst | app/src/main/java/ui/MainViewModel.kt:233 | Every matching region is offered and comes before every address-derived name. Everything offered is one or the other. |
| MainUi.SuggestionsFillWithFoundNames | app/src/main/java/ui/MainViewModel.kt:222-232 | The suggestions are the first five of the merged list. Fewer than five means every found name is offered. Address-derived names keep the order of their first occurrence. |
| MainUi.FoundNamesFromAddresses | app/src/main/java/ui/MainViewModel.kt:222-226 | Each address-derived suggestion comes from a found place's address. |
| MainUi.ExpandCallbackIsNew | app/src/main/java/ui/MainViewModel.kt:321-340 | The callback fails exactly when its 5 km search fails. It returns only found places that are not excluded. |
| MainUi.MainViewModel.constructor | app/src/main/java/ui/MainViewModel.kt:21-40 | Starts idle, with no result, no error and no suggestions. |
| MainUi.MainViewModel.UpdateFilter | app/src/main/java/ui/MainViewModel.kt:42-45 | Replaces the filter and nothing else. |
| MainUi.MainViewModel.BeginSearch | app/src/main/java/ui/MainViewModel.kt:49-59 | While a search is in flight nothing changes. Otherwise the flag is set, loading starts and the error is cleared. |
| MainUi.MainViewModel.FinishSearch | app/src/main/java/ui/MainViewModel.kt:91-100 | The flag and spinner drop. Success stores the result, and failure shows the message or "추천 실패". |
| MainUi.MainViewModel.OnSearchClicked | app/src/main/java/ui/MainViewModel.kt:48-101 | Starts exactly when no search is in flight. A start ends with the flag cleared, and with the dispatched outcome's result or error shown. A WIDE search fails exactly when the region's geocode fails. |
| MainUi.MainViewModel.BuildRecommendation | app/src/main/java/ui/MainViewModel.kt:148-166 | Fetches the region's weather and runs `recommend` with it, showing its result or error and leaving the in-flight flag alone. The weather geocode adds no failure of its own. |
| MainUi.BasicOutcomeFailure | app/src/main/java/ui/MainViewModel.kt:148-166 | The basic recommendation fails exactly when `recommend` would, and on success carries the region's weather. |
| MainUi.MainViewModel.ToggleCategory | app/src/main/java/ui/MainViewModel.kt:168-176 | Toggles one category of the filter. Its presence flips and nothing else changes. |
| MainUi.MainViewModel.SetRegion | app/src/main/java/ui/MainViewModel.kt:178-189 | Always stores the region. A lookup is asked for exactly when it has at least two letters, and otherwise the suggestions are cleared and hidden. |
| MainUi.MainViewModel.RefreshSuggestions | app/src/main/java/ui/MainViewModel.kt:208-245 | Stores the suggestions for a 20 km keyword search around Seoul's centre. The popup shows exactly when there are some. |
| MainUi.MainViewModel.SelectAutoComplete | app/src/main/java/ui/MainViewModel.kt:276-284 | The suggestion becomes the region and the popup closes. |
| MainUi.MainViewModel.HideAutoComplete | app/src/main/java/ui/MainViewModel.kt:289-291 | Closes the popup and nothing else. |
| MainUi.MainViewModel.ConsumeResult | app/src/main/java/ui/MainViewModel.kt:308-311 | Clears the result and nothing else. |
| ResultUi.AddToOrder | app/src/main/java/ui/ResultViewModel.kt:75-80 | Appends an id only when it is absent and fewer than the maximum are selected. Keeps the list distinct and within the maximum. |
| ResultUi.RemoveFromOrder | app/src/main/java/ui/ResultViewModel.kt:83-85 | Removes every occurrence of the id and nothing else. |
| ResultUi.RemoveFromOrderAppend | app/src/main/java/ui/ResultViewModel.kt:83-85 | The removal works element by element: it distributes over concatenation, so what stays keeps its order. |
| ResultUi.RemoveFromOrderKeepsDistinct | app/src/main/java/ui/ResultViewModel.kt:83-85 | Removal keeps the selection distinct. |
| ResultUi.AddThenRemove | app/src/main/java/ui/ResultViewModel.kt:75-85 | Adding an absent id and removing it restores the selection. |
| ResultUi.SelectedPlaces | app/src/main/java/ui/ResultViewModel.kt:34-35 | Each selected id, in order, mapped to the first place with that id and skipped when missing. Every place found is the first with its id, and every findable id has its place. There are never more places than ids, and exactly one per id when all are found. |
| ResultUi.SelectedPlacesAppend | app/src/main/java/ui/ResultViewModel.kt:34-35 | The lookup works id by id: it distributes over concatenation of the selection. |
| ResultUi.ExpandedRadius | app/src/main/java/ui/ResultViewModel.kt:126 | `min(10000, (r * 1.5).toInt())`: at most 10000, exactly 10000 from 1.5 r = 10000 up, and below that the integer part of 1.5 r. |
| ResultUi.ExpandedRadiusSteps | app/src/main/java/ui/ResultViewModel.kt:126 | From 3000 the radius goes 4500, 6750, then caps at 10000. |
| ResultUi.AppendNewKeepsDistinct | app/src/main/java/ui/ResultViewModel.kt:144-150 | Appending distinct places with new ids keeps the list distinct. |
| ResultUi.ResultViewModel.constructor | app/src/main/java/ui/ResultViewModel.kt:27-52 | Starts empty, with eight as the maximum and the initial radius of 3000. |
| ResultUi.ResultViewModel.Selected | app/src/main/java/ui/ResultViewModel.kt:34-35 | The state's `selectedPlaces`: the selection mapped through `SelectedPlaces`, each place the first shown with its id. |
| ResultUi.ResultViewModel.SetData | app/src/main/java/ui/ResultViewModel.kt:54-72 | Stores the places as both the full and the shown list, with the centre, the weather and the categories (FOOD when empty). The selection and the expansion state stay. |
| ResultUi.ResultViewModel.AddPlace | app/src/main/java/ui/ResultViewModel.kt:75-80 | Adds the id under the bound. The selection stays distinct with at most eight ids, and nothing else changes. |
| ResultUi.ResultViewModel.RemovePlace | app/src/main/java/ui/ResultViewModel.kt:83-85 | Removes the id, and nothing else changes. |
| ResultUi.ResultViewModel.ClearSelection | app/src/main/java/ui/ResultViewModel.kt:88-90 | Empties the selection, and nothing else changes. |
| ResultUi.ResultViewModel.RequestRoute | app/src/main/java/ui/ResultViewModel.kt:93-95 | Records the request time, and nothing else changes, including the remembered centre and categories. |
| ResultUi.ResultViewModel.BeginExpand | app/src/main/java/ui/ResultViewModel.kt:104-121 | Starts exactly when `canExpand` holds, and then marks the expansion in progress, leaving weather, route time, selection, places, radius and centre alone. Otherwise nothing changes. |
| ResultUi.ResultViewModel.FinishExpand | app/src/main/java/ui/ResultViewModel.kt:122-168 | Searches 1.5 times the radius, excluding the shown ids. New places are appended, and the one-shot flag and the radius are updated. An empty answer only sets the flag. A failure only ends the in-progress mark. |
| ResultUi.ResultViewModel.Expand | app/src/main/java/ui/ResultViewModel.kt:104-168 | Starts exactly when `canExpand` holds, and otherwise changes nothing. Once started, it ends with the expansion no longer in progress, in one of three ways. A failed search leaves the list and radius as they were and `hasExpanded` false. An empty answer leaves the list and radius and sets `hasExpanded`. New places are appended after the old list, the radius becomes the expanded one and `hasExpanded` is set. The list keeps distinct ids when the search answers distinct places. The selection, weather, route stamp, centre and categories never change. |
| ResultView.RemoveFirst | app/src/main/java/ui/ResultScreen.kt:375 | `remove(id)`: a missing id changes nothing. A present one is removed at its first index, and the rest keeps its order. |
| ResultView.RemoveFirstCount | app/src/main/java/ui/ResultScreen.kt:375 | Removal takes exactly one occurrence out of the multiset. |
| ResultView.ToggleSelect | app/src/main/java/ui/ResultScreen.kt:373-379 | A present id loses one occurrence and an absent one is appended. On a distinct list the id's presence flips and the list stays distinct. |
| ResultView.ToggleSelectTwice | app/src/main/java/ui/ResultScreen.kt:373-379 | Toggling an absent id twice restores the list. Toggling a present one twice moves it to the end. |
| ResultView.MoveItem | app/src/main/java/ui/ResultScreen.kt:612-622 | The moved id lands at the target index. Dropping it there gives the old list without the source index, so the others keep their order. The list is a permutation of the old one. |
| ResultView.MoveItemBack | app/src/main/java/ui/ResultScreen.kt:612-622 | Moving back from the target to the source restores the list. |
| ResultView.MoveItemKeepsDistinct | app/src/main/java/ui/ResultScreen.kt:612-622 | Moving keeps the selection distinct. |
| ResultView.IndexOfFirst | app/src/main/java/ui/ResultScreen.kt:270 | `indexOf`: -1 exactly for a missing id, otherwise the first position holding it. |
| ResultView.MarkerFor | app/src/main/java/ui/ResultScreen.kt:263-288 | Selected beats top pick, which beats normal: the pin is numbered exactly for a selected place, and marked top exactly for an unselected top pick. |
| ResultView.MarkerLabelIsPosition | app/src/main/java/ui/ResultScreen.kt:270-276 | A numbered pin's label reads back as the 1-based position of the place's first entry in the selection. |
| ResultView.FoldedListShowsOnlySelected | app/src/main/java/ui/ResultScreen.kt:79-81 | With the list folded, every drawn marker is a numbered pin. |
| ResultView.TapSegment | app/src/main/java/ui/ResultScreen.kt:645 | Tapping the highlighted segment clears the highlight, and tapping any other segment highlights it. |
| ResultView.TapSegmentTwice | app/src/main/java/ui/ResultScreen.kt:645 | From no highlight or this segment's, tapping twice restores the highlight. |
| ResultView.FormatDuration | app/src/main/java/ui/ResultScreen.kt:833-841 | The text ends in "초" exactly when there are leftover seconds or less than a minute, and in "분" exactly for a whole number of minutes. |
| ResultView.FormatDurationRoundTrip | app/src/main/java/ui/ResultScreen.kt:833-841 | Reading the formatted text back gives the seconds. |
| ResultView.MinutesAndSeconds | app/src/main/java/ui/ResultScreen.kt:838 | "m분 s초" reads back as 60 m + s. |
| ResultView.BuildNaverQuery | app/src/main/java/ui/ResultScreen.kt:1382-1392 | The hint and a space when the hint is present and not blank, then the name, then a space and the address when the address is present and not blank. |
| ResultView.NaverQuerySplits | app/src/main/java/ui/ResultScreen.kt:1382-1392 | With space-free parts, the query splits back into exactly its parts: the hint first when present, then the name, then the address last when present. |
| ResultView.ResultScreenState.constructor | app/src/main/java/ui/ResultScreen.kt:91-142 | No selection and no route. The list starts open unless the screen shows a saved route. |
| ResultView.ResultScreenState.LoadSavedRoute | app/src/main/java/ui/ResultScreen.kt:91-99 | A saved route restores its ids and segments, and shows the route. |
| ResultView.ResultScreenState.Toggle | app/src/main/java/ui/ResultScreen.kt:373-379 | Toggles the place in the selection, which stays distinct, and the route state stays. |
| ResultView.ResultScreenState.Reorder | app/src/main/java/ui/ResultScreen.kt:612-622 | Moves one entry, giving a permutation that stays distinct. A shown route is cleared. |
| ResultView.ResultScreenState.Remove | app/src/main/java/ui/ResultScreen.kt:624-630 | Removes the id. A shown route is cleared exactly when fewer than two ids remain. |
| ResultView.ResultScreenState.ClearAll | app/src/main/java/ui/ResultScreen.kt:563-567 | No selection, no segments and no route shown. |
| ResultView.ResultScreenState.BeginRoute | app/src/main/java/ui/ResultScreen.kt:382-390 | Starts exactly when at least two ids are selected, none is loading, the map is ready and at least two selected places are on show. Starting hides the old route. |
| ResultView.ResultScreenState.FinishRoute | app/src/main/java/ui/ResultScreen.kt:391-411 | Non-empty legs are shown. An empty answer or a failure leaves the route as it was, and loading always ends. |
| ResultView.ResultScreenState.ClickSegment | app/src/main/java/ui/ResultScreen.kt:645 | The highlight follows the tap rule, and nothing else changes. |
| ResultView.ResultScreenState.ToggleExpandedList | app/src/main/java/ui/ResultScreen.kt:670 | Opens or folds the list, and nothing else changes. |

## Left out

- The network clients: the HTTP interfaces for Kakao, VWorld and the routing service. Their answers are inputs, and an exception is `Failure`.
- The weather service, the reranker (`GptRerankUseCase`) and route storage. They are parameters.
- Concurrency. Coroutine fan-out is modelled as a sequential map in task order. Each `launch` body runs to completion, so the 300 ms autocomplete debounce and the check-then-set race on `isExpanding` are not modelled.
- `rebalanceByCategory` is not part of this model. It is an opaque parameter with no contract.
- The `DEBUG_BYPASS_REBALANCE` branch of `recommendWithGpt` is dead code behind a constant `false` and is left out.
- Floating point. Coordinates are exact reals, and IEEE rounding in the crossing test, the grid steps and the centroids is not modelled.
- `computeCenter`, the polygon centroid passed to the polygon search, is not modelled. The weather at the polygon is an input.
- String-to-number parsing (`toDoubleOrNull`, `toIntOrNull`) is an opaque partial function in `Kakao.Parsers`.
- Repository.RerankedOrFallback: the empty AI-pick set after a failed rerank is an assumption. `RerankOutput`'s default for `aiTopIds` is not part of this model.
- Repository.Recommend: `recommend`'s chunk search is an abstract parameter. It is not linked to `Kakao.SearchByCategories`, and neither are the other repository searches.
- Text.IsWhitespace: only ASCII whitespace is modelled, not every character `Char.isWhitespace` accepts.
- RegionCatalog.ContainsDetailedRegionKeyword: the test is case-sensitive. `ignoreCase = true` matters only for Latin letters, and none occur in the keywords.
- MainUi.WideMatches: for the same reason, the `contains(query, ignoreCase = true)` filter is case-sensitive.
- RegionCatalog.LetterCleanKeysAreWide: the WIDE classification is proved only for the ten keys whose letters avoid the 38 keyword-ending letters. Keys such as "부산광역시" need a finer window argument, because "부산역" uses only its letters.
- MainUi.StripProvince: the exact value is proved only for words without "광" and "특", alone or followed by one of the four suffixes. A word that holds those letters elsewhere is described only by the absence of "도" and the letters kept.
- MainUi.ExtractRegionName: the full example "부산광역시 해운대구 우동" → "부산 해운대" is proved only in pieces (`AddressWordsExample`, `StripProvinceExample`, `StripDistrictExample`). Evaluating the composed literal is beyond the solver's budget.
- MainUi.RunSearch: the repository is taken to be `RealTravelRepository`. The failing cast for any other repository (MainViewModel.kt:113-114) is not modelled.
- The `FilterState` fields for duration, budget and companion, and the setters `setDuration`, `setBudget` and `setCompanion`, are not part of this model. The search never reads them.
- MainUi.MainViewModel.constructor takes the initial filter as a parameter. The default values of `FilterState()` are declared in a file that is not part of this model.
- `sortMode` and `query` of the result screen state are not modelled.
- A `RouteSegment` holds only its end points. The routing service's polylines, distances and times are not part of this model.
- Camera moves, `focusOn`, map-SDK rendering, toasts, intents and the save-route dialog are not modelled.
- ResultView.FormatDuration takes a natural number. Negative durations, where Kotlin's truncating `/` and `%` differ from Dafny's, are not modelled.
- ResultUi.ExpandedRadius is integer `3 r / 2` on a non-negative radius. This equals `(r * 1.5).toInt()` for every radius that occurs.
- String length is counted in characters. Hangul syllables are single UTF-16 units, so this agrees with `String.length` here.
- Geometry.Steps: Geometry.Steps, Geometry.GenerateGrid and Repository.SearchWithinPolygon require a positive grid spacing. With a spacing of zero or less the source's walk (RealTravelRepository.kt:400-409) either stops once the point cap fills with repeated points, or stops at once when the cap is not positive, or loops forever when the cap never fills; the model covers none of these cases. The only caller passes the default spacing 0.05 (RealTravelRepository.kt:375, 485-487).
- The message of a caught exception (`e.message`) is a parameter of `FinishSearch`.
- Logging throughout.
