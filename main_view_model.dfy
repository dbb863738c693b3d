/**
 * The main screen's view model (`MainViewModel`): it classifies the region
 * the user typed as a WIDE or NARROW search and runs the matching
 * repository pipeline, keeps the category chips and the region text, and
 * builds the autocomplete suggestions from a keyword search.
 */
module MainUi {
  import opened Wrappers
  import opened Text
  import opened Places
  import opened RegionCatalog
  import opened Repository

  // ----- choosing the search strategy -----

  /** What `onSearchClicked` decides to run, with the constants it passes along. */
  datatype SearchPlan =
    | WidePlan(filter: FilterState, subRegions: seq<string>, radiusMeters: int, candidateSizePerRegion: int)
    | NarrowPlan(filter: FilterState, radiusMeters: int, candidateSize: int)

  /**
   * The strategy for filter `f0`: a blank region means "서울", no category
   * means FOOD, and a WIDE region is searched around each of its sub-regions;
   * everything else is a single-centre search.
   */
  function Dispatch(f0: FilterState): (p: SearchPlan)
    ensures p.filter == FilterState(IfBlank(f0.region, "서울"), DefaultCategories(f0.categories))
    ensures p.WidePlan? <==> DetermineSearchType(IfBlank(f0.region, "서울")) == WIDE
    ensures p.WidePlan? ==> Some(p.subRegions) == GetSubRegions(p.filter.region) && |p.subRegions| == 5
    ensures p.WidePlan? ==> p.radiusMeters == 3000 && p.candidateSizePerRegion == 5
    ensures p.NarrowPlan? ==> p.radiusMeters == 3000 && p.candidateSize == 15
  {
    var region := IfBlank(f0.region, "서울");
    var f := FilterState(region, DefaultCategories(f0.categories));
    match DetermineSearchType(region)
    case NARROW => NarrowPlan(f, 3000, 15)
    case WIDE =>
      WideHasSubRegions(region);
      WidePlan(f, GetSubRegions(region).value, 3000, 5)
  }

  /**
   * The centre of a NARROW search: the region's coordinates, else those of
   * "서울"; when neither geocodes the search fails.
   */
  function NarrowCenter(geocode: string -> Outcome<Option<LatLng>>, region: string): (r: Outcome<LatLng>)
    ensures geocode(region).Success? && geocode(region).value.Some? ==> r == Success(geocode(region).value.value)
    ensures geocode(region) == Success(None) ==>
      (r.Success? <==> geocode("서울").Success? && geocode("서울").value.Some?)
    ensures r.Success? ==>
      geocode(region) == Success(Some(r.value)) || (geocode(region) == Success(None) && geocode("서울") == Success(Some(r.value)))
    ensures geocode(region).Failure? ==> r.Failure?
  {
    match geocode(region)
    case Failure => Failure
    case Success(Some(c)) => Success(c)
    case Success(None) =>
      match geocode("서울")
      case Success(Some(c)) => Success(c)
      case _ => Failure
  }

  /** The outcome of one click of the search button for filter `f0`. */
  function SearchOutcome(f0: FilterState, weatherAt: (real, real) -> Option<WeatherInfo>,
                         geocode: string -> Outcome<Option<LatLng>>, search: SearchRequest -> Outcome<seq<Place>>,
                         rerank: RerankRequest -> Outcome<RerankOutput>, rebalance: Rebalance): Outcome<RecommendationResult>
  {
    match Dispatch(f0)
    case WidePlan(f, subs, radius, size) =>
      WideRecommendation(f, subs, radius, size, weatherAt, geocode, search, rerank, rebalance)
    case NarrowPlan(f, radius, size) =>
      match NarrowCenter(geocode, f.region)
      case Failure => Failure
      case Success(c) => RecommendWithGpt(f, c.lat, c.lng, radius, size, weatherAt, search, rerank, rebalance)
  }

  /**
   * A WIDE search fails exactly when the geocode of the region (made for its
   * weather) throws: sub-regions that do not geocode or whose search fails
   * add nothing.
   */
  lemma WideSearchFailure(f0: FilterState, weatherAt: (real, real) -> Option<WeatherInfo>,
                          geocode: string -> Outcome<Option<LatLng>>, search: SearchRequest -> Outcome<seq<Place>>,
                          rerank: RerankRequest -> Outcome<RerankOutput>, rebalance: Rebalance)
    requires DetermineSearchType(IfBlank(f0.region, "서울")) == WIDE
    ensures SearchOutcome(f0, weatherAt, geocode, search, rerank, rebalance).Failure? <==> geocode(IfBlank(f0.region, "서울")).Failure?
  {
    var p := Dispatch(f0);
    WideRecommendationFailure(p.filter, p.subRegions, p.radiusMeters, p.candidateSizePerRegion, weatherAt, geocode, search, rerank, rebalance);
  }

  /**
   * A NARROW search fails exactly when neither the region nor "서울"
   * yields a centre, or when the candidate search around the centre fails.
   */
  lemma NarrowSearchFailure(f0: FilterState, weatherAt: (real, real) -> Option<WeatherInfo>,
                            geocode: string -> Outcome<Option<LatLng>>, search: SearchRequest -> Outcome<seq<Place>>,
                            rerank: RerankRequest -> Outcome<RerankOutput>, rebalance: Rebalance)
    requires DetermineSearchType(IfBlank(f0.region, "서울")) == NARROW
    ensures var f := FilterState(IfBlank(f0.region, "서울"), DefaultCategories(f0.categories));
      var c := NarrowCenter(geocode, f.region);
      SearchOutcome(f0, weatherAt, geocode, search, rerank, rebalance).Failure? <==>
        c.Failure? || search(SearchRequest(c.value.lat, c.value.lng, f.categories, 3000, 15)).Failure?
  {
  }

  /** `onSearchClicked`'s work between setting and clearing the in-flight flag. */
  method RunSearch(f0: FilterState, weatherAt: (real, real) -> Option<WeatherInfo>,
                   geocode: string -> Outcome<Option<LatLng>>, search: SearchRequest -> Outcome<seq<Place>>,
                   rerank: RerankRequest -> Outcome<RerankOutput>, rebalance: Rebalance)
    returns (r: Outcome<RecommendationResult>)
    ensures r == SearchOutcome(f0, weatherAt, geocode, search, rerank, rebalance)
  {
    var plan := Dispatch(f0);
    if plan.WidePlan? {
      r := RecommendWideWithGpt(plan.filter, plan.subRegions, plan.radiusMeters, plan.candidateSizePerRegion,
                                weatherAt, geocode, search, rerank, rebalance);
      return;
    }
    var center := NarrowCenter(geocode, plan.filter.region);
    if center.Failure? {
      return Failure;
    }
    r := RecommendWithGpt(plan.filter, center.value.lat, center.value.lng, plan.radiusMeters, plan.candidateSize,
                          weatherAt, search, rerank, rebalance);
  }

  /**
   * `buildRecommendation`'s work: the weather of the region (blank means
   * "서울"), whose geocode is not guarded, then `recommend`.
   */
  function BasicOutcome(f: FilterState, weatherAt: (real, real) -> Option<WeatherInfo>, geocode: string -> Outcome<Option<LatLng>>,
                        search: SearchRequest -> Outcome<seq<Place>>, rebalance: Rebalance): Outcome<RecommendationResult>
  {
    match GetWeather(geocode, weatherAt, IfBlank(f.region, "서울"))
    case Failure => Failure
    case Success(weather) => RecommendOutcome(f, weather, geocode, search, rebalance)
  }

  /**
   * The weather lookup adds no failure of its own to `buildRecommendation`:
   * it geocodes the same region `recommend` does, so the plain pipeline
   * fails exactly when `recommend` would, and on success it carries the
   * region's weather.
   */
  lemma BasicOutcomeFailure(f: FilterState, weatherAt: (real, real) -> Option<WeatherInfo>, geocode: string -> Outcome<Option<LatLng>>,
                            search: SearchRequest -> Outcome<seq<Place>>, rebalance: Rebalance)
    ensures var r := BasicOutcome(f, weatherAt, geocode, search, rebalance);
      && (r.Failure? <==> RecommendOutcome(f, None, geocode, search, rebalance).Failure?)
      && (r.Success? ==> r.value.weather == GetWeather(geocode, weatherAt, IfBlank(f.region, "서울")).value)
  {
  }

  // ----- category chips -----

  /** `cats - c` on an insertion-ordered set. */
  function Remove(cats: Categories, c: Category): (r: Categories)
    ensures forall x :: x in r <==> x in cats && x != c
    ensures c !in cats ==> r == cats
    ensures |r| <= |cats|
  {
    if cats == [] then []
    else (if cats[0] == c then [] else [cats[0]]) + Remove(cats[1..], c)
  }

  lemma {:induction false} RemoveKeepsDistinct(cats: Categories, c: Category)
    ensures NoDuplicates(cats) ==> NoDuplicates(Remove(cats, c))
  {
    if cats != [] && NoDuplicates(cats) {
      RemoveKeepsDistinct(cats[1..], c);
      assert cats[0] !in cats[1..];
    }
  }

  /** `toggleCategory`: drops a selected category, appends an unselected one. */
  function Toggle(cats: Categories, c: Category): (r: Categories)
    ensures c in r <==> c !in cats
    ensures forall x | x != c :: x in r <==> x in cats
    ensures c !in cats ==> r == cats + [c]
    ensures NoDuplicates(cats) ==> NoDuplicates(r)
  {
    RemoveKeepsDistinct(cats, c);
    if c in cats then Remove(cats, c) else cats + [c]
  }

  /**
   * Toggling twice restores a set the category was absent from; when it was
   * present it comes back at the end of the iteration order.
   */
  lemma ToggleTwice(cats: Categories, c: Category)
    ensures c !in cats ==> Toggle(Toggle(cats, c), c) == cats
    ensures c in cats ==> Toggle(Toggle(cats, c), c) == Remove(cats, c) + [c]
  {
    if c !in cats {
      assert c in cats + [c];
      RemoveLast(cats, c);
    }
  }

  lemma {:induction false} RemoveLast(cats: Categories, c: Category)
    requires c !in cats
    ensures Remove(cats + [c], c) == cats
  {
    if cats == [] {
      assert Remove([c], c) == [] + Remove([], c);
    } else {
      RemoveLast(cats[1..], c);
      assert (cats + [c])[1..] == cats[1..] + [c];
      assert cats == [cats[0]] + cats[1..];
    }
  }

  // ----- autocomplete -----

  /** The province word without its administrative suffixes: `replace` of "광역시", "특별시", "특별자치시" and "도". */
  function StripProvince(word: string): (r: string)
    ensures '도' !in r
    ensures forall c <- r :: c in word
  {
    var a := RemoveAll(word, "광역시");
    var b := RemoveAll(a, "특별시");
    var c := RemoveAll(b, "특별자치시");
    RemoveAllChars(word, "광역시");
    RemoveAllChars(a, "특별시");
    RemoveAllChars(b, "특별자치시");
    RemoveAllChars(c, "도");
    RemoveCharAll(c, '도');
    RemoveAll(c, "도")
  }

  /** The district word without "구" and "군", wherever they occur in it. */
  function StripDistrict(word: string): (r: string)
    ensures '구' !in r && '군' !in r
    ensures r == Without(Without(word, '구'), '군')
    ensures forall c <- r :: c in word
  {
    var a := RemoveAll(word, "구");
    RemoveAllChars(word, "구");
    RemoveCharAll(word, '구');
    RemoveAllChars(a, "군");
    RemoveCharAll(a, '군');
    RemoveAll(a, "군")
  }

  /**
   * `extractRegionName`: from an address such as "부산광역시 해운대구 우동",
   * the province and district words without their suffixes ("부산 해운대");
   * one word gives the province alone; a blank address gives nothing.
   */
  function ExtractRegionName(address: string): (r: Option<string>)
    ensures r.None? <==> IsBlank(address)
    ensures r.Some? ==> (' ' in r.value <==> ' ' in address)
    ensures r.Some? && ' ' !in address ==> r.value == StripProvince(address)
  {
    if IsBlank(address) then None
    else
      var parts := Split(address, {' '});
      CountInPositive(address, {' '});
      assert ' ' !in address ==> parts == [address] by {
        if ' ' !in address {
          SplitNoSep(address, ' ');
        }
      }
      var depth1 := StripProvince(parts[0]);
      if |parts| > 1 then
        var depth2 := StripDistrict(parts[1]);
        assert (depth1 + " " + depth2)[|depth1|] == ' ';
        Some(depth1 + " " + depth2)
      else
        Some(depth1)
  }

  /**
   * The extracted name of a multi-word address splits back into exactly two
   * words: the stripped first and second words of the address; the rest of
   * the address is ignored.
   */
  lemma ExtractRegionNameWords(address: string)
    requires !IsBlank(address) && ' ' in address
    ensures var words := Split(address, {' '});
      && |words| >= 2
      && Split(ExtractRegionName(address).value, {' '}) == [StripProvince(words[0]), StripDistrict(words[1])]
  {
    var words := Split(address, {' '});
    CountInPositive(address, {' '});
    var parts := [StripProvince(words[0]), StripDistrict(words[1])];
    assert Join(parts[1..], ' ') == parts[1];
    assert Join(parts, ' ') == ExtractRegionName(address).value;
    SplitJoin(parts, ' ');
  }

  /** The address in the source's own comment splits into its three words. */
  lemma AddressWordsExample()
    ensures Split("부산광역시 해운대구 우동", {' '}) == ["부산광역시", "해운대구", "우동"]
  {
    SplitJoin(["부산광역시", "해운대구", "우동"], ' ');
    assert Join(["우동"], ' ') == "우동";
    assert Join(["해운대구", "우동"], ' ') == "해운대구 우동";
    assert Join(["부산광역시", "해운대구", "우동"], ' ') == "부산광역시 해운대구 우동";
  }

  /** "부산광역시" loses its suffix. */
  lemma StripProvinceExample()
    ensures StripProvince("부산광역시") == "부산"
  {
    assert "부산광역시" == "부산" + "광역시";
    RemoveAllSuffix("부산", "광역시");
    RemoveAllForeign("부산", "특별시");
    RemoveAllForeign("부산", "특별자치시");
    RemoveAllForeign("부산", "도");
  }

  /**
   * On a province word free of '광' and '특' only the '도' characters go, and
   * each of the three city suffixes and the province suffix "도" comes off
   * such a word whole.
   */
  lemma StripProvincePlain(p: string)
    requires forall c <- p :: c != '광' && c != '특'
    ensures StripProvince(p) == Without(p, '도')
    ensures StripProvince(p + "도") == Without(p, '도')
  {
    RemoveAllForeign(p, "광역시");
    RemoveAllForeign(p, "특별시");
    RemoveAllForeign(p, "특별자치시");
    RemoveCharAll(p, '도');
    var pd := p + "도";
    assert forall c <- pd :: c in p || c == '도';
    RemoveAllForeign(pd, "광역시");
    RemoveAllForeign(pd, "특별시");
    RemoveAllForeign(pd, "특별자치시");
    RemoveCharAll(pd, '도');
    WithoutAppend(p, "도", '도');
    assert Without("도", '도') == [] + Without([], '도');
  }

  lemma StripProvinceMetropolitan(p: string)
    requires forall c <- p :: c != '광' && c != '특'
    ensures StripProvince(p + "광역시") == Without(p, '도')
  {
    RemoveAllSuffix(p, "광역시");
    RemoveAllForeign(p, "특별시");
    RemoveAllForeign(p, "특별자치시");
    RemoveCharAll(p, '도');
  }

  lemma StripProvinceSpecialCity(p: string)
    requires forall c <- p :: c != '광' && c != '특'
    ensures StripProvince(p + "특별시") == Without(p, '도')
  {
    var s := p + "특별시";
    assert forall c <- s :: c in p || c in "특별시";
    RemoveAllForeign(s, "광역시");
    RemoveAllSuffix(p, "특별시");
    RemoveAllForeign(p, "특별자치시");
    RemoveCharAll(p, '도');
  }

  lemma StripProvinceSelfGoverningCity(p: string)
    requires forall c <- p :: c != '광' && c != '특'
    ensures StripProvince(p + "특별자치시") == Without(p, '도')
  {
    var s := p + "특별자치시";
    assert forall c <- s :: c in p || c in "특별자치시";
    RemoveAllForeign(s, "광역시");
    SelfGoverningSuffixKept();
    RemoveAllForeignPrefix(p, "특별자치시", "특별시");
    RemoveAllSuffix(p, "특별자치시");
    RemoveCharAll(p, '도');
  }

  /** "특별시" does not occur in "특별자치시", so its removal keeps that suffix. */
  lemma SelfGoverningSuffixKept()
    ensures RemoveAll("특별자치시", "특별시") == "특별자치시"
  {
    var tail := "별자치시";
    assert "특별자치시"[1..] == tail;
    RemoveAllForeign(tail, "특별시");
  }

  /** "해운대구" loses its suffix, so the comment's address yields "부산 해운대". */
  lemma StripDistrictExample()
    ensures StripDistrict("해운대구") == "해운대"
  {
    assert "해운대구" == "해운대" + "구";
    RemoveAllSuffix("해운대", "구");
    RemoveAllForeign("해운대", "군");
  }

  /**
   * Every "구" goes, not only the suffix: the district "구로구" becomes "로".
   */
  lemma StripDistrictRemovesEveryGu()
    ensures StripDistrict("구로구") == "로"
  {
    assert "구" <= "구로구" && "구로구"[1..] == "로" + "구";
    RemoveAllSuffix("로", "구");
    RemoveAllForeign("로", "군");
  }

  /** `mapNotNull { extractRegionName(it.address ?: "") }`. */
  function RegionNames(places: seq<Place>): (r: seq<string>)
    ensures |r| <= |places|
    ensures forall n <- r :: exists p <- places :: ExtractRegionName(p.address.GetOr("")) == Some(n)
    ensures forall p <- places :: !IsBlank(p.address.GetOr("")) ==> ExtractRegionName(p.address.GetOr("")).value in r
  {
    if places == [] then []
    else
      var rest := RegionNames(places[1..]);
      assert forall p <- places[1..] :: p in places;
      assert forall p <- places :: p == places[0] || p in places[1..];
      NameOf(places[0]) + rest
  }

  /** The name one place contributes: none for a blank address. */
  function NameOf(p: Place): (r: seq<string>)
    ensures r == [] <==> IsBlank(p.address.GetOr(""))
    ensures forall n <- r :: ExtractRegionName(p.address.GetOr("")) == Some(n)
    ensures |r| <= 1
  {
    match ExtractRegionName(p.address.GetOr(""))
    case None => []
    case Some(n) => [n]
  }

  /** The names come in the order of the places: the mapping distributes over concatenation. */
  lemma {:induction false} RegionNamesAppend(a: seq<Place>, b: seq<Place>)
    ensures RegionNames(a + b) == RegionNames(a) + RegionNames(b)
  {
    if a == [] {
      assert a + b == b;
    } else {
      var ab := a + b;
      assert ab[0] == a[0] && ab[1..] == a[1..] + b;
      RegionNamesAppend(a[1..], b);
      assert RegionNames(ab) == NameOf(a[0]) + RegionNames(a[1..] + b);
    }
  }

  /** `distinct()`: first occurrences, in order. */
  function Distinct<T(==,!new)>(s: seq<T>): (r: seq<T>)
    ensures NoDuplicates(r)
    ensures forall x :: x in r <==> x in s
    ensures |r| <= |s|
  {
    if s == [] then []
    else
      var init := s[..|s| - 1];
      assert s == init + [s[|s| - 1]];
      var d := Distinct(init);
      if s[|s| - 1] in d then d else d + [s[|s| - 1]]
  }

  /** The position of the first occurrence of `x` in `s`. */
  function FirstIndexOf<T(==)>(s: seq<T>, x: T): (i: nat)
    requires x in s
    ensures i < |s| && s[i] == x
    ensures forall k | 0 <= k < i :: s[k] != x
  {
    if s[0] == x then 0 else 1 + FirstIndexOf(s[1..], x)
  }

  /** A position holding `x` with no `x` before it is the first occurrence. */
  lemma FirstIndexUnique<T>(s: seq<T>, x: T, i: nat)
    requires i < |s| && s[i] == x
    requires forall k | 0 <= k < i :: s[k] != x
    ensures FirstIndexOf(s, x) == i
  {
  }

  /** Appending after `s` does not move the first occurrence of anything in `s`; it shifts the rest by `|s|`. */
  lemma FirstIndexOfAppend<T>(a: seq<T>, b: seq<T>, x: T)
    requires x in a + b
    ensures x in a ==> FirstIndexOf(a + b, x) == FirstIndexOf(a, x)
    ensures x !in a ==> x in b && FirstIndexOf(a + b, x) == |a| + FirstIndexOf(b, x)
  {
    if x in a {
      var i := FirstIndexOf(a, x);
      FirstIndexUnique(a + b, x, i);
    } else {
      assert x in b;
      var i := FirstIndexOf(b, x);
      assert forall k | 0 <= k < |a| :: (a + b)[k] == a[k];
      FirstIndexUnique(a + b, x, |a| + i);
    }
  }

  /**
   * `distinct()` keeps the order of first occurrences: an element kept
   * before another first occurs before it.
   */
  lemma {:induction false} DistinctOrder<T(!new)>(s: seq<T>)
    ensures forall i, j | 0 <= i < j < |Distinct(s)| :: FirstIndexOf(s, Distinct(s)[i]) < FirstIndexOf(s, Distinct(s)[j])
  {
    if s != [] {
      var init := s[..|s| - 1];
      var x := s[|s| - 1];
      assert s == init + [x];
      DistinctOrder(init);
      var d := Distinct(init);
      forall y | y in init ensures FirstIndexOf(s, y) == FirstIndexOf(init, y) {
        FirstIndexOfAppend(init, [x], y);
      }
      if x !in d {
        FirstIndexOfAppend(init, [x], x);
        assert Distinct(s) == d + [x];
        forall i, j | 0 <= i < j < |Distinct(s)| ensures FirstIndexOf(s, Distinct(s)[i]) < FirstIndexOf(s, Distinct(s)[j]) {
          assert Distinct(s)[i] == d[i] && d[i] in init;
          if j < |d| {
            assert Distinct(s)[j] == d[j] && d[j] in init;
          }
        }
      }
    }
  }

  /**
   * Distinct elements of `a + b`: those of `a` first, then only elements
   * not in `a`.
   */
  lemma {:induction false} DistinctAppend<T(!new)>(a: seq<T>, b: seq<T>)
    ensures Distinct(a) <= Distinct(a + b)
    ensures forall k | |Distinct(a)| <= k < |Distinct(a + b)| :: Distinct(a + b)[k] !in a
    decreases |b|
  {
    if b == [] {
      assert a + b == a;
    } else {
      var b' := b[..|b| - 1];
      DistinctAppend(a, b');
      assert (a + b)[..|a + b| - 1] == a + b';
      assert (a + b)[|a + b| - 1] == b[|b| - 1];
    }
  }

  /** `take(n)`. */
  function Take<T>(s: seq<T>, n: nat): (r: seq<T>)
    ensures |r| == if |s| <= n then |s| else n
    ensures r == s[..|r|]
  {
    if |s| <= n then s else s[..n]
  }

  /** `filter { it.contains(query) }`. */
  function Containing(names: seq<string>, query: string): (r: seq<string>)
    ensures forall n :: n in r <==> n in names && Contains(n, query)
    ensures |r| <= |names|
  {
    if names == [] then []
    else
      assert forall n <- names[1..] :: n in names;
      (if Contains(names[0], query) then [names[0]] else []) + Containing(names[1..], query)
  }

  /** The filter keeps the order of the list: it distributes over concatenation. */
  lemma {:induction false} ContainingAppend(a: seq<string>, b: seq<string>, query: string)
    ensures Containing(a + b, query) == Containing(a, query) + Containing(b, query)
  {
    if a == [] {
      assert a + b == b;
    } else {
      assert (a + b)[0] == a[0] && (a + b)[1..] == a[1..] + b;
      ContainingAppend(a[1..], b, query);
    }
  }

  /** The metropolitan regions offered for `query`: at most three whose name contains it. */
  function WideMatches(query: string): (r: seq<string>)
    ensures |r| <= 3
    ensures forall n <- r :: n in WideRegionMap && Contains(n, query)
    ensures var all := Containing(GetAllWideRegions(), query);
      && |r| == (if |all| <= 3 then |all| else 3)
      && r == all[..|r|]
    ensures |Containing(GetAllWideRegions(), query)| <= 3 ==>
      forall k <- GetAllWideRegions() :: Contains(k, query) ==> k in r
  {
    var all := Containing(GetAllWideRegions(), query);
    var w := Take(all, 3);
    assert forall n <- w :: n in all;
    w
  }

  /**
   * `getAutoCompleteSuggestions` once the keyword search has answered:
   * matching metropolitan regions first, then region names from the found
   * addresses, without repeats and at most five; a failed search gives none.
   */
  function Suggestions(query: string, found: Outcome<seq<Place>>): (r: seq<string>)
    ensures found.Failure? ==> r == []
    ensures |r| <= 5 && NoDuplicates(r)
  {
    match found
    case Failure => []
    case Success(places) =>
      var names := Take(Distinct(RegionNames(places)), 5);
      var all := Distinct(WideMatches(query) + names);
      var r := Take(all, 5);
      assert forall i, j | 0 <= i < j < |r| :: r[i] == all[i] && r[j] == all[j];
      r
  }

  /** The region names the found addresses yield, first occurrences, at most five. */
  function FoundNames(places: seq<Place>): seq<string> {
    Take(Distinct(RegionNames(places)), 5)
  }

  /**
   * Every matching metropolitan region is offered and comes before every
   * address-derived name; everything offered is one or the other.
   */
  lemma SuggestionsWideFirst(query: string, places: seq<Place>)
    ensures var r := Suggestions(query, Success(places));
      && (forall w <- WideMatches(query) :: w in r)
      && (forall i, j | 0 <= i < j < |r| && r[j] in WideMatches(query) :: r[i] in WideMatches(query))
      && (forall n <- r :: n in WideMatches(query) || n in FoundNames(places))
  {
    TakeDistinctFrontFirst(WideMatches(query), FoundNames(places), 5);
  }

  /**
   * Keeping the first `n` distinct elements of `a + b`, with `a` no longer
   * than `n`: all of `a` is kept and comes first, and nothing else appears.
   */
  lemma TakeDistinctFrontFirst<T(!new)>(a: seq<T>, b: seq<T>, n: nat)
    requires |a| <= n
    ensures var r := Take(Distinct(a + b), n);
      && (forall x <- a :: x in r)
      && (forall i, j | 0 <= i < j < |r| && r[j] in a :: r[i] in a)
      && (forall x <- r :: x in a || x in b)
  {
    var all := Distinct(a + b);
    var r := Take(all, n);
    DistinctAppend(a, b);
    var da := Distinct(a);
    assert da <= r;
    forall x <- a ensures x in r {
      assert x in da;
    }
    forall i, j | 0 <= i < j < |r| && r[j] in a ensures r[i] in a {
      assert r[j] == all[j];
      assert j < |da|;
      assert r[i] == da[i];
    }
    forall x <- r ensures x in a || x in b {
      assert x in all;
    }
  }

  /**
   * The found names fill the slots the regions leave: the answer has five
   * entries or holds every found name, and the found names in it keep their
   * order.
   */
  lemma SuggestionsFillWithFoundNames(query: string, places: seq<Place>)
    ensures var r := Suggestions(query, Success(places));
      var w, f := WideMatches(query), FoundNames(places);
      var all := Distinct(w + f);
      && |r| == (if |all| <= 5 then |all| else 5)
      && (|r| < 5 ==> forall n <- f :: n in r)
      && (forall i, j | 0 <= i < j < |r| && r[i] !in w && r[j] !in w ::
            r[i] in f && r[j] in f && FirstIndexOf(f, r[i]) < FirstIndexOf(f, r[j]))
  {
    var r := Suggestions(query, Success(places));
    var w, f := WideMatches(query), FoundNames(places);
    var all := Distinct(w + f);
    assert r == Take(all, 5);
    if |r| < 5 {
      assert r == all;
      forall n <- f ensures n in r {
        assert n in w + f;
      }
    }
    DistinctOrder(w + f);
    forall i, j | 0 <= i < j < |r| && r[i] !in w && r[j] !in w
      ensures r[i] in f && r[j] in f && FirstIndexOf(f, r[i]) < FirstIndexOf(f, r[j])
    {
      assert r[i] == all[i] && r[j] == all[j];
      assert r[i] in w + f && r[j] in w + f;
      FirstIndexOfAppend(w, f, r[i]);
      FirstIndexOfAppend(w, f, r[j]);
    }
  }

  /** Every address-derived suggestion comes from the address of some found place. */
  lemma FoundNamesFromAddresses(places: seq<Place>)
    ensures forall n <- FoundNames(places) :: exists p <- places :: ExtractRegionName(p.address.GetOr("")) == Some(n)
  {
    var d := Distinct(RegionNames(places));
    assert forall n <- FoundNames(places) :: n in d;
  }

  // ----- expand-search callback -----

  /** `createExpandSearchCallback`: each call searches 5 km around the fixed centre and drops the excluded ids. */
  function ExpandCallback(centerLat: real, centerLng: real, categories: Categories,
                          search: SearchRequest -> Outcome<seq<Place>>): set<string> -> Outcome<seq<Place>>
  {
    (excludeIds: set<string>) => ExpandSearch(centerLat, centerLng, DefaultCategories(categories), 5000, excludeIds, search)
  }

  /** A call of the callback returns only places not already shown, from one 5 km search. */
  lemma ExpandCallbackIsNew(centerLat: real, centerLng: real, categories: Categories,
                            search: SearchRequest -> Outcome<seq<Place>>, excludeIds: set<string>)
    ensures var r := ExpandCallback(centerLat, centerLng, categories, search)(excludeIds);
      var found := search(SearchRequest(centerLat, centerLng, DefaultCategories(categories), 5000, 15));
      && (r.Failure? <==> found.Failure?)
      && (r.Success? ==> Ids(r.value) !! excludeIds && forall p <- r.value :: p in found.value)
  {
    var r := ExpandCallback(centerLat, centerLng, categories, search)(excludeIds);
    if r.Success? {
      ExpandSearchIsNew(centerLat, centerLng, DefaultCategories(categories), 5000, excludeIds, search);
    }
  }

  // ----- the view model -----

  /** `MainUiState` together with the `searchInFlight` flag. */
  class MainViewModel {
    var filter: FilterState
    var loading: bool
    var error: Option<string>
    var lastResult: Option<RecommendationResult>
    var autoCompleteSuggestions: seq<string>
    var showAutoComplete: bool
    var searchInFlight: bool

    /** The categories form a set, suggestions are few and distinct, and the list is shown only when it has entries. */
    predicate Valid()
      reads this
    {
      && NoDuplicates(filter.categories)
      && |autoCompleteSuggestions| <= 5
      && NoDuplicates(autoCompleteSuggestions)
      && (showAutoComplete ==> autoCompleteSuggestions != [])
    }

    constructor(initial: FilterState)
      requires NoDuplicates(initial.categories)
      ensures Valid()
      ensures filter == initial && !loading && error == None && lastResult == None
      ensures autoCompleteSuggestions == [] && !showAutoComplete && !searchInFlight
    {
      filter := initial;
      loading := false;
      error := None;
      lastResult := None;
      autoCompleteSuggestions := [];
      showAutoComplete := false;
      searchInFlight := false;
    }

    method UpdateFilter(newFilter: FilterState)
      requires Valid() && NoDuplicates(newFilter.categories)
      modifies this
      ensures Valid()
      ensures filter == newFilter
      ensures loading == old(loading) && error == old(error) && lastResult == old(lastResult)
      ensures autoCompleteSuggestions == old(autoCompleteSuggestions) && showAutoComplete == old(showAutoComplete)
      ensures searchInFlight == old(searchInFlight)
    {
      filter := newFilter;
    }

    /**
     * The synchronous part of `onSearchClicked`: ignored while a search is in
     * flight; otherwise it raises the flag, shows the spinner, clears the
     * error and hands back the filter to search with.
     */
    method BeginSearch() returns (f0: Option<FilterState>)
      requires Valid()
      modifies this
      ensures Valid()
      ensures old(searchInFlight) ==> f0 == None && unchanged(this)
      ensures !old(searchInFlight) ==>
        && f0 == Some(old(filter))
        && searchInFlight && loading && error == None
        && filter == old(filter) && lastResult == old(lastResult)
        && autoCompleteSuggestions == old(autoCompleteSuggestions) && showAutoComplete == old(showAutoComplete)
    {
      if searchInFlight {
        return None;
      }
      searchInFlight := true;
      f0 := Some(filter);
      loading := true;
      error := None;
    }

    /**
     * The end of `onSearchClicked`: the result or the error message
     * (`e.message ?: "추천 실패"`) is shown, the spinner stops, and the flag drops.
     */
    method FinishSearch(outcome: Outcome<RecommendationResult>, failureMessage: Option<string>)
      requires Valid()
      modifies this
      ensures Valid()
      ensures !searchInFlight && !loading
      ensures outcome.Success? ==> lastResult == Some(outcome.value) && error == old(error)
      ensures outcome.Failure? ==> lastResult == old(lastResult) && error == Some(failureMessage.GetOr("추천 실패"))
      ensures filter == old(filter)
      ensures autoCompleteSuggestions == old(autoCompleteSuggestions) && showAutoComplete == old(showAutoComplete)
    {
      loading := false;
      if outcome.Success? {
        lastResult := Some(outcome.value);
      } else {
        error := Some(failureMessage.GetOr("추천 실패"));
      }
      searchInFlight := false;
    }

    /** `onSearchClicked` run to completion: begin, search, finish. */
    method OnSearchClicked(weatherAt: (real, real) -> Option<WeatherInfo>,
                           geocode: string -> Outcome<Option<LatLng>>, search: SearchRequest -> Outcome<seq<Place>>,
                           rerank: RerankRequest -> Outcome<RerankOutput>, rebalance: Rebalance, failureMessage: Option<string>)
      returns (started: bool)
      requires Valid()
      modifies this
      ensures Valid()
      ensures started <==> !old(searchInFlight)
      ensures !started ==> unchanged(this)
      ensures started ==>
        var r := SearchOutcome(old(filter), weatherAt, geocode, search, rerank, rebalance);
        && !searchInFlight && !loading && filter == old(filter)
        && (r.Success? ==> lastResult == Some(r.value) && error == None)
        && (r.Failure? ==> lastResult == old(lastResult) && error == Some(failureMessage.GetOr("추천 실패")))
    {
      var f0 := BeginSearch();
      if f0.None? {
        return false;
      }
      var r := RunSearch(f0.value, weatherAt, geocode, search, rerank, rebalance);
      FinishSearch(r, failureMessage);
      started := true;
    }

    /** `buildRecommendation`: the plain pipeline, which does not consult or raise the in-flight flag. */
    method BuildRecommendation(weatherAt: (real, real) -> Option<WeatherInfo>, geocode: string -> Outcome<Option<LatLng>>,
                               search: SearchRequest -> Outcome<seq<Place>>, rebalance: Rebalance, failureMessage: Option<string>)
      requires Valid()
      modifies this
      ensures Valid()
      ensures var r := BasicOutcome(old(filter), weatherAt, geocode, search, rebalance);
        && !loading && filter == old(filter) && searchInFlight == old(searchInFlight)
        && (r.Success? ==> lastResult == Some(r.value) && error == None)
        && (r.Failure? ==> lastResult == old(lastResult) && error == Some(failureMessage.GetOr("추천 실패")))
    {
      var f := filter;
      loading := true;
      error := None;
      var weather := GetWeather(geocode, weatherAt, IfBlank(f.region, "서울"));
      var r: Outcome<RecommendationResult> := Failure;
      if weather.Success? {
        r := Recommend(f, weather.value, geocode, search, rebalance);
      }
      loading := false;
      if r.Success? {
        lastResult := Some(r.value);
      } else {
        error := Some(failureMessage.GetOr("추천 실패"));
      }
    }

    method ToggleCategory(c: Category)
      requires Valid()
      modifies this
      ensures Valid()
      ensures filter == old(filter).(categories := Toggle(old(filter).categories, c))
      ensures c in filter.categories <==> c !in old(filter).categories
      ensures loading == old(loading) && error == old(error) && lastResult == old(lastResult)
      ensures autoCompleteSuggestions == old(autoCompleteSuggestions) && showAutoComplete == old(showAutoComplete)
      ensures searchInFlight == old(searchInFlight)
    {
      filter := filter.(categories := Toggle(filter.categories, c));
    }

    /**
     * `setRegion`: stores the text; two characters or more ask for
     * suggestions (`lookup`), fewer hide and clear them.
     */
    method SetRegion(region: string) returns (lookup: bool)
      requires Valid()
      modifies this
      ensures Valid()
      ensures filter == old(filter).(region := region)
      ensures lookup <==> |region| >= 2
      ensures lookup ==> autoCompleteSuggestions == old(autoCompleteSuggestions) && showAutoComplete == old(showAutoComplete)
      ensures !lookup ==> autoCompleteSuggestions == [] && !showAutoComplete
      ensures loading == old(loading) && error == old(error) && lastResult == old(lastResult)
      ensures searchInFlight == old(searchInFlight)
    {
      filter := filter.(region := region);
      lookup := |region| >= 2;
      if !lookup {
        showAutoComplete := false;
        autoCompleteSuggestions := [];
      }
    }

    /**
     * The debounced lookup: a keyword search around Seoul City Hall (20 km,
     * ten results), then the suggestions; the list shows when it is not empty.
     */
    method RefreshSuggestions(query: string, keywordSearch: (real, real, string, int, int) -> Outcome<seq<Place>>)
      requires Valid()
      modifies this
      ensures Valid()
      ensures autoCompleteSuggestions == Suggestions(query, keywordSearch(37.5665, 126.9780, query, 20000, 10))
      ensures showAutoComplete <==> autoCompleteSuggestions != []
      ensures filter == old(filter) && loading == old(loading) && error == old(error) && lastResult == old(lastResult)
      ensures searchInFlight == old(searchInFlight)
    {
      var found := keywordSearch(37.5665, 126.9780, query, 20000, 10);
      autoCompleteSuggestions := Suggestions(query, found);
      showAutoComplete := autoCompleteSuggestions != [];
    }

    method SelectAutoComplete(suggestion: string)
      requires Valid()
      modifies this
      ensures Valid()
      ensures filter == old(filter).(region := suggestion) && !showAutoComplete
      ensures autoCompleteSuggestions == old(autoCompleteSuggestions)
      ensures loading == old(loading) && error == old(error) && lastResult == old(lastResult)
      ensures searchInFlight == old(searchInFlight)
    {
      filter := filter.(region := suggestion);
      showAutoComplete := false;
    }

    method HideAutoComplete()
      requires Valid()
      modifies this
      ensures Valid()
      ensures !showAutoComplete
      ensures filter == old(filter) && autoCompleteSuggestions == old(autoCompleteSuggestions)
      ensures loading == old(loading) && error == old(error) && lastResult == old(lastResult)
      ensures searchInFlight == old(searchInFlight)
    {
      showAutoComplete := false;
    }

    method ConsumeResult()
      requires Valid()
      modifies this
      ensures Valid()
      ensures lastResult == None
      ensures filter == old(filter) && loading == old(loading) && error == old(error)
      ensures autoCompleteSuggestions == old(autoCompleteSuggestions) && showAutoComplete == old(showAutoComplete)
      ensures searchInFlight == old(searchInFlight)
    {
      lastResult := None;
    }
  }
}
