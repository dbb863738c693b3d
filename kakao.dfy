/**
 * The Kakao Local client (`KakaoLocalService`): address geocoding, reverse
 * geocoding to an administrative region, category search and keyword
 * search. The HTTP calls are function parameters returning an `Outcome`
 * (`Failure` for a thrown exception), and `ready` says whether `init` has
 * set up the client.
 */
module Kakao {
  import opened Wrappers
  import opened Text
  import opened Places

  /** `Int.MAX_VALUE`, the sort key of a place without a distance. */
  const IntMax: int := 0x7fff_ffff

  /** A place document of a search response; `x` is the longitude and `y` the latitude, both as text. */
  datatype PlaceDoc = PlaceDoc(
    id: string,
    placeName: string,
    categoryGroupCode: Option<string>,
    x: string,
    y: string,
    addressName: Option<string>,
    distance: Option<string>)

  datatype AddressDoc = AddressDoc(x: string, y: string)

  datatype RegionCodeDoc = RegionCodeDoc(regionType: string, region1: string, region2: string, region3: string)

  datatype RegionInfo = RegionInfo(
    region1: string,
    region2: string,
    region3: string,
    fullName: string,
    cityDistrictName: string,
    displayName: string)

  /** `toDoubleOrNull` and `toIntOrNull`; their number syntax is not modelled. */
  datatype Parsers = Parsers(toDouble: string -> Option<real>, toInt: string -> Option<int>)

  datatype CategoryRequest = CategoryRequest(categoryGroupCode: string, x: real, y: real, radius: int, size: int, sort: string)

  datatype KeywordRequest = KeywordRequest(query: string, x: real, y: real, radius: int, size: int, sort: string)

  // ----- category codes -----

  /** The Kakao category group codes searched for one category. */
  function CodesOf(c: Category): (codes: seq<string>)
    ensures 1 <= |codes| <= 2
  {
    match c
    case FOOD => ["FD6"]
    case CAFE => ["CE7"]
    case CULTURE => ["CT1"]
    case PHOTO => ["AT4"]
    case SHOPPING => ["MT1", "CS2"]
    case HEALING => ["AT4"]
    case EXPERIENCE => ["AT4", "AC5"]
    case NIGHT => ["AD5"]
    case STAY => ["AD5"]
  }

  /** The codes of every category, category by category, in iteration order. */
  function AllCodes(cats: Categories): seq<string>
  {
    if cats == [] then [] else AllCodes(cats[..|cats| - 1]) + CodesOf(cats[|cats| - 1])
  }

  /** `categoryCodesFor`: appends each category's codes in turn. */
  method CategoryCodesFor(cats: Categories) returns (list: seq<string>)
    ensures list == AllCodes(cats)
    ensures |cats| <= |list| <= 2 * |cats|
  {
    if |cats| == 0 {
      return [];
    }
    list := [];
    for i := 0 to |cats|
      invariant list == AllCodes(cats[..i])
      invariant i <= |list| <= 2 * i
    {
      assert cats[..i + 1][..i] == cats[..i];
      list := list + CodesOf(cats[i]);
    }
    assert cats[..|cats|] == cats;
  }

  /** A code is searched exactly when it belongs to one of the categories. */
  lemma {:induction false} AllCodesMembers(cats: Categories, code: string)
    ensures code in AllCodes(cats) <==> exists c <- cats :: code in CodesOf(c)
  {
    if cats != [] {
      var pre := cats[..|cats| - 1];
      AllCodesMembers(pre, code);
      assert cats == pre + [cats[|cats| - 1]];
      assert forall c <- pre :: c in cats;
      if c :| c in cats && code in CodesOf(c) {
        if c != cats[|cats| - 1] {
          var i :| 0 <= i < |cats| && cats[i] == c;
          assert pre[i] == c;
        }
      }
    }
  }

  /** `toPlace`'s reading of a category group code; unknown or missing codes read as CULTURE. */
  function CategoryOfCode(code: Option<string>): Category
  {
    if code == Some("FD6") then FOOD
    else if code == Some("CE7") then CAFE
    else if code == Some("CT1") then CULTURE
    else if code == Some("AT4") then PHOTO
    else if code == Some("MT1") || code == Some("CS2") then SHOPPING
    else if code == Some("AD5") then NIGHT
    else CULTURE
  }

  /** The categories that survive a search: those whose own codes read back as themselves. */
  predicate Recoverable(c: Category) {
    c != HEALING && c != EXPERIENCE && c != STAY
  }

  /**
   * Searching by a category and reading the codes back gives the category
   * again exactly for the recoverable ones: HEALING and EXPERIENCE come back
   * as PHOTO, STAY as NIGHT.
   */
  lemma CodesRoundTrip(c: Category)
    ensures Recoverable(c) <==> forall code <- CodesOf(c) :: CategoryOfCode(Some(code)) == c
    ensures c == HEALING ==> CategoryOfCode(Some(CodesOf(c)[0])) == PHOTO
    ensures c == EXPERIENCE ==> CategoryOfCode(Some(CodesOf(c)[0])) == PHOTO
    ensures c == STAY ==> CategoryOfCode(Some(CodesOf(c)[0])) == NIGHT
  {
    if !Recoverable(c) {
      assert CodesOf(c)[0] in CodesOf(c);
    }
  }

  /** The codes `toPlace` recognises. */
  const KnownCodes: seq<string> := ["FD6", "CE7", "CT1", "AT4", "MT1", "CS2", "AD5"]

  /**
   * The other direction: a recognised code is among the codes searched for
   * the category it reads as, and every other code reads as CULTURE.
   */
  lemma DecodedCodeIsSearched(code: string)
    ensures code in KnownCodes ==> code in CodesOf(CategoryOfCode(Some(code)))
    ensures code !in KnownCodes ==> CategoryOfCode(Some(code)) == CULTURE
  {
  }

  // ----- documents to places -----

  /** `PlaceDoc.toPlace`: no place unless both coordinates parse. */
  function ToPlace(doc: PlaceDoc, parsers: Parsers): (r: Option<Place>)
    ensures r.None? <==> parsers.toDouble(doc.y).None? || parsers.toDouble(doc.x).None?
    ensures r.Some? ==>
      && r.value.id == doc.id
      && r.value.name == doc.placeName
      && Some(r.value.lat) == parsers.toDouble(doc.y)
      && Some(r.value.lng) == parsers.toDouble(doc.x)
      && r.value.category == CategoryOfCode(doc.categoryGroupCode)
      && Recoverable(r.value.category)
      && r.value.distanceMeters == (if doc.distance.Some? then parsers.toInt(doc.distance.value) else None)
      && r.value.rating.None?
      && r.value.address == doc.addressName
  {
    var lat := parsers.toDouble(doc.y);
    var lng := parsers.toDouble(doc.x);
    if lat.None? || lng.None? then None
    else
      var dist := if doc.distance.Some? then parsers.toInt(doc.distance.value) else None;
      Some(Place(doc.id, doc.placeName, CategoryOfCode(doc.categoryGroupCode), lat.value, lng.value, dist, doc.addressName, None))
  }

  /** `mapNotNull { it.toPlace() }`. */
  function ToPlaces(docs: seq<PlaceDoc>, parsers: Parsers): (r: seq<Place>)
    ensures |r| <= |docs|
    ensures forall p <- r :: exists d <- docs :: ToPlace(d, parsers) == Some(p)
    ensures forall d <- docs :: ToPlace(d, parsers).Some? ==> ToPlace(d, parsers).value in r
  {
    if docs == [] then []
    else
      var rest := ToPlaces(docs[1..], parsers);
      assert forall d <- docs[1..] :: d in docs;
      assert forall d <- docs :: d == docs[0] || d in docs[1..];
      var head := ToPlace(docs[0], parsers);
      (if head.Some? then [head.value] else []) + rest
  }

  lemma {:induction false} ToPlacesAppend(a: seq<PlaceDoc>, b: seq<PlaceDoc>, parsers: Parsers)
    ensures ToPlaces(a + b, parsers) == ToPlaces(a, parsers) + ToPlaces(b, parsers)
  {
    if a == [] {
      assert a + b == b;
    } else {
      assert (a + b)[1..] == a[1..] + b;
      ToPlacesAppend(a[1..], b, parsers);
    }
  }

  // ----- ordering by distance -----

  /** `distanceMeters ?: Int.MAX_VALUE`: places without a distance sort last. */
  function DistanceKey(p: Place): int {
    p.distanceMeters.GetOr(IntMax)
  }

  predicate SortedByDistance(s: seq<Place>) {
    forall i, j | 0 <= i < j < |s| :: DistanceKey(s[i]) <= DistanceKey(s[j])
  }

  /** Puts `x` before the first element whose key is not smaller. */
  function InsertByDistance(x: Place, t: seq<Place>): seq<Place>
  {
    if t == [] || DistanceKey(x) <= DistanceKey(t[0]) then [x] + t
    else [t[0]] + InsertByDistance(x, t[1..])
  }

  /** `sortedBy { it.distanceMeters ?: Int.MAX_VALUE }`, a stable sort. */
  function SortByDistance(s: seq<Place>): seq<Place>
  {
    if s == [] then [] else InsertByDistance(s[0], SortByDistance(s[1..]))
  }

  /** Everything in the result of an insertion is the inserted place or came from `t`. */
  lemma {:induction false} InsertMembers(x: Place, t: seq<Place>)
    ensures forall p <- InsertByDistance(x, t) :: p == x || p in t
  {
    if t != [] && DistanceKey(x) > DistanceKey(t[0]) {
      InsertMembers(x, t[1..]);
      assert forall p <- t[1..] :: p in t;
    }
  }

  /** Insertion adds exactly the inserted place. */
  lemma {:induction false} InsertAddsOne(x: Place, t: seq<Place>)
    ensures multiset(InsertByDistance(x, t)) == multiset(t) + multiset{x}
  {
    if t != [] && DistanceKey(x) > DistanceKey(t[0]) {
      InsertAddsOne(x, t[1..]);
      assert t == [t[0]] + t[1..];
    }
  }

  lemma {:induction false} InsertSorted(x: Place, t: seq<Place>)
    requires SortedByDistance(t)
    ensures SortedByDistance(InsertByDistance(x, t))
  {
    if t != [] && DistanceKey(x) > DistanceKey(t[0]) {
      InsertSorted(x, t[1..]);
      InsertMembers(x, t[1..]);
      var rest := InsertByDistance(x, t[1..]);
      forall p <- rest ensures DistanceKey(t[0]) <= DistanceKey(p) {
        if p != x {
          var k :| 0 <= k < |t[1..]| && t[1..][k] == p;
          assert t[k + 1] == p;
        }
      }
      var r := [t[0]] + rest;
      forall i, j | 0 <= i < j < |r| ensures DistanceKey(r[i]) <= DistanceKey(r[j]) {
        assert r[j] == rest[j - 1];
        if i > 0 {
          assert r[i] == rest[i - 1];
        } else {
          assert rest[j - 1] in rest;
        }
      }
    } else {
      var r := [x] + t;
      forall i, j | 0 <= i < j < |r| ensures DistanceKey(r[i]) <= DistanceKey(r[j]) {
        assert r[j] == t[j - 1];
        if i > 0 {
          assert r[i] == t[i - 1];
        }
      }
    }
  }

  lemma {:induction false} SortMembers(s: seq<Place>)
    ensures forall p <- SortByDistance(s) :: p in s
  {
    if s != [] {
      SortMembers(s[1..]);
      InsertMembers(s[0], SortByDistance(s[1..]));
      assert forall p <- s[1..] :: p in s;
    }
  }

  /** The sort orders by distance and is a permutation of its input. */
  lemma {:induction false} SortProperties(s: seq<Place>)
    ensures SortedByDistance(SortByDistance(s))
    ensures multiset(SortByDistance(s)) == multiset(s)
  {
    if s != [] {
      SortProperties(s[1..]);
      InsertSorted(s[0], SortByDistance(s[1..]));
      InsertAddsOne(s[0], SortByDistance(s[1..]));
      assert s == [s[0]] + s[1..];
    }
  }

  /** Keeps the places whose sort key is `k`. */
  function KeyIs(k: int): Place -> bool {
    p => DistanceKey(p) == k
  }

  lemma {:induction false} InsertStable(x: Place, t: seq<Place>, k: int)
    ensures Filter(InsertByDistance(x, t), KeyIs(k)) == (if DistanceKey(x) == k then [x] else []) + Filter(t, KeyIs(k))
  {
    if t == [] || DistanceKey(x) <= DistanceKey(t[0]) {
      assert ([x] + t)[1..] == t;
    } else {
      InsertStable(x, t[1..], k);
      var rest := InsertByDistance(x, t[1..]);
      assert ([t[0]] + rest)[1..] == rest;
    }
  }

  /** The sort is stable: places with equal keys keep their relative order. */
  lemma {:induction false} SortStable(s: seq<Place>, k: int)
    ensures Filter(SortByDistance(s), KeyIs(k)) == Filter(s, KeyIs(k))
  {
    if s != [] {
      SortStable(s[1..], k);
      InsertStable(s[0], SortByDistance(s[1..]), k);
    }
  }

  lemma {:induction false} InsertKeepsDistinct(x: Place, t: seq<Place>)
    requires DistinctIds(t) && x.id !in Ids(t)
    ensures DistinctIds(InsertByDistance(x, t))
  {
    if t != [] && DistanceKey(x) > DistanceKey(t[0]) {
      HeadIdNotInTail(t);
      assert forall p <- t[1..] :: p in t;
      assert x.id !in Ids(t[1..]);
      InsertKeepsDistinct(x, t[1..]);
      InsertMembers(x, t[1..]);
      var rest := InsertByDistance(x, t[1..]);
      assert forall p <- rest :: p.id != t[0].id;
      var r := [t[0]] + rest;
      forall i, j | 0 <= i < j < |r| ensures r[i].id != r[j].id {
        assert r[j] == rest[j - 1];
        if i > 0 {
          assert r[i] == rest[i - 1];
        } else {
          assert rest[j - 1] in rest;
        }
      }
    } else {
      var r := [x] + t;
      forall i, j | 0 <= i < j < |r| ensures r[i].id != r[j].id {
        assert r[j] == t[j - 1];
        if i > 0 {
          assert r[i] == t[i - 1];
        } else {
          assert t[j - 1] in t;
        }
      }
    }
  }

  lemma HeadIdNotInTail(s: seq<Place>)
    requires s != [] && DistinctIds(s)
    ensures s[0].id !in Ids(s[1..])
  {
    assert forall p <- s[1..] :: exists j :: 0 < j < |s| && s[j] == p;
  }

  lemma {:induction false} SortKeepsDistinct(s: seq<Place>)
    requires DistinctIds(s)
    ensures DistinctIds(SortByDistance(s))
  {
    if s != [] {
      HeadIdNotInTail(s);
      assert DistinctIds(s[1..]) by {
        forall i, j | 0 <= i < j < |s[1..]| ensures s[1..][i].id != s[1..][j].id {
          assert s[1..][i] == s[i + 1] && s[1..][j] == s[j + 1];
        }
      }
      SortKeepsDistinct(s[1..]);
      SortMembers(s[1..]);
      var t := SortByDistance(s[1..]);
      assert s[0].id !in Ids(t);
      InsertKeepsDistinct(s[0], t);
    }
  }

  /** `distinctBy { it.id }.sortedBy { distance }`, applied to every search result. */
  function DedupAndSort(s: seq<Place>): seq<Place> {
    SortByDistance(DistinctById(s))
  }

  /**
   * A search result has one place per id, the first one seen, ordered by
   * distance with distance-less places last, and loses no id.
   */
  lemma DedupAndSortProperties(s: seq<Place>)
    ensures DistinctIds(DedupAndSort(s))
    ensures SortedByDistance(DedupAndSort(s))
    ensures multiset(DedupAndSort(s)) == multiset(DistinctById(s))
    ensures Ids(DedupAndSort(s)) == Ids(s)
    ensures forall p <- DedupAndSort(s) :: p in s && p == s[IndexOfId(s, p.id)]
  {
    var d := DistinctById(s);
    SortProperties(d);
    SortKeepsDistinct(d);
    DistinctByIdFirstSeen(s);
    var r := SortByDistance(d);
    assert forall p :: p in r <==> p in d by {
      forall p ensures p in r <==> p in d {
        assert p in r <==> p in multiset(r);
        assert p in d <==> p in multiset(d);
      }
    }
  }

  // ----- searches -----

  /** One request per code, in code order, centred on the given point and sorted by distance. */
  function CategoryRequests(codes: seq<string>, centerLat: real, centerLng: real, radiusMeters: int, size: int): (reqs: seq<CategoryRequest>)
    ensures |reqs| == |codes|
  {
    if codes == [] then []
    else
      CategoryRequests(codes[..|codes| - 1], centerLat, centerLng, radiusMeters, size)
      + [CategoryRequest(codes[|codes| - 1], centerLng, centerLat, radiusMeters, size, "distance")]
  }

  lemma {:induction false} CategoryRequestAt(codes: seq<string>, centerLat: real, centerLng: real, radiusMeters: int, size: int, i: nat)
    requires i < |codes|
    ensures CategoryRequests(codes, centerLat, centerLng, radiusMeters, size)[i]
         == CategoryRequest(codes[i], centerLng, centerLat, radiusMeters, size, "distance")
    decreases |codes|
  {
    if i < |codes| - 1 {
      CategoryRequestAt(codes[..|codes| - 1], centerLat, centerLng, radiusMeters, size, i);
    }
  }

  /** The places of every response in request order; a single failed request fails the whole search. */
  function FetchPlaces(fetch: CategoryRequest -> Outcome<seq<PlaceDoc>>, parsers: Parsers, reqs: seq<CategoryRequest>): Outcome<seq<Place>>
  {
    if reqs == [] then Success([])
    else
      match FetchPlaces(fetch, parsers, reqs[..|reqs| - 1])
      case Failure => Failure
      case Success(acc) =>
        match fetch(reqs[|reqs| - 1])
        case Failure => Failure
        case Success(docs) => Success(acc + ToPlaces(docs, parsers))
  }

  lemma FetchStep(fetch: CategoryRequest -> Outcome<seq<PlaceDoc>>, parsers: Parsers, reqs: seq<CategoryRequest>, i: nat)
    requires i < |reqs|
    ensures FetchPlaces(fetch, parsers, reqs[..i]).Failure? || fetch(reqs[i]).Failure?
      ==> FetchPlaces(fetch, parsers, reqs[..i + 1]) == Failure
    ensures FetchPlaces(fetch, parsers, reqs[..i]).Success? && fetch(reqs[i]).Success?
      ==> FetchPlaces(fetch, parsers, reqs[..i + 1]) ==
          Success(FetchPlaces(fetch, parsers, reqs[..i]).value + ToPlaces(fetch(reqs[i]).value, parsers))
  {
    assert reqs[..i + 1][..i] == reqs[..i];
  }

  /** The outcome `searchByCategories` promises, as a function of the inputs. */
  function CategorySearch(ready: bool, fetch: CategoryRequest -> Outcome<seq<PlaceDoc>>, parsers: Parsers,
                          centerLat: real, centerLng: real, categories: Categories, radiusMeters: int, size: int): Outcome<seq<Place>>
  {
    if !ready then Success([])
    else
      var codes := AllCodes(categories);
      if codes == [] then Success([])
      else
        match FetchPlaces(fetch, parsers, CategoryRequests(codes, centerLat, centerLng, radiusMeters, size))
        case Failure => Failure
        case Success(all) => Success(DedupAndSort(all))
  }

  /**
   * `searchByCategories`: one request per code, sorted by distance on the
   * server side, results concatenated, then deduplicated and sorted.
   */
  method SearchByCategories(ready: bool, fetch: CategoryRequest -> Outcome<seq<PlaceDoc>>, parsers: Parsers,
                            centerLat: real, centerLng: real, categories: Categories, radiusMeters: int, size: int)
    returns (r: Outcome<seq<Place>>)
    ensures r == CategorySearch(ready, fetch, parsers, centerLat, centerLng, categories, radiusMeters, size)
    ensures r.Success? ==> DistinctIds(r.value) && SortedByDistance(r.value)
  {
    if !ready {
      return Success([]);
    }
    var codes := CategoryCodesFor(categories);
    if |codes| == 0 {
      return Success([]);
    }
    ghost var reqs := CategoryRequests(codes, centerLat, centerLng, radiusMeters, size);
    var out: seq<Place> := [];
    for i := 0 to |codes|
      invariant FetchPlaces(fetch, parsers, reqs[..i]) == Success(out)
    {
      CategoryRequestAt(codes, centerLat, centerLng, radiusMeters, size, i);
      FetchStep(fetch, parsers, reqs, i);
      var resp := fetch(CategoryRequest(codes[i], centerLng, centerLat, radiusMeters, size, "distance"));
      if resp.Failure? {
        FailureStays(fetch, parsers, reqs, i + 1);
        return Failure;
      }
      out := out + ToPlaces(resp.value, parsers);
    }
    assert reqs[..|codes|] == reqs;
    r := Success(DedupAndSort(out));
    DedupAndSortProperties(out);
  }

  /** Once a prefix of the requests fails, the whole fetch fails. */
  lemma {:induction false} FailureStays(fetch: CategoryRequest -> Outcome<seq<PlaceDoc>>, parsers: Parsers, reqs: seq<CategoryRequest>, k: nat)
    requires k <= |reqs|
    requires FetchPlaces(fetch, parsers, reqs[..k]) == Failure
    ensures FetchPlaces(fetch, parsers, reqs) == Failure
    decreases |reqs| - k
  {
    if k < |reqs| {
      assert reqs[..k + 1][..k] == reqs[..k];
      FailureStays(fetch, parsers, reqs, k + 1);
    } else {
      assert reqs[..k] == reqs;
    }
  }

  /** Every place a successful category search returns was read from a response to one of its requests. */
  lemma {:induction false} FetchPlacesSources(fetch: CategoryRequest -> Outcome<seq<PlaceDoc>>, parsers: Parsers, reqs: seq<CategoryRequest>)
    requires FetchPlaces(fetch, parsers, reqs).Success?
    ensures forall p <- FetchPlaces(fetch, parsers, reqs).value ::
      exists q <- reqs :: fetch(q).Success? && exists d <- fetch(q).value :: ToPlace(d, parsers) == Some(p)
  {
    if reqs != [] {
      var pre := reqs[..|reqs| - 1];
      var q := reqs[|reqs| - 1];
      FetchPlacesSources(fetch, parsers, pre);
      assert forall q' <- pre :: q' in reqs;
      assert q in reqs;
    }
  }

  /** `searchByKeyword`: one request sorted by accuracy, then the same deduplication and distance sort. */
  function SearchByKeyword(ready: bool, fetch: KeywordRequest -> Outcome<seq<PlaceDoc>>, parsers: Parsers,
                           centerLat: real, centerLng: real, keyword: string, radiusMeters: int, size: int): (r: Outcome<seq<Place>>)
    ensures !ready ==> r == Success([])
    ensures ready ==> (r.Failure? <==> fetch(KeywordRequest(keyword, centerLng, centerLat, radiusMeters, size, "accuracy")).Failure?)
    ensures r.Success? ==> DistinctIds(r.value) && SortedByDistance(r.value)
    ensures r.Success? && ready ==>
      var docs := fetch(KeywordRequest(keyword, centerLng, centerLat, radiusMeters, size, "accuracy")).value;
      var places := ToPlaces(docs, parsers);
      && r.value == DedupAndSort(places)
      && Ids(r.value) == Ids(places)
      && forall p <- r.value :: p in places && p == places[IndexOfId(places, p.id)]
  {
    if !ready then Success([])
    else
      match fetch(KeywordRequest(keyword, centerLng, centerLat, radiusMeters, size, "accuracy"))
      case Failure => Failure
      case Success(docs) =>
        DedupAndSortProperties(ToPlaces(docs, parsers));
        Success(DedupAndSort(ToPlaces(docs, parsers)))
  }

  /** `geocode`: the first address document's coordinates, `y` as latitude and `x` as longitude. */
  function Geocode(ready: bool, searchAddress: string -> Outcome<seq<AddressDoc>>, parsers: Parsers, regionOrAddress: string)
    : (r: Outcome<Option<LatLng>>)
    ensures !ready ==> r == Success(None)
    ensures ready ==> (r.Failure? <==> searchAddress(regionOrAddress).Failure?)
    ensures r.Success? && r.value.Some? ==>
      && ready
      && searchAddress(regionOrAddress).Success?
      && searchAddress(regionOrAddress).value != []
      && Some(r.value.value.lat) == parsers.toDouble(searchAddress(regionOrAddress).value[0].y)
      && Some(r.value.value.lng) == parsers.toDouble(searchAddress(regionOrAddress).value[0].x)
    ensures ready && searchAddress(regionOrAddress).Success? && searchAddress(regionOrAddress).value == [] ==> r == Success(None)
    ensures ready && searchAddress(regionOrAddress).Success? && searchAddress(regionOrAddress).value != [] ==>
      var doc := searchAddress(regionOrAddress).value[0];
      var lat, lng := parsers.toDouble(doc.y), parsers.toDouble(doc.x);
      && (lat.Some? && lng.Some? ==> r == Success(Some(LatLng(lat.value, lng.value))))
      && (lat.None? || lng.None? ==> r == Success(None))
  {
    if !ready then Success(None)
    else
      match searchAddress(regionOrAddress)
      case Failure => Failure
      case Success(docs) =>
        if docs == [] then Success(None)
        else
          var lat := parsers.toDouble(docs[0].y);
          var lng := parsers.toDouble(docs[0].x);
          if lat.None? || lng.None? then Success(None) else Success(Some(LatLng(lat.value, lng.value)))
  }

  // ----- reverse geocoding -----

  /** The first legal-district ("B") document. */
  function FirstLegalDistrict(docs: seq<RegionCodeDoc>): (r: Option<RegionCodeDoc>)
    ensures r.None? <==> forall d <- docs :: d.regionType != "B"
    ensures r.Some? ==> r.value.regionType == "B" && exists i | 0 <= i < |docs| ::
      docs[i] == r.value && forall j | 0 <= j < i :: docs[j].regionType != "B"
  {
    if docs == [] then None
    else if docs[0].regionType == "B" then Some(docs[0])
    else
      var rest := docs[1..];
      var r := FirstLegalDistrict(rest);
      assert forall d <- docs :: d == docs[0] || d in rest;
      assert forall d <- rest :: d in docs;
      if r.Some? then
        var i :| 0 <= i < |rest| && rest[i] == r.value && forall j | 0 <= j < i :: rest[j].regionType != "B";
        assert docs[i + 1] == r.value;
        assert forall j | 1 <= j < i + 1 :: docs[j] == rest[j - 1];
        r
      else r
  }

  /** The document `coord2regioncode` reads: the first "B" document, else the first document. */
  function SelectRegionDoc(docs: seq<RegionCodeDoc>): (r: Option<RegionCodeDoc>)
    ensures r.None? <==> docs == []
    ensures r.Some? ==> r.value in docs
    ensures r.Some? && r.value.regionType != "B" ==> r.value == docs[0] && forall d <- docs :: d.regionType != "B"
    ensures FirstLegalDistrict(docs).Some? ==> r == FirstLegalDistrict(docs)
    ensures FirstLegalDistrict(docs).None? && docs != [] ==> r == Some(docs[0])
  {
    var b := FirstLegalDistrict(docs);
    if b.Some? then b
    else if docs == [] then None
    else Some(docs[0])
  }

  /** The region names of a document; the display name prefers the district (region 2). */
  function RegionInfoOf(doc: RegionCodeDoc): (info: RegionInfo)
    ensures !IsBlank(doc.region2) ==> info.displayName == doc.region2
    ensures IsBlank(doc.region2) ==> info.displayName == doc.region1
    ensures info.region1 == doc.region1 && info.region2 == doc.region2 && info.region3 == doc.region3
  {
    var r1, r2, r3 := doc.region1, doc.region2, doc.region3;
    RegionInfo(r1, r2, r3,
      Trim(r1 + " " + r2 + " " + r3),
      Trim(r1 + " " + r2),
      if !IsBlank(r2) then r2 else r1)
  }

  /** A region name: non-empty, no spaces, not starting or ending in whitespace. */
  predicate CleanName(s: string) {
    s != [] && ' ' !in s && !IsWhitespace(s[0]) && !IsWhitespace(s[|s| - 1])
  }

  /** The display name is blank only when both the district and the province names are. */
  lemma DisplayNameBlank(doc: RegionCodeDoc)
    ensures IsBlank(RegionInfoOf(doc).displayName) <==> IsBlank(doc.region1) && IsBlank(doc.region2)
  {
  }

  /** With clean names, the full name splits on spaces into province, district and neighbourhood. */
  lemma FullNameSplits(doc: RegionCodeDoc)
    requires CleanName(doc.region1) && CleanName(doc.region2) && CleanName(doc.region3)
    ensures Split(RegionInfoOf(doc).fullName, {' '}) == [doc.region1, doc.region2, doc.region3]
    ensures Split(RegionInfoOf(doc).cityDistrictName, {' '}) == [doc.region1, doc.region2]
  {
    var r1, r2, r3 := doc.region1, doc.region2, doc.region3;
    var full := r1 + " " + r2 + " " + r3;
    var city := r1 + " " + r2;
    JoinThree(r1, r2, r3);
    TrimOfClean(full);
    TrimOfClean(city);
    SplitJoin([r1, r2, r3], ' ');
    SplitJoin([r1, r2], ' ');
  }

  lemma JoinThree(a: string, b: string, c: string)
    ensures Join([a, b, c], ' ') == a + " " + b + " " + c
    ensures Join([a, b], ' ') == a + " " + b
  {
    JoinCons(a, [b, c], ' ');
    JoinCons(b, [c], ' ');
    JoinCons(a, [b], ' ');
    assert [a, b, c][1..] == [b, c];
  }

  lemma TrimOfClean(s: string)
    requires s != [] && !IsWhitespace(s[0]) && !IsWhitespace(s[|s| - 1])
    ensures Trim(s) == s
  {
    TrimStartOfClean(s);
  }

  /** `coord2regioncode`: the region of the selected document, or nothing if there is none. */
  function Coord2RegionCode(ready: bool, lookup: (real, real) -> Outcome<seq<RegionCodeDoc>>, lat: real, lng: real)
    : (r: Outcome<Option<RegionInfo>>)
    ensures !ready ==> r == Success(None)
    ensures ready ==> (r.Failure? <==> lookup(lng, lat).Failure?)
    ensures r.Success? && r.value.Some? ==> ready && exists d <- lookup(lng, lat).value :: r.value.value == RegionInfoOf(d)
    ensures ready && lookup(lng, lat).Success? ==> (r.Success? && r.value.None? <==> lookup(lng, lat).value == [])
    ensures ready && lookup(lng, lat).Success? && lookup(lng, lat).value != [] ==>
      r == Success(Some(RegionInfoOf(SelectRegionDoc(lookup(lng, lat).value).value)))
  {
    if !ready then Success(None)
    else
      match lookup(lng, lat)
      case Failure => Failure
      case Success(docs) =>
        match SelectRegionDoc(docs)
        case None => Success(None)
        case Some(d) => Success(Some(RegionInfoOf(d)))
  }
}
