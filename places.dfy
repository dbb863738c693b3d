/**
 * The values that cross every stage of the search pipeline: categories,
 * coordinates, places, the user's filter and the recommendation result,
 * together with the list operations the pipeline applies to places
 * (`distinctBy { it.id }`, `filter`, `find`, flattening of batches).
 */
module Places {
  import opened Wrappers

  datatype Category = FOOD | CAFE | CULTURE | PHOTO | SHOPPING | HEALING | EXPERIENCE | NIGHT | STAY

  /** A WGS-84 coordinate pair; exact reals stand in for `Double`. */
  datatype LatLng = LatLng(lat: real, lng: real)

  datatype Place = Place(
    id: string,
    name: string,
    category: Category,
    lat: real,
    lng: real,
    distanceMeters: Option<int>,
    address: Option<string>,
    rating: Option<real>)

  datatype WeatherInfo = WeatherInfo(tempC: real, condition: string, icon: string)

  /**
   * A Kotlin `Set<Category>` built with `setOf`/`+`/`-`: iteration follows
   * insertion order, so it is a duplicate-free sequence here.
   */
  type Categories = seq<Category>

  predicate NoDuplicates<T(==)>(s: seq<T>) {
    forall i, j | 0 <= i < j < |s| :: s[i] != s[j]
  }

  /** The search filter; duration, budget and companion pass through untouched and are not modelled. */
  datatype FilterState = FilterState(region: string, categories: Categories)

  datatype RecommendationResult = RecommendationResult(
    places: seq<Place>,
    weather: Option<WeatherInfo>,
    topPicks: seq<Place>,
    gptReasons: map<string, string>,
    aiTopIds: set<string>)

  /** `RecommendationResult(places, weather)` with every other field at its default. */
  function PlainResult(places: seq<Place>, weather: Option<WeatherInfo>): RecommendationResult {
    RecommendationResult(places, weather, [], map[], {})
  }

  /** `if (categories.isEmpty()) setOf(Category.FOOD) else categories`. */
  function DefaultCategories(cats: Categories): (r: Categories)
    ensures r != []
    ensures cats != [] ==> r == cats
    ensures cats == [] ==> r == [FOOD]
  {
    if cats == [] then [FOOD] else cats
  }

  // ----- identity of places -----

  function Ids(s: seq<Place>): set<string> {
    set p | p in s :: p.id
  }

  /** No two places of `s` share an id. */
  predicate DistinctIds(s: seq<Place>) {
    forall i, j | 0 <= i < j < |s| :: s[i].id != s[j].id
  }

  lemma IdsAppend(a: seq<Place>, b: seq<Place>)
    ensures Ids(a + b) == Ids(a) + Ids(b)
  {
    assert forall p :: p in a + b <==> p in a || p in b;
  }

  /** Index of the first place of `s` with the given id. */
  function IndexOfId(s: seq<Place>, id: string): (k: nat)
    requires id in Ids(s)
    ensures k < |s| && s[k].id == id
    ensures forall j | 0 <= j < k :: s[j].id != id
  {
    if s[0].id == id then 0
    else
      assert id in Ids(s[1..]) by {
        var p :| p in s && p.id == id;
        var i :| 0 <= i < |s| && s[i] == p;
        assert s[1..][i - 1] == p;
      }
      1 + IndexOfId(s[1..], id)
  }

  lemma {:induction false} IndexOfIdExtend(s: seq<Place>, x: Place, id: string)
    requires id in Ids(s)
    ensures id in Ids(s + [x]) && IndexOfId(s + [x], id) == IndexOfId(s, id)
  {
    IdsAppend(s, [x]);
    var k := IndexOfId(s, id);
    var k' := IndexOfId(s + [x], id);
    assert (s + [x])[k] == s[k];
  }

  /**
   * `distinctBy { it.id }`: keeps the first place seen for each id, in the
   * order the ids first appear.
   */
  function DistinctById(s: seq<Place>): (r: seq<Place>)
    ensures DistinctIds(r)
    ensures Ids(r) == Ids(s)
    ensures forall p <- r :: p in s
    ensures |r| <= |s|
  {
    if s == [] then []
    else
      var d := DistinctById(s[..|s| - 1]);
      var x := s[|s| - 1];
      assert s == s[..|s| - 1] + [x];
      IdsAppend(s[..|s| - 1], [x]);
      if x.id in Ids(d) then d
      else
        IdsAppend(d, [x]);
        d + [x]
  }

  lemma IndexOfIdLast(s: seq<Place>, x: Place)
    requires x.id !in Ids(s)
    ensures x.id in Ids(s + [x]) && IndexOfId(s + [x], x.id) == |s|
  {
    IdsAppend(s, [x]);
    var k := IndexOfId(s + [x], x.id);
    if k < |s| {
      assert s[k] in s;
    }
  }

  /** Every kept place is the first one of `s` with its id. */
  lemma {:induction false} DistinctByIdFirstSeen(s: seq<Place>)
    ensures forall p <- DistinctById(s) :: p.id in Ids(s) && p == s[IndexOfId(s, p.id)]
  {
    if s != [] {
      var pre := s[..|s| - 1];
      var x := s[|s| - 1];
      assert s == pre + [x];
      DistinctByIdFirstSeen(pre);
      var d := DistinctById(pre);
      forall p <- d ensures p.id in Ids(s) && p == s[IndexOfId(s, p.id)] {
        IndexOfIdExtend(pre, x, p.id);
        var i := IndexOfId(pre, p.id);
        assert s[i] == pre[i];
      }
      if x.id !in Ids(d) {
        IndexOfIdLast(pre, x);
      }
    }
  }

  /** The ids of `r` occur in `s`, and their first occurrences in `s` come in the order of `r`. */
  ghost predicate InFirstOccurrenceOrder(r: seq<Place>, s: seq<Place>) {
    && (forall p <- r :: p.id in Ids(s))
    && (forall a, b | 0 <= a < b < |r| :: IndexOfId(s, r[a].id) < IndexOfId(s, r[b].id))
  }

  lemma OrderExtend(d: seq<Place>, pre: seq<Place>, x: Place)
    requires InFirstOccurrenceOrder(d, pre)
    ensures InFirstOccurrenceOrder(d, pre + [x])
    ensures forall p <- d :: IndexOfId(pre + [x], p.id) < |pre|
  {
    forall p <- d ensures p.id in Ids(pre + [x]) && IndexOfId(pre + [x], p.id) == IndexOfId(pre, p.id) {
      IndexOfIdExtend(pre, x, p.id);
    }
    forall a, b | 0 <= a < b < |d|
      ensures IndexOfId(pre + [x], d[a].id) < IndexOfId(pre + [x], d[b].id)
    {
      assert d[a] in d && d[b] in d;
    }
  }

  lemma OrderAppend(d: seq<Place>, pre: seq<Place>, x: Place)
    requires InFirstOccurrenceOrder(d, pre)
    requires x.id !in Ids(pre)
    ensures InFirstOccurrenceOrder(d + [x], pre + [x])
  {
    OrderExtend(d, pre, x);
    IndexOfIdLast(pre, x);
    var r := d + [x];
    forall a, b | 0 <= a < b < |r| ensures IndexOfId(pre + [x], r[a].id) < IndexOfId(pre + [x], r[b].id) {
      assert r[a] == d[a] && d[a] in d;
      if b < |d| {
        assert r[b] == d[b];
      }
    }
  }

  /** Kept places appear in the order in which their ids first occur in `s`. */
  lemma {:induction false} DistinctByIdOrder(s: seq<Place>)
    ensures InFirstOccurrenceOrder(DistinctById(s), s)
  {
    if s != [] {
      var pre := s[..|s| - 1];
      var x := s[|s| - 1];
      assert s == pre + [x];
      DistinctByIdOrder(pre);
      var d := DistinctById(pre);
      if x.id in Ids(d) {
        OrderExtend(d, pre, x);
      } else {
        OrderAppend(d, pre, x);
      }
    }
  }

  /** Deduplicating a list that already has distinct ids changes nothing. */
  lemma {:induction false} DistinctByIdOfDistinct(s: seq<Place>)
    requires DistinctIds(s)
    ensures DistinctById(s) == s
  {
    if s != [] {
      var pre := s[..|s| - 1];
      var x := s[|s| - 1];
      DistinctByIdOfDistinct(pre);
      assert pre + [x] == s;
    }
  }

  /** Appending one place keeps it exactly when its id is new (`putIfAbsent`). */
  lemma DistinctByIdSnoc(s: seq<Place>, x: Place)
    ensures DistinctById(s + [x]) == if x.id in Ids(DistinctById(s)) then DistinctById(s) else DistinctById(s) + [x]
  {
    assert (s + [x])[..|s|] == s;
  }

  /** Deduplicating a prefix first changes nothing: `distinctBy` can be applied incrementally. */
  lemma {:induction false} DistinctByIdOfPrefix(a: seq<Place>, b: seq<Place>)
    ensures DistinctById(DistinctById(a) + b) == DistinctById(a + b)
  {
    if b == [] {
      var d := DistinctById(a);
      assert d + b == d && a + b == a;
      DistinctByIdOfDistinct(d);
    } else {
      var pre := b[..|b| - 1];
      var x := b[|b| - 1];
      assert b == pre + [x];
      var deduped, raw := DistinctById(a) + pre, a + pre;
      DistinctByIdOfPrefix(a, pre);
      assert DistinctById(a) + b == deduped + [x];
      assert a + b == raw + [x];
      DistinctByIdSnoc(deduped, x);
      DistinctByIdSnoc(raw, x);
    }
  }

  /** The place that `s.find { it.id == id }` returns. */
  function FindById(s: seq<Place>, id: string): (r: Option<Place>)
    ensures r.None? <==> id !in Ids(s)
    ensures r.Some? ==> id in Ids(s) && r.value == s[IndexOfId(s, id)]
  {
    if s == [] then None
    else if s[0].id == id then Some(s[0])
    else
      var r := FindById(s[1..], id);
      assert Ids(s) == {s[0].id} + Ids(s[1..]) by {
        assert s == [s[0]] + s[1..];
        IdsAppend([s[0]], s[1..]);
      }
      r
  }

  /** Concatenation of batches in submission order (`forEach { addAll(it) }`). */
  function Flatten(batches: seq<seq<Place>>): seq<Place>
  {
    if batches == [] then [] else Flatten(batches[..|batches| - 1]) + batches[|batches| - 1]
  }

  lemma {:induction false} FlattenAppend(batches: seq<seq<Place>>, b: seq<Place>)
    ensures Flatten(batches + [b]) == Flatten(batches) + b
  {
    assert (batches + [b])[..|batches|] == batches;
  }

  /** `filter { keep(it) }`. */
  function Filter(s: seq<Place>, keep: Place -> bool): (r: seq<Place>)
    ensures forall p :: p in r <==> p in s && keep(p)
    ensures |r| <= |s|
  {
    if s == [] then [] else (if keep(s[0]) then [s[0]] else []) + Filter(s[1..], keep)
  }

  /** Filtering distributes over concatenation, so it keeps the relative order of what it keeps. */
  lemma {:induction false} FilterAppend(a: seq<Place>, b: seq<Place>, keep: Place -> bool)
    ensures Filter(a + b, keep) == Filter(a, keep) + Filter(b, keep)
  {
    if a != [] {
      assert (a + b)[1..] == a[1..] + b;
      FilterAppend(a[1..], b, keep);
    } else {
      assert a + b == b;
    }
  }

  /** A filter of a list with distinct ids still has distinct ids. */
  lemma {:induction false} FilterKeepsDistinct(s: seq<Place>, keep: Place -> bool)
    requires DistinctIds(s)
    ensures DistinctIds(Filter(s, keep))
  {
    if s != [] {
      FilterKeepsDistinct(s[1..], keep);
      var t := Filter(s[1..], keep);
      forall p | p in t ensures p.id != s[0].id {
        var i :| 0 <= i < |s[1..]| && s[1..][i] == p;
        assert s[i + 1] == p;
      }
    }
  }
}
