/**
 * The result screen's view model (`ResultViewModel`): the places on show,
 * the user's ordered, bounded selection of place ids, and the one-shot
 * "show more places" expansion of the search radius.
 */
module ResultUi {
  import opened Wrappers
  import opened Places
  import opened Repository

  /** `maxSelection`: the most places a route may hold. */
  const MaxSelection: nat := 8

  /** The radius of the first search, which an expansion grows. */
  const InitialRadius: int := 3000

  // ----- the selection list -----

  /** `addPlace`'s update: append an absent id while there is room. */
  function AddToOrder(order: seq<string>, id: string, maxSelection: nat): (r: seq<string>)
    ensures id in order || |order| >= maxSelection ==> r == order
    ensures id !in order && |order| < maxSelection ==> r == order + [id]
    ensures NoDuplicates(order) ==> NoDuplicates(r)
    ensures |order| <= maxSelection ==> |r| <= maxSelection
  {
    if id in order || |order| >= maxSelection then order else order + [id]
  }

  /** `filterNot { it == id }`: every occurrence of `id` goes, everything else stays in order. */
  function RemoveFromOrder(order: seq<string>, id: string): (r: seq<string>)
    ensures forall x :: x in r <==> x in order && x != id
    ensures |r| <= |order|
    ensures id !in order ==> r == order
  {
    if order == [] then []
    else (if order[0] == id then [] else [order[0]]) + RemoveFromOrder(order[1..], id)
  }

  /** The removal works element by element, so it distributes over concatenation and keeps the order of what stays. */
  lemma {:induction false} RemoveFromOrderAppend(a: seq<string>, b: seq<string>, id: string)
    ensures RemoveFromOrder(a + b, id) == RemoveFromOrder(a, id) + RemoveFromOrder(b, id)
  {
    if a != [] {
      RemoveFromOrderAppend(a[1..], b, id);
      assert (a + b)[1..] == a[1..] + b;
    } else {
      assert a + b == b;
    }
  }

  lemma {:induction false} RemoveFromOrderKeepsDistinct(order: seq<string>, id: string)
    ensures NoDuplicates(order) ==> NoDuplicates(RemoveFromOrder(order, id))
  {
    if order != [] && NoDuplicates(order) {
      RemoveFromOrderKeepsDistinct(order[1..], id);
      assert order[0] !in order[1..];
    }
  }

  /** Removing what was just added restores the selection. */
  lemma {:induction false} AddThenRemove(order: seq<string>, id: string, maxSelection: nat)
    requires id !in order
    ensures RemoveFromOrder(AddToOrder(order, id, maxSelection), id) == order
  {
    if |order| < maxSelection {
      RemoveLastId(order, id);
    }
  }

  lemma {:induction false} RemoveLastId(order: seq<string>, id: string)
    requires id !in order
    ensures RemoveFromOrder(order + [id], id) == order
  {
    if order == [] {
      assert RemoveFromOrder([id], id) == [] + RemoveFromOrder([], id);
    } else {
      RemoveLastId(order[1..], id);
      assert (order + [id])[1..] == order[1..] + [id];
      assert order == [order[0]] + order[1..];
    }
  }

  /**
   * `selectedPlaces`: each selected id, in order, mapped to the first place
   * showing it; ids with no such place are skipped.
   */
  function SelectedPlaces(order: seq<string>, all: seq<Place>): (r: seq<Place>)
    ensures |r| <= |order|
    ensures forall p <- r :: p in all && p.id in order
    ensures forall p <- r :: FindById(all, p.id) == Some(p)
    ensures forall id <- order :: id in Ids(all) ==> FindById(all, id).value in r
    ensures (forall id <- order :: id in Ids(all)) ==> |r| == |order| && forall i | 0 <= i < |r| :: r[i].id == order[i]
  {
    MapFoundSound(order, all);
    MapFoundComplete(order, all);
    MapFoundAllFound(order, all);
    MapFound(order, all)
  }

  /** The lookup is made id by id, so the selection distributes over concatenation of the order. */
  lemma SelectedPlacesAppend(a: seq<string>, b: seq<string>, all: seq<Place>)
    ensures SelectedPlaces(a + b, all) == SelectedPlaces(a, all) + SelectedPlaces(b, all)
  {
    MapFoundAppend(a, b, all);
  }

  /** `mapNotNull { id -> allPlaces.find { it.id == id } }`. */
  function MapFound(order: seq<string>, all: seq<Place>): seq<Place>
  {
    if order == [] then [] else SelectedOne(order[0], all) + MapFound(order[1..], all)
  }

  /** The place, if any, that one selected id stands for. */
  function SelectedOne(id: string, all: seq<Place>): seq<Place>
  {
    match FindById(all, id) case None => [] case Some(p) => [p]
  }

  lemma {:induction false} MapFoundAppend(a: seq<string>, b: seq<string>, all: seq<Place>)
    ensures MapFound(a + b, all) == MapFound(a, all) + MapFound(b, all)
  {
    if a == [] {
      assert a + b == b;
    } else {
      var ab := a + b;
      assert ab[0] == a[0] && ab[1..] == a[1..] + b;
      MapFoundAppend(a[1..], b, all);
      var h, x, y := SelectedOne(a[0], all), MapFound(a[1..], all), MapFound(b, all);
      assert MapFound(ab, all) == h + (x + y);
      assert h + (x + y) == (h + x) + y;
    }
  }

  lemma {:induction false} MapFoundSound(order: seq<string>, all: seq<Place>)
    ensures var r := MapFound(order, all);
      && |r| <= |order|
      && forall p <- r :: p in all && p.id in order && FindById(all, p.id) == Some(p)
  {
    if order != [] {
      MapFoundSound(order[1..], all);
      var h, t := SelectedOne(order[0], all), MapFound(order[1..], all);
      if FindById(all, order[0]).Some? {
        IndexOfIdFinds(all, order[0]);
      }
      assert forall p <- h + t :: p in h || p in t;
      assert forall id <- order[1..] :: id in order;
    }
  }

  lemma {:induction false} MapFoundComplete(order: seq<string>, all: seq<Place>)
    ensures forall id <- order :: id in Ids(all) ==> FindById(all, id).value in MapFound(order, all)
  {
    if order != [] {
      MapFoundComplete(order[1..], all);
      var h, t := SelectedOne(order[0], all), MapFound(order[1..], all);
      assert forall p <- t :: p in h + t;
      assert forall id <- order :: id == order[0] || id in order[1..];
    }
  }

  lemma {:induction false} MapFoundAllFound(order: seq<string>, all: seq<Place>)
    ensures (forall id <- order :: id in Ids(all)) ==>
      |MapFound(order, all)| == |order| && forall i | 0 <= i < |order| :: MapFound(order, all)[i].id == order[i]
  {
    if order != [] && forall id <- order :: id in Ids(all) {
      assert forall id <- order[1..] :: id in order;
      MapFoundAllFound(order[1..], all);
      IndexOfIdFinds(all, order[0]);
      var h, t := SelectedOne(order[0], all), MapFound(order[1..], all);
      assert |h| == 1 && h[0].id == order[0];
      assert MapFound(order, all) == h + t;
    }
  }

  lemma IndexOfIdFinds(all: seq<Place>, id: string)
    requires id in Ids(all)
    ensures FindById(all, id).value in all && FindById(all, id).value.id == id
  {
  }

  // ----- expansion -----

  /** `min(10_000, (r * 1.5).toInt())` for a non-negative radius. */
  function ExpandedRadius(r: nat): (n: int)
    ensures n <= 10000
    ensures n == 10000 || 2 * n <= 3 * r < 2 * n + 2
    ensures 3 * r < 20000 ==> 2 * n <= 3 * r < 2 * n + 2
    ensures 3 * r >= 20000 ==> n == 10000
  {
    var grown := (r * 3) / 2;
    if grown < 10000 then grown else 10000
  }

  /** From the initial 3 km the expansion searches 4.5 km; a second growth would reach 6.75 km. */
  lemma ExpandedRadiusSteps()
    ensures ExpandedRadius(InitialRadius) == 4500
    ensures ExpandedRadius(4500) == 6750
    ensures ExpandedRadius(6750) == 10000
  {
  }

  /** Appending places whose ids are all new keeps the ids distinct. */
  lemma AppendNewKeepsDistinct(shown: seq<Place>, added: seq<Place>)
    requires DistinctIds(shown) && DistinctIds(added)
    requires Ids(added) !! Ids(shown)
    ensures DistinctIds(shown + added)
  {
    var s := shown + added;
    forall i, j | 0 <= i < j < |s| ensures s[i].id != s[j].id {
      if i < |shown| && j >= |shown| {
        assert s[i] in shown && s[j] in added;
        assert s[i].id in Ids(shown) && s[j].id in Ids(added);
      }
    }
  }

  /** `ResultUiState` with the search context `ResultViewModel` keeps beside it. */
  class ResultViewModel {
    var weather: Option<WeatherInfo>
    var allPlaces: seq<Place>
    var visiblePlaces: seq<Place>
    var selectedOrder: seq<string>
    var maxSelection: nat
    var routeRequestedAt: int
    var isExpanding: bool
    var hasExpanded: bool
    var centerLat: real
    var centerLng: real
    var categories: Categories
    var currentRadius: nat
    /** `repo != null`. */
    const hasRepo: bool

    /**
     * The selection is duplicate-free and within bounds, the list on show is
     * the full list, and the radius is the initial one until an expansion
     * has run, and 4.5 km at most after it.
     */
    predicate Valid()
      reads this
    {
      && maxSelection == MaxSelection
      && NoDuplicates(selectedOrder)
      && |selectedOrder| <= maxSelection
      && visiblePlaces == allPlaces
      && (currentRadius == InitialRadius || (hasExpanded && currentRadius == ExpandedRadius(InitialRadius)))
    }

    constructor(hasRepo: bool)
      ensures Valid()
      ensures this.hasRepo == hasRepo
      ensures weather == None && allPlaces == [] && selectedOrder == [] && routeRequestedAt == 0
      ensures !isExpanding && !hasExpanded && currentRadius == InitialRadius
      ensures centerLat == 0.0 && centerLng == 0.0 && categories == []
    {
      this.hasRepo := hasRepo;
      weather := None;
      allPlaces := [];
      visiblePlaces := [];
      selectedOrder := [];
      maxSelection := MaxSelection;
      routeRequestedAt := 0;
      isExpanding := false;
      hasExpanded := false;
      centerLat := 0.0;
      centerLng := 0.0;
      categories := [];
      currentRadius := InitialRadius;
    }

    /** The places the selected ids stand for, in selection order. */
    function Selected(): (r: seq<Place>)
      reads this
      ensures |r| <= |selectedOrder|
      ensures forall p <- r :: p in allPlaces && FindById(allPlaces, p.id) == Some(p)
      ensures r == SelectedPlaces(selectedOrder, allPlaces)
    {
      SelectedPlaces(selectedOrder, allPlaces)
    }

    /** `canExpand`. */
    function CanExpand(): bool
      reads this
    {
      !hasExpanded && !isExpanding && hasRepo
    }

    /** `setData`: shows the places and remembers the search context; the selection and the expansion state stay. */
    method SetData(places: seq<Place>, weather: Option<WeatherInfo>, centerLat: real, centerLng: real, categories: Categories)
      requires Valid()
      modifies this
      ensures Valid()
      ensures allPlaces == places && visiblePlaces == places && this.weather == weather
      ensures this.centerLat == centerLat && this.centerLng == centerLng && this.categories == DefaultCategories(categories)
      ensures selectedOrder == old(selectedOrder) && routeRequestedAt == old(routeRequestedAt)
      ensures isExpanding == old(isExpanding) && hasExpanded == old(hasExpanded) && currentRadius == old(currentRadius)
    {
      this.centerLat := centerLat;
      this.centerLng := centerLng;
      this.categories := DefaultCategories(categories);
      allPlaces := places;
      visiblePlaces := places;
      this.weather := weather;
    }

    /** `addPlace`. */
    method AddPlace(place: Place)
      requires Valid()
      modifies this
      ensures Valid()
      ensures selectedOrder == AddToOrder(old(selectedOrder), place.id, maxSelection)
      ensures place.id in selectedOrder
            || (place.id !in old(selectedOrder) && |old(selectedOrder)| == MaxSelection && selectedOrder == old(selectedOrder))
      ensures allPlaces == old(allPlaces) && weather == old(weather) && routeRequestedAt == old(routeRequestedAt)
      ensures isExpanding == old(isExpanding) && hasExpanded == old(hasExpanded) && currentRadius == old(currentRadius)
      ensures centerLat == old(centerLat) && centerLng == old(centerLng) && categories == old(categories)
    {
      selectedOrder := AddToOrder(selectedOrder, place.id, maxSelection);
    }

    /** `removePlace`. */
    method RemovePlace(placeId: string)
      requires Valid()
      modifies this
      ensures Valid()
      ensures selectedOrder == RemoveFromOrder(old(selectedOrder), placeId)
      ensures placeId !in selectedOrder && |selectedOrder| <= |old(selectedOrder)|
      ensures allPlaces == old(allPlaces) && weather == old(weather) && routeRequestedAt == old(routeRequestedAt)
      ensures isExpanding == old(isExpanding) && hasExpanded == old(hasExpanded) && currentRadius == old(currentRadius)
      ensures centerLat == old(centerLat) && centerLng == old(centerLng) && categories == old(categories)
    {
      RemoveFromOrderKeepsDistinct(selectedOrder, placeId);
      selectedOrder := RemoveFromOrder(selectedOrder, placeId);
    }

    /** `clearSelection`. */
    method ClearSelection()
      requires Valid()
      modifies this
      ensures Valid()
      ensures selectedOrder == []
      ensures allPlaces == old(allPlaces) && weather == old(weather) && routeRequestedAt == old(routeRequestedAt)
      ensures isExpanding == old(isExpanding) && hasExpanded == old(hasExpanded) && currentRadius == old(currentRadius)
      ensures centerLat == old(centerLat) && centerLng == old(centerLng) && categories == old(categories)
    {
      selectedOrder := [];
    }

    /** `requestRoute`: stamps the request with the clock reading `now`. */
    method RequestRoute(now: int)
      requires Valid()
      modifies this
      ensures Valid()
      ensures routeRequestedAt == now
      ensures selectedOrder == old(selectedOrder) && allPlaces == old(allPlaces) && weather == old(weather)
      ensures isExpanding == old(isExpanding) && hasExpanded == old(hasExpanded) && currentRadius == old(currentRadius)
      ensures centerLat == old(centerLat) && centerLng == old(centerLng) && categories == old(categories)
    {
      routeRequestedAt := now;
    }

    /** The synchronous guard of `expandSearch`: it goes ahead only when `canExpand` holds, and marks the work as under way. */
    method BeginExpand() returns (started: bool)
      requires Valid()
      modifies this
      ensures Valid()
      ensures started <==> old(CanExpand())
      ensures !started ==> unchanged(this)
      ensures started ==> isExpanding && !hasExpanded
      ensures weather == old(weather) && routeRequestedAt == old(routeRequestedAt)
      ensures selectedOrder == old(selectedOrder) && allPlaces == old(allPlaces) && currentRadius == old(currentRadius)
      ensures centerLat == old(centerLat) && centerLng == old(centerLng) && categories == old(categories)
    {
      if !CanExpand() {
        return false;
      }
      isExpanding := true;
      started := true;
    }

    /**
     * The launched part of `expandSearch`: one search at the grown radius
     * that excludes every place on show. New places are appended and the
     * radius grows; an empty answer only ends the expansion; a failure only
     * drops the in-progress mark, so the user may try again.
     */
    method FinishExpand(search: SearchRequest -> Outcome<seq<Place>>)
      requires Valid() && isExpanding && !hasExpanded
      modifies this
      ensures Valid()
      ensures !isExpanding
      ensures var found := ExpandSearch(old(centerLat), old(centerLng), old(categories), ExpandedRadius(old(currentRadius)),
                                        Ids(old(allPlaces)), search);
        && (found.Failure? ==> allPlaces == old(allPlaces) && !hasExpanded && currentRadius == old(currentRadius))
        && (found.Success? && found.value == [] ==>
              allPlaces == old(allPlaces) && hasExpanded && currentRadius == old(currentRadius))
        && (found.Success? && found.value != [] ==>
              && allPlaces == old(allPlaces) + found.value
              && hasExpanded && currentRadius == ExpandedRadius(old(currentRadius)))
      ensures selectedOrder == old(selectedOrder) && weather == old(weather) && routeRequestedAt == old(routeRequestedAt)
      ensures centerLat == old(centerLat) && centerLng == old(centerLng) && categories == old(categories)
    {
      var newRadius := ExpandedRadius(currentRadius);
      var currentIds := Ids(allPlaces);
      var found := ExpandSearch(centerLat, centerLng, categories, newRadius, currentIds, search);
      if found.Failure? {
        isExpanding := false;
        return;
      }
      var newPlaces := found.value;
      if newPlaces != [] {
        var merged := allPlaces + newPlaces;
        allPlaces := merged;
        visiblePlaces := merged;
        hasExpanded := true;
        isExpanding := false;
        currentRadius := newRadius;
      } else {
        isExpanding := false;
        hasExpanded := true;
      }
    }

    /** `expandSearch` run to completion. */
    method Expand(search: SearchRequest -> Outcome<seq<Place>>) returns (started: bool)
      requires Valid()
      modifies this
      ensures Valid()
      ensures started <==> old(CanExpand())
      ensures !started ==> unchanged(this)
      ensures started ==> !isExpanding && |allPlaces| >= |old(allPlaces)| && old(allPlaces) <= allPlaces
      ensures started ==>
        var f := search(SearchRequest(old(centerLat), old(centerLng), DefaultCategories(old(categories)), ExpandedRadius(old(currentRadius)), 15));
        DistinctIds(old(allPlaces)) && f.Success? && DistinctIds(f.value) ==> DistinctIds(allPlaces)
      ensures started ==>
        var found := ExpandSearch(old(centerLat), old(centerLng), old(categories), ExpandedRadius(old(currentRadius)),
                                  Ids(old(allPlaces)), search);
        && (found.Failure? ==> allPlaces == old(allPlaces) && !hasExpanded && currentRadius == old(currentRadius))
        && (found.Success? && found.value == [] ==>
              allPlaces == old(allPlaces) && hasExpanded && currentRadius == old(currentRadius))
        && (found.Success? && found.value != [] ==>
              && allPlaces == old(allPlaces) + found.value
              && hasExpanded && currentRadius == ExpandedRadius(old(currentRadius)))
      ensures selectedOrder == old(selectedOrder) && weather == old(weather) && routeRequestedAt == old(routeRequestedAt)
      ensures centerLat == old(centerLat) && centerLng == old(centerLng) && categories == old(categories)
    {
      started := BeginExpand();
      if !started {
        return;
      }
      ghost var before := allPlaces;
      ghost var found := ExpandSearch(centerLat, centerLng, categories, ExpandedRadius(currentRadius), Ids(allPlaces), search);
      FinishExpand(search);
      if found.Success? {
        ExpandSearchIsNew(old(centerLat), old(centerLng), old(categories), ExpandedRadius(old(currentRadius)), Ids(before), search);
        if found.value != [] && DistinctIds(before)
           && DistinctIds(search(SearchRequest(old(centerLat), old(centerLng), DefaultCategories(old(categories)), ExpandedRadius(old(currentRadius)), 15)).value) {
          AppendNewKeepsDistinct(before, found.value);
        }
      }
    }
  }
}
