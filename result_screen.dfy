/**
 * The state logic of the result screen (`ResultScreen`): the ordered
 * selection of place ids the user builds a walking route from, the route
 * shown on the map and when it is dropped, the style of each place's
 * marker, and the two small text helpers (`formatDuration`,
 * `buildNaverQuery`).
 */
module ResultView {
  import opened Wrappers
  import opened Text
  import opened Places
  import opened ResultUi

  /** One leg of a walking route; only its end points matter here. */
  datatype RouteSegment = RouteSegment(from: LatLng, to: LatLng)

  // ----- list operations on the selection -----

  /** `MutableList.remove(x)`: drops the first occurrence only. */
  function RemoveFirst(s: seq<string>, x: string): (r: seq<string>)
    ensures x !in s ==> r == s
    ensures x in s ==> |r| == |s| - 1
    ensures x in s ==> r == s[..IndexOfFirst(s, x)] + s[IndexOfFirst(s, x) + 1..]
  {
    if s == [] then []
    else if s[0] == x then s[1..]
    else
      var t := s[1..];
      var rest := RemoveFirst(t, x);
      if x in s then
        DropAtCons(s, IndexOfFirst(s, x));
        [s[0]] + rest
      else
        [s[0]] + rest
  }

  /** Dropping a position past the head keeps the head in front. */
  lemma DropAtCons(s: seq<string>, k: nat)
    requires 0 < k < |s|
    ensures s[..k] + s[k + 1..] == [s[0]] + (s[1..][..k - 1] + s[1..][k..])
  {
    assert s[..k] == [s[0]] + s[1..][..k - 1];
    assert s[k + 1..] == s[1..][k..];
  }

  /** Removing the first occurrence takes exactly one copy of `x` away. */
  lemma {:induction false} RemoveFirstCount(s: seq<string>, x: string)
    requires x in s
    ensures multiset(RemoveFirst(s, x)) == multiset(s) - multiset{x}
  {
    assert s == [s[0]] + s[1..];
    if s[0] != x {
      RemoveFirstCount(s[1..], x);
    }
  }

  lemma NoDuplicatesByMultiset(s: seq<string>)
    ensures NoDuplicates(s) <==> forall x <- s :: multiset(s)[x] == 1
  {
    if !NoDuplicates(s) {
      var i, j :| 0 <= i < j < |s| && s[i] == s[j];
      RepeatCountsTwice(s, i, j);
    } else {
      forall x <- s ensures multiset(s)[x] == 1 {
        var i :| 0 <= i < |s| && s[i] == x;
        UniqueCountsOnce(s, i);
      }
    }
  }

  /** An element at two positions is counted at least twice. */
  lemma RepeatCountsTwice(s: seq<string>, i: nat, j: nat)
    requires i < j < |s| && s[i] == s[j]
    ensures multiset(s)[s[i]] >= 2
  {
    var x := s[i];
    assert s == s[..i] + [x] + s[i + 1..j] + [x] + s[j + 1..];
  }

  /** In a duplicate-free list every element is counted once. */
  lemma UniqueCountsOnce(s: seq<string>, i: nat)
    requires NoDuplicates(s) && i < |s|
    ensures multiset(s)[s[i]] == 1
  {
    var x := s[i];
    assert s == s[..i] + [x] + s[i + 1..];
    assert x !in s[..i] by {
      forall k | 0 <= k < i ensures s[k] != x { }
    }
    assert x !in s[i + 1..] by {
      forall k | i + 1 <= k < |s| ensures s[k] != x { }
    }
  }

  /** Two lists with the same elements, counted, are duplicate-free together or not at all. */
  lemma SameMultisetNoDuplicates(a: seq<string>, b: seq<string>)
    requires multiset(a) == multiset(b)
    ensures NoDuplicates(a) <==> NoDuplicates(b)
  {
    NoDuplicatesByMultiset(a);
    NoDuplicatesByMultiset(b);
    assert forall x :: x in a <==> x in multiset(a);
    assert forall x :: x in b <==> x in multiset(b);
  }

  /** `toggleSelect`: removes a selected id, appends an unselected one. */
  function ToggleSelect(order: seq<string>, id: string): (r: seq<string>)
    ensures id in order ==> multiset(r) == multiset(order) - multiset{id}
    ensures id !in order ==> r == order + [id]
    ensures NoDuplicates(order) ==> NoDuplicates(r) && (id in r <==> id !in order)
  {
    if id in order then
      var r := RemoveFirst(order, id);
      RemoveFirstCount(order, id);
      NoDuplicatesByMultiset(order);
      NoDuplicatesByMultiset(r);
      assert forall x :: x in r <==> x in multiset(r);
      r
    else
      NoDuplicatesByMultiset(order);
      NoDuplicatesByMultiset(order + [id]);
      order + [id]
  }

  /**
   * Toggling twice restores a selection the id was absent from; a selected
   * id (on a duplicate-free list) comes back at the end.
   */
  lemma ToggleSelectTwice(order: seq<string>, id: string)
    ensures id !in order ==> ToggleSelect(ToggleSelect(order, id), id) == order
    ensures id in order && NoDuplicates(order) ==> ToggleSelect(ToggleSelect(order, id), id) == RemoveFirst(order, id) + [id]
  {
    if id !in order {
      RemoveFirstLast(order, id);
    }
  }

  lemma {:induction false} RemoveFirstLast(s: seq<string>, x: string)
    requires x !in s
    ensures RemoveFirst(s + [x], x) == s
  {
    var sx := s + [x];
    if s == [] {
      assert sx == [x] && sx[1..] == [];
    } else {
      assert sx[0] == s[0] != x && sx[1..] == s[1..] + [x];
      assert x !in s[1..];
      RemoveFirstLast(s[1..], x);
      assert RemoveFirst(sx, x) == [s[0]] + RemoveFirst(s[1..] + [x], x);
      assert s == [s[0]] + s[1..];
    }
  }

  /** The drag handler: the id at `fromIndex` is taken out and put back at `toIndex`. */
  function MoveItem(s: seq<string>, fromIndex: nat, toIndex: nat): (r: seq<string>)
    requires fromIndex < |s| && toIndex < |s|
    ensures |r| == |s| && r[toIndex] == s[fromIndex]
    ensures r[..toIndex] + r[toIndex + 1..] == s[..fromIndex] + s[fromIndex + 1..]
    ensures multiset(r) == multiset(s)
  {
    var rest := s[..fromIndex] + s[fromIndex + 1..];
    TakeOutMultiset(s, fromIndex);
    PutBack(rest, toIndex, s[fromIndex]);
    rest[..toIndex] + [s[fromIndex]] + rest[toIndex..]
  }

  /** Taking one element out of a list leaves the rest of its multiset. */
  lemma TakeOutMultiset(s: seq<string>, i: nat)
    requires i < |s|
    ensures multiset(s[..i] + s[i + 1..]) + multiset{s[i]} == multiset(s)
  {
    assert s == s[..i] + [s[i]] + s[i + 1..];
  }

  /** Inserting `x` at `k` adds it to the multiset, and dropping position `k` gives the list back. */
  lemma PutBack(rest: seq<string>, k: nat, x: string)
    requires k <= |rest|
    ensures var r := rest[..k] + [x] + rest[k..];
      && |r| == |rest| + 1 && r[k] == x
      && r[..k] + r[k + 1..] == rest
      && multiset(r) == multiset(rest) + multiset{x}
  {
    var r := rest[..k] + [x] + rest[k..];
    assert r[..k] == rest[..k];
    assert r[k + 1..] == rest[k..];
    assert rest == rest[..k] + rest[k..];
  }

  /** Dragging back undoes a drag. */
  lemma MoveItemBack(s: seq<string>, fromIndex: nat, toIndex: nat)
    requires fromIndex < |s| && toIndex < |s|
    ensures MoveItem(MoveItem(s, fromIndex, toIndex), toIndex, fromIndex) == s
  {
    var r := MoveItem(s, fromIndex, toIndex);
    SameAfterDrop(MoveItem(r, toIndex, fromIndex), s, fromIndex);
  }

  /** Two lists of one length that agree at `k` and agree once position `k` is dropped are equal. */
  lemma SameAfterDrop(a: seq<string>, b: seq<string>, k: nat)
    requires |a| == |b| && k < |a| && a[k] == b[k]
    requires a[..k] + a[k + 1..] == b[..k] + b[k + 1..]
    ensures a == b
  {
    var rest := a[..k] + a[k + 1..];
    forall i | 0 <= i < |a|
      ensures a[i] == b[i]
    {
      if i < k {
        assert a[i] == rest[i] == b[i];
      } else if i > k {
        assert a[i] == rest[i - 1] == b[i];
      }
    }
  }

  /** A drag keeps a duplicate-free selection duplicate-free. */
  lemma MoveItemKeepsDistinct(s: seq<string>, fromIndex: nat, toIndex: nat)
    requires fromIndex < |s| && toIndex < |s|
    ensures NoDuplicates(s) ==> NoDuplicates(MoveItem(s, fromIndex, toIndex))
  {
    SameMultisetNoDuplicates(s, MoveItem(s, fromIndex, toIndex));
  }

  // ----- markers and segments -----

  /** How a place's map marker is drawn. */
  datatype MarkerStyle = SelectedPin(number: string) | TopPickPin | NormalPin

  /** `indexOfFirst { it == id }`, or -1. */
  function IndexOfFirst(s: seq<string>, id: string): (k: int)
    ensures -1 <= k < |s|
    ensures k == -1 <==> id !in s
    ensures k >= 0 ==> s[k] == id && id !in s[..k]
  {
    if s == [] then -1
    else if s[0] == id then 0
    else
      var k := IndexOfFirst(s[1..], id);
      if k == -1 then -1
      else
        assert s[..k + 1] == [s[0]] + s[1..][..k];
        k + 1
  }

  /** The marker of `place`: selected (with its 1-based position) before top pick before plain. */
  function MarkerFor(place: Place, order: seq<string>, topIds: set<string>): (m: MarkerStyle)
    ensures m.SelectedPin? <==> place.id in order
    ensures m.TopPickPin? <==> place.id !in order && place.id in topIds
  {
    var selectedIndex := IndexOfFirst(order, place.id);
    if selectedIndex != -1 then SelectedPin(NatToString(selectedIndex + 1))
    else if place.id in topIds then TopPickPin
    else NormalPin
  }

  /** A selected marker's label reads back as the 1-based position of the place's first entry in the selection. */
  lemma MarkerLabelIsPosition(place: Place, order: seq<string>, topIds: set<string>)
    requires place.id in order
    ensures var n := ReadNat(MarkerFor(place, order, topIds).number, 0).0;
      && 1 <= n <= |order| && order[n - 1] == place.id && place.id !in order[..n - 1]
  {
    var k := IndexOfFirst(order, place.id);
    ReadNatToString(k + 1, []);
    assert NatToString(k + 1) + [] == NatToString(k + 1);
  }

  /** The places whose markers are drawn: all of them while the list is open, only the selected ones otherwise. */
  function PlacesToShow(expandedPlacesList: bool, places: seq<Place>, order: seq<string>): seq<Place> {
    if expandedPlacesList then places else SelectedPlaces(order, places)
  }

  /** With the list folded, every drawn marker is a numbered selected pin. */
  lemma FoldedListShowsOnlySelected(places: seq<Place>, order: seq<string>, topIds: set<string>)
    ensures forall p <- PlacesToShow(false, places, order) :: MarkerFor(p, order, topIds).SelectedPin?
  {
  }

  /** Tapping a segment: the highlighted one goes dark, any other one lights up. */
  function TapSegment(highlighted: Option<nat>, index: nat): (r: Option<nat>)
    ensures r == Some(index) <==> highlighted != Some(index)
    ensures r.None? <==> highlighted == Some(index)
  {
    if highlighted == Some(index) then None else Some(index)
  }

  /** Two taps on the same segment restore the highlight when it was on that segment or on none. */
  lemma TapSegmentTwice(highlighted: Option<nat>, index: nat)
    requires highlighted == None || highlighted == Some(index)
    ensures TapSegment(TapSegment(highlighted, index), index) == highlighted
  {
  }

  // ----- text helpers -----

  /** `formatDuration` for a non-negative number of seconds: "m분 r초", "m분" or "r초". */
  function FormatDuration(seconds: nat): (r: string)
    ensures r != []
    ensures r[|r| - 1] == '초' <==> seconds < 60 || seconds % 60 > 0
    ensures r[|r| - 1] == '분' <==> seconds >= 60 && seconds % 60 == 0
  {
    var minutes := seconds / 60;
    var secs := seconds % 60;
    if minutes > 0 then
      if secs > 0 then NatToString(minutes) + "분 " + NatToString(secs) + "초" else NatToString(minutes) + "분"
    else
      NatToString(secs) + "초"
  }

  /** Reads a duration written by `FormatDuration` back into seconds. */
  function ParseDuration(s: string): Option<nat> {
    ParseUnits(ReadNat(s, 0).0, ReadNat(s, 0).1)
  }

  /** What follows the leading number `m`: "초", "분", or "분 " and a number of seconds then "초". */
  function ParseUnits(m: nat, rest: string): Option<nat> {
    if rest == "초" then Some(m)
    else if rest == "분" then Some(m * 60)
    else if |rest| >= 2 && rest[..2] == "분 " && ReadNat(rest[2..], 0).1 == "초" then Some(m * 60 + ReadNat(rest[2..], 0).0)
    else None
  }

  /** The rendering loses nothing: reading it back gives the number of seconds. */
  lemma FormatDurationRoundTrip(seconds: nat)
    ensures ParseDuration(FormatDuration(seconds)) == Some(seconds)
  {
    var minutes := seconds / 60;
    var secs := seconds % 60;
    assert seconds == minutes * 60 + secs;
    var text := FormatDuration(seconds);
    if minutes > 0 && secs > 0 {
      assert text == NatToString(minutes) + "분 " + NatToString(secs) + "초";
      MinutesAndSeconds(minutes, secs);
    } else if minutes > 0 {
      assert text == NatToString(minutes) + "분";
      ReadNatToString(minutes, "분");
      assert ParseDuration(text) == ParseUnits(minutes, "분");
    } else {
      assert text == NatToString(secs) + "초";
      ReadNatToString(secs, "초");
      assert ParseDuration(text) == ParseUnits(secs, "초");
    }
  }

  lemma MinutesAndSeconds(minutes: nat, secs: nat)
    ensures ParseDuration(NatToString(minutes) + "분 " + NatToString(secs) + "초") == Some(minutes * 60 + secs)
  {
    var tail := "분 " + NatToString(secs) + "초";
    assert NatToString(minutes) + "분 " + NatToString(secs) + "초" == NatToString(minutes) + tail;
    ReadNatToString(minutes, tail);
    SecondsAfterMinutes(minutes, secs);
  }

  /** After the minutes, "분 ", a number of seconds and "초" add those seconds. */
  lemma SecondsAfterMinutes(minutes: nat, secs: nat)
    ensures ParseUnits(minutes, "분 " + NatToString(secs) + "초") == Some(minutes * 60 + secs)
  {
    var tail := "분 " + NatToString(secs) + "초";
    assert |tail| >= 4;
    assert tail[..2] == "분 ";
    assert tail[2..] == NatToString(secs) + "초";
    ReadNatToString(secs, "초");
  }

  /** `buildNaverQuery`: the region hint (if not blank), the name, and the address (if not blank), joined by spaces. */
  function BuildNaverQuery(place: Place, regionHint: Option<string>): (q: string)
    ensures q == (if regionHint.Some? && !IsBlank(regionHint.value) then regionHint.value + " " else "")
                 + place.name
                 + (if place.address.Some? && !IsBlank(place.address.value) then " " + place.address.value else "")
    ensures regionHint.None? && (place.address.None? || IsBlank(place.address.value)) ==> q == place.name
  {
    var parts := NaverQueryParts(place, regionHint);
    NaverQueryJoin(place, regionHint);
    Join(parts, ' ')
  }

  /** The name joined with the address when there is one. */
  lemma NameAndAddressJoin(name: string, address: Option<string>, hasAddress: bool)
    requires hasAddress ==> address.Some?
    ensures Join(if hasAddress then [name, address.value] else [name], ' ')
         == name + (if hasAddress then " " + address.value else "")
  {
    if hasAddress {
      JoinCons(name, [address.value], ' ');
      assert [name] + [address.value] == [name, address.value];
    }
  }

  /** Joining the optional hint, the name and the optional address puts one space between neighbours. */
  lemma NaverQueryJoin(place: Place, regionHint: Option<string>)
    ensures Join(NaverQueryParts(place, regionHint), ' ')
         == (if regionHint.Some? && !IsBlank(regionHint.value) then regionHint.value + " " else "")
            + place.name
            + (if place.address.Some? && !IsBlank(place.address.value) then " " + place.address.value else "")
  {
    var hasHint := regionHint.Some? && !IsBlank(regionHint.value);
    var hasAddress := place.address.Some? && !IsBlank(place.address.value);
    var name := place.name;
    var tail := if hasAddress then [name, place.address.value] else [name];
    var tailText := name + (if hasAddress then " " + place.address.value else "");
    NameAndAddressJoin(name, place.address, hasAddress);
    var hintText := if hasHint then regionHint.value + " " else "";
    var parts := NaverQueryParts(place, regionHint);
    if hasHint {
      assert parts == [regionHint.value] + tail;
      JoinCons(regionHint.value, tail, ' ');
      assert hintText + tailText == regionHint.value + [' '] + tailText;
    } else {
      assert parts == tail;
    }
    assert Join(parts, ' ') == hintText + tailText;
    assert hintText + tailText == hintText + name + (if hasAddress then " " + place.address.value else "");
  }

  function NaverQueryParts(place: Place, regionHint: Option<string>): seq<string> {
    (if regionHint.Some? && !IsBlank(regionHint.value) then [regionHint.value] else [])
    + [place.name]
    + (if place.address.Some? && !IsBlank(place.address.value) then [place.address.value] else [])
  }

  /**
   * When the hint, the name and the address hold no space, the query splits
   * back into exactly the parts it was built from, in priority order.
   */
  lemma NaverQuerySplits(place: Place, regionHint: Option<string>)
    requires regionHint.Some? ==> ' ' !in regionHint.value
    requires ' ' !in place.name
    requires place.address.Some? ==> ' ' !in place.address.value
    ensures Split(BuildNaverQuery(place, regionHint), {' '}) == NaverQueryParts(place, regionHint)
    ensures var parts := Split(BuildNaverQuery(place, regionHint), {' '});
      && (regionHint.Some? && !IsBlank(regionHint.value) ==> parts[0] == regionHint.value)
      && place.name in parts
      && (place.address.Some? && !IsBlank(place.address.value) ==> parts[|parts| - 1] == place.address.value)
  {
    SplitJoin(NaverQueryParts(place, regionHint), ' ');
  }

  // ----- the screen's mutable state -----

  /** The `remember`ed state of `ResultScreen` that the handlers change. */
  class ResultScreenState {
    var selectedOrder: seq<string>
    var routeSegments: seq<RouteSegment>
    var showRealRoute: bool
    var isLoadingRoute: bool
    var highlightedSegmentIndex: Option<nat>
    var expandedPlacesList: bool

    /** A fresh screen; the places list starts open unless a saved route is being shown. */
    constructor(fromSavedRoute: bool)
      ensures selectedOrder == [] && routeSegments == [] && !showRealRoute && !isLoadingRoute
      ensures highlightedSegmentIndex == None && expandedPlacesList == !fromSavedRoute
    {
      selectedOrder := [];
      routeSegments := [];
      showRealRoute := false;
      isLoadingRoute := false;
      highlightedSegmentIndex := None;
      expandedPlacesList := !fromSavedRoute;
    }

    /** The saved-route effect: the route's places become the selection and its legs are shown. */
    method LoadSavedRoute(placeIds: seq<string>, segments: seq<RouteSegment>)
      modifies this
      ensures selectedOrder == placeIds && routeSegments == segments && showRealRoute
      ensures isLoadingRoute == old(isLoadingRoute) && highlightedSegmentIndex == old(highlightedSegmentIndex)
      ensures expandedPlacesList == old(expandedPlacesList)
    {
      selectedOrder := [];
      selectedOrder := selectedOrder + placeIds;
      routeSegments := segments;
      showRealRoute := true;
    }

    /** `toggleSelect`; the route on show is left alone. */
    method Toggle(place: Place)
      modifies this
      ensures selectedOrder == ToggleSelect(old(selectedOrder), place.id)
      ensures NoDuplicates(old(selectedOrder)) ==> NoDuplicates(selectedOrder) && (place.id in selectedOrder <==> place.id !in old(selectedOrder))
      ensures routeSegments == old(routeSegments) && showRealRoute == old(showRealRoute)
      ensures isLoadingRoute == old(isLoadingRoute) && highlightedSegmentIndex == old(highlightedSegmentIndex)
      ensures expandedPlacesList == old(expandedPlacesList)
    {
      if place.id in selectedOrder {
        selectedOrder := RemoveFirst(selectedOrder, place.id);
      } else {
        selectedOrder := selectedOrder + [place.id];
      }
    }

    /** `onReorder`: the drag moves one id; a route on show no longer matches and is dropped. */
    method Reorder(fromIndex: nat, toIndex: nat)
      requires fromIndex < |selectedOrder| && toIndex < |selectedOrder|
      modifies this
      ensures selectedOrder == MoveItem(old(selectedOrder), fromIndex, toIndex)
      ensures multiset(selectedOrder) == multiset(old(selectedOrder))
      ensures NoDuplicates(old(selectedOrder)) ==> NoDuplicates(selectedOrder)
      ensures old(showRealRoute) ==> routeSegments == [] && !showRealRoute
      ensures !old(showRealRoute) ==> routeSegments == old(routeSegments) && !showRealRoute
      ensures isLoadingRoute == old(isLoadingRoute) && highlightedSegmentIndex == old(highlightedSegmentIndex)
      ensures expandedPlacesList == old(expandedPlacesList)
    {
      var fromId := selectedOrder[fromIndex];
      var rest := selectedOrder[..fromIndex] + selectedOrder[fromIndex + 1..];
      selectedOrder := rest[..toIndex] + [fromId] + rest[toIndex..];
      MoveItemKeepsDistinct(old(selectedOrder), fromIndex, toIndex);
      if showRealRoute {
        routeSegments := [];
        showRealRoute := false;
      }
    }

    /** `onRemove`: drops the id; a shown route with fewer than two stops left is dropped too. */
    method Remove(place: Place)
      modifies this
      ensures selectedOrder == RemoveFirst(old(selectedOrder), place.id)
      ensures NoDuplicates(old(selectedOrder)) ==> place.id !in selectedOrder
      ensures old(showRealRoute) && |selectedOrder| < 2 ==> routeSegments == [] && !showRealRoute
      ensures !(old(showRealRoute) && |selectedOrder| < 2) ==>
        routeSegments == old(routeSegments) && showRealRoute == old(showRealRoute)
      ensures isLoadingRoute == old(isLoadingRoute) && highlightedSegmentIndex == old(highlightedSegmentIndex)
      ensures expandedPlacesList == old(expandedPlacesList)
    {
      if NoDuplicates(selectedOrder) && place.id in selectedOrder {
        NoDuplicatesByMultiset(selectedOrder);
        RemoveFirstCount(selectedOrder, place.id);
        assert multiset(RemoveFirst(selectedOrder, place.id))[place.id] == 0;
      }
      selectedOrder := RemoveFirst(selectedOrder, place.id);
      if showRealRoute && |selectedOrder| < 2 {
        routeSegments := [];
        showRealRoute := false;
      }
    }

    /** "선택 초기화": no selection and no route. */
    method ClearAll()
      modifies this
      ensures selectedOrder == [] && routeSegments == [] && !showRealRoute
      ensures isLoadingRoute == old(isLoadingRoute) && highlightedSegmentIndex == old(highlightedSegmentIndex)
      ensures expandedPlacesList == old(expandedPlacesList)
    {
      selectedOrder := [];
      routeSegments := [];
      showRealRoute := false;
    }

    /**
     * The route button and `buildRealRoute`'s guard: the button needs two
     * selected ids and no route in progress, and the handler a ready map and
     * two selected places that are on show. Starting hides the old route.
     */
    method BeginRoute(mapReady: bool, places: seq<Place>) returns (started: bool)
      modifies this
      ensures started <==>
        |old(selectedOrder)| >= 2 && !old(isLoadingRoute) && mapReady && |SelectedPlaces(old(selectedOrder), places)| >= 2
      ensures !started ==> unchanged(this)
      ensures started ==> isLoadingRoute && !showRealRoute && routeSegments == old(routeSegments)
      ensures selectedOrder == old(selectedOrder) && highlightedSegmentIndex == old(highlightedSegmentIndex)
      ensures expandedPlacesList == old(expandedPlacesList)
    {
      if |selectedOrder| < 2 || isLoadingRoute || !mapReady || |SelectedPlaces(selectedOrder, places)| < 2 {
        return false;
      }
      isLoadingRoute := true;
      showRealRoute := false;
      started := true;
    }

    /** The route service's answer: non-empty legs are shown; an empty answer or a failure shows nothing new. */
    method FinishRoute(answer: Outcome<seq<RouteSegment>>)
      modifies this
      ensures !isLoadingRoute
      ensures answer.Success? && answer.value != [] ==> routeSegments == answer.value && showRealRoute
      ensures !(answer.Success? && answer.value != []) ==>
        routeSegments == old(routeSegments) && showRealRoute == old(showRealRoute)
      ensures selectedOrder == old(selectedOrder) && highlightedSegmentIndex == old(highlightedSegmentIndex)
      ensures expandedPlacesList == old(expandedPlacesList)
    {
      if answer.Success? && answer.value != [] {
        routeSegments := answer.value;
        showRealRoute := true;
      }
      isLoadingRoute := false;
    }

    /** `onSegmentClick`. */
    method ClickSegment(index: nat)
      modifies this
      ensures highlightedSegmentIndex == TapSegment(old(highlightedSegmentIndex), index)
      ensures selectedOrder == old(selectedOrder) && routeSegments == old(routeSegments)
      ensures showRealRoute == old(showRealRoute) && isLoadingRoute == old(isLoadingRoute)
      ensures expandedPlacesList == old(expandedPlacesList)
    {
      highlightedSegmentIndex := if highlightedSegmentIndex == Some(index) then None else Some(index);
    }

    /** `onToggleExpand` of the places list. */
    method ToggleExpandedList()
      modifies this
      ensures expandedPlacesList == !old(expandedPlacesList)
      ensures selectedOrder == old(selectedOrder) && routeSegments == old(routeSegments)
      ensures showRealRoute == old(showRealRoute) && isLoadingRoute == old(isLoadingRoute)
      ensures highlightedSegmentIndex == old(highlightedSegmentIndex)
    {
      expandedPlacesList := !expandedPlacesList;
    }
  }
}
