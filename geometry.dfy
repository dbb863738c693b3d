/**
 * Point-in-polygon by ray casting and the capped grid walk over a polygon's
 * bounding box (`RealTravelRepository.isPointInPolygon` and step 2 of
 * `searchWithinPolygon`). Coordinates are exact reals: IEEE rounding is not
 * modelled, and with exact arithmetic the crossing test provably never
 * divides by zero.
 */
module Geometry {
  import opened Places

  // ----- ray casting -----

  /**
   * The crossing test for the edge from `pj` to `pi`: the edge straddles the
   * point's latitude and the point lies west of the edge at that latitude.
   * The division is reached only when the two latitudes differ.
   */
  predicate Crosses(lat: real, lng: real, pi: LatLng, pj: LatLng) {
    ((pi.lat > lat) != (pj.lat > lat))
    && lng < EdgeLngAt(lat, pi, pj)
  }

  /** The longitude at which the line through `pi` and `pj` reaches latitude `lat`. */
  function EdgeLngAt(lat: real, pi: LatLng, pj: LatLng): real
    requires pi.lat != pj.lat
  {
    (pj.lng - pi.lng) * (lat - pi.lat) / (pj.lat - pi.lat) + pi.lng
  }

  /** Index of the vertex paired with vertex `i`: its predecessor, the last vertex for `i = 0`. */
  function Pred(i: nat, n: nat): nat
    requires i < n
  {
    if i == 0 then n - 1 else i - 1
  }

  predicate EdgeCrosses(lat: real, lng: real, poly: seq<LatLng>, i: nat)
    requires i < |poly|
  {
    Crosses(lat, lng, poly[i], poly[Pred(i, |poly|)])
  }

  /** How many of the edges ending at vertices `0 .. k-1` the ray crosses. */
  function CrossingCount(lat: real, lng: real, poly: seq<LatLng>, k: nat): nat
    requires k <= |poly|
  {
    if k == 0 then 0
    else CrossingCount(lat, lng, poly, k - 1) + (if EdgeCrosses(lat, lng, poly, k - 1) then 1 else 0)
  }

  /** The ray-casting answer: at least three vertices and an odd number of crossings. */
  predicate InPolygon(lat: real, lng: real, poly: seq<LatLng>) {
    |poly| >= 3 && CrossingCount(lat, lng, poly, |poly|) % 2 == 1
  }

  /** `isPointInPolygon`: toggles `inside` once per crossed edge, pairing each vertex with `j`, its predecessor. */
  method IsPointInPolygon(lat: real, lng: real, polygon: seq<LatLng>) returns (inside: bool)
    ensures inside == InPolygon(lat, lng, polygon)
    ensures |polygon| < 3 ==> !inside
  {
    if |polygon| < 3 {
      return false;
    }
    inside := false;
    var j := |polygon| - 1;
    for i := 0 to |polygon|
      invariant j == if i == 0 then |polygon| - 1 else i - 1
      invariant inside == (CrossingCount(lat, lng, polygon, i) % 2 == 1)
    {
      var yi := polygon[i].lat;
      var yj := polygon[j].lat;
      assert polygon[j] == polygon[Pred(i, |polygon|)];
      var intersect := ((yi > lat) != (yj > lat)) && (lng < EdgeLngAt(lat, polygon[i], polygon[j]));
      assert intersect == Crosses(lat, lng, polygon[i], polygon[j]);
      if intersect {
        inside := !inside;
      }
      j := i;
    }
  }

  /** A point north of, or level with, every vertex crosses no edge, so it is outside. */
  lemma {:induction false} NorthOfAllIsOutside(lat: real, lng: real, poly: seq<LatLng>, k: nat)
    requires k <= |poly|
    requires forall v <- poly :: v.lat <= lat
    ensures CrossingCount(lat, lng, poly, k) == 0
    ensures k == |poly| ==> !InPolygon(lat, lng, poly)
  {
    if k > 0 {
      NorthOfAllIsOutside(lat, lng, poly, k - 1);
      assert poly[k - 1] in poly && poly[Pred(k - 1, |poly|)] in poly;
    }
  }

  /** A point strictly south of every vertex crosses no edge, so it is outside. */
  lemma {:induction false} SouthOfAllIsOutside(lat: real, lng: real, poly: seq<LatLng>, k: nat)
    requires k <= |poly|
    requires forall v <- poly :: v.lat > lat
    ensures CrossingCount(lat, lng, poly, k) == 0
    ensures k == |poly| ==> !InPolygon(lat, lng, poly)
  {
    if k > 0 {
      SouthOfAllIsOutside(lat, lng, poly, k - 1);
      assert poly[k - 1] in poly && poly[Pred(k - 1, |poly|)] in poly;
    }
  }

  lemma EastOfEdgeNoCrossing(lat: real, lng: real, pi: LatLng, pj: LatLng)
    requires lng >= pi.lng && lng >= pj.lng
    ensures !Crosses(lat, lng, pi, pj)
  {
    if (pi.lat > lat) != (pj.lat > lat) {
      var t := (lat - pi.lat) / (pj.lat - pi.lat);
      RatioInUnit(lat - pi.lat, pj.lat - pi.lat);
      MulDiv(pj.lng - pi.lng, lat - pi.lat, pj.lat - pi.lat);
      Between(pi.lng, pj.lng, t);
    }
  }

  /** A difference within the same-signed total divides into `[0, 1]`. */
  lemma RatioInUnit(a: real, d: real)
    requires (0.0 <= a < d) || (d <= a < 0.0)
    ensures 0.0 <= a / d <= 1.0
  {
    if d > 0.0 {
      PositiveRatio(a, d);
    } else if a == d {
      assert a / d == 1.0;
    } else {
      PositiveRatio(-a, -d);
      assert (-a) / (-d) * d == a;
      assert (-a) / (-d) == a / d;
    }
  }

  lemma PositiveRatio(a: real, d: real)
    requires 0.0 <= a < d
    ensures 0.0 <= a / d <= 1.0
  {
    assert a / d * d == a;
  }

  lemma MulDiv(a: real, b: real, d: real)
    requires d != 0.0
    ensures a * b / d == a * (b / d)
  {
  }

  /** Interpolating between two longitudes never passes the larger one. */
  lemma Between(x0: real, x1: real, t: real)
    requires 0.0 <= t <= 1.0
    ensures (x1 - x0) * t + x0 <= if x0 >= x1 then x0 else x1
  {
    var d := x1 - x0;
    if d >= 0.0 {
      MulNonNegative(d, 1.0 - t);
      assert d * (1.0 - t) == d - d * t;
    } else {
      MulNonNegative(-d, t);
      assert (-d) * t == -(d * t);
    }
  }

  lemma MulNonNegative(a: real, b: real)
    requires a >= 0.0 && b >= 0.0
    ensures a * b >= 0.0
  {
  }

  /** A point east of, or level with, every vertex crosses no edge, so it is outside. */
  lemma {:induction false} EastOfAllIsOutside(lat: real, lng: real, poly: seq<LatLng>, k: nat)
    requires k <= |poly|
    requires forall v <- poly :: v.lng <= lng
    ensures CrossingCount(lat, lng, poly, k) == 0
    ensures k == |poly| ==> !InPolygon(lat, lng, poly)
  {
    if k > 0 {
      EastOfAllIsOutside(lat, lng, poly, k - 1);
      assert poly[k - 1] in poly && poly[Pred(k - 1, |poly|)] in poly;
      EastOfEdgeNoCrossing(lat, lng, poly[k - 1], poly[Pred(k - 1, |poly|)]);
    }
  }

  lemma {:induction false} ClosedRingCount(lat: real, lng: real, poly: seq<LatLng>, k: nat)
    requires 3 <= |poly| && 1 <= k <= |poly|
    ensures CrossingCount(lat, lng, poly + [poly[0]], k) + (if EdgeCrosses(lat, lng, poly, 0) then 1 else 0)
         == CrossingCount(lat, lng, poly, k)
  {
    var c := poly + [poly[0]];
    if k == 1 {
      assert !EdgeCrosses(lat, lng, c, 0);
    } else {
      ClosedRingCount(lat, lng, poly, k - 1);
      assert c[k - 1] == poly[k - 1] && c[k - 2] == poly[k - 2];
    }
  }

  /**
   * The ring is implicitly closed: repeating the first vertex at the end, as
   * a GeoJSON linear ring does, does not change the answer.
   */
  lemma ExplicitlyClosedRingSameAnswer(lat: real, lng: real, poly: seq<LatLng>)
    requires |poly| >= 3
    ensures InPolygon(lat, lng, poly + [poly[0]]) == InPolygon(lat, lng, poly)
  {
    var c := poly + [poly[0]];
    ClosedRingCount(lat, lng, poly, |poly|);
    assert c[|poly|] == poly[0] && c[|poly| - 1] == poly[|poly| - 1];
    assert EdgeCrosses(lat, lng, c, |poly|) == EdgeCrosses(lat, lng, poly, 0);
  }

  /** The centre of any axis-aligned square, wherever it lies, is inside it. */
  lemma SquareCentreInside(lat0: real, lng0: real, side: real)
    requires side > 0.0
    ensures InPolygon(lat0 + side / 2.0, lng0 + side / 2.0,
                      [LatLng(lat0, lng0), LatLng(lat0, lng0 + side), LatLng(lat0 + side, lng0 + side), LatLng(lat0 + side, lng0)])
  {
    var sq := [LatLng(lat0, lng0), LatLng(lat0, lng0 + side), LatLng(lat0 + side, lng0 + side), LatLng(lat0 + side, lng0)];
    var cLat, cLng := lat0 + side / 2.0, lng0 + side / 2.0;
    assert EdgeLngAt(cLat, sq[0], sq[3]) == lng0;
    assert EdgeLngAt(cLat, sq[2], sq[1]) == lng0 + side;
    assert !EdgeCrosses(cLat, cLng, sq, 0) && !EdgeCrosses(cLat, cLng, sq, 1);
    assert EdgeCrosses(cLat, cLng, sq, 2) && !EdgeCrosses(cLat, cLng, sq, 3);
    assert CrossingCount(cLat, cLng, sq, 1) == 0;
    assert CrossingCount(cLat, cLng, sq, 2) == 0;
    assert CrossingCount(cLat, cLng, sq, 3) == 1;
  }

  // ----- bounding box -----

  function MinLat(poly: seq<LatLng>): (m: real)
    requires poly != []
    ensures forall v <- poly :: m <= v.lat
    ensures exists v <- poly :: m == v.lat
  {
    if |poly| == 1 then poly[0].lat
    else
      var m := MinLat(poly[1..]);
      assert forall v <- poly[1..] :: v in poly;
      assert poly[1..][0] in poly[1..];
      if poly[0].lat <= m then poly[0].lat else m
  }

  function MaxLat(poly: seq<LatLng>): (m: real)
    requires poly != []
    ensures forall v <- poly :: v.lat <= m
    ensures exists v <- poly :: m == v.lat
  {
    if |poly| == 1 then poly[0].lat
    else
      var m := MaxLat(poly[1..]);
      assert forall v <- poly[1..] :: v in poly;
      assert poly[1..][0] in poly[1..];
      if poly[0].lat >= m then poly[0].lat else m
  }

  function MinLng(poly: seq<LatLng>): (m: real)
    requires poly != []
    ensures forall v <- poly :: m <= v.lng
    ensures exists v <- poly :: m == v.lng
  {
    if |poly| == 1 then poly[0].lng
    else
      var m := MinLng(poly[1..]);
      assert forall v <- poly[1..] :: v in poly;
      assert poly[1..][0] in poly[1..];
      if poly[0].lng <= m then poly[0].lng else m
  }

  function MaxLng(poly: seq<LatLng>): (m: real)
    requires poly != []
    ensures forall v <- poly :: v.lng <= m
    ensures exists v <- poly :: m == v.lng
  {
    if |poly| == 1 then poly[0].lng
    else
      var m := MaxLng(poly[1..]);
      assert forall v <- poly[1..] :: v in poly;
      assert poly[1..][0] in poly[1..];
      if poly[0].lng >= m then poly[0].lng else m
  }

  // ----- the grid -----

  /** `lo, lo + step, lo + 2 step, ...` while the value stays `<= hi`. */
  function Steps(lo: real, hi: real, step: real): seq<real>
    requires step > 0.0
    decreases StepBudget(lo, hi, step)
  {
    if lo > hi then []
    else
      StepBudgetShrinks(lo, hi, step);
      [lo] + Steps(lo + step, hi, step)
  }

  /** How many values `Steps` yields. */
  function StepBudget(lo: real, hi: real, step: real): nat
    requires step > 0.0
  {
    if lo > hi then 0 else ((hi - lo) / step).Floor + 1
  }

  lemma StepBudgetShrinks(lo: real, hi: real, step: real)
    requires step > 0.0 && lo <= hi
    ensures StepBudget(lo + step, hi, step) < StepBudget(lo, hi, step)
  {
    var d := hi - lo;
    var q := d / step;
    var q' := (d - step) / step;
    assert q * step == d;
    assert q' * step == d - step;
    var e := q' - (q - 1.0);
    assert e * step == 0.0;
    assert e == (e * step) / step;
  }

  lemma {:induction false} StepsProperties(lo: real, hi: real, step: real)
    requires step > 0.0
    ensures forall x <- Steps(lo, hi, step) :: lo <= x <= hi
    ensures forall i, j | 0 <= i < j < |Steps(lo, hi, step)| :: Steps(lo, hi, step)[i] < Steps(lo, hi, step)[j]
    decreases StepBudget(lo, hi, step)
  {
    if lo <= hi {
      StepBudgetShrinks(lo, hi, step);
      StepsProperties(lo + step, hi, step);
      var r := Steps(lo, hi, step);
      var rest := Steps(lo + step, hi, step);
      assert r == [lo] + rest;
      forall i, j | 0 <= i < j < |r| ensures r[i] < r[j] {
        if i == 0 {
          assert r[j] == rest[j - 1] && rest[j - 1] in rest;
        } else {
          assert r[i] == rest[i - 1] && r[j] == rest[j - 1];
        }
      }
    }
  }

  /** The points of one grid row, west to east, that the polygon contains. */
  function InsideRow(lat: real, lngs: seq<real>, poly: seq<LatLng>): seq<LatLng>
  {
    if lngs == [] then []
    else (if InPolygon(lat, lngs[0], poly) then [LatLng(lat, lngs[0])] else []) + InsideRow(lat, lngs[1..], poly)
  }

  /** The contained grid points, row by row (latitude outer, longitude inner). */
  function InsideGrid(lats: seq<real>, lngs: seq<real>, poly: seq<LatLng>): seq<LatLng>
  {
    if lats == [] then [] else InsideRow(lats[0], lngs, poly) + InsideGrid(lats[1..], lngs, poly)
  }

  lemma {:induction false} InsideRowMembers(lat: real, lngs: seq<real>, poly: seq<LatLng>)
    ensures forall p <- InsideRow(lat, lngs, poly) :: p.lat == lat && p.lng in lngs && InPolygon(p.lat, p.lng, poly)
  {
    if lngs != [] {
      InsideRowMembers(lat, lngs[1..], poly);
      assert forall l <- lngs[1..] :: l in lngs;
    }
  }

  lemma {:induction false} InsideGridMembers(lats: seq<real>, lngs: seq<real>, poly: seq<LatLng>)
    ensures forall p <- InsideGrid(lats, lngs, poly) :: p.lat in lats && p.lng in lngs && InPolygon(p.lat, p.lng, poly)
  {
    if lats != [] {
      InsideRowMembers(lats[0], lngs, poly);
      InsideGridMembers(lats[1..], lngs, poly);
      assert forall l <- lats[1..] :: l in lats;
    }
  }

  /** Every contained point of the bounding-box lattice with the given spacing, uncapped. */
  function GridCandidates(poly: seq<LatLng>, spacing: real): seq<LatLng>
    requires poly != [] && spacing > 0.0
  {
    InsideGrid(Steps(MinLat(poly), MaxLat(poly), spacing), Steps(MinLng(poly), MaxLng(poly), spacing), poly)
  }

  /** The first `m` elements of `s` (all of them if there are fewer, none if `m <= 0`). */
  function Prefix<T>(s: seq<T>, m: int): seq<T>
  {
    if m <= 0 then [] else if m < |s| then s[..m] else s
  }

  lemma PrefixFacts<T>(s: seq<T>, m: int)
    ensures Prefix(s, m) <= s
    ensures |Prefix(s, m)| == if m <= 0 then 0 else if m < |s| then m else |s|
  {
  }

  /** Row-major order: strictly increasing by latitude, then by longitude. */
  predicate RowMajor(s: seq<LatLng>) {
    forall i, j | 0 <= i < j < |s| :: s[i].lat < s[j].lat || (s[i].lat == s[j].lat && s[i].lng < s[j].lng)
  }

  lemma {:induction false} InsideRowOrdered(lat: real, lngs: seq<real>, poly: seq<LatLng>)
    requires forall i, j | 0 <= i < j < |lngs| :: lngs[i] < lngs[j]
    ensures RowMajor(InsideRow(lat, lngs, poly))
  {
    if lngs != [] {
      InsideRowOrdered(lat, lngs[1..], poly);
      InsideRowMembers(lat, lngs[1..], poly);
      var rest := InsideRow(lat, lngs[1..], poly);
      forall p <- rest ensures lngs[0] < p.lng {
        var k :| 0 <= k < |lngs[1..]| && lngs[1..][k] == p.lng;
        assert lngs[k + 1] == p.lng;
      }
    }
  }

  lemma {:induction false} InsideGridOrdered(lats: seq<real>, lngs: seq<real>, poly: seq<LatLng>)
    requires forall i, j | 0 <= i < j < |lats| :: lats[i] < lats[j]
    requires forall i, j | 0 <= i < j < |lngs| :: lngs[i] < lngs[j]
    ensures RowMajor(InsideGrid(lats, lngs, poly))
  {
    if lats != [] {
      InsideRowOrdered(lats[0], lngs, poly);
      InsideGridOrdered(lats[1..], lngs, poly);
      InsideRowMembers(lats[0], lngs, poly);
      InsideGridMembers(lats[1..], lngs, poly);
      var row := InsideRow(lats[0], lngs, poly);
      var rest := InsideGrid(lats[1..], lngs, poly);
      forall p <- rest ensures lats[0] < p.lat {
        var k :| 0 <= k < |lats[1..]| && lats[1..][k] == p.lat;
        assert lats[k + 1] == p.lat;
      }
      var r := row + rest;
      forall i, j | 0 <= i < j < |r| ensures r[i].lat < r[j].lat || (r[i].lat == r[j].lat && r[i].lng < r[j].lng) {
        if j < |row| {
          assert r[i] == row[i] && r[j] == row[j];
        } else if i >= |row| {
          assert r[i] == rest[i - |row|] && r[j] == rest[j - |row|];
        } else {
          assert r[i] == row[i] && row[i] in row;
          assert r[j] == rest[j - |row|] && rest[j - |row|] in rest;
        }
      }
    }
  }

  /** The uncapped candidates are contained, inside the bounding box and in row-major order. */
  lemma GridCandidatesProperties(poly: seq<LatLng>, spacing: real)
    requires poly != [] && spacing > 0.0
    ensures forall p <- GridCandidates(poly, spacing) ::
      InPolygon(p.lat, p.lng, poly)
      && p.lat in Steps(MinLat(poly), MaxLat(poly), spacing) && p.lng in Steps(MinLng(poly), MaxLng(poly), spacing)
      && MinLat(poly) <= p.lat <= MaxLat(poly) && MinLng(poly) <= p.lng <= MaxLng(poly)
    ensures RowMajor(GridCandidates(poly, spacing))
  {
    StepsProperties(MinLat(poly), MaxLat(poly), spacing);
    StepsProperties(MinLng(poly), MaxLng(poly), spacing);
    InsideGridMembers(Steps(MinLat(poly), MaxLat(poly), spacing), Steps(MinLng(poly), MaxLng(poly), spacing), poly);
    InsideGridOrdered(Steps(MinLat(poly), MaxLat(poly), spacing), Steps(MinLng(poly), MaxLng(poly), spacing), poly);
  }

  lemma StepsCons(lo: real, hi: real, step: real)
    requires step > 0.0 && lo <= hi
    ensures Steps(lo, hi, step) == [lo] + Steps(lo + step, hi, step)
  {
  }

  lemma RowStep(lat: real, lng: real, hi: real, step: real, poly: seq<LatLng>)
    requires step > 0.0 && lng <= hi
    ensures |Steps(lng + step, hi, step)| < |Steps(lng, hi, step)|
    ensures InsideRow(lat, Steps(lng, hi, step), poly)
         == (if InPolygon(lat, lng, poly) then [LatLng(lat, lng)] else []) + InsideRow(lat, Steps(lng + step, hi, step), poly)
  {
    StepsCons(lng, hi, step);
  }

  lemma GridStep(lat: real, hi: real, step: real, lngs: seq<real>, poly: seq<LatLng>)
    requires step > 0.0 && lat <= hi
    ensures |Steps(lat + step, hi, step)| < |Steps(lat, hi, step)|
    ensures InsideGrid(Steps(lat, hi, step), lngs, poly) == InsideRow(lat, lngs, poly) + InsideGrid(Steps(lat + step, hi, step), lngs, poly)
  {
    StepsCons(lat, hi, step);
  }

  /** Capping a concatenation caps the first part, then the second with what is left. */
  lemma PrefixAppend<T>(a: seq<T>, b: seq<T>, m: int)
    ensures Prefix(a + b, m) == Prefix(a, m) + Prefix(b, m - |a|)
  {
    if |a| < m < |a| + |b| {
      assert (a + b)[..m] == a + b[..m - |a|];
    } else if 0 < m <= |a| {
      assert (a + b)[..m] == a[..m];
    }
  }

  /** One step of a capped walk: emitting the capped first part leaves the capped rest to emit. */
  lemma CappedStep<T>(target: seq<T>, before: seq<T>, a: seq<T>, rest: seq<T>, max: int)
    requires target == before + Prefix(a + rest, max - |before|)
    ensures target == (before + Prefix(a, max - |before|)) + Prefix(rest, max - |before + Prefix(a, max - |before|)|)
  {
    var m := max - |before|;
    var pa := Prefix(a, m);
    PrefixAppend(a, rest, m);
    PrefixFacts(a, m);
    var k := max - |before + pa|;
    assert k == m - |pa|;
    if |a| <= m {
      assert k == m - |a|;
    } else {
      assert Prefix(rest, m - |a|) == [] && Prefix(rest, k) == [];
    }
    assert (before + pa) + Prefix(rest, k) == before + (pa + Prefix(rest, m - |a|));
  }

  /** Any prefix of the candidates keeps their containment and order. */
  lemma GridPrefixProperties(poly: seq<LatLng>, spacing: real, m: int)
    requires poly != [] && spacing > 0.0
    ensures forall p <- Prefix(GridCandidates(poly, spacing), m) :: InPolygon(p.lat, p.lng, poly)
    ensures RowMajor(Prefix(GridCandidates(poly, spacing), m))
  {
    GridCandidatesProperties(poly, spacing);
    PrefixKeeps(GridCandidates(poly, spacing), m, poly);
  }

  lemma PrefixKeeps(full: seq<LatLng>, m: int, poly: seq<LatLng>)
    requires forall p <- full :: InPolygon(p.lat, p.lng, poly)
    requires RowMajor(full)
    ensures forall p <- Prefix(full, m) :: InPolygon(p.lat, p.lng, poly)
    ensures RowMajor(Prefix(full, m))
  {
    var g := Prefix(full, m);
    PrefixFacts(full, m);
    assert forall i | 0 <= i < |g| :: g[i] == full[i];
    assert forall p <- g :: p in full;
  }

  /**
   * The grid walk's bookkeeping: having emitted `emitted`, what is left to
   * emit is the capped remainder of the contained points of the rows from
   * `lat` northwards.
   */
  predicate GridLeft(target: seq<LatLng>, emitted: seq<LatLng>, lat: real, hi: real, step: real,
                     lngs: seq<real>, poly: seq<LatLng>, max: int)
    requires step > 0.0
  {
    target == emitted + Prefix(InsideGrid(Steps(lat, hi, step), lngs, poly), max - |emitted|)
  }

  /** The same for one row: what is left is the capped remainder of the row east of `lng`. */
  predicate RowLeft(target: seq<LatLng>, emitted: seq<LatLng>, lat: real, lng: real, hi: real, step: real,
                    poly: seq<LatLng>, max: int)
    requires step > 0.0
  {
    target == emitted + Prefix(InsideRow(lat, Steps(lng, hi, step), poly), max - |emitted|)
  }

  /**
   * The inner loop of the grid walk: one row, west to east, appending
   * contained points until the row ends or `maxGridPoints` points are kept.
   */
  method WalkRow(polygon: seq<LatLng>, lat: real, minLng: real, maxLng: real, gridSpacing: real,
                 maxGridPoints: int, gridPoints: seq<LatLng>)
    returns (walked: seq<LatLng>)
    requires gridSpacing > 0.0
    ensures walked == gridPoints + Prefix(InsideRow(lat, Steps(minLng, maxLng, gridSpacing), polygon), maxGridPoints - |gridPoints|)
  {
    walked := gridPoints;
    var currentLng := minLng;
    ghost var target := walked + Prefix(InsideRow(lat, Steps(minLng, maxLng, gridSpacing), polygon), maxGridPoints - |walked|);
    while currentLng <= maxLng && |walked| < maxGridPoints
      invariant RowLeft(target, walked, lat, currentLng, maxLng, gridSpacing, polygon, maxGridPoints)
      decreases StepBudget(currentLng, maxLng, gridSpacing)
    {
      var nextLng := currentLng + gridSpacing;
      var inside := IsPointInPolygon(lat, currentLng, polygon);
      ghost var before := walked;
      if inside {
        walked := walked + [LatLng(lat, currentLng)];
      }
      RowLoopStep(target, before, walked, lat, currentLng, nextLng, maxLng, gridSpacing, polygon, maxGridPoints);
      currentLng := nextLng;
    }
    RowLoopExit(target, walked, lat, currentLng, maxLng, gridSpacing, polygon, maxGridPoints);
  }

  /** One point of a row keeps the row walk's bookkeeping and shortens what is left. */
  lemma RowLoopStep(target: seq<LatLng>, before: seq<LatLng>, after: seq<LatLng>,
                    lat: real, lng: real, next: real, hi: real, step: real, poly: seq<LatLng>, max: int)
    requires step > 0.0 && lng <= hi && next == lng + step && |before| < max
    requires RowLeft(target, before, lat, lng, hi, step, poly, max)
    requires after == if InPolygon(lat, lng, poly) then before + [LatLng(lat, lng)] else before
    ensures RowLeft(target, after, lat, next, hi, step, poly, max)
    ensures StepBudget(next, hi, step) < StepBudget(lng, hi, step)
  {
    StepBudgetShrinks(lng, hi, step);
    RowStep(lat, lng, hi, step, poly);
    var head := if InPolygon(lat, lng, poly) then [LatLng(lat, lng)] else [];
    var rest := InsideRow(lat, Steps(next, hi, step), poly);
    CappedStep(target, before, head, rest, max);
    assert Prefix(head, max - |before|) == head;
    assert after == before + head;
  }

  /** When a row walk stops, it has emitted everything it was to emit. */
  lemma RowLoopExit(target: seq<LatLng>, emitted: seq<LatLng>,
                    lat: real, lng: real, hi: real, step: real, poly: seq<LatLng>, max: int)
    requires step > 0.0
    requires RowLeft(target, emitted, lat, lng, hi, step, poly, max)
    requires !(lng <= hi && |emitted| < max)
    ensures emitted == target
  {
    var pending := InsideRow(lat, Steps(lng, hi, step), poly);
    if lng > hi {
      assert pending == [];
    }
    assert Prefix(pending, max - |emitted|) == [];
  }

  /** One row of the grid walk keeps the walk's bookkeeping and shortens the rows left. */
  lemma GridLoopStep(target: seq<LatLng>, before: seq<LatLng>, after: seq<LatLng>,
                     lat: real, next: real, hi: real, step: real, lngs: seq<real>, poly: seq<LatLng>, max: int)
    requires step > 0.0 && lat <= hi && next == lat + step
    requires GridLeft(target, before, lat, hi, step, lngs, poly, max)
    requires after == before + Prefix(InsideRow(lat, lngs, poly), max - |before|)
    ensures GridLeft(target, after, next, hi, step, lngs, poly, max)
    ensures StepBudget(next, hi, step) < StepBudget(lat, hi, step)
  {
    StepBudgetShrinks(lat, hi, step);
    GridStep(lat, hi, step, lngs, poly);
    CappedStep(target, before, InsideRow(lat, lngs, poly), InsideGrid(Steps(next, hi, step), lngs, poly), max);
  }

  /** When the grid walk stops, it has emitted everything it was to emit. */
  lemma GridLoopExit(target: seq<LatLng>, emitted: seq<LatLng>,
                     lat: real, hi: real, step: real, lngs: seq<real>, poly: seq<LatLng>, max: int)
    requires step > 0.0
    requires GridLeft(target, emitted, lat, hi, step, lngs, poly, max)
    requires !(lat <= hi && |emitted| < max)
    ensures emitted == target
  {
    var pending := InsideGrid(Steps(lat, hi, step), lngs, poly);
    if lat > hi {
      assert pending == [];
    }
    assert Prefix(pending, max - |emitted|) == [];
  }

  /** The walk starts with nothing emitted and every row still to come. */
  lemma GridLoopStart(poly: seq<LatLng>, step: real, max: int)
    requires poly != [] && step > 0.0
    ensures GridLeft(Prefix(GridCandidates(poly, step), max), [], MinLat(poly), MaxLat(poly), step,
                     Steps(MinLng(poly), MaxLng(poly), step), poly, max)
  {
    assert [] + Prefix(GridCandidates(poly, step), max) == Prefix(GridCandidates(poly, step), max);
  }

  /**
   * The grid walk of `searchWithinPolygon`: rows from the southern edge of
   * the bounding box, points west to east, keeping contained points, and
   * stopping for good once `maxGridPoints` points are kept. The result is
   * exactly the first `maxGridPoints` contained lattice points.
   */
  method GenerateGrid(polygon: seq<LatLng>, gridSpacing: real, maxGridPoints: int) returns (gridPoints: seq<LatLng>)
    requires polygon != [] && gridSpacing > 0.0
    ensures gridPoints == Prefix(GridCandidates(polygon, gridSpacing), maxGridPoints)
    ensures |gridPoints| <= if maxGridPoints < 0 then 0 else maxGridPoints
    ensures forall p <- gridPoints :: InPolygon(p.lat, p.lng, polygon)
    ensures RowMajor(gridPoints)
  {
    var minLat, maxLat := MinLat(polygon), MaxLat(polygon);
    var minLng, maxLng := MinLng(polygon), MaxLng(polygon);
    ghost var target := Prefix(GridCandidates(polygon, gridSpacing), maxGridPoints);
    GridLoopStart(polygon, gridSpacing, maxGridPoints);
    gridPoints := [];
    var currentLat := minLat;
    while currentLat <= maxLat && |gridPoints| < maxGridPoints
      invariant GridLeft(target, gridPoints, currentLat, maxLat, gridSpacing, Steps(minLng, maxLng, gridSpacing), polygon, maxGridPoints)
      decreases StepBudget(currentLat, maxLat, gridSpacing)
    {
      var nextLat := currentLat + gridSpacing;
      var walked := WalkRow(polygon, currentLat, minLng, maxLng, gridSpacing, maxGridPoints, gridPoints);
      GridLoopStep(target, gridPoints, walked, currentLat, nextLat, maxLat, gridSpacing, Steps(minLng, maxLng, gridSpacing), polygon, maxGridPoints);
      gridPoints := walked;
      currentLat := nextLat;
    }
    GridLoopExit(target, gridPoints, currentLat, maxLat, gridSpacing, Steps(minLng, maxLng, gridSpacing), polygon, maxGridPoints);
    PrefixFacts(GridCandidates(polygon, gridSpacing), maxGridPoints);
    GridPrefixProperties(polygon, gridSpacing, maxGridPoints);
  }
}
