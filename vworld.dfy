/**
 * The VWorld WFS client (`VWorldService`): district boundary polygons and
 * neighbourhood labels with their centres. A GeoJSON geometry is a loosely
 * typed tree here (`Json`), because the source reads it through unchecked
 * casts and treats any cast failure as "no coordinates".
 */
module VWorld {
  import opened Wrappers
  import opened Places
  import opened Geometry

  /** A GeoJSON value as the reader meets it: a number, an array, or anything else (null, text, an object). */
  datatype Json = JNum(n: real) | JArr(items: seq<Json>) | JOther

  datatype GeoJsonGeometry = GeoJsonGeometry(kind: string, coordinates: Json)

  datatype Properties = Properties(sigKorNm: Option<string>, emdKorNm: Option<string>, fullNm: Option<string>)

  datatype Feature = Feature(geometry: GeoJsonGeometry, properties: Properties)

  /** The query parameters of one WFS `GetFeature` call. */
  datatype FeatureRequest = FeatureRequest(
    service: string,
    request: string,
    typename: string,
    key: string,
    domain: string,
    output: string,
    attrFilter: string)

  datatype AdminPolygon = AdminPolygon(name: string, coordinates: seq<LatLng>)

  datatype DongLabel = DongLabel(name: string, centerLat: real, centerLng: real)

  const Domain: string := "http://localhost:4141"

  function AdminRequest(key: string, regionName: string): FeatureRequest {
    FeatureRequest("WFS", "GetFeature", "lt_c_adsigg_info", key, Domain, "application/json", "sig_kor_nm:like:" + regionName)
  }

  function DongRequest(key: string, regionName: string): FeatureRequest {
    FeatureRequest("WFS", "GetFeature", "lt_c_emdong_info", key, Domain, "application/json", "full_nm:like:" + regionName)
  }

  // ----- reading coordinates -----

  /**
   * One GeoJSON position `[lng, lat, ...]`: fewer than two entries is skipped,
   * a non-array or a non-number entry is a cast failure.
   */
  function Position(coord: Json): Outcome<Option<LatLng>>
  {
    match coord
    case JArr(items) =>
      if |items| >= 2 then
        if items[0].JNum? && items[1].JNum? then Success(Some(LatLng(items[1].n, items[0].n))) else Failure
      else Success(None)
    case _ => Failure
  }

  /** `ring.mapNotNull { ... }`: any cast failure fails the whole ring. */
  function Positions(coords: seq<Json>): (r: Outcome<seq<LatLng>>)
    ensures r.Success? ==> |r.value| <= |coords|
  {
    if coords == [] then Success([])
    else
      match Position(coords[0])
      case Failure => Failure
      case Success(head) =>
        match Positions(coords[1..])
        case Failure => Failure
        case Success(rest) => Success((if head.Some? then [head.value] else []) + rest)
  }

  function Ring(ring: Json): Outcome<seq<LatLng>> {
    match ring
    case JArr(coords) => Positions(coords)
    case _ => Failure
  }

  /** The first element of an array, if the value is a non-empty array. */
  function FirstOf(j: Json): Outcome<Option<Json>> {
    match j
    case JArr(items) => if items == [] then Success(None) else Success(Some(items[0]))
    case _ => Failure
  }

  /**
   * `extractCoordinates`: the outer ring of a Polygon, or the outer ring of
   * the first polygon of a MultiPolygon; any other type, a missing ring or a
   * cast failure gives no coordinates.
   */
  function ExtractCoordinates(g: GeoJsonGeometry): (r: seq<LatLng>)
    ensures g.kind != "Polygon" && g.kind != "MultiPolygon" ==> r == []
    ensures !g.coordinates.JArr? || g.coordinates.items == [] ==> r == []
  {
    var ring :=
      if g.kind == "Polygon" then
        match FirstOf(g.coordinates)
        case Failure => Failure
        case Success(None) => Success([])
        case Success(Some(outer)) => Ring(outer)
      else if g.kind == "MultiPolygon" then
        match FirstOf(g.coordinates)
        case Failure => Failure
        case Success(None) => Success([])
        case Success(Some(first)) =>
          match FirstOf(first)
          case Failure => Failure
          case Success(None) => Success([])
          case Success(Some(outer)) => Ring(outer)
      else Success([]);
    match ring
    case Failure => []
    case Success(pts) => pts
  }

  // ----- writing coordinates, the partner of reading them -----

  /** GeoJSON order: longitude first. */
  function EncodePosition(p: LatLng): Json {
    JArr([JNum(p.lng), JNum(p.lat)])
  }

  function EncodePositions(pts: seq<LatLng>): (r: seq<Json>)
    ensures |r| == |pts|
  {
    if pts == [] then [] else [EncodePosition(pts[0])] + EncodePositions(pts[1..])
  }

  function EncodeRing(pts: seq<LatLng>): Json {
    JArr(EncodePositions(pts))
  }

  lemma {:induction false} PositionsRoundTrip(pts: seq<LatLng>)
    ensures Positions(EncodePositions(pts)) == Success(pts)
  {
    if pts != [] {
      PositionsRoundTrip(pts[1..]);
      assert EncodePositions(pts)[1..] == EncodePositions(pts[1..]);
      assert [pts[0]] + pts[1..] == pts;
    }
  }

  /** A Polygon's outer ring is read back exactly; inner rings (holes) are ignored. */
  lemma PolygonRoundTrip(pts: seq<LatLng>, holes: seq<Json>)
    ensures ExtractCoordinates(GeoJsonGeometry("Polygon", JArr([EncodeRing(pts)] + holes))) == pts
  {
    PositionsRoundTrip(pts);
  }

  /** For a MultiPolygon only the outer ring of the first polygon is read. */
  lemma MultiPolygonRoundTrip(pts: seq<LatLng>, holes: seq<Json>, others: seq<Json>)
    ensures ExtractCoordinates(GeoJsonGeometry("MultiPolygon", JArr([JArr([EncodeRing(pts)] + holes)] + others))) == pts
  {
    PositionsRoundTrip(pts);
  }

  /** A third entry (altitude) is ignored, and a position of fewer than two entries is skipped. */
  lemma PositionShapes(lng: real, lat: real, extra: seq<Json>, short: seq<Json>)
    requires |short| < 2
    ensures Position(JArr([JNum(lng), JNum(lat)] + extra)) == Success(Some(LatLng(lat, lng)))
    ensures Position(JArr(short)) == Success(None)
  {
  }

  /** A malformed position anywhere in the ring empties the whole result, not just that point. */
  lemma BadPositionEmptiesRing(before: seq<LatLng>, after: seq<Json>, holes: seq<Json>)
    ensures ExtractCoordinates(GeoJsonGeometry("Polygon", JArr([JArr(EncodePositions(before) + [JOther] + after)] + holes))) == []
  {
    BadPositionFails(before, after);
  }

  lemma {:induction false} BadPositionFails(before: seq<LatLng>, after: seq<Json>)
    ensures Positions(EncodePositions(before) + [JOther] + after) == Failure
  {
    if before == [] {
      assert EncodePositions(before) + [JOther] + after == [JOther] + after;
    } else {
      var tail := EncodePositions(before[1..]) + [JOther] + after;
      BadPositionFails(before[1..], after);
      var s := [EncodePosition(before[0])] + tail;
      assert EncodePositions(before) + [JOther] + after == s;
      assert s[1..] == tail;
      assert Position(s[0]).Success?;
    }
  }

  // ----- centre of a ring -----

  function Lats(coords: seq<LatLng>): (r: seq<real>)
    ensures |r| == |coords| && forall i | 0 <= i < |r| :: r[i] == coords[i].lat
  {
    if coords == [] then [] else [coords[0].lat] + Lats(coords[1..])
  }

  function Lngs(coords: seq<LatLng>): (r: seq<real>)
    ensures |r| == |coords| && forall i | 0 <= i < |r| :: r[i] == coords[i].lng
  {
    if coords == [] then [] else [coords[0].lng] + Lngs(coords[1..])
  }

  function Sum(xs: seq<real>): real {
    if xs == [] then 0.0 else xs[0] + Sum(xs[1..])
  }

  /** `map { ... }.average()`. */
  function Mean(xs: seq<real>): (m: real)
    requires xs != []
    ensures m * |xs| as real == Sum(xs)
  {
    Sum(xs) / |xs| as real
  }

  /** `calculateCenter`: the mean latitude and longitude, or (0, 0) for no points. */
  function CalculateCenter(coords: seq<LatLng>): (c: LatLng)
    ensures coords == [] ==> c == LatLng(0.0, 0.0)
    ensures coords != [] ==> c.lat * |coords| as real == Sum(Lats(coords)) && c.lng * |coords| as real == Sum(Lngs(coords))
  {
    if coords == [] then LatLng(0.0, 0.0) else LatLng(Mean(Lats(coords)), Mean(Lngs(coords)))
  }

  lemma {:induction false} SumBounds(xs: seq<real>, lo: real, hi: real)
    requires forall i | 0 <= i < |xs| :: lo <= xs[i] <= hi
    ensures |xs| as real * lo <= Sum(xs) <= |xs| as real * hi
  {
    if xs != [] {
      SumBounds(xs[1..], lo, hi);
      var m := |xs[1..]| as real;
      assert (m + 1.0) * lo == m * lo + lo;
      assert (m + 1.0) * hi == m * hi + hi;
    }
  }

  /** The mean of values between `lo` and `hi` is between them too. */
  lemma MeanBounds(xs: seq<real>, lo: real, hi: real)
    requires xs != []
    requires forall i | 0 <= i < |xs| :: lo <= xs[i] <= hi
    ensures lo <= Mean(xs) <= hi
  {
    SumBounds(xs, lo, hi);
    var n := |xs| as real;
    var m := Mean(xs);
    assert m * n == Sum(xs);
    assert n * lo == lo * n && n * hi == hi * n;
    assert m * n <= hi * n;
    ScaleCompare(lo, m, n);
    ScaleCompare(m, hi, n);
  }

  lemma ScaleCompare(a: real, b: real, n: real)
    requires n > 0.0 && a * n <= b * n
    ensures a <= b
  {
  }

  /** The centre of a non-empty ring lies inside the ring's bounding box. */
  lemma CenterInBoundingBox(coords: seq<LatLng>)
    requires coords != []
    ensures MinLat(coords) <= CalculateCenter(coords).lat <= MaxLat(coords)
    ensures MinLng(coords) <= CalculateCenter(coords).lng <= MaxLng(coords)
  {
    assert forall i | 0 <= i < |coords| :: coords[i] in coords;
    MeanBounds(Lats(coords), MinLat(coords), MaxLat(coords));
    MeanBounds(Lngs(coords), MinLng(coords), MaxLng(coords));
  }

  // ----- the two queries -----

  function AdminPolygons(features: seq<Feature>, regionName: string): (r: seq<AdminPolygon>)
    ensures |r| == |features|
    ensures forall i | 0 <= i < |r| :: r[i].coordinates == ExtractCoordinates(features[i].geometry)
    ensures forall i | 0 <= i < |r| :: r[i].name == features[i].properties.sigKorNm.GetOr(regionName)
  {
    if features == [] then []
    else
      var f := features[0];
      [AdminPolygon(f.properties.sigKorNm.GetOr(regionName), ExtractCoordinates(f.geometry))]
        + AdminPolygons(features[1..], regionName)
  }

  /**
   * `getAdminBoundary`: one polygon per district feature matching the name,
   * named after the feature or, failing that, after the query. Without a key
   * or on a failed call there are none.
   */
  function GetAdminBoundary(apiKey: Option<string>, getFeature: FeatureRequest -> Outcome<seq<Feature>>, regionName: string)
    : (r: seq<AdminPolygon>)
    ensures apiKey.None? ==> r == []
    ensures apiKey.Some? && getFeature(AdminRequest(apiKey.value, regionName)).Failure? ==> r == []
    ensures apiKey.Some? && getFeature(AdminRequest(apiKey.value, regionName)).Success? ==>
      r == AdminPolygons(getFeature(AdminRequest(apiKey.value, regionName)).value, regionName)
  {
    match apiKey
    case None => []
    case Some(key) =>
      match getFeature(AdminRequest(key, regionName))
      case Failure => []
      case Success(features) => AdminPolygons(features, regionName)
  }

  function DongLabels(features: seq<Feature>): (r: seq<DongLabel>)
    ensures |r| == |features|
    ensures forall i | 0 <= i < |r| ::
      var c := CalculateCenter(ExtractCoordinates(features[i].geometry));
      r[i].name == features[i].properties.emdKorNm.GetOr("") && r[i].centerLat == c.lat && r[i].centerLng == c.lng
  {
    if features == [] then []
    else
      var f := features[0];
      var c := CalculateCenter(ExtractCoordinates(f.geometry));
      [DongLabel(f.properties.emdKorNm.GetOr(""), c.lat, c.lng)] + DongLabels(features[1..])
  }

  /** `getDongLabels`: one label per neighbourhood feature, placed at the centre of its outer ring. */
  function GetDongLabels(apiKey: Option<string>, getFeature: FeatureRequest -> Outcome<seq<Feature>>, regionName: string)
    : (r: seq<DongLabel>)
    ensures apiKey.None? ==> r == []
    ensures apiKey.Some? && getFeature(DongRequest(apiKey.value, regionName)).Failure? ==> r == []
    ensures apiKey.Some? && getFeature(DongRequest(apiKey.value, regionName)).Success? ==>
      r == DongLabels(getFeature(DongRequest(apiKey.value, regionName)).value)
  {
    match apiKey
    case None => []
    case Some(key) =>
      match getFeature(DongRequest(key, regionName))
      case Failure => []
      case Success(features) => DongLabels(features)
  }

  /**
   * A label of a feature whose geometry yields points sits inside their
   * bounding box; one whose geometry yields none sits at (0, 0).
   */
  lemma LabelPlacement(f: Feature)
    ensures var pts := ExtractCoordinates(f.geometry);
      var l := DongLabels([f])[0];
      (pts == [] ==> l.centerLat == 0.0 && l.centerLng == 0.0) &&
      (pts != [] ==> MinLat(pts) <= l.centerLat <= MaxLat(pts) && MinLng(pts) <= l.centerLng <= MaxLng(pts))
  {
    var pts := ExtractCoordinates(f.geometry);
    if pts != [] {
      CenterInBoundingBox(pts);
    }
  }
}
