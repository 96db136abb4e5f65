/** GeoJSON feature collections whose bounds follow from their features
    (libs/core/src/grafy_core/spatial_contracts.py:338-400). */
module FeatureCollections {
  import opened Text
  import opened Json
  import opened Spatial

  datatype Collection = Collection(features: seq<Fields>, sourceName: string, bounds: Option<Bounds>)

  function Get(feature: Fields, key: string): Value { if key in feature then feature[key] else Null }

  /** What `from_features` reads of one feature: anything but an object is passed over. */
  function FeaturePositions(feature: Fields): Result<seq<Position>, Error> {
    if Get(feature, "geometry").Object? then GeometryPositions(Get(feature, "geometry")) else Ok([])
  }

  function AllPositions(features: seq<Fields>): Result<seq<Position>, Error> {
    if features == [] then Ok([])
    else
      var before := AllPositions(features[..|features| - 1]);
      if before.Err? then before
      else
        var last := FeaturePositions(features[|features| - 1]);
        if last.Err? then last else Ok(before.value + last.value)
  }

  ghost predicate OccursInFeature(feature: Fields, p: Position) { OccursIn(Get(feature, "geometry"), p) }

  ghost predicate OccursInAny(features: seq<Fields>, p: Position) { exists f :: f in features && OccursInFeature(f, p) }

  ghost predicate ValidFeature(feature: Fields) {
    Get(feature, "type") == Json.Text("Feature") && (Get(feature, "geometry").Null? || WellShaped(Get(feature, "geometry")))
  }

  predicate ValidName(name: string) { 1 <= |name| <= 1024 && Trim(name, IsPythonSpace) == name }

  /** The box that holds every position of every feature and no more. */
  ghost predicate Bounding(features: seq<Fields>, bounds: Option<Bounds>) {
    && (bounds.None? <==> forall p :: !OccursInAny(features, p))
    && (bounds.Some? ==>
          && (forall p :: OccursInAny(features, p) ==> Contains(bounds.value, p))
          && (forall c :: (forall p :: OccursInAny(features, p) ==> Contains(c, p)) ==> Within(bounds.value, c)))
  }

  ghost predicate Within(b: Bounds, c: Bounds) { c.west <= b.west <= b.east <= c.east && c.south <= b.south <= b.north <= c.north }

  lemma {:induction false} AllPositionsExact(features: seq<Fields>)
    ensures (forall f :: f in features ==> Get(f, "geometry").Null? || WellShaped(Get(f, "geometry"))) ==> AllPositions(features).Ok?
    ensures AllPositions(features).Ok? ==> forall p :: p in AllPositions(features).value <==> OccursInAny(features, p)
  {
    if features != [] {
      var front, last := features[..|features| - 1], features[|features| - 1];
      assert features == front + [last];
      AllPositionsExact(front);
      if Get(last, "geometry").Object? { GeometryExact(Get(last, "geometry")); }
      forall p ensures OccursInAny(features, p) <==> OccursInAny(front, p) || OccursInFeature(last, p) {
        if OccursInAny(front, p) { var f :| f in front && OccursInFeature(f, p); assert f in features; }
      }
    }
  }

  ghost predicate RightBounds(features: seq<Fields>, bounds: Option<Bounds>) {
    AllPositions(features).Ok? ==>
      var ps := AllPositions(features).value;
      (bounds.None? <==> ps == []) && (bounds.Some? ==> LeastBox(bounds.value, ps))
  }

  lemma {:induction false} LeastBoxBounds(features: seq<Fields>, bounds: Option<Bounds>)
    requires AllPositions(features).Ok? && RightBounds(features, bounds)
    ensures Bounding(features, bounds)
  {
    AllPositionsExact(features);
    var ps := AllPositions(features).value;
    if bounds.None? {
    } else {
      assert ps[0] in ps;
      forall c | forall p :: OccursInAny(features, p) ==> Contains(c, p) ensures Within(bounds.value, c) {
        LeastBoxIsSmallest(bounds.value, ps, c);
      }
    }
  }

  /** The validator: the features are sound, and the recorded bounds are the ones they have. */
  method Validate(c: Collection) returns (r: Result<(), Error>)
    ensures r.Ok? <==> ValidName(c.sourceName) && (forall f :: f in c.features ==> ValidFeature(f)) && RightBounds(c.features, c.bounds)
    ensures r.Ok? ==> Bounding(c.features, c.bounds)
    ensures r == Err(WrongBounds) ==> AllPositions(c.features).Ok? && !RightBounds(c.features, c.bounds)
  {
    if !ValidName(c.sourceName) {
      return Err(BadName);
    }
    var observed: seq<Position> := [];
    for i := 0 to |c.features|
      invariant forall j :: 0 <= j < i ==> ValidFeature(c.features[j])
      invariant AllPositions(c.features[..i]) == Ok(observed)
    {
      var feature := c.features[i];
      assert feature in c.features && c.features[..i + 1][..i] == c.features[..i];
      if Get(feature, "type") != Json.Text("Feature") {
        return Err(NotAFeature);
      }
      var geometry := Get(feature, "geometry");
      if geometry.Null? {
        assert observed + [] == observed;
        continue;
      }
      if !geometry.Object? {
        return Err(Malformed);
      }
      GeometryExact(geometry);
      var next := ValidateGeometry(geometry, observed);
      if next.Err? {
        return Err(Malformed);
      }
      observed := next.value;
    }
    assert c.features[..|c.features|] == c.features;
    var calculated := BoundsOf(observed);
    if c.bounds != calculated {
      if c.bounds.Some? && LeastBox(c.bounds.value, observed) && calculated.Some? {
        OneLeastBox(c.bounds.value, calculated.value, observed);
      }
      return Err(WrongBounds);
    }
    LeastBoxBounds(c.features, c.bounds);
    return Ok(());
  }

  /** Collects, bounds and validates. The bounds it computes are always the ones the
      validator wants: it fails only for its name or for a feature. */
  method FromFeatures(features: seq<Fields>, sourceName: string) returns (r: Result<Collection, Error>)
    ensures r.Ok? <==> ValidName(sourceName) && forall f :: f in features ==> ValidFeature(f)
    ensures r.Ok? ==> r.value.features == features && r.value.sourceName == sourceName && Bounding(features, r.value.bounds)
    ensures r != Err(WrongBounds)
  {
    AllPositionsExact(features);
    var coordinates: seq<Position> := [];
    for i := 0 to |features|
      invariant AllPositions(features[..i]) == Ok(coordinates)
    {
      assert features[i] in features && features[..i + 1][..i] == features[..i];
      var geometry := Get(features[i], "geometry");
      if geometry.Object? {
        GeometryExact(geometry);
        var next := ValidateGeometry(geometry, coordinates);
        if next.Err? {
          return Err(Malformed);
        }
        coordinates := next.value;
      } else {
        assert coordinates + [] == coordinates;
      }
    }
    assert features[..|features|] == features;
    var bounds := BoundsOf(coordinates);
    var c := Collection(features, sourceName, bounds);
    var checked := Validate(c);
    if checked.Err? {
      return Err(checked.error);
    }
    return Ok(c);
  }
}
