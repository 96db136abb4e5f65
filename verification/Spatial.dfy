/** Positions and bounds of GeoJSON feature collections
    (libs/core/src/grafy_core/spatial_contracts.py:338-400, 584-660). */
module Spatial {
  import opened Text
  import opened Json

  datatype Position = Position(longitude: real, latitude: real)

  datatype Error = NotFinite | OutOfRange | EmptyArray | Malformed | BadType | NotAFeature | BadName | WrongBounds

  // ---------------------------------------------------------------- reading positions

  predicate IsNumber(v: Value) { v.Int? || v.Float? || v.NonFinite? }

  predicate IsLeaf(v: Value) { v.Array? && |v.items| >= 2 && IsNumber(v.items[0]) && IsNumber(v.items[1]) }

  function AsReal(v: Value): real
    requires v.Int? || v.Float?
  {
    if v.Int? then v.whole as real else v.number
  }

  predicate InWgs84(p: Position) { -180.0 <= p.longitude <= 180.0 && -90.0 <= p.latitude <= 90.0 }

  function LeafPosition(v: Value): Result<Position, Error>
    requires IsLeaf(v)
  {
    if v.items[0].NonFinite? || v.items[1].NonFinite? then Err(NotFinite)
    else
      var p := Position(AsReal(v.items[0]), AsReal(v.items[1]));
      if InWgs84(p) then Ok(p) else Err(OutOfRange)
  }

  /** The positions of a coordinate array, outermost first. */
  function Positions(v: Value): Result<seq<Position>, Error>
    decreases v, if v.Array? then |v.items| + 1 else 0
  {
    if !v.Array? then Err(Malformed)
    else if IsLeaf(v) then
      var p := LeafPosition(v);
      if p.Ok? then Ok([p.value]) else Err(p.error)
    else if v.items == [] then Err(EmptyArray)
    else PositionsFrom(v, 0)
  }

  function PositionsFrom(v: Value, i: nat): Result<seq<Position>, Error>
    requires v.Array? && i <= |v.items|
    decreases v, |v.items| - i
  {
    if i == |v.items| then Ok([])
    else
      var first := Positions(v.items[i]);
      if first.Err? then first
      else
        var rest := PositionsFrom(v, i + 1);
        if rest.Err? then rest else Ok(first.value + rest.value)
  }

  predicate IsSimple(name: Value) {
    name.Text? && name.text in {"Point", "MultiPoint", "LineString", "MultiLineString", "Polygon", "MultiPolygon"}
  }

  predicate IsCollection(name: Value) { name.Text? && name.text == "GeometryCollection" }

  function Field(v: Value, key: string): Value
    requires v.Object?
  {
    if key in v.fields then v.fields[key] else Null
  }

  function GeometryPositions(g: Value): Result<seq<Position>, Error>
    requires g.Object?
    decreases g, 0
  {
    if IsCollection(Field(g, "type")) then
      if "geometries" in g.fields && g.fields["geometries"].Array? then ChildPositions(g, g.fields["geometries"], 0) else Err(Malformed)
    else if !IsSimple(Field(g, "type")) then Err(BadType)
    else if "coordinates" in g.fields && g.fields["coordinates"].Array? then Positions(g.fields["coordinates"])
    else Err(Malformed)
  }

  function ChildPositions(g: Value, children: Value, i: nat): Result<seq<Position>, Error>
    requires g.Object? && "geometries" in g.fields && children == g.fields["geometries"] && children.Array? && i <= |children.items|
    decreases children, |children.items| - i
  {
    if i == |children.items| then Ok([])
    else if !children.items[i].Object? then Err(Malformed)
    else
      var first := GeometryPositions(children.items[i]);
      if first.Err? then first
      else
        var rest := ChildPositions(g, children, i + 1);
        if rest.Err? then rest else Ok(first.value + rest.value)
  }

  // ---------------------------------------------------------------- the same, as a relation

  /** `p` stands somewhere inside the coordinate array. */
  ghost predicate Occurs(v: Value, p: Position)
    decreases v
  {
    if !v.Array? then false
    else if IsLeaf(v) then LeafPosition(v) == Ok(p)
    else exists i :: 0 <= i < |v.items| && Occurs(v.items[i], p)
  }

  /** `p` stands somewhere inside the geometry, in a collection of any depth. */
  ghost predicate OccursIn(g: Value, p: Position)
    decreases g
  {
    if !g.Object? then false
    else if IsCollection(Field(g, "type")) then
      "geometries" in g.fields && g.fields["geometries"].Array?
      && exists i :: 0 <= i < |g.fields["geometries"].items| && OccursIn(g.fields["geometries"].items[i], p)
    else "coordinates" in g.fields && Occurs(g.fields["coordinates"], p)
  }

  /** Every leaf is a position within range, and no array is empty. */
  ghost predicate WellPlaced(v: Value)
    decreases v
  {
    v.Array? && if IsLeaf(v) then LeafPosition(v).Ok? else v.items != [] && forall i :: 0 <= i < |v.items| ==> WellPlaced(v.items[i])
  }

  ghost predicate WellShaped(g: Value)
    decreases g
  {
    g.Object? &&
    if IsCollection(Field(g, "type")) then
      "geometries" in g.fields && g.fields["geometries"].Array?
      && forall i :: 0 <= i < |g.fields["geometries"].items| ==> WellShaped(g.fields["geometries"].items[i])
    else IsSimple(Field(g, "type")) && "coordinates" in g.fields && WellPlaced(g.fields["coordinates"])
  }

  lemma {:induction false} PositionsExact(v: Value)
    ensures Positions(v).Ok? <==> WellPlaced(v)
    ensures Positions(v).Ok? ==> forall p :: p in Positions(v).value <==> Occurs(v, p)
    ensures Positions(v).Ok? ==> Positions(v).value != []
    decreases v, if v.Array? then |v.items| + 1 else 0
  {
    if v.Array? && !IsLeaf(v) && v.items != [] {
      PositionsFromExact(v, 0);
      PositionsExact(v.items[0]);
      if Positions(v).Ok? { assert Positions(v.items[0]).value[0] in Positions(v).value; }
    }
  }

  lemma {:induction false} PositionsFromExact(v: Value, i: nat)
    requires v.Array? && i <= |v.items|
    ensures PositionsFrom(v, i).Ok? <==> forall k :: i <= k < |v.items| ==> WellPlaced(v.items[k])
    ensures PositionsFrom(v, i).Ok? ==>
              forall p :: p in PositionsFrom(v, i).value <==> exists k :: i <= k < |v.items| && Occurs(v.items[k], p)
    decreases v, |v.items| - i
  {
    if i < |v.items| {
      PositionsExact(v.items[i]);
      PositionsFromExact(v, i + 1);
    }
  }

  lemma {:induction false} GeometryExact(g: Value)
    requires g.Object?
    ensures GeometryPositions(g).Ok? <==> WellShaped(g)
    ensures GeometryPositions(g).Ok? ==> forall p :: p in GeometryPositions(g).value <==> OccursIn(g, p)
    decreases g, 0
  {
    if IsCollection(Field(g, "type")) {
      if "geometries" in g.fields && g.fields["geometries"].Array? { ChildrenExact(g, g.fields["geometries"], 0); }
    } else if "coordinates" in g.fields {
      PositionsExact(g.fields["coordinates"]);
    }
  }

  lemma {:induction false} ChildrenExact(g: Value, children: Value, i: nat)
    requires g.Object? && "geometries" in g.fields && children == g.fields["geometries"] && children.Array? && i <= |children.items|
    ensures ChildPositions(g, children, i).Ok? <==> forall k :: i <= k < |children.items| ==> WellShaped(children.items[k])
    ensures ChildPositions(g, children, i).Ok? ==>
              forall p :: p in ChildPositions(g, children, i).value
                     <==> exists k :: i <= k < |children.items| && OccursIn(children.items[k], p)
    decreases children, |children.items| - i
  {
    if i < |children.items| {
      if children.items[i].Object? { GeometryExact(children.items[i]); }
      ChildrenExact(g, children, i + 1);
    }
  }

  // ---------------------------------------------------------------- the recursion of the source

  ghost function Onto(observed: seq<Position>, r: Result<seq<Position>, Error>): Result<seq<Position>, Error> {
    if r.Ok? then Ok(observed + r.value) else r
  }

  /** Appends to what was observed so far. */
  method CollectPositions(v: Value, observed: seq<Position>) returns (r: Result<seq<Position>, Error>)
    requires v.Array?
    ensures r == Onto(observed, Positions(v))
    decreases v
  {
    if IsLeaf(v) {
      var p := LeafPosition(v);
      if p.Err? {
        return Err(p.error);
      }
      return Ok(observed + [p.value]);
    }
    if v.items == [] {
      return Err(EmptyArray);
    }
    var seen := observed;
    for i := 0 to |v.items|
      invariant Onto(seen, PositionsFrom(v, i)) == Onto(observed, Positions(v))
    {
      if !v.items[i].Array? {
        return Err(Malformed);
      }
      var next := CollectPositions(v.items[i], seen);
      if next.Err? {
        return next;
      }
      OntoJoins(seen, Positions(v.items[i]), PositionsFrom(v, i + 1));
      seen := next.value;
    }
    assert seen + [] == seen;
    return Ok(seen);
  }

  lemma {:induction false} OntoJoins(observed: seq<Position>, first: Result<seq<Position>, Error>, rest: Result<seq<Position>, Error>)
    requires first.Ok?
    ensures Onto(observed, if rest.Err? then rest else Ok(first.value + rest.value)) == Onto(observed + first.value, rest)
  {
    if rest.Ok? { assert observed + (first.value + rest.value) == (observed + first.value) + rest.value; }
  }

  method ValidateGeometry(g: Value, observed: seq<Position>) returns (r: Result<seq<Position>, Error>)
    requires g.Object?
    ensures r == Onto(observed, GeometryPositions(g))
    decreases g
  {
    var name := Field(g, "type");
    if !IsSimple(name) && !IsCollection(name) {
      return Err(BadType);
    }
    if IsCollection(name) {
      if "geometries" !in g.fields || !g.fields["geometries"].Array? {
        return Err(Malformed);
      }
      var children := g.fields["geometries"];
      var seen := observed;
      for i := 0 to |children.items|
        invariant Onto(seen, ChildPositions(g, children, i)) == Onto(observed, GeometryPositions(g))
      {
        if !children.items[i].Object? {
          return Err(Malformed);
        }
        var next := ValidateGeometry(children.items[i], seen);
        if next.Err? {
          return next;
        }
        OntoJoins(seen, GeometryPositions(children.items[i]), ChildPositions(g, children, i + 1));
        seen := next.value;
      }
      assert seen + [] == seen;
      return Ok(seen);
    }
    if "coordinates" !in g.fields || !g.fields["coordinates"].Array? {
      return Err(Malformed);
    }
    r := CollectPositions(g.fields["coordinates"], observed);
  }

  // ---------------------------------------------------------------- bounds

  datatype Bounds = Bounds(west: real, south: real, east: real, north: real)

  ghost predicate Contains(b: Bounds, p: Position) { b.west <= p.longitude <= b.east && b.south <= p.latitude <= b.north }

  /** The smallest box around the positions. */
  ghost predicate LeastBox(b: Bounds, ps: seq<Position>) {
    && (forall p :: p in ps ==> Contains(b, p))
    && (exists p :: p in ps && p.longitude == b.west) && (exists p :: p in ps && p.longitude == b.east)
    && (exists p :: p in ps && p.latitude == b.south) && (exists p :: p in ps && p.latitude == b.north)
  }

  method BoundsOf(ps: seq<Position>) returns (r: Option<Bounds>)
    ensures r.None? <==> ps == []
    ensures r.Some? ==> LeastBox(r.value, ps)
  {
    if ps == [] {
      return None;
    }
    var b := Bounds(ps[0].longitude, ps[0].latitude, ps[0].longitude, ps[0].latitude);
    for i := 1 to |ps|
      invariant LeastBox(b, ps[..i])
    {
      var p := ps[i];
      ghost var c := b;
      b := Bounds(
        if p.longitude < b.west then p.longitude else b.west, if p.latitude < b.south then p.latitude else b.south,
        if p.longitude > b.east then p.longitude else b.east, if p.latitude > b.north then p.latitude else b.north);
      assert ps[..i + 1] == ps[..i] + [p];
      assert forall q :: q in ps[..i] ==> Contains(c, q) && q in ps[..i + 1];
      assert p in ps[..i + 1];
    }
    assert ps[..|ps|] == ps;
    return Some(b);
  }

  lemma {:induction false} OneLeastBox(a: Bounds, b: Bounds, ps: seq<Position>)
    requires LeastBox(a, ps) && LeastBox(b, ps)
    ensures a == b
  {
  }

  /** Any box around the positions holds the least one. */
  lemma {:induction false} LeastBoxIsSmallest(b: Bounds, ps: seq<Position>, c: Bounds)
    requires LeastBox(b, ps) && forall p :: p in ps ==> Contains(c, p)
    ensures c.west <= b.west <= b.east <= c.east && c.south <= b.south <= b.north <= c.north
  {
    var w :| w in ps && w.longitude == b.west;
    var s :| s in ps && s.latitude == b.south;
  }
}
