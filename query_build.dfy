/**
 * Turning one DSL key/value pair into query nodes: `Q`, `NotQ`, `idFormat`,
 * the foreign-key rewrite and the geo and pattern operators
 * (query.go:81-474).
 */
module QueryBuild {
  import opened Wrappers
  import opened GoStrings
  import opened ObjectIds
  import opened Values
  import opened QueryCompile
  import opened RefQuery

  // ---------------------------------------------------------------------
  // idFormat

  /** `TryString2ObjectID`: panics on anything but 24 hex digits. */
  function TextToId(s: string): Result<Value> {
    var id :- ParseHex(s);
    Ok(Oid(id))
  }

  function StrsToIds(ss: seq<string>): (r: Result<seq<Value>>)
    ensures r.Ok? ==> |r.value| == |ss|
  {
    if |ss| == 0 then Ok([])
    else
      var first :- TextToId(ss[0]);
      var rest :- StrsToIds(ss[1..]);
      Ok([first] + rest)
  }

  function ChunksToIds(bs: seq<seq<byte>>): (r: Result<seq<Value>>)
    ensures r.Ok? ==> |r.value| == |bs|
  {
    if |bs| == 0 then Ok([])
    else
      var first :- TextToId(BytesToString(bs[0]));
      var rest :- ChunksToIds(bs[1..]);
      Ok([first] + rest)
  }

  /** One element of a `[]interface{}`: strings and byte slices are parsed,
      anything else is kept. */
  function ItemToId(v: Value): Result<Value> {
    match v
    case Str(s) => TextToId(s)
    case Bytes(b) => TextToId(BytesToString(b))
    case _ => Ok(v)
  }

  function ItemsToIds(items: seq<Value>): (r: Result<seq<Value>>)
    ensures r.Ok? ==> |r.value| == |items|
  {
    if |items| == 0 then Ok([])
    else
      var first :- ItemToId(items[0]);
      var rest :- ItemsToIds(items[1..]);
      Ok([first] + rest)
  }

  /** `idFormat`: hex text becomes ObjectIDs; other values are unchanged. */
  function IdFormat(v: Value): Result<Value> {
    match v
    case Str(s) => TextToId(s)
    case Strs(ss) => var ids :- StrsToIds(ss); Ok(List(ids))
    case BytesList(bs) => var ids :- ChunksToIds(bs); Ok(List(ids))
    case List(items) => var ids :- ItemsToIds(items); Ok(List(ids))
    case _ => Ok(v)
  }

  /** The hex forms of some ids, as a `[]string`. */
  function HexStrings(ids: seq<ObjectId>): (ss: seq<string>)
    ensures |ss| == |ids| && forall i | 0 <= i < |ids| :: ss[i] == Hex(ids[i])
  {
    if |ids| == 0 then [] else [Hex(ids[0])] + HexStrings(ids[1..])
  }

  /** Some ids as the elements of a `[]interface{}`. */
  function OidValues(ids: seq<ObjectId>): (vs: seq<Value>)
    ensures |vs| == |ids| && forall i | 0 <= i < |ids| :: vs[i] == Oid(ids[i])
  {
    if |ids| == 0 then [] else [Oid(ids[0])] + OidValues(ids[1..])
  }

  /** The string slice of the hex forms of some ids converts back to exactly
      those ids. */
  lemma {:induction false} StrsToIdsHex(ids: seq<ObjectId>)
    ensures StrsToIds(HexStrings(ids)) == Ok(OidValues(ids))
  {
    if |ids| > 0 {
      HexRoundTrip(ids[0]);
      StrsToIdsHex(ids[1..]);
      assert HexStrings(ids)[1..] == HexStrings(ids[1..]);
    }
  }

  /** A string slice converts exactly when every element is 24 hex digits. */
  lemma {:induction false} StrsToIdsOk(ss: seq<string>)
    ensures StrsToIds(ss).Ok? <==> forall i | 0 <= i < |ss| :: |ss[i]| == 24 && IsHexText(ss[i])
  {
    if |ss| > 0 {
      StrsToIdsOk(ss[1..]);
      assert forall i | 1 <= i < |ss| :: ss[1..][i - 1] == ss[i];
    }
  }

  /** The byte string an element of a `[]interface{}` is parsed from, if any. */
  predicate IsIdText(v: Value) {
    v.Str? || v.Bytes?
  }

  function IdText(v: Value): string
    requires IsIdText(v)
  {
    if v.Str? then v.s else BytesToString(v.bytes)
  }

  /** In a `[]interface{}` every string and byte slice becomes an ObjectID and
      every other element is kept, position by position; the conversion fails
      exactly when some string or byte slice is not 24 hex digits. */
  lemma {:induction false} ItemsToIdsShape(items: seq<Value>)
    ensures ItemsToIds(items).Ok? <==>
      forall i | 0 <= i < |items| :: IsIdText(items[i]) ==> ParseHex(IdText(items[i])).Ok?
    ensures ItemsToIds(items).Ok? ==> forall i | 0 <= i < |items| ::
      ItemsToIds(items).value[i]
        == if IsIdText(items[i]) then Oid(ParseHex(IdText(items[i])).value) else items[i]
  {
    if |items| > 0 {
      ItemsToIdsShape(items[1..]);
      forall i | 1 <= i < |items|
        ensures items[i] == items[1..][i - 1]
      {
      }
      if ItemsToIds(items).Ok? {
        var r := ItemsToIds(items).value;
        assert r[1..] == ItemsToIds(items[1..]).value;
        forall i | 1 <= i < |items|
          ensures r[i] == ItemsToIds(items[1..]).value[i - 1]
        {
        }
      }
    }
  }

  // ---------------------------------------------------------------------
  // Foreign keys (generateForeignKeyCondition)

  /** The nodes a resolved id list is rewritten to, by match mode. */
  function RefNodes(key: string, ids: seq<Value>, mode: int): (r: Result<seq<Node>>)
    ensures r.Ok? <==> mode == RefDefault || mode == RefAll || mode == RefMatch
  {
    if mode == RefMatch then
      Ok([Node(key + ".$id__all", List(ids)), Node(key + "__size", Int(|ids|))])
    else if mode == RefAll then Ok([Node(key + ".$id__all", List(ids))])
    else if mode == RefDefault then Ok([Node(key + ".$id__in", List(ids))])
    else Err(RefModeUnknown)
  }

  function RefRewrite(key: string, rq: RefQ, store: Store): Result<QueryData> {
    if HasSep(key) then Err(RefKeyHasSep)
    else
      var d :- RefData(rq, key, store);
      var nodes :- RefNodes(key, d.0, d.1);
      Ok(QueryData(nodes, map[]))
  }

  /** `generateForeignKeyCondition`: `None` unless the value is a `refQ`. */
  function ForeignKeyCondition(key: string, v: Value, store: Store): (r: Result<Option<QueryData>>)
    ensures !v.RefQV? && !v.RefQValue? ==> r == Ok(None)
    ensures (v.RefQV? || v.RefQValue?) && HasSep(key) ==> r == Err(RefKeyHasSep)
    ensures r.Ok? && r.value.Some? ==> 1 <= |r.value.value.nodes| <= 2 && r.value.value.rawCond == map[]
  {
    match v
    case RefQV(rq) => var q :- RefRewrite(key, rq, store); Ok(Some(q))
    case RefQValue(rq) => var q :- RefRewrite(key, rq, store); Ok(Some(q))
    case _ => Ok(None)
  }

  // ---------------------------------------------------------------------
  // Geo operators (geoGeoComplexCondition, geoGeoCondition)

  function Geometry(kind: string, coordinates: Value): Value {
    Map(map["$geometry" := Map(map["type" := Str(kind), "coordinates" := coordinates])])
  }

  /** A polygon: one ring list `[][]float64` is promoted to `[][][]float64{v}`. */
  function PolygonCoordinates(v: Value): (r: Result<Value>)
    ensures r.Ok? <==> v.Floats2? || v.Floats3?
    ensures v.Floats2? ==> r == Ok(Floats3([v.xs2]))
    ensures v.Floats3? ==> r == Ok(v)
  {
    match v
    case Floats2(r) => Ok(Floats3([r]))
    case Floats3(rs) => Ok(v)
    case _ => Err(GeoBadValue)
  }

  function MultiPolygonCoordinates(v: Value): (r: Result<Value>)
    ensures r.Ok? <==> v.Floats3? || v.Floats4?
    ensures v.Floats3? ==> r == Ok(Floats4([v.xs3]))
    ensures v.Floats4? ==> r == Ok(v)
  {
    match v
    case Floats3(p) => Ok(Floats4([p]))
    case Floats4(ps) => Ok(v)
    case _ => Err(GeoBadValue)
  }

  /** Meters to radians, as the code converts a radius. */
  function RadiusToRadians(r: real): real {
    r / 1609.344 / 3963.2
  }

  /** A circle `[lng, lat, radius]`: exactly three numbers and a positive radius. */
  function Circle(v: Value): (r: Result<Value>)
    ensures r.Ok? <==> v.Floats1? && |v.xs1| == 3 && v.xs1[2] > 0.0
    ensures r.Ok? ==> r.value == List([Floats1(v.xs1[..2]), Float(RadiusToRadians(v.xs1[2]))])
  {
    match v
    case Floats1(xs) =>
      if |xs| != 3 then Err(GeoBadValue)
      else if xs[2] <= 0.0 then Err(GeoBadValue)
      else
        assert xs[..2] == [xs[0], xs[1]];
        Ok(List([Floats1([xs[0], xs[1]]), Float(RadiusToRadians(xs[2]))]))
    case _ => Err(GeoBadValue)
  }

  /** `geoGeoComplexCondition`: `None` when the operator is not one of its own. */
  function GeoComplex(parts: seq<string>, v: Value): Result<Option<(string, Value)>>
    requires |parts| >= 2
  {
    var f, op := parts[0], parts[1];
    if op == "geo_within_polygon" then
      var c :- PolygonCoordinates(v); Ok(Some((f + "__geoWithin", Geometry("Polygon", c))))
    else if op == "geo_within_multi_polygon" then
      var c :- MultiPolygonCoordinates(v); Ok(Some((f + "__geoWithin", Geometry("MultiPolygon", c))))
    else if op == "geo_within_center_sphere" then
      var c :- Circle(v); Ok(Some((f + "__geoWithin", Map(map["$centerSphere" := c]))))
    else if op == "geo_intersects_polygon" then
      var c :- PolygonCoordinates(v); Ok(Some((f + "__geoIntersects", Geometry("Polygon", c))))
    else if op == "geo_within_2d_box" then
      // the box itself is never stored: the payload is a nil [][]float64
      if v.Floats2? && |v.xs2| == 2 then Ok(Some((f + "__geoWithin", Map(map["$box" := Floats2([])]))))
      else Err(GeoBadValue)
    else if op == "geo_within_2d_polygon" then
      // likewise a nil [][]float64
      if v.Floats2? && |v.xs2| >= 3 then Ok(Some((f + "__geoWithin", Map(map["$polygon" := Floats2([])]))))
      else Err(GeoBadValue)
    else if op == "geo_within_2d_center" then
      var c :- Circle(v); Ok(Some((f + "__geoWithin", Map(map["$center" := c]))))
    else Ok(None)
  }

  /** The point and the distance bounds of `near`/`near_sphere`. A bare
      coordinate pair is checked but not kept (the point stays a nil
      `[]float64`); the upper bound is stored under "maxDistance". */
  function NearArgs(v: Value): Result<(Value, map<string, Value>)> {
    match v
    case Floats1(xs) => if |xs| != 2 then Err(GeoBadValue) else Ok((Floats1([]), map[]))
    case Map(m) =>
      var lo := if "min" in m then map["$minDistance" := m["min"]] else map[];
      var hi := if "max" in m then map["maxDistance" := m["max"]] else map[];
      if "point" in m && m["point"].Floats1? then
        if |m["point"].xs1| != 2 then Err(GeoBadValue) else Ok((m["point"], lo + hi))
      else Err(GeoBadValue)
    case _ => Err(GeoBadValue)
  }

  /** `geoGeoCondition` */
  function GeoNear(parts: seq<string>, v: Value): Result<Option<(string, Value)>>
    requires |parts| >= 2
  {
    if parts[1] == "near" || parts[1] == "near_sphere" then
      var args :- NearArgs(v);
      var suffix := if parts[1] == "near" then "__near" else "__nearSphere";
      Ok(Some((parts[0] + suffix, Map(map["$geometry" := Map(map["type" := Str("Point"), "coordinates" := args.0])] + args.1))))
    else Ok(None)
  }

  // ---------------------------------------------------------------------
  // Pattern operators and match (geoCondition)

  predicate IsPatternToken(op: string) {
    op in {"istartswith", "startswith", "iendswith", "endswith", "icontains", "contains"}
  }

  /** The regex for a pattern token: `esc` anchored at the start, at the end,
      or free, with `$options: "i"` for the `i` variants. */
  function RegexDoc(op: string, s: string): Value
    requires IsPatternToken(op)
  {
    var esc := QuoteMeta(s);
    var pattern :=
      if op == "istartswith" || op == "startswith" then "^" + esc + ".*"
      else if op == "iendswith" || op == "endswith" then ".*" + esc + "$"
      else ".*" + esc + ".*";
    if op[0] == 'i' then Map(map["$regex" := Str(pattern), "$options" := Str("i")])
    else Map(map["$regex" := Str(pattern)])
  }

  /** `geoCondition`: the key and value that go into the node. */
  function GeoCondition(key: string, parts: seq<string>, v: Value): Result<(string, Value)>
    requires |parts| >= 2
  {
    var g :- GeoComplex(parts, v);
    if g.Some? then Ok(g.value)
    else
      var n :- GeoNear(parts, v);
      if n.Some? then Ok(n.value)
      else if IsPatternToken(parts[1]) then
        match v
        case Str(s) => Ok((parts[0] + "__regex", RegexDoc(parts[1], s)))
        case _ => Err(PatternNotString)
      else if parts[1] == "match" then
        match v
        case QueryV(q) =>
          var c :- Cond(q);
          if |c| == 0 then Err(MatchEmpty) else Ok((parts[0] + "__elemMatch", Map(c)))
        case _ => Err(MatchNotQuery)
      else Ok((key, v))
  }

  // ---------------------------------------------------------------------
  // Q and NotQ

  /** Fields whose values go through `idFormat`. */
  predicate IsIdField(k: string) {
    k == "_id" || HasSuffix(k, ".$id")
  }

  /** `Q(key, value)`: one node, or the one or two nodes of a foreign key. */
  function Q(key: string, v: Value, store: Store): (r: Result<QueryData>)
    ensures r.Ok? ==> 1 <= |r.value.nodes| <= 2 && r.value.rawCond == map[]
    ensures r.Ok? && !v.RefQV? && !v.RefQValue? ==> |r.value.nodes| == 1
  {
    var fk :- ForeignKeyCondition(key, v, store);
    if fk.Some? then Ok(fk.value)
    else if HasSep(key) then
      SplitHasSep(key);
      var parts := Split(key);
      var v1 :- if IsIdField(parts[0]) then IdFormat(v) else Ok(v);
      var kv :- GeoCondition(key, parts, v1);
      Ok(QueryData([Node(kv.0, kv.1)], map[]))
    else
      var v1 :- if IsIdField(key) then IdFormat(v) else Ok(v);
      Ok(QueryData([Node(key, v1)], map[]))
  }

  /** The nodes `n` each wrapped in `$not`, in order. */
  function NegateEach(ns: seq<Node>): (r: seq<Node>)
    ensures |r| == |ns|
    ensures forall i | 0 <= i < |ns| :: r[i] == Node("$not", NodeV(ns[i]))
  {
    seq(|ns|, i requires 0 <= i < |ns| => Node("$not", NodeV(ns[i])))
  }

  /** `NotQ(key, value)`: a single node is wrapped in `$not`; several nodes
      become, by De Morgan, an `$or` of their negations. */
  function NotQ(key: string, v: Value, store: Store): (r: Result<QueryData>)
    ensures r.Ok? <==> Q(key, v, store).Ok?
    ensures r.Ok? ==> r.value.rawCond == map[] && |r.value.nodes| == 1
    ensures r.Ok? && |Q(key, v, store).value.nodes| == 1 ==>
      r.value.nodes == [Node("$not", NodeV(Q(key, v, store).value.nodes[0]))]
    ensures r.Ok? && |Q(key, v, store).value.nodes| > 1 ==>
      r.value.nodes == [Node("$or", Nodes(NegateEach(Q(key, v, store).value.nodes)))]
  {
    var raw :- Q(key, v, store);
    if |raw.nodes| == 0 then Err(NotQEmpty)
    else if |raw.nodes| == 1 then Ok(QueryData([Node("$not", NodeV(raw.nodes[0]))], map[]))
    else Ok(QueryData([Node("$or", Nodes(NegateEach(raw.nodes)))], map[]))
  }
}
