/**
 * What `Q`, `NotQ` and the operator translations guarantee, stated through
 * the filter each pair compiles to (query.go:81-474).
 */
module BuildProperties {
  import opened Wrappers
  import opened GoStrings
  import opened ObjectIds
  import opened Values
  import opened QueryCompile
  import opened CompileProperties
  import opened RefQuery
  import opened QueryBuild

  predicate NotRef(v: Value) {
    !v.RefQV? && !v.RefQValue?
  }

  /** The operator tokens that `Q` translates itself. */
  predicate IsBuilderToken(op: string) {
    op in {"geo_within_polygon", "geo_within_multi_polygon", "geo_within_center_sphere",
           "geo_intersects_polygon", "geo_within_2d_box", "geo_within_2d_polygon",
           "geo_within_2d_center", "near", "near_sphere", "match"}
    || IsPatternToken(op)
  }

  /** A key without "__" gives one node with the key and value unchanged,
      compiling to `{key: {$eq: value}}`. */
  lemma QPlainKey(k: string, v: Value, store: Store)
    requires !HasSep(k) && !IsIdField(k) && NotRef(v)
    requires k != "$or" && k != "$nor" && k != "$not" && k != "$and"
    ensures Q(k, v, store) == Ok(QueryData([Node(k, v)], map[]))
    ensures Cond(Q(k, v, store).value) == Ok(map[k := Map(map["$eq" := v])])
  {
    CompileEq(k, v);
  }

  /** `Q` on a key `f__op`: the value goes through `idFormat` when `f` is an
      id field, then through the operator translation. */
  lemma QSplitKey(k: string, f: string, op: string, v: Value, store: Store)
    requires FieldOpKey(k, f, op) && NotRef(v)
    ensures Q(k, v, store)
         == (var v1 :- if IsIdField(f) then IdFormat(v) else Ok(v);
             var kv :- GeoCondition(k, [f, op], v1);
             Ok(QueryData([Node(kv.0, kv.1)], map[])))
  {
  }

  /** An operator `Q` does not translate leaves the key and value alone. */
  lemma GeoConditionPlain(key: string, parts: seq<string>, v: Value)
    requires |parts| >= 2 && !IsBuilderToken(parts[1])
    ensures GeoCondition(key, parts, v) == Ok((key, v))
  {
    assert GeoComplex(parts, v) == Ok(None);
    assert GeoNear(parts, v) == Ok(None);
  }

  /** The node `Q` builds for a plain operator key `f__op`. */
  lemma QOperatorNode(k: string, f: string, op: string, v: Value, store: Store)
    requires FieldOpKey(k, f, op) && !IsIdField(f) && !IsBuilderToken(op) && NotRef(v)
    ensures Q(k, v, store) == Ok(QueryData([Node(k, v)], map[]))
  {
    QSplitKey(k, f, op, v, store);
    GeoConditionPlain(k, [f, op], v);
  }

  /** A key `f__op` with an operator `Q` does not translate gives one node,
      compiling to `{f: {"$op": v}}` (or `{f: v}` for `regex`). */
  lemma QOperatorKey(k: string, f: string, op: string, v: Value, store: Store)
    requires FieldOpKey(k, f, op) && !IsIdField(f) && !IsBuilderToken(op) && NotRef(v)
    ensures Q(k, v, store) == Ok(QueryData([Node(k, v)], map[]))
    ensures Cond(Q(k, v, store).value) == Ok(map[f := OpDoc(op, v)])
  {
    QOperatorNode(k, f, op, v, store);
    CompileOp(k, f, op, v);
  }

  /** A pattern token becomes a `f__regex` node whose value is the regex
      document, inlined under `f` by the compiler. */
  lemma QPatternKey(k: string, f: string, op: string, s: string, store: Store)
    requires FieldOpKey(k, f, op) && IsPatternToken(op) && !IsIdField(f)
    requires !HasSep(f) && (|f| == 0 || f[|f| - 1] != '_')
    ensures Q(k, Str(s), store) == Ok(QueryData([Node(f + "__regex", RegexDoc(op, s))], map[]))
    ensures Cond(Q(k, Str(s), store).value) == Ok(map[f := RegexDoc(op, s)])
  {
    QPatternNode(k, f, op, s, store);
    RegexKey(f);
    CompileOp(f + "__regex", f, "regex", RegexDoc(op, s));
  }

  lemma QPatternNode(k: string, f: string, op: string, s: string, store: Store)
    requires FieldOpKey(k, f, op) && IsPatternToken(op) && !IsIdField(f)
    ensures Q(k, Str(s), store) == Ok(QueryData([Node(f + "__regex", RegexDoc(op, s))], map[]))
  {
    QSplitKey(k, f, op, Str(s), store);
    assert GeoComplex([f, op], Str(s)) == Ok(None);
    assert GeoNear([f, op], Str(s)) == Ok(None);
  }

  lemma RegexKey(f: string)
    requires !HasSep(f) && (|f| == 0 || f[|f| - 1] != '_') && !IsOrNor(f)
    ensures FieldOpKey(f + "__regex", f, "regex")
  {
    NoUnderscoreNoSep("regex");
    OperatorKey(f, "regex");
    assert f + "__" + "regex" == f + "__regex";
  }

  /** A pattern value that is not a string is rejected. */
  lemma QPatternNotString(k: string, f: string, op: string, v: Value, store: Store)
    requires FieldOpKey(k, f, op) && IsPatternToken(op) && !IsIdField(f) && NotRef(v) && !v.Str?
    ensures Q(k, v, store) == Err(PatternNotString)
  {
    QSplitKey(k, f, op, v, store);
    assert GeoComplex([f, op], v) == Ok(None);
    assert GeoNear([f, op], v) == Ok(None);
    assert GeoCondition(k, [f, op], v) == Err(PatternNotString);
  }

  /** The regex of each pattern token: the escaped literal (which reads back
      as the given text) anchored at the start for `startswith`, at the end for
      `endswith` and nowhere for `contains`; `$options: "i"` is present exactly
      for the `i` variants. */
  lemma RegexDocShape(op: string, s: string)
    requires IsPatternToken(op)
    ensures var d := RegexDoc(op, s);
      && d.Map? && "$regex" in d.fields
      && ("$options" in d.fields <==> op in {"istartswith", "iendswith", "icontains"})
      && ("$options" in d.fields ==> d.fields["$options"] == Str("i"))
      && d.fields.Keys <= {"$regex", "$options"}
      && (op in {"istartswith", "startswith"} ==> d.fields["$regex"] == Str("^" + QuoteMeta(s) + ".*"))
      && (op in {"iendswith", "endswith"} ==> d.fields["$regex"] == Str(".*" + QuoteMeta(s) + "$"))
      && (op in {"icontains", "contains"} ==> d.fields["$regex"] == Str(".*" + QuoteMeta(s) + ".*"))
    ensures Unquote(QuoteMeta(s)) == s
  {
    QuoteMetaRoundTrip(s);
  }

  /** Hex text on `_id` becomes the ObjectID it spells. */
  lemma QIdHex(id: ObjectId, store: Store)
    ensures Q("_id", Str(Hex(id)), store) == Ok(QueryData([Node("_id", Oid(id))], map[]))
  {
    HexRoundTrip(id);
    assert !HasSep("_id");
  }

  /** Text on `_id` that is not 24 hex digits is rejected. */
  lemma QIdInvalid(s: string, store: Store)
    requires !(|s| == 24 && IsHexText(s))
    ensures Q("_id", Str(s), store) == Err(InvalidHex)
  {
    assert !HasSep("_id");
  }

  /** On an id field of a key `f__op`, `Q` keeps the operator and passes the
      value through `idFormat`. */
  lemma QIdOperatorNode(k: string, f: string, op: string, v: Value, store: Store)
    requires FieldOpKey(k, f, op) && IsIdField(f) && !IsBuilderToken(op) && NotRef(v)
    requires IdFormat(v).Ok?
    ensures Q(k, v, store) == Ok(QueryData([Node(k, IdFormat(v).value)], map[]))
  {
    QSplitKey(k, f, op, v, store);
    GeoConditionPlain(k, [f, op], IdFormat(v).value);
  }

  /** The DSL key `_id__in`. */
  lemma IdInKey()
    ensures FieldOpKey("_id__in", "_id", "in")
  {
    NoUnderscoreNoSep("in");
    assert !HasSep("_id") by {
      assert "_id"[1] != '_';
    }
    OperatorKey("_id", "in");
    assert "_id" + "__" + "in" == "_id__in";
  }

  /** `_id__in` is an operator key on the id field. */
  lemma IdInFacts()
    ensures FieldOpKey("_id__in", "_id", "in") && IsIdField("_id") && !IsBuilderToken("in")
  {
    IdInKey();
    NoUnderscoreNoSep("in");
  }

  /** The value of an `_id__in` key is converted to ObjectIDs. */
  lemma QIdIn(v: Value, store: Store)
    requires NotRef(v) && IdFormat(v).Ok?
    ensures Q("_id__in", v, store) == Ok(QueryData([Node("_id__in", IdFormat(v).value)], map[]))
  {
    IdInFacts();
    QIdOperatorNode("_id__in", "_id", "in", v, store);
  }

  /** A `[]string` of hex forms on `_id__in` becomes the `[]interface{}` of
      their ObjectIDs. */
  lemma QIdList(ids: seq<ObjectId>, store: Store)
    ensures Q("_id__in", Strs(HexStrings(ids)), store)
         == Ok(QueryData([Node("_id__in", List(OidValues(ids)))], map[]))
  {
    StrsToIdsHex(ids);
    QIdIn(Strs(HexStrings(ids)), store);
  }

  /** `geo_within_polygon` promotes a single ring list to a one-element list. */
  lemma QPolygonPromotes(k: string, f: string, ring: seq<seq<real>>, store: Store)
    requires FieldOpKey(k, f, "geo_within_polygon") && !IsIdField(f)
    ensures Q(k, Floats2(ring), store)
         == Ok(QueryData([Node(f + "__geoWithin", Geometry("Polygon", Floats3([ring])))], map[]))
  {
    QSplitKey(k, f, "geo_within_polygon", Floats2(ring), store);
    assert GeoCondition(k, [f, "geo_within_polygon"], Floats2(ring))
        == Ok((f + "__geoWithin", Geometry("Polygon", Floats3([ring]))));
  }

  /** The two circle operators accept exactly a `[]float64` of length 3 whose
      radius is positive. */
  lemma QCircleChecks(k: string, f: string, op: string, v: Value, store: Store)
    requires op == "geo_within_center_sphere" || op == "geo_within_2d_center"
    requires FieldOpKey(k, f, op) && !IsIdField(f) && NotRef(v)
    ensures Q(k, v, store).Ok? <==> v.Floats1? && |v.xs1| == 3 && v.xs1[2] > 0.0
  {
    QSplitKey(k, f, op, v, store);
    assert GeoCondition(k, [f, op], v).Ok? <==> Circle(v).Ok?;
  }

  /** `match` takes a query and stores its compiled filter under
      `$elemMatch`; it rejects any other value, and a query that compiles to
      an empty filter. */
  lemma QMatch(k: string, f: string, v: Value, store: Store)
    requires FieldOpKey(k, f, "match") && !IsIdField(f) && NotRef(v)
    ensures !v.QueryV? ==> Q(k, v, store) == Err(MatchNotQuery)
    ensures v.QueryV? && Cond(v.query).Ok? ==>
      (Q(k, v, store).Ok? <==> !IsEmpty(v.query))
    ensures v.QueryV? && Q(k, v, store).Ok? ==>
      Cond(v.query).Ok? && Q(k, v, store).value.nodes == [Node(f + "__elemMatch", Map(Cond(v.query).value))]
  {
    QSplitKey(k, f, "match", v, store);
    assert GeoComplex([f, "match"], v) == Ok(None);
    assert GeoNear([f, "match"], v) == Ok(None);
    if !v.QueryV? {
      assert GeoCondition(k, [f, "match"], v) == Err(MatchNotQuery);
    } else {
      var q := v.query;
      if Cond(q).Ok? {
        var c := Cond(q).value;
        if |c| == 0 {
          assert GeoCondition(k, [f, "match"], v) == Err(MatchEmpty);
        } else {
          assert GeoCondition(k, [f, "match"], v) == Ok((f + "__elemMatch", Map(c)));
        }
      }
    }
  }

  /** The `geo_within_2d_box` payload does not depend on the box given: the
      code checks its length and then stores a nil list. */
  lemma QBoxIgnoresCorners(k: string, f: string, b1: seq<seq<real>>, b2: seq<seq<real>>, store: Store)
    requires FieldOpKey(k, f, "geo_within_2d_box") && !IsIdField(f)
    requires |b1| == 2 && |b2| == 2
    ensures Q(k, Floats2(b1), store) == Q(k, Floats2(b2), store)
    ensures Q(k, Floats2(b1), store)
         == Ok(QueryData([Node(f + "__geoWithin", Map(map["$box" := Floats2([])]))], map[]))
  {
    QSplitKey(k, f, "geo_within_2d_box", Floats2(b1), store);
    QSplitKey(k, f, "geo_within_2d_box", Floats2(b2), store);
    assert GeoCondition(k, [f, "geo_within_2d_box"], Floats2(b1))
        == Ok((f + "__geoWithin", Map(map["$box" := Floats2([])])));
    assert GeoCondition(k, [f, "geo_within_2d_box"], Floats2(b2))
        == Ok((f + "__geoWithin", Map(map["$box" := Floats2([])])));
  }

  /** `near` with a bare coordinate pair checks its length and stores a nil
      point, whatever the pair. */
  lemma QNearIgnoresBarePoint(k: string, f: string, p1: seq<real>, p2: seq<real>, store: Store)
    requires FieldOpKey(k, f, "near") && !IsIdField(f)
    requires |p1| == 2 && |p2| == 2
    ensures Q(k, Floats1(p1), store) == Q(k, Floats1(p2), store)
  {
    QSplitKey(k, f, "near", Floats1(p1), store);
    QSplitKey(k, f, "near", Floats1(p2), store);
    assert GeoCondition(k, [f, "near"], Floats1(p1)) == GeoCondition(k, [f, "near"], Floats1(p2));
  }

  // ---------------------------------------------------------------------
  // Foreign keys

  /** The two DSL keys a foreign key column is rewritten to. */
  lemma RefKeys(key: string)
    requires !HasSep(key) && (|key| == 0 || key[|key| - 1] != '_') && !IsOrNor(key)
    ensures FieldOpKey(key + ".$id__all", key + ".$id", "all")
    ensures FieldOpKey(key + ".$id__in", key + ".$id", "in")
    ensures FieldOpKey(key + "__size", key, "size")
    ensures key + ".$id" != key
  {
    var idf := key + ".$id";
    NoUnderscoreNoSep(".$id");
    NoSepConcat(key, ".$id");
    assert idf[|idf| - 1] == 'd';
    assert !IsOrNor(idf) by {
      assert idf[|idf| - 4] == '.';
    }
    NoUnderscoreNoSep("all");
    NoUnderscoreNoSep("in");
    NoUnderscoreNoSep("size");
    OperatorKey(idf, "all");
    OperatorKey(idf, "in");
    OperatorKey(key, "size");
    assert idf + "__" + "all" == key + ".$id__all";
    assert idf + "__" + "in" == key + ".$id__in";
    assert key + "__" + "size" == key + "__size";
    assert |idf| != |key|;
  }

  /** A `refQ` value on a column is replaced by the nodes of its rewrite. */
  lemma QRef(key: string, rq: RefQ, store: Store)
    requires !HasSep(key)
    ensures Q(key, RefQV(rq), store) == RefRewrite(key, rq, store)
    ensures Q(key, RefQValue(rq), store) == RefRewrite(key, rq, store)
  {
  }

  /** In `match` mode a foreign key compiles to
      `{key.$id: {$all: ids}, key: {$size: |ids|}}`: the referenced ids are
      exactly the column's. */
  lemma RefMatchCompiles(key: string, ids: seq<Value>)
    requires !HasSep(key) && (|key| == 0 || key[|key| - 1] != '_') && !IsOrNor(key)
    ensures Cond(QueryData(RefNodes(key, ids, RefMatch).value, map[]))
         == Ok(map[key + ".$id" := Map(map["$all" := List(ids)]), key := Map(map["$size" := Int(|ids|)])])
  {
    var n1 := Node(key + ".$id__all", List(ids));
    var n2 := Node(key + "__size", Int(|ids|));
    RefKeys(key);
    OperatorNames();
    CondOfNodes([n1, n2]);
    CompileOp(n1.key, key + ".$id", "all", List(ids));
    NodeFilterOp(n2.key, key, "size", Int(|ids|));
    FilterOfPair(n1, n2);
    AddEntryNew(map[key + ".$id" := Map(map["$all" := List(ids)])], key, Map(map["$size" := Int(|ids|)]));
  }

  /** In `all` mode a foreign key compiles to `{key.$id: {$all: ids}}`. */
  lemma RefAllCompiles(key: string, ids: seq<Value>)
    requires !HasSep(key) && (|key| == 0 || key[|key| - 1] != '_') && !IsOrNor(key)
    ensures Cond(QueryData(RefNodes(key, ids, RefAll).value, map[]))
         == Ok(map[key + ".$id" := Map(map["$all" := List(ids)])])
  {
    RefKeys(key);
    OperatorNames();
    CondOfNodes([Node(key + ".$id__all", List(ids))]);
    CompileOp(key + ".$id__all", key + ".$id", "all", List(ids));
  }

  /** In the default mode a foreign key compiles to `{key.$id: {$in: ids}}`. */
  lemma RefDefaultCompiles(key: string, ids: seq<Value>)
    requires !HasSep(key) && (|key| == 0 || key[|key| - 1] != '_') && !IsOrNor(key)
    ensures Cond(QueryData(RefNodes(key, ids, RefDefault).value, map[]))
         == Ok(map[key + ".$id" := Map(map["$in" := List(ids)])])
  {
    RefKeys(key);
    OperatorNames();
    CondOfNodes([Node(key + ".$id__in", List(ids))]);
    CompileOp(key + ".$id__in", key + ".$id", "in", List(ids));
  }

  /** Brings the operator names built by `"$" + op` into scope for the
      compile lemmas above; it models nothing of its own. */
  lemma OperatorNames()
    ensures "$" + "all" == "$all" && "$" + "in" == "$in" && "$" + "size" == "$size"
  {
  }

  /** A query without a raw condition compiles its nodes. */
  lemma CondOfNodes(nodes: seq<Node>)
    ensures Cond(QueryData(nodes, map[])) == FilterOf(nodes)
  {
  }

  /** A new plain field is added as it is. */
  lemma AddEntryNew(f: Filter, k: string, v: Value)
    requires !IsOrNor(k) && k !in f
    ensures AddEntry(f, k, v) == Ok(f[k := v])
  {
  }

  // ---------------------------------------------------------------------
  // NotQ

  /** Negating a key whose `Q` is one node compiles to the node's own filter
      entry with its value under `$not`. */
  lemma NotQSingle(key: string, v: Value, store: Store)
    requires Q(key, v, store).Ok? && |Q(key, v, store).value.nodes| == 1
    requires NodeFilter(Q(key, v, store).value.nodes[0]).Ok?
    requires !IsOrNor(NodeFilter(Q(key, v, store).value.nodes[0]).value.0)
    ensures var kv := NodeFilter(Q(key, v, store).value.nodes[0]).value;
      Cond(NotQ(key, v, store).value) == Ok(map[kv.0 := Map(map["$not" := kv.1])])
  {
    var n := Node("$not", NodeV(Q(key, v, store).value.nodes[0]));
    FilterOfSingle(n);
  }

  /** Negating a foreign key in match mode gives, by De Morgan, an `$or` of
      the two negated conditions. */
  lemma NotQRefMatch(key: string, rq: RefQ, store: Store)
    requires !HasSep(key) && (|key| == 0 || key[|key| - 1] != '_') && !IsOrNor(key)
    requires RefData(rq, key, store).Ok? && RefData(rq, key, store).value.1 == RefMatch
    ensures var ids := RefData(rq, key, store).value.0;
      NotQ(key, RefQV(rq), store)
        == Ok(QueryData([Node("$or", Nodes([Node("$not", NodeV(Node(key + ".$id__all", List(ids)))),
                                            Node("$not", NodeV(Node(key + "__size", Int(|ids|))))]))], map[]))
  {
    QRef(key, rq, store);
    var ids := RefData(rq, key, store).value.0;
    var ns := [Node(key + ".$id__all", List(ids)), Node(key + "__size", Int(|ids|))];
    assert NegateEach(ns) == [Node("$not", NodeV(ns[0])), Node("$not", NodeV(ns[1]))];
  }
}
