/**
 * What `MixQ`, `And`, `Or` and `Nor` guarantee (query.go:479-640), stated
 * on their specification functions.
 */
module CombineProperties {
  import opened Wrappers
  import opened GoStrings
  import opened Values
  import opened QueryCompile
  import opened QueryBuild
  import opened QueryCombine
  import opened CompileProperties

  // ---------------------------------------------------------------------
  // And

  lemma AllNodesSingle(f: QueryData)
    ensures AllNodes([f]) == f.nodes
  {
    assert [f][..0] == [];
  }

  /** `And` over two lists of queries is `And` over the first, then over the
      second. */
  lemma {:induction false} AllNodesAppend(a: seq<QueryData>, b: seq<QueryData>)
    ensures AllNodes(a + b) == AllNodes(a) + AllNodes(b)
    decreases |b|
  {
    if |b| == 0 {
      assert a + b == a;
    } else {
      var b' := b[..|b| - 1];
      assert (a + b)[..|a + b| - 1] == a + b';
      assert (a + b)[|a + b| - 1] == b[|b| - 1];
      AllNodesAppend(a, b');
    }
  }

  /** The queries of `fs` that are not empty, in order. */
  function NonEmpty(fs: seq<QueryData>): (r: seq<QueryData>)
    ensures forall i | 0 <= i < |r| :: !IsEmpty(r[i])
  {
    if |fs| == 0 then []
    else if IsEmpty(fs[|fs| - 1]) then NonEmpty(fs[..|fs| - 1])
    else NonEmpty(fs[..|fs| - 1]) + [fs[|fs| - 1]]
  }

  /** Empty queries contribute no nodes to `And`. */
  lemma {:induction false} AllNodesNonEmpty(fs: seq<QueryData>)
    ensures AllNodes(NonEmpty(fs)) == AllNodes(fs)
  {
    if |fs| > 0 {
      var init := fs[..|fs| - 1];
      AllNodesNonEmpty(init);
      if !IsEmpty(fs[|fs| - 1]) {
        AllNodesAppend(NonEmpty(init), [fs[|fs| - 1]]);
        AllNodesSingle(fs[|fs| - 1]);
      }
    }
  }

  // ---------------------------------------------------------------------
  // Or and Nor

  /** An alternative `orNor` can take: it compiles, and a lone `$and` entry
      holds a list of documents. */
  predicate Alternative(f: QueryData) {
    Cond(f).Ok? && OrNorNode(Cond(f).value).Ok?
  }

  /** `orNor` panics exactly when one of the alternatives cannot be taken. */
  lemma {:induction false} OrNorNodesOk(fs: seq<QueryData>)
    ensures OrNorNodes(fs).Ok? <==> forall i | 0 <= i < |fs| :: Alternative(fs[i])
  {
    if |fs| > 0 {
      var init := fs[..|fs| - 1];
      OrNorNodesOk(init);
      if forall i | 0 <= i < |fs| :: Alternative(fs[i]) {
        assert forall i | 0 <= i < |init| :: Alternative(init[i]) by {
          forall i | 0 <= i < |init| ensures Alternative(init[i]) {
            assert init[i] == fs[i];
          }
        }
      }
      if OrNorNodes(fs).Ok? {
        forall i | 0 <= i < |fs| ensures Alternative(fs[i]) {
          if i < |init| {
            assert init[i] == fs[i];
          }
        }
      }
    }
  }

  /** `orNor` yields no node exactly when every alternative is an empty
      query: `Or`/`Nor` over empty queries change nothing. */
  lemma {:induction false} OrNorNodesNone(fs: seq<QueryData>)
    requires OrNorNodes(fs).Ok?
    ensures |OrNorNodes(fs).value| == 0 <==> forall i | 0 <= i < |fs| :: IsEmpty(fs[i])
  {
    if |fs| > 0 {
      var init := fs[..|fs| - 1];
      OrNorNodesNone(init);
      var last := fs[|fs| - 1];
      if forall i | 0 <= i < |fs| :: IsEmpty(fs[i]) {
        assert forall i | 0 <= i < |init| :: IsEmpty(init[i]) by {
          forall i | 0 <= i < |init| ensures IsEmpty(init[i]) {
            assert init[i] == fs[i];
          }
        }
        assert IsEmpty(last);
      }
      if |OrNorNodes(fs).value| == 0 {
        forall i | 0 <= i < |fs| ensures IsEmpty(fs[i]) {
          if i < |init| {
            assert init[i] == fs[i];
          }
        }
      }
    }
  }

  /** Empty alternatives are skipped. */
  lemma {:induction false} OrNorNodesNonEmpty(fs: seq<QueryData>)
    ensures OrNorNodes(NonEmpty(fs)) == OrNorNodes(fs)
  {
    if |fs| > 0 {
      var init := fs[..|fs| - 1];
      var last := fs[|fs| - 1];
      OrNorNodesNonEmpty(init);
      if !IsEmpty(last) {
        var ne := NonEmpty(init) + [last];
        assert ne[..|ne| - 1] == NonEmpty(init);
        assert ne[|ne| - 1] == last;
      }
    }
  }

  /** An alternative that compiles to a non-empty filter other than a lone
      `$and` entry. */
  predicate PlainAlternative(f: QueryData) {
    Cond(f).Ok? && |Cond(f).value| > 0 && !("$and" in Cond(f).value && |Cond(f).value| == 1)
  }

  /** The filter of a plain alternative. */
  function AltFilter(f: QueryData): Filter
    requires PlainAlternative(f)
  {
    Cond(f).value
  }

  /** The `$and` node `orNor` makes of a plain alternative. */
  function AltNode(f: QueryData): Node
    requires PlainAlternative(f)
  {
    Node("$and", Maps([Doc(AltFilter(f))]))
  }

  /** Every plain alternative becomes its own one-document `$and` list. */
  lemma {:induction false} OrNorNodesPlain(fs: seq<QueryData>)
    requires forall i | 0 <= i < |fs| :: PlainAlternative(fs[i])
    ensures OrNorNodes(fs).Ok?
    ensures |OrNorNodes(fs).value| == |fs|
    ensures forall i | 0 <= i < |fs| :: OrNorNodes(fs).value[i] == AltNode(fs[i])
  {
    if |fs| > 0 {
      var init := fs[..|fs| - 1];
      assert forall i | 0 <= i < |init| :: PlainAlternative(init[i]) by {
        forall i | 0 <= i < |init| ensures PlainAlternative(init[i]) {
          assert init[i] == fs[i];
        }
      }
      OrNorNodesPlain(init);
      forall i | 0 <= i < |fs| ensures OrNorNodes(fs).value[i] == AltNode(fs[i]) {
        if i < |init| {
          assert init[i] == fs[i];
        }
      }
    }
  }

  /** A filter whose only key is `$and`. */
  predicate LoneAnd(m: Filter) {
    "$and" in m && |m| == 1
  }

  /** An alternative that compiles to a non-empty filter, whose lone `$and`
      entry, if it has one, holds a list of documents. */
  predicate NonEmptyAlternative(f: QueryData) {
    Cond(f).Ok? && |Cond(f).value| > 0 && (LoneAnd(Cond(f).value) ==> Cond(f).value["$and"].Maps?)
  }

  /** The `$and` node `orNor` makes of such an alternative: its own `$and`
      list when that is its only entry, otherwise the one-document list of
      its filter. */
  function AltNodeOf(f: QueryData): Node
    requires NonEmptyAlternative(f)
  {
    var m := Cond(f).value;
    if LoneAnd(m) then Node("$and", m["$and"]) else Node("$and", Maps([Doc(m)]))
  }

  /** Every non-empty alternative becomes one `$and` node, in order; an
      alternative that compiles to `$and` alone is flattened into its list. */
  lemma {:induction false} OrNorNodesFlatten(fs: seq<QueryData>)
    requires forall i | 0 <= i < |fs| :: NonEmptyAlternative(fs[i])
    ensures OrNorNodes(fs).Ok?
    ensures |OrNorNodes(fs).value| == |fs|
    ensures forall i | 0 <= i < |fs| :: OrNorNodes(fs).value[i] == AltNodeOf(fs[i])
  {
    if |fs| > 0 {
      var init := fs[..|fs| - 1];
      assert forall i | 0 <= i < |init| :: NonEmptyAlternative(init[i]) by {
        forall i | 0 <= i < |init| ensures NonEmptyAlternative(init[i]) {
          assert init[i] == fs[i];
        }
      }
      OrNorNodesFlatten(init);
      forall i | 0 <= i < |fs| ensures OrNorNodes(fs).value[i] == AltNodeOf(fs[i]) {
        if i < |init| {
          assert init[i] == fs[i];
        }
      }
    }
  }

  /** An alternative compiling to `{$and: v}` where `v` is not a list of
      documents makes `orNor` panic, once the alternatives before it are
      taken. */
  lemma {:induction false} OrNorNodesAndNotMaps(fs: seq<QueryData>, j: nat)
    requires j < |fs|
    requires forall i | 0 <= i < j :: Alternative(fs[i])
    requires Cond(fs[j]).Ok? && LoneAnd(Cond(fs[j]).value) && !Cond(fs[j]).value["$and"].Maps?
    ensures OrNorNodes(fs) == Err(AndNotMapList)
  {
    var init := fs[..|fs| - 1];
    if j == |fs| - 1 {
      assert forall i | 0 <= i < |init| :: Alternative(init[i]) by {
        forall i | 0 <= i < |init| ensures Alternative(init[i]) {
          assert init[i] == fs[i];
        }
      }
      OrNorNodesOk(init);
    } else {
      assert forall i | 0 <= i < j :: Alternative(init[i]) by {
        forall i | 0 <= i < j ensures Alternative(init[i]) {
          assert init[i] == fs[i];
        }
      }
      assert init[j] == fs[j];
      OrNorNodesAndNotMaps(init, j);
    }
  }

  /** The documents `innerOrNorFilter` makes of `$and` nodes: one `$and`
      entry each. */
  lemma {:induction false} OrNorFilterAnd(ns: seq<Node>)
    requires forall i | 0 <= i < |ns| :: ns[i].key == "$and"
    ensures OrNorFilter(ns).Ok?
    ensures |OrNorFilter(ns).value| == |ns|
    ensures forall i | 0 <= i < |ns| :: OrNorFilter(ns).value[i] == Doc(map["$and" := ns[i].value])
  {
    if |ns| > 0 {
      var rest := ns[1..];
      assert forall i | 0 <= i < |rest| :: rest[i].key == "$and" by {
        forall i | 0 <= i < |rest| ensures rest[i].key == "$and" {
          assert rest[i] == ns[i + 1];
        }
      }
      OrNorFilterAnd(rest);
      assert NodeFilter(ns[0]) == Ok(("$and", ns[0].value));
      assert OrNorFilter(ns) == Ok([Doc(map["$and" := ns[0].value])] + OrNorFilter(rest).value);
      forall i | 0 <= i < |ns| ensures OrNorFilter(ns).value[i] == Doc(map["$and" := ns[i].value]) {
        if i > 0 {
          assert rest[i - 1] == ns[i];
        }
      }
    }
  }

  /** `Or`/`Nor` of plain alternatives on an empty query compiles to
      `{$and: [{key: [{$and: [m1]}, {$and: [m2]}, ...]}]}`, where `mi` is the
      filter of the i-th alternative. */
  lemma OrCompiles(key: string, fs: seq<QueryData>)
    requires IsOrNor(key) && |fs| > 0
    requires forall i | 0 <= i < |fs| :: PlainAlternative(fs[i])
    ensures OrNorQ(EmptyQuery, key, fs).Ok?
    ensures var c := Cond(OrNorQ(EmptyQuery, key, fs).value);
      && c.Ok? && c.value.Keys == {"$and"}
      && c.value["$and"].Maps? && |c.value["$and"].docs| == 1
      && c.value["$and"].docs[0].fields.Keys == {key}
      && c.value["$and"].docs[0].fields[key].Maps?
      && var alts := c.value["$and"].docs[0].fields[key].docs;
         |alts| == |fs|
         && forall i | 0 <= i < |fs| :: alts[i] == Doc(map["$and" := Maps([Doc(AltFilter(fs[i]))])])
  {
    OrNorNodesPlain(fs);
    var ns := OrNorNodes(fs).value;
    OrNorFilterAnd(ns);
    var n := Node(key, Nodes(ns));
    assert EmptyQuery.nodes + [n] == [n];
    assert OrNorQ(EmptyQuery, key, fs) == Ok(QueryData([n], map[]));
    FilterOfSingle(n);
    assert NodeFilter(n) == Ok((key, Maps(OrNorFilter(ns).value)));
    assert forall i | 0 <= i < |fs| :: ns[i] == AltNode(fs[i]);
  }

  // ---------------------------------------------------------------------
  // MixQ

  /** The bound only serves termination: it does not change the result. */
  lemma {:induction false} MixKeysBound(cond: map<string, Value>, keys: seq<string>, store: Store, b1: Value, b2: Value)
    requires Below(cond, b1) && Below(cond, b2)
    requires forall i | 0 <= i < |keys| :: keys[i] in cond
    ensures MixKeys(cond, keys, store, b1) == MixKeys(cond, keys, store, b2)
  {
    if |keys| > 0 {
      MixKeysBound(cond, keys[..|keys| - 1], store, b1, b2);
    }
  }

  lemma MixBound(cond: map<string, Value>, store: Store, bound: Value)
    requires Below(cond, bound)
    ensures MixQSpec(cond, store, bound) == MixQuery(cond, store)
  {
    MixKeysBound(cond, CondKeys(cond), store, bound, Map(cond));
  }

  /** A condition with one key is that key's entry applied to a new query. */
  lemma MixSingleEntry(k: string, v: Value, store: Store)
    ensures MixQuery(map[k := v], store) == MixEntry(EmptyQuery, k, v, store)
  {
    var cond := map[k := v];
    var ks := CondKeys(cond);
    assert cond.Keys == {k};
    assert ks == KeyOrder(cond.Keys);
    assert |ks| == 1 && ks[0] in cond.Keys;
    assert ks == [k];
    assert ks[..0] == [];
    assert MixKeys(cond, ks[..0], store, Map(cond)) == Ok(EmptyQuery);
    assert MixKeys(cond, ks, store, Map(cond)) == MixEntry(EmptyQuery, k, v, store);
    assert MixQSpec(cond, store, Map(cond)) == MixKeys(cond, ks, store, Map(cond));
  }

  /** A key that is neither empty, negated nor a combinator is `And(Q(k, v))`. */
  lemma MixSingle(k: string, v: Value, store: Store)
    requires k != "" && k[0] != '~' && !IsCombinator(k)
    ensures MixQuery(map[k := v], store) == Q(k, v, store)
  {
    MixSingleEntry(k, v, store);
    if Q(k, v, store).Ok? {
      AllNodesSingle(Q(k, v, store).value);
    }
  }

  /** `~k` is `And(NotQ(k, v))`; `~$and`, `~$or` and `~$nor` panic. */
  lemma MixTilde(k: string, v: Value, store: Store)
    ensures MixQuery(map["~" + k := v], store)
         == if IsCombinator(k) then Err(TildeCombinator) else NotQ(k, v, store)
  {
    MixSingleEntry("~" + k, v, store);
    assert ("~" + k)[1..] == k;
    if !IsCombinator(k) && NotQ(k, v, store).Ok? {
      AllNodesSingle(NotQ(k, v, store).value);
    }
  }

  /** The empty key is skipped. */
  lemma MixEmptyKey(v: Value, store: Store)
    ensures MixQuery(map["" := v], store) == Ok(EmptyQuery)
  {
    MixSingleEntry("", v, store);
  }

  /** `$and` given a map is the map itself. */
  lemma MixAndMap(m: map<string, Value>, store: Store)
    ensures MixQuery(map["$and" := Map(m)], store) == MixQuery(m, store)
  {
    MixSingleEntry("$and", Map(m), store);
    var items := [SubCond(m)];
    assert ArrQuery("$and", Map(m)) == Ok(items);
    assert items[..0] == [];
    assert SubQueries(items, store, Map(m))
        == (var s :- MixQSpec(m, store, Map(m)); Ok(if IsEmpty(s) then [] else [s]));
    if MixQuery(m, store).Ok? {
      AllNodesSingle(MixQuery(m, store).value);
    }
  }

  /** The items a `[]*Query` combinator value stands for. */
  function QueryItems(qs: seq<QueryData>): seq<Item> {
    seq(|qs|, i requires 0 <= i < |qs| => SubQuery(qs[i]))
  }

  lemma QueryItemsLast(qs: seq<QueryData>)
    requires |qs| > 0
    ensures QueryItems(qs)[..|qs| - 1] == QueryItems(qs[..|qs| - 1])
    ensures QueryItems(qs)[|qs| - 1] == SubQuery(qs[|qs| - 1])
  {
  }

  /** The sub-queries a list of queries yields: the non-empty ones. */
  lemma {:induction false} SubQueriesOfQueries(qs: seq<QueryData>, store: Store, bound: Value)
    ensures ItemsBelow(QueryItems(qs), bound)
    ensures SubQueries(QueryItems(qs), store, bound) == Ok(NonEmpty(qs))
  {
    if |qs| > 0 {
      SubQueriesOfQueries(qs[..|qs| - 1], store, bound);
      QueryItemsLast(qs);
    }
  }

  /** `$and` given queries is `And` over them; their raw conditions
      are not carried over. */
  lemma MixAndQueries(qs: seq<QueryData>, store: Store)
    ensures MixQuery(map["$and" := Queries(qs)], store) == Ok(QueryData(AllNodes(qs), map[]))
  {
    MixSingleEntry("$and", Queries(qs), store);
    assert ArrQuery("$and", Queries(qs)) == Ok(QueryItems(qs));
    assert "$and"[0] == '$';
    SubQueriesOfQueries(qs, store, Queries(qs));
    AllNodesNonEmpty(qs);
    var subs := NonEmpty(qs);
    if |subs| == 0 {
      assert AllNodes(subs) == [];
      assert MixEntry(EmptyQuery, "$and", Queries(qs), store) == Ok(EmptyQuery);
    } else {
      assert MixEntry(EmptyQuery, "$and", Queries(qs), store) == Ok(AndQ(EmptyQuery, subs));
      assert [] + AllNodes(subs) == AllNodes(subs);
    }
  }

  /** `$or`/`$nor` given queries is `Or`/`Nor` over them. */
  lemma MixOrNorQueries(key: string, qs: seq<QueryData>, store: Store)
    requires IsOrNor(key)
    ensures MixQuery(map[key := Queries(qs)], store) == OrNorQ(EmptyQuery, key, qs)
  {
    MixSingleEntry(key, Queries(qs), store);
    assert ArrQuery(key, Queries(qs)) == Ok(QueryItems(qs));
    assert key[0] == '$';
    SubQueriesOfQueries(qs, store, Queries(qs));
    OrNorNodesNonEmpty(qs);
    var subs := NonEmpty(qs);
    if |subs| == 0 {
      assert OrNorNodes(subs) == Ok([]);
      assert MixEntry(EmptyQuery, key, Queries(qs), store) == Ok(EmptyQuery);
    } else {
      assert MixEntry(EmptyQuery, key, Queries(qs), store) == OrNorQ(EmptyQuery, key, subs);
    }
  }

  /** A key that `MixQ` hands to `Q`. */
  predicate PlainKey(k: string) {
    k != "" && k[0] != '~' && !IsCombinator(k)
  }

  /** The query `Q` builds for each key of `keys`, in order. */
  function PlainQueries(cond: map<string, Value>, keys: seq<string>, store: Store): seq<QueryData>
    requires forall i | 0 <= i < |keys| :: keys[i] in cond && Q(keys[i], cond[keys[i]], store).Ok?
  {
    if |keys| == 0 then []
    else PlainQueries(cond, keys[..|keys| - 1], store) + [Q(keys[|keys| - 1], cond[keys[|keys| - 1]], store).value]
  }

  /** A condition of plain keys is the `And` of their `Q`s. */
  lemma {:induction false} MixPlainKeys(cond: map<string, Value>, keys: seq<string>, store: Store, bound: Value)
    requires Below(cond, bound)
    requires forall i | 0 <= i < |keys| :: keys[i] in cond && PlainKey(keys[i]) && Q(keys[i], cond[keys[i]], store).Ok?
    ensures MixKeys(cond, keys, store, bound) == Ok(QueryData(AllNodes(PlainQueries(cond, keys, store)), map[]))
  {
    if |keys| > 0 {
      var init := keys[..|keys| - 1];
      var k := keys[|keys| - 1];
      MixPlainKeys(cond, init, store, bound);
      var qs := PlainQueries(cond, init, store);
      var n := Q(k, cond[k], store).value;
      AllNodesAppend(qs, [n]);
      AllNodesSingle(n);
    }
  }
}
