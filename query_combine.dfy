/**
 * Combining queries: `MixQ`, `SetRawCond`, `And`, `Empty`, `orNor`, `Or`,
 * `Nor` and `Cond` of the `Query` object (query.go:479-640, 719-726).
 *
 * Each operation is specified by a function on `QueryData` (the nodes and
 * the raw condition of a query) and carried out, as in the code, by a
 * method that updates a `Query` object in a loop. A Go panic is an `Err`.
 * Queries passed as arguments are given by value.
 */
module QueryCombine {
  import opened Wrappers
  import opened GoStrings
  import opened Values
  import opened QueryCompile
  import opened QueryBuild

  // ---------------------------------------------------------------------
  // And

  /** The nodes of several queries, one query after the other. */
  function AllNodes(fs: seq<QueryData>): seq<Node> {
    if |fs| == 0 then [] else AllNodes(fs[..|fs| - 1]) + fs[|fs| - 1].nodes
  }

  /** `q.And(fs...)` */
  function AndQ(q: QueryData, fs: seq<QueryData>): QueryData {
    QueryData(q.nodes + AllNodes(fs), q.rawCond)
  }

  // ---------------------------------------------------------------------
  // Or and Nor

  /** What `orNor` makes of one compiled alternative: nothing when it is
      empty; its `$and` list when that is its only key (the list must be a
      `[]map[string]interface{}`); otherwise a one-element `$and` list. */
  function OrNorNode(m: Filter): (r: Result<Option<Node>>)
    ensures r.Ok? ==> (r.value.None? <==> |m| == 0)
    ensures r.Ok? && r.value.Some? ==> r.value.value.key == "$and" && r.value.value.value.Maps?
    ensures r.Err? <==> "$and" in m && |m| == 1 && !m["$and"].Maps?
    ensures r.Err? ==> r.error == AndNotMapList
    ensures r.Ok? && "$and" in m && |m| == 1 ==> r.value == Some(Node("$and", m["$and"]))
  {
    if |m| == 0 then Ok(None)
    else if "$and" in m && |m| == 1 then
      match m["$and"]
      case Maps(ds) => Ok(Some(Node("$and", Maps(ds))))
      case _ => Err(AndNotMapList)
    else Ok(Some(Node("$and", Maps([Doc(m)]))))
  }

  /** `orNor(fs...)`: the alternatives compiled one by one, in order. */
  function OrNorNodes(fs: seq<QueryData>): (r: Result<seq<Node>>)
    ensures r.Ok? ==> |r.value| <= |fs|
    ensures r.Ok? ==> forall i | 0 <= i < |r.value| :: r.value[i].key == "$and" && r.value[i].value.Maps?
  {
    if |fs| == 0 then Ok([])
    else
      var ns :- OrNorNodes(fs[..|fs| - 1]);
      var m :- Cond(fs[|fs| - 1]);
      var o :- OrNorNode(m);
      if o.Some? then Ok(ns + [o.value]) else Ok(ns)
  }

  /** `q.Or(fs...)` (key `$or`) and `q.Nor(fs...)` (key `$nor`): one node
      holding the alternatives, unless none is left. */
  function OrNorQ(q: QueryData, key: string, fs: seq<QueryData>): Result<QueryData> {
    var ns :- OrNorNodes(fs);
    if |ns| == 0 then Ok(q) else Ok(QueryData(q.nodes + [Node(key, Nodes(ns))], q.rawCond))
  }

  predicate IsCombinator(k: string) {
    k == "$and" || k == "$or" || k == "$nor"
  }

  // ---------------------------------------------------------------------
  // MixQ

  /** One element of the list a combinator key is given. */
  datatype Item = SubCond(cond: map<string, Value>) | SubQuery(query: QueryData) | OtherItem

  function ItemOf(v: Value): Item {
    match v
    case Map(m) => SubCond(m)
    case QueryV(q) => SubQuery(q)
    case _ => OtherItem
  }

  /** Every value of `m` is smaller than `bound` (for termination only). */
  ghost predicate Below(m: map<string, Value>, bound: Value) {
    forall k | k in m :: m[k] < bound
  }

  ghost predicate ItemBelow(it: Item, bound: Value) {
    it.SubCond? ==> Below(it.cond, bound)
  }

  ghost predicate ItemsBelow(items: seq<Item>, bound: Value) {
    forall i | 0 <= i < |items| :: ItemBelow(items[i], bound)
  }

  /** The list of sub-conditions a combinator key stands for: the elements of
      a `[]interface{}`, `[]map[string]interface{}` or `[]*Query`; for a map,
      the map itself under `$and` and one single-entry map per key under
      `$or`/`$nor`. Any other value panics. */
  function ArrQuery(k: string, v: Value): (r: Result<seq<Item>>)
    ensures r.Ok? ==> ItemsBelow(r.value, v)
    ensures r.Ok? <==> v.List? || v.Maps? || v.Queries? || v.Map?
  {
    match v
    case List(items) => Ok(seq(|items|, i requires 0 <= i < |items| => ItemOf(items[i])))
    case Maps(docs) => Ok(seq(|docs|, i requires 0 <= i < |docs| => SubCond(docs[i].fields)))
    case Queries(qs) => Ok(seq(|qs|, i requires 0 <= i < |qs| => SubQuery(qs[i])))
    case Map(m) =>
      if k == "$and" then Ok([SubCond(m)])
      else
        var ks := KeyOrder(m.Keys);
        Ok(seq(|ks|, i requires 0 <= i < |ks| => SubCond(map[ks[i] := m[ks[i]]])))
    case _ => Err(CombinatorBadValue)
  }

  /** The non-empty queries of the sub-conditions, in order; a map is mixed
      recursively, anything but a map or a query panics. */
  function SubQueries(items: seq<Item>, store: Store, bound: Value): (r: Result<seq<QueryData>>)
    requires ItemsBelow(items, bound)
    ensures r.Ok? ==> forall i | 0 <= i < |r.value| :: !IsEmpty(r.value[i])
    decreases bound, 4, |items|
  {
    if |items| == 0 then Ok([])
    else
      assert ItemsBelow(items[..|items| - 1], bound);
      var init :- SubQueries(items[..|items| - 1], store, bound);
      match items[|items| - 1]
      case SubCond(m) =>
        var s :- MixQSpec(m, store, bound);
        Ok(if IsEmpty(s) then init else init + [s])
      case SubQuery(q) => Ok(if IsEmpty(q) then init else init + [q])
      case OtherItem => Err(CombinatorBadItem)
  }

  /** The effect of one entry `k: v` of `MixQ`'s argument on the query. */
  function MixEntry(q: QueryData, k: string, v: Value, store: Store): (r: Result<QueryData>)
    ensures r.Ok? ==> r.value.rawCond == q.rawCond && q.nodes <= r.value.nodes
    decreases v, 5, 0
  {
    if k == "" then Ok(q)
    else if k[0] == '~' then
      if IsCombinator(k[1..]) then Err(TildeCombinator)
      else
        var n :- NotQ(k[1..], v, store);
        Ok(AndQ(q, [n]))
    else if IsCombinator(k) then
      var arr :- ArrQuery(k, v);
      if |arr| == 0 then Ok(q)
      else
        var subs :- SubQueries(arr, store, v);
        if |subs| == 0 then Ok(q)
        else if k == "$and" then Ok(AndQ(q, subs))
        else OrNorQ(q, k, subs)
    else
      var n :- Q(k, v, store);
      Ok(AndQ(q, [n]))
  }

  /** The entries of `cond` named by `keys`, applied in that order to an
      empty query. */
  function MixKeys(cond: map<string, Value>, keys: seq<string>, store: Store, bound: Value): (r: Result<QueryData>)
    requires Below(cond, bound)
    requires forall i | 0 <= i < |keys| :: keys[i] in cond
    ensures r.Ok? ==> r.value.rawCond == map[]
    decreases bound, 2, |keys|
  {
    if |keys| == 0 then Ok(EmptyQuery)
    else
      var q :- MixKeys(cond, keys[..|keys| - 1], store, bound);
      MixEntry(q, keys[|keys| - 1], cond[keys[|keys| - 1]], store)
  }

  /** The keys of `cond` in the order `KeyOrder` fixes. */
  function CondKeys(cond: map<string, Value>): (ks: seq<string>)
    ensures forall i | 0 <= i < |ks| :: ks[i] in cond
  {
    KeyOrder(cond.Keys)
  }

  /** `MixQ(cond)`, with the keys taken in the order `KeyOrder` fixes. */
  function MixQSpec(cond: map<string, Value>, store: Store, bound: Value): (r: Result<QueryData>)
    requires Below(cond, bound)
    ensures r.Ok? ==> r.value.rawCond == map[]
    ensures |cond| == 0 ==> r == Ok(EmptyQuery)
    decreases bound, 3, 0
  {
    MixKeys(cond, CondKeys(cond), store, bound)
  }

  /** `MixQ(cond)` */
  function MixQuery(cond: map<string, Value>, store: Store): (r: Result<QueryData>)
    ensures r.Ok? ==> r.value.rawCond == map[]
    ensures |cond| == 0 ==> r == Ok(EmptyQuery)
  {
    MixQSpec(cond, store, Map(cond))
  }

  // ---------------------------------------------------------------------
  // The Query object

  /** `q.Cond()` on a query given by value. */
  method CondOf(f: QueryData) returns (r: Result<Filter>)
    ensures r == Cond(f)
  {
    if |f.rawCond| > 0 {
      r := Ok(f.rawCond);
    } else {
      r := CompileNodes(f.nodes);
    }
  }

  class Query {
    var nodes: seq<Node>
    var rawCond: Filter

    function Data(): QueryData
      reads this
    {
      QueryData(nodes, rawCond)
    }

    /** `NewQuery()` */
    constructor ()
      ensures Data() == EmptyQuery
    {
      nodes := [];
      rawCond := map[];
    }

    /** `SetRawCond(cond)`: replaces the raw condition, keeps the nodes. */
    method SetRawCond(cond: Filter)
      modifies this
      ensures rawCond == cond && nodes == old(nodes)
    {
      rawCond := cond;
    }

    /** `And(fs...)`: appends the nodes of every query, in order. */
    method And(fs: seq<QueryData>)
      modifies this
      ensures Data() == AndQ(old(Data()), fs)
    {
      var i := 0;
      while i < |fs|
        invariant 0 <= i <= |fs|
        invariant nodes == old(nodes) + AllNodes(fs[..i]) && rawCond == old(rawCond)
      {
        assert fs[..i + 1][..i] == fs[..i];
        nodes := nodes + fs[i].nodes;
        i := i + 1;
      }
      assert fs[..|fs|] == fs;
    }

    /** `Empty()` */
    method Empty() returns (b: bool)
      ensures b <==> IsEmpty(Data())
    {
      b := |rawCond| == 0 && |nodes| == 0;
    }

    /** `Cond()` */
    method Cond() returns (r: Result<Filter>)
      ensures r == QueryCompile.Cond(Data())
    {
      r := CondOf(Data());
    }

    /** `orNor(fs...)` */
    method OrNor(fs: seq<QueryData>) returns (r: Result<seq<Node>>)
      ensures r == OrNorNodes(fs)
    {
      var ns: seq<Node> := [];
      var i := 0;
      while i < |fs|
        invariant 0 <= i <= |fs|
        invariant OrNorNodes(fs[..i]) == Ok(ns)
      {
        assert fs[..i + 1][..i] == fs[..i];
        var m := CondOf(fs[i]);
        if m.Err? {
          OrNorNodesPrefixErr(fs, i + 1);
          return Err(m.error);
        }
        var o := OrNorNode(m.value);
        if o.Err? {
          OrNorNodesPrefixErr(fs, i + 1);
          return Err(o.error);
        }
        if o.value.Some? {
          ns := ns + [o.value.value];
        }
        i := i + 1;
      }
      assert fs[..|fs|] == fs;
      r := Ok(ns);
    }

    /** `Or(fs...)` (`key` is `$or`) and `Nor(fs...)` (`key` is `$nor`); a
        panic leaves the query as it was. */
    method OrNorWith(key: string, fs: seq<QueryData>) returns (o: Outcome)
      modifies this
      ensures OrNorQ(old(Data()), key, fs) == (if o.Pass? then Ok(Data()) else Err(o.error))
      ensures o.Fail? ==> Data() == old(Data())
    {
      var ns := OrNor(fs);
      if ns.Err? {
        return Fail(ns.error);
      }
      if |ns.value| > 0 {
        nodes := nodes + [Node(key, Nodes(ns.value))];
      }
      o := Pass;
    }

    /** `Or(fs...)` */
    method Or(fs: seq<QueryData>) returns (o: Outcome)
      modifies this
      ensures OrNorQ(old(Data()), "$or", fs) == (if o.Pass? then Ok(Data()) else Err(o.error))
      ensures o.Fail? ==> Data() == old(Data())
    {
      o := OrNorWith("$or", fs);
    }

    /** `Nor(fs...)` */
    method Nor(fs: seq<QueryData>) returns (o: Outcome)
      modifies this
      ensures OrNorQ(old(Data()), "$nor", fs) == (if o.Pass? then Ok(Data()) else Err(o.error))
      ensures o.Fail? ==> Data() == old(Data())
    {
      o := OrNorWith("$nor", fs);
    }
  }

  /** Once a prefix of the alternatives panics, `orNor` panics with the same
      error. */
  lemma {:induction false} OrNorNodesPrefixErr(fs: seq<QueryData>, i: nat)
    requires i <= |fs| && OrNorNodes(fs[..i]).Err?
    ensures OrNorNodes(fs) == OrNorNodes(fs[..i])
    decreases |fs| - i
  {
    if i < |fs| {
      assert fs[..i + 1][..i] == fs[..i];
      OrNorNodesPrefixErr(fs, i + 1);
    } else {
      assert fs[..i] == fs;
    }
  }

  lemma {:induction false} MixKeysPrefixErr(cond: map<string, Value>, keys: seq<string>, i: nat, store: Store, bound: Value)
    requires Below(cond, bound)
    requires forall j | 0 <= j < |keys| :: keys[j] in cond
    requires i <= |keys| && MixKeys(cond, keys[..i], store, bound).Err?
    ensures MixKeys(cond, keys, store, bound) == MixKeys(cond, keys[..i], store, bound)
    decreases |keys| - i
  {
    if i < |keys| {
      assert keys[..i + 1][..i] == keys[..i];
      MixKeysPrefixErr(cond, keys, i + 1, store, bound);
    } else {
      assert keys[..i] == keys;
    }
  }

  lemma MixKeysStep(cond: map<string, Value>, keys: seq<string>, i: nat, store: Store, bound: Value)
    requires Below(cond, bound)
    requires forall j | 0 <= j < |keys| :: keys[j] in cond
    requires i < |keys| && MixKeys(cond, keys[..i], store, bound).Ok?
    ensures MixKeys(cond, keys[..i + 1], store, bound)
         == MixEntry(MixKeys(cond, keys[..i], store, bound).value, keys[i], cond[keys[i]], store)
  {
    assert keys[..i + 1][..i] == keys[..i];
  }

  lemma SubQueriesStep(items: seq<Item>, i: nat, store: Store, bound: Value)
    requires ItemsBelow(items, bound)
    requires i < |items| && SubQueries(items[..i], store, bound).Ok?
    ensures ItemBelow(items[i], bound)
    ensures items[i].SubCond? && MixQSpec(items[i].cond, store, bound).Err? ==>
      SubQueries(items[..i + 1], store, bound) == Err(MixQSpec(items[i].cond, store, bound).error)
    ensures items[i].SubCond? && MixQSpec(items[i].cond, store, bound).Ok? ==>
      var s := MixQSpec(items[i].cond, store, bound).value;
      var init := SubQueries(items[..i], store, bound).value;
      SubQueries(items[..i + 1], store, bound) == Ok(if IsEmpty(s) then init else init + [s])
    ensures items[i].SubQuery? ==>
      var init := SubQueries(items[..i], store, bound).value;
      SubQueries(items[..i + 1], store, bound)
        == Ok(if IsEmpty(items[i].query) then init else init + [items[i].query])
    ensures items[i].OtherItem? ==> SubQueries(items[..i + 1], store, bound) == Err(CombinatorBadItem)
  {
    assert items[..i + 1][..i] == items[..i];
    assert items[..i + 1][i] == items[i];
  }

  lemma {:induction false} SubQueriesPrefixErr(items: seq<Item>, i: nat, store: Store, bound: Value)
    requires ItemsBelow(items, bound)
    requires i <= |items| && SubQueries(items[..i], store, bound).Err?
    ensures SubQueries(items, store, bound) == SubQueries(items[..i], store, bound)
    decreases |items| - i
  {
    if i < |items| {
      assert items[..i + 1][..i] == items[..i];
      SubQueriesPrefixErr(items, i + 1, store, bound);
    } else {
      assert items[..i] == items;
    }
  }

  /** One turn of the loop of `CollectSubQueries`: the `i`th item mixed and
      appended when not empty. A panic ends the whole loop. */
  method SubQueriesNext(items: seq<Item>, i: nat, arr: seq<QueryData>, store: Store, ghost bound: Value)
    returns (r: Result<seq<QueryData>>)
    requires ItemsBelow(items, bound)
    requires i < |items| && SubQueries(items[..i], store, bound) == Ok(arr)
    ensures r.Ok? ==> SubQueries(items[..i + 1], store, bound) == r
    ensures r.Err? ==> SubQueries(items, store, bound) == r
    decreases bound, 3, 1
  {
    SubQueriesStep(items, i, store, bound);
    match items[i] {
      case SubCond(m) =>
        var s := MixQ(m, store, bound);
        if s.Err? {
          SubQueriesPrefixErr(items, i + 1, store, bound);
          return Err(s.error);
        }
        r := Ok(if IsEmpty(s.value) then arr else arr + [s.value]);
      case SubQuery(q) =>
        r := Ok(if IsEmpty(q) then arr else arr + [q]);
      case OtherItem =>
        SubQueriesPrefixErr(items, i + 1, store, bound);
        r := Err(CombinatorBadItem);
    }
  }

  /** The combinator entries' sub-conditions, gathered by a loop that mixes
      every map recursively. */
  method CollectSubQueries(items: seq<Item>, store: Store, ghost bound: Value) returns (r: Result<seq<QueryData>>)
    requires ItemsBelow(items, bound)
    ensures r == SubQueries(items, store, bound)
    decreases bound, 4, 0
  {
    var arr: seq<QueryData> := [];
    var i := 0;
    while i < |items|
      invariant 0 <= i <= |items|
      invariant SubQueries(items[..i], store, bound) == Ok(arr)
    {
      var next := SubQueriesNext(items, i, arr, store, bound);
      if next.Err? {
        return next;
      }
      arr := next.value;
      i := i + 1;
    }
    assert items[..|items|] == items;
    r := Ok(arr);
  }

  /** A combinator entry `k: v` of `MixQ`'s argument (`$and`, `$or` or
      `$nor`), applied to the query under construction. */
  method MixCombinator(q: Query, k: string, v: Value, store: Store) returns (o: Outcome)
    requires IsCombinator(k)
    modifies q
    ensures MixEntry(old(q.Data()), k, v, store) == (if o.Pass? then Ok(q.Data()) else Err(o.error))
    decreases v, 5, 0
  {
    var arr := ArrQuery(k, v);
    if arr.Err? {
      return Fail(arr.error);
    }
    if |arr.value| == 0 {
      return Pass;
    }
    var subs := CollectSubQueries(arr.value, store, v);
    if subs.Err? {
      return Fail(subs.error);
    }
    if |subs.value| == 0 {
      return Pass;
    }
    if k == "$and" {
      q.And(subs.value);
      o := Pass;
    } else if k == "$or" {
      o := q.Or(subs.value);
    } else {
      o := q.Nor(subs.value);
    }
  }

  /** One entry of `MixQ`'s loop, applied to the query under construction. */
  method MixEntryStep(q: Query, k: string, v: Value, store: Store) returns (o: Outcome)
    modifies q
    ensures MixEntry(old(q.Data()), k, v, store) == (if o.Pass? then Ok(q.Data()) else Err(o.error))
    decreases v, 6, 0
  {
    if k == "" {
      return Pass;
    }
    if k[0] == '~' && IsCombinator(k[1..]) {
      return Fail(TildeCombinator);
    }
    if k[0] != '~' && IsCombinator(k) {
      o := MixCombinator(q, k, v, store);
      return;
    }
    o := MixCondition(q, k, v, store);
  }

  /** A plain entry `k: v` (negated when `k` starts with `~`) and'ed to the
      query under construction. */
  method MixCondition(q: Query, k: string, v: Value, store: Store) returns (o: Outcome)
    requires k != "" && !IsCombinator(if k[0] == '~' then k[1..] else k)
    modifies q
    ensures MixEntry(old(q.Data()), k, v, store) == (if o.Pass? then Ok(q.Data()) else Err(o.error))
  {
    var n := if k[0] == '~' then NotQ(k[1..], v, store) else Q(k, v, store);
    if n.Err? {
      return Fail(n.error);
    }
    q.And([n.value]);
    o := Pass;
  }

  /** One turn of `MixQ`'s loop: the `i`th key of `cond` applied to `q`. A
      panic ends the whole loop. */
  method MixNext(q: Query, cond: map<string, Value>, i: nat, store: Store, ghost bound: Value) returns (o: Outcome)
    requires Below(cond, bound)
    requires i < |CondKeys(cond)| && MixKeys(cond, CondKeys(cond)[..i], store, bound) == Ok(q.Data())
    modifies q
    ensures o.Pass? ==> MixKeys(cond, CondKeys(cond)[..i + 1], store, bound) == Ok(q.Data())
    ensures o.Fail? ==> MixQSpec(cond, store, bound) == Err(o.error)
    decreases bound, 2, 0
  {
    var keys := CondKeys(cond);
    MixKeysStep(cond, keys, i, store, bound);
    assert cond[keys[i]] < bound;
    o := MixEntryStep(q, keys[i], cond[keys[i]], store);
    if o.Fail? {
      MixKeysPrefixErr(cond, keys, i + 1, store, bound);
      MixKeysAll(cond, store, bound);
    }
  }

  /** `MixQ(cond)`: a new query, then every entry of `cond` in turn. */
  method MixQ(cond: map<string, Value>, store: Store, ghost bound: Value) returns (r: Result<QueryData>)
    requires Below(cond, bound)
    ensures r == MixQSpec(cond, store, bound)
    decreases bound, 3, 0
  {
    var q := new Query();
    var n := |CondKeys(cond)|;
    var i := 0;
    MixKeysAll(cond, store, bound);
    while i < n
      invariant 0 <= i <= n
      invariant MixKeys(cond, CondKeys(cond)[..i], store, bound) == Ok(q.Data())
    {
      var o := MixNext(q, cond, i, store, bound);
      if o.Fail? {
        return Err(o.error);
      }
      i := i + 1;
    }
    r := Ok(q.Data());
  }

  lemma MixKeysAll(cond: map<string, Value>, store: Store, bound: Value)
    requires Below(cond, bound)
    ensures MixKeys(cond, CondKeys(cond)[..0], store, bound) == Ok(EmptyQuery)
    ensures MixKeys(cond, CondKeys(cond)[..|CondKeys(cond)|], store, bound) == MixQSpec(cond, store, bound)
  {
    assert CondKeys(cond)[..|CondKeys(cond)|] == CondKeys(cond);
  }
}
