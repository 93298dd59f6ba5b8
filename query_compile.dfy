/**
 * Lowering a query's nodes to a MongoDB filter document: `innerNodeFilter`,
 * `innerOrNorFilter`, `innerFilter` and `Cond` (query.go:648-726).
 *
 * Each node compiles to one (key, value) pair; the pairs are then added to
 * the filter one at a time. `$or`/`$nor` pairs are collected under a single
 * `$and` list, and operators on a field already present are merged into its
 * sub-document.
 */
module QueryCompile {
  import opened Wrappers
  import opened GoStrings
  import opened Values

  predicate IsOrNor(k: string) {
    k == "$or" || k == "$nor"
  }

  /** The filter key an entry with key `k` is stored under. */
  function OutKey(k: string): string {
    if IsOrNor(k) then "$and" else k
  }

  /** `innerNodeFilter`: the (key, value) pair one node compiles to. */
  function NodeFilter(n: Node): Result<(string, Value)> {
    if IsOrNor(n.key) then
      match n.value
      case Nodes(ns) =>
        var docs :- OrNorFilter(ns);
        Ok((n.key, Maps(docs)))
      case _ => Err(NotNodeList)
    else if n.key == "$not" then
      match n.value
      case NodeV(inner) =>
        var kv :- NodeFilter(inner);
        Ok((kv.0, Map(map["$not" := kv.1])))
      case _ => Err(NotNode)
    else if n.key == "$and" then Ok((n.key, n.value))
    else if HasSep(n.key) then
      SplitHasSep(n.key);
      var parts := Split(n.key);
      if parts[1] == "regex" then Ok((parts[0], n.value))
      else Ok((parts[0], Map(map["$" + parts[1] := n.value])))
    else Ok((n.key, Map(map["$eq" := n.value])))
  }

  /** `innerOrNorFilter`: every node compiled on its own, in order. */
  function OrNorFilter(ns: seq<Node>): Result<seq<Doc>> {
    if |ns| == 0 then Ok([])
    else
      var kv :- NodeFilter(ns[0]);
      var first :- AddEntry(map[], kv.0, kv.1);
      var rest :- OrNorFilter(ns[1..]);
      Ok([Doc(first)] + rest)
  }

  /** The `$not` entry after merging: the entries of an earlier `$not`
      document are copied into the new one, so on a clash the earlier
      operator is kept. */
  function MergeNot(prev: map<string, Value>, d: Value): Result<Value> {
    var earlier := if "$not" in prev then prev["$not"] else Nil;
    if earlier == Nil then Ok(d)
    else match earlier
      case Map(om) =>
        if |om| == 0 then Ok(d)
        else (match d
          case Map(dm) => Ok(Map(dm + om))
          case _ => Err(NotMergeBadValue))
      case _ => Err(NotMergeBadValue)
  }

  /** Merging the operator document `v` into the entry `cur` already present
      for the same field. */
  function MergeOps(cur: Value, v: Value): Result<Value> {
    match v
    case Map(vm) =>
      if |vm| == 0 then Ok(cur)
      else (match cur
        case Map(cm) =>
          if "$not" in vm then
            var d :- MergeNot(cm, vm["$not"]);
            Ok(Map(cm + vm["$not" := d]))
          else Ok(Map(cm + vm))
        case _ => Err(MergeTargetNotMap))
    case _ => Err(MergeNotMap)
  }

  /** One step of `innerFilter`: add the pair (k, v) to `f`. */
  function AddEntry(f: Filter, k: string, v: Value): (r: Result<Filter>)
    ensures r.Ok? ==> r.value.Keys == f.Keys + {OutKey(k)}
    ensures r.Ok? ==> forall j | j in f && j != OutKey(k) :: r.value[j] == f[j]
  {
    if IsOrNor(k) then
      var entry := Doc(map[k := v]);
      if "$and" in f then
        match f["$and"]
        case Maps(ds) => Ok(f["$and" := Maps(ds + [entry])])
        case _ => Err(AndNotMapList)
      else Ok(f["$and" := Maps([entry])])
    else if k in f then
      var merged :- MergeOps(f[k], v);
      Ok(f[k := merged])
    else Ok(f[k := v])
  }

  /** `innerFilter(nodes)` */
  function FilterOf(nodes: seq<Node>): (r: Result<Filter>)
    ensures r.Ok? ==> (|r.value| == 0 <==> |nodes| == 0)
  {
    if |nodes| == 0 then Ok(map[])
    else
      var f :- FilterOf(nodes[..|nodes| - 1]);
      var kv :- NodeFilter(nodes[|nodes| - 1]);
      AddEntry(f, kv.0, kv.1)
  }

  /** `Query.Cond()`: the raw condition when there is one, else the compiled
      nodes. The result is empty exactly for an empty query. */
  function Cond(q: QueryData): (r: Result<Filter>)
    ensures |q.rawCond| > 0 ==> r == Ok(q.rawCond)
    ensures r.Ok? ==> (|r.value| == 0 <==> IsEmpty(q))
  {
    if |q.rawCond| > 0 then Ok(q.rawCond) else FilterOf(q.nodes)
  }

  /** Once a prefix of the nodes fails to compile, the whole list fails with
      the same error. */
  lemma {:induction false} FilterOfPrefixErr(nodes: seq<Node>, i: nat)
    requires i <= |nodes|
    requires FilterOf(nodes[..i]).Err?
    ensures FilterOf(nodes) == FilterOf(nodes[..i])
    decreases |nodes|
  {
    if i < |nodes| {
      var init := nodes[..|nodes| - 1];
      assert init[..i] == nodes[..i];
      FilterOfPrefixErr(init, i);
    } else {
      assert nodes[..i] == nodes;
    }
  }

  /** The body of `innerFilter`'s loop for one compiled pair (k, v). */
  method AddEntryRun(filter: Filter, k: string, v: Value) returns (r: Result<Filter>)
    ensures r == AddEntry(filter, k, v)
  {
    if IsOrNor(k) {
      var entry := Doc(map[k := v]);
      if "$and" in filter {
        if !filter["$and"].Maps? {
          return Err(AndNotMapList);
        }
        return Ok(filter["$and" := Maps(filter["$and"].docs + [entry])]);
      }
      return Ok(filter["$and" := Maps([entry])]);
    } else if k in filter {
      var merged := MergeOps(filter[k], v);
      if merged.Err? {
        return Err(merged.error);
      }
      return Ok(filter[k := merged.value]);
    }
    return Ok(filter[k := v]);
  }

  /** `innerFilter` as the loop the code runs, writing into `filter` in place. */
  method CompileNodes(nodes: seq<Node>) returns (r: Result<Filter>)
    ensures r == FilterOf(nodes)
  {
    var filter: Filter := map[];
    var i := 0;
    while i < |nodes|
      invariant 0 <= i <= |nodes|
      invariant FilterOf(nodes[..i]) == Ok(filter)
    {
      assert nodes[..i + 1][..i] == nodes[..i];
      var compiled := NodeFilter(nodes[i]);
      if compiled.Err? {
        FilterOfPrefixErr(nodes, i + 1);
        return Err(compiled.error);
      }
      var next := AddEntryRun(filter, compiled.value.0, compiled.value.1);
      if next.Err? {
        FilterOfPrefixErr(nodes, i + 1);
        return next;
      }
      filter := next.value;
      i := i + 1;
    }
    assert nodes[..i] == nodes;
    return Ok(filter);
  }
}
