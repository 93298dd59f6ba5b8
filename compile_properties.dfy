/**
 * What the compilation of nodes to a filter document guarantees
 * (query.go:657-726).
 */
module CompileProperties {
  import opened Wrappers
  import opened GoStrings
  import opened Values
  import opened QueryCompile

  /** A single node compiles to its own pair as a one-entry filter. */
  lemma FilterOfSingle(n: Node)
    ensures FilterOf([n]) == (var kv :- NodeFilter(n); AddEntry(map[], kv.0, kv.1))
  {
    assert [n][..0] == [];
  }

  /** A key without "__" is an equality test: `{key: {$eq: value}}`. */
  lemma CompileEq(k: string, v: Value)
    requires !HasSep(k)
    requires k != "$or" && k != "$nor" && k != "$not" && k != "$and"
    ensures FilterOf([Node(k, v)]) == Ok(map[k := Map(map["$eq" := v])])
  {
    FilterOfSingle(Node(k, v));
  }

  /** `k` is the DSL key `f__op` of a plain (non-combinator) field `f`. */
  predicate FieldOpKey(k: string, f: string, op: string) {
    HasSep(k) && Split(k) == [f, op] && !IsOrNor(f)
    && k != "$or" && k != "$nor" && k != "$not" && k != "$and"
  }

  /** Joining a field name and an operator with "__" gives such a key, as
      long as the field has no "__" and does not end in '_'. */
  lemma OperatorKey(f: string, op: string)
    requires !HasSep(f) && (|f| == 0 || f[|f| - 1] != '_') && !IsOrNor(f)
    requires !HasSep(op)
    ensures FieldOpKey(f + "__" + op, f, op)
  {
    var key := f + "__" + op;
    SplitAfterField(f, op);
    SplitHasSep(op);
    SplitHasSep(key);
    assert key[|f|] == '_';
  }

  /** The operator document `{"$op": v}` (the value itself for `regex`). */
  function OpDoc(op: string, v: Value): Value {
    if op == "regex" then v else Map(map["$" + op := v])
  }

  /** The pair a node `f__op` lowers to. */
  lemma NodeFilterOp(k: string, f: string, op: string, v: Value)
    requires FieldOpKey(k, f, op)
    ensures NodeFilter(Node(k, v)) == Ok((f, OpDoc(op, v)))
  {
  }

  /** A key `f__op` compiles to `{f: {"$op": v}}`, except that the value of
      `f__regex` is placed under `f` as it is. */
  lemma CompileOp(k: string, f: string, op: string, v: Value)
    requires FieldOpKey(k, f, op)
    ensures FilterOf([Node(k, v)]) == Ok(map[f := OpDoc(op, v)])
  {
    NodeFilterOp(k, f, op, v);
    FilterOfSingle(Node(k, v));
  }

  /** `innerFilter` on two nodes: the second pair added to the filter of
      the first. */
  lemma FilterOfPair(n1: Node, n2: Node)
    ensures FilterOf([n1, n2]) == (var f :- FilterOf([n1]); var kv :- NodeFilter(n2); AddEntry(f, kv.0, kv.1))
  {
    assert [n1, n2][..1] == [n1];
  }

  /** Adding an operator document for a field already present merges it in. */
  lemma AddEntryMerge(f: string, cm: map<string, Value>, vm: map<string, Value>)
    requires !IsOrNor(f) && "$not" !in vm && |vm| > 0
    ensures AddEntry(map[f := Map(cm)], f, Map(vm)) == Ok(map[f := Map(cm + vm)])
  {
    assert map[f := Map(cm)][f := Map(cm + vm)] == map[f := Map(cm + vm)];
  }

  /** Two nodes that lower to the same plain field: the second pair is added
      to the one-entry filter of the first. */
  lemma FilterOfSameField(n1: Node, n2: Node, f: string, x: Value, y: Value)
    requires !IsOrNor(f) && NodeFilter(n1) == Ok((f, x)) && NodeFilter(n2) == Ok((f, y))
    ensures FilterOf([n1, n2]) == AddEntry(map[f := x], f, y)
  {
    FilterOfSingle(n1);
    FilterOfPair(n1, n2);
  }

  lemma SingletonsUnion(a: string, b: string, x: Value, y: Value)
    ensures map[a := x] + map[b := y] == map[a := x][b := y]
  {
  }

  /** Two operators on the same field share one sub-document; when both are
      the same operator the later value wins. */
  lemma MergeSameField(k1: string, k2: string, f: string, op1: string, op2: string, v1: Value, v2: Value)
    requires FieldOpKey(k1, f, op1) && FieldOpKey(k2, f, op2)
    requires op1 != "regex" && op2 != "regex" && op2 != "not"
    ensures FilterOf([Node(k1, v1), Node(k2, v2)])
         == Ok(map[f := Map(map["$" + op1 := v1]["$" + op2 := v2])])
  {
    NodeFilterOp(k1, f, op1, v1);
    NodeFilterOp(k2, f, op2, v2);
    FilterOfSameField(Node(k1, v1), Node(k2, v2), f, Map(map["$" + op1 := v1]), Map(map["$" + op2 := v2]));
    NotOperator(op2);
    AddEntryMerge(f, map["$" + op1 := v1], map["$" + op2 := v2]);
    SingletonsUnion("$" + op1, "$" + op2, v1, v2);
  }

  lemma NotOperator(op: string)
    requires op != "not"
    ensures "$not" !in map["$" + op := Nil]
  {
    assert ("$" + op)[1..] == op;
  }

  /** The pair `$not: f__op` lowers to. */
  lemma NodeFilterNot(k: string, f: string, op: string, v: Value)
    requires FieldOpKey(k, f, op) && op != "regex"
    ensures NodeFilter(Node("$not", NodeV(Node(k, v)))) == Ok((f, Map(map["$not" := Map(map["$" + op := v])])))
  {
    NodeFilterOp(k, f, op, v);
  }

  /** Two negated operators on the same field share one `$not` document; on
      a clash the EARLIER operator is kept, because the earlier entries are
      copied over the new ones. */
  lemma MergeNegatedSameField(k1: string, k2: string, f: string, op1: string, op2: string, v1: Value, v2: Value)
    requires FieldOpKey(k1, f, op1) && FieldOpKey(k2, f, op2)
    requires op1 != "regex" && op2 != "regex"
    ensures FilterOf([Node("$not", NodeV(Node(k1, v1))), Node("$not", NodeV(Node(k2, v2)))])
         == Ok(map[f := Map(map["$not" := Map(map["$" + op2 := v2]["$" + op1 := v1])])])
  {
    var om := map["$" + op1 := v1];
    var dm := map["$" + op2 := v2];
    NodeFilterNot(k1, f, op1, v1);
    NodeFilterNot(k2, f, op2, v2);
    FilterOfSameField(Node("$not", NodeV(Node(k1, v1))), Node("$not", NodeV(Node(k2, v2))), f,
                      Map(map["$not" := Map(om)]), Map(map["$not" := Map(dm)]));
    AddEntryNot(f, om, dm);
    SingletonsUnion("$" + op2, "$" + op1, v2, v1);
  }

  /** Adding a `$not` document for a field whose `$not` document is present
      and non-empty. */
  lemma AddEntryNot(f: string, om: map<string, Value>, dm: map<string, Value>)
    requires !IsOrNor(f) && |om| > 0
    ensures AddEntry(map[f := Map(map["$not" := Map(om)])], f, Map(map["$not" := Map(dm)]))
         == Ok(map[f := Map(map["$not" := Map(dm + om)])])
  {
    MergeOpsNot(om, dm);
    assert map[f := Map(map["$not" := Map(om)])][f := Map(map["$not" := Map(dm + om)])]
        == map[f := Map(map["$not" := Map(dm + om)])];
  }

  lemma MergeOpsNot(om: map<string, Value>, dm: map<string, Value>)
    requires |om| > 0
    ensures MergeOps(Map(map["$not" := Map(om)]), Map(map["$not" := Map(dm)])) == Ok(Map(map["$not" := Map(dm + om)]))
  {
    MergeOpsWithNot(map["$not" := Map(om)], map["$not" := Map(dm)]);
    MergeNotEarlier(om, dm);
    NotDocUnion(om, dm);
  }

  /** Merging an operator document that holds a `$not`. */
  lemma MergeOpsWithNot(cm: map<string, Value>, vm: map<string, Value>)
    requires "$not" in vm
    ensures MergeOps(Map(cm), Map(vm)) == (var d :- MergeNot(cm, vm["$not"]); Ok(Map(cm + vm["$not" := d])))
  {
  }

  /** The entries of a non-empty earlier `$not` document win over the new ones. */
  lemma MergeNotEarlier(om: map<string, Value>, dm: map<string, Value>)
    requires |om| > 0
    ensures MergeNot(map["$not" := Map(om)], Map(dm)) == Ok(Map(dm + om))
  {
  }

  lemma NotDocUnion(om: map<string, Value>, dm: map<string, Value>)
    ensures map["$not" := Map(om)] + map["$not" := Map(dm)]["$not" := Map(dm + om)] == map["$not" := Map(dm + om)]
  {
  }

  /** The `$or`/`$nor` pairs among the compiled nodes, in node order, each as
      a one-entry document. */
  function OrNorDocs(nodes: seq<Node>): seq<Doc> {
    if |nodes| == 0 then []
    else
      var init := OrNorDocs(nodes[..|nodes| - 1]);
      var c := NodeFilter(nodes[|nodes| - 1]);
      if c.Ok? && IsOrNor(c.value.0) then init + [Doc(map[c.value.0 := c.value.1])] else init
  }

  /** Compiling a prefix succeeds whenever compiling the whole list does. */
  lemma FilterOfPrefixOk(nodes: seq<Node>)
    requires |nodes| > 0 && FilterOf(nodes).Ok?
    ensures FilterOf(nodes[..|nodes| - 1]).Ok? && NodeFilter(nodes[|nodes| - 1]).Ok?
  {
  }

  /** Every `$or`/`$nor` of one level lands in a single `$and` list, in node
      order (when no node is itself an `$and`). */
  /** The node does not compile to an `$and` pair. */
  predicate NotAnd(n: Node) {
    NodeFilter(n).Ok? ==> NodeFilter(n).value.0 != "$and"
  }

  lemma {:induction false} OrNorCollected(nodes: seq<Node>)
    requires forall i | 0 <= i < |nodes| :: NotAnd(nodes[i])
    requires FilterOf(nodes).Ok?
    ensures "$and" in FilterOf(nodes).value <==> |OrNorDocs(nodes)| > 0
    ensures |OrNorDocs(nodes)| > 0 ==> FilterOf(nodes).value["$and"] == Maps(OrNorDocs(nodes))
  {
    if |nodes| > 0 {
      var init := nodes[..|nodes| - 1];
      FilterOfPrefixOk(nodes);
      assert forall i | 0 <= i < |init| :: init[i] == nodes[i];
      OrNorCollected(init);
      FilterOfStep(nodes);
      var c := NodeFilter(nodes[|nodes| - 1]);
      assert NotAnd(nodes[|nodes| - 1]);
      AddEntryAnd(FilterOf(init).value, c.value.0, c.value.1);
    }
  }

  lemma FilterOfStep(nodes: seq<Node>)
    requires |nodes| > 0 && FilterOf(nodes).Ok?
    ensures FilterOf(nodes)
         == AddEntry(FilterOf(nodes[..|nodes| - 1]).value, NodeFilter(nodes[|nodes| - 1]).value.0,
                     NodeFilter(nodes[|nodes| - 1]).value.1)
  {
  }

  /** How adding one pair changes the `$and` list. */
  lemma AddEntryAnd(f: Filter, k: string, v: Value)
    requires k != "$and" && AddEntry(f, k, v).Ok?
    ensures IsOrNor(k) ==>
      "$and" in AddEntry(f, k, v).value &&
      ("$and" in f ==> f["$and"].Maps?) &&
      AddEntry(f, k, v).value["$and"]
        == Maps((if "$and" in f then f["$and"].docs else []) + [Doc(map[k := v])])
    ensures !IsOrNor(k) ==>
      ("$and" in AddEntry(f, k, v).value <==> "$and" in f) &&
      ("$and" in f ==> AddEntry(f, k, v).value["$and"] == f["$and"])
  {
  }

  /** The filter key node `n` lowers to ("" when it does not compile). */
  function LoweredKey(n: Node): string {
    var c := NodeFilter(n);
    if c.Ok? then OutKey(c.value.0) else ""
  }

  predicate Compiles(n: Node) {
    NodeFilter(n).Ok?
  }

  /** Every node of a list that compiles compiles on its own. */
  lemma {:induction false} FilterNodeOk(nodes: seq<Node>, i: int)
    requires FilterOf(nodes).Ok? && 0 <= i < |nodes|
    ensures Compiles(nodes[i])
    decreases |nodes|
  {
    FilterOfPrefixOk(nodes);
    if i < |nodes| - 1 {
      var init := nodes[..|nodes| - 1];
      FilterNodeOk(init, i);
      assert init[i] == nodes[i];
    }
  }

  /** Every key a node lowers to is a key of the compiled filter. */
  lemma {:induction false} FilterKeyCovered(nodes: seq<Node>, i: int)
    requires FilterOf(nodes).Ok? && 0 <= i < |nodes|
    ensures LoweredKey(nodes[i]) in FilterOf(nodes).value
    decreases |nodes|
  {
    FilterKeysStep(nodes);
    if i < |nodes| - 1 {
      var init := nodes[..|nodes| - 1];
      FilterKeyCovered(init, i);
      assert init[i] == nodes[i];
    }
  }

  /** Every key of the compiled filter is the key some node lowers to. */
  lemma {:induction false} FilterKeysOnly(nodes: seq<Node>)
    requires FilterOf(nodes).Ok?
    ensures forall k | k in FilterOf(nodes).value :: exists i :: 0 <= i < |nodes| && LoweredKey(nodes[i]) == k
  {
    if |nodes| > 0 {
      var init := nodes[..|nodes| - 1];
      FilterOfPrefixOk(nodes);
      FilterKeysOnly(init);
      FilterKeysStep(nodes);
      forall k | k in FilterOf(nodes).value
        ensures exists i :: 0 <= i < |nodes| && LoweredKey(nodes[i]) == k
      {
        if k == LoweredKey(nodes[|nodes| - 1]) {
          assert LoweredKey(nodes[|nodes| - 1]) == k;
        } else {
          var i :| 0 <= i < |init| && LoweredKey(init[i]) == k;
          assert init[i] == nodes[i];
        }
      }
    }
  }

  lemma FilterKeysStep(nodes: seq<Node>)
    requires |nodes| > 0 && FilterOf(nodes).Ok?
    ensures FilterOf(nodes).value.Keys
         == FilterOf(nodes[..|nodes| - 1]).value.Keys + {LoweredKey(nodes[|nodes| - 1])}
  {
    FilterOfPrefixOk(nodes);
    FilterOfStep(nodes);
  }
}
