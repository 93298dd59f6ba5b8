/**
 * `formatWhere` and `formatWhereArr` (orm.go:542-634): the rewriting of an
 * ORM condition map before it is mixed into a query. Every key whose column
 * (after a leading `~`) has a foreign-key reference in the registry gets,
 * in place of its sub-condition, a `refQ` that will look up the ids of the
 * referenced documents; `$and`/`$or`/`$nor` values are rewritten
 * recursively; every other entry is kept.
 *
 * The code resolves several reference keys of one map on a task executor,
 * whose tasks all read and write the one condition map. The executor is
 * not part of this model: the model assumes it runs the resolutions one at
 * a time, here in the order `CondKeys` fixes, and that it passes a task's
 * panic on as the panic of `formatWhere`.
 */
module OrmWhere {
  import opened Wrappers
  import opened GoStrings
  import opened Values
  import opened QueryCombine

  /** Every element is smaller than `bound` (for termination only). */
  ghost predicate AllBelow(items: seq<Value>, bound: Value) {
    forall i | 0 <= i < |items| :: items[i] < bound
  }

  ghost predicate DocsBelow(docs: seq<Doc>, bound: Value) {
    forall i | 0 <= i < |docs| :: Below(docs[i].fields, bound)
  }

  /** The column a key refers to: the key without a leading `~`. */
  function RealKey(k: string): string
    requires k != ""
  {
    if k[0] == '~' then k[1..] else k
  }

  /** The elements of a `[]interface{}` condition list: maps are rewritten,
      anything else is kept. */
  function FormatList(refs: RefTable, db: Option<string>, tb: string, items: seq<Value>, store: Store, bound: Value)
    : (r: Result<seq<Value>>)
    requires AllBelow(items, bound)
    ensures r.Ok? ==> |r.value| == |items|
    decreases bound, 3, |items|
  {
    if |items| == 0 then Ok([])
    else
      var n := |items| - 1;
      var init :- FormatList(refs, db, tb, items[..n], store, bound);
      match items[n]
      case Map(m) =>
        var f :- FormatWhereSpec(refs, db, tb, m, store, bound);
        Ok(init + [Map(f)])
      case _ => Ok(init + [items[n]])
  }

  /** The elements of a `[]map[string]interface{}` condition list, each
      rewritten. */
  function FormatDocs(refs: RefTable, db: Option<string>, tb: string, docs: seq<Doc>, store: Store, bound: Value)
    : (r: Result<seq<Value>>)
    requires DocsBelow(docs, bound)
    ensures r.Ok? ==> |r.value| == |docs|
    decreases bound, 3, |docs|
  {
    if |docs| == 0 then Ok([])
    else
      var n := |docs| - 1;
      var init :- FormatDocs(refs, db, tb, docs[..n], store, bound);
      var f :- FormatWhereSpec(refs, db, tb, docs[n].fields, store, bound);
      Ok(init + [Map(f)])
  }

  /** `formatWhereArr(tb, where)`: a list or a map is rewritten; an empty
      list, and any other value, is returned as it is. */
  function FormatArr(refs: RefTable, db: Option<string>, tb: string, v: Value, store: Store): (r: Result<Value>)
    ensures r.Ok? && !v.List? && !v.Maps? && !v.Map? ==> r.value == v
    decreases v, 4, 0
  {
    match v
    case List(items) =>
      if |items| == 0 then Ok(v)
      else
        var xs :- FormatList(refs, db, tb, items, store, v);
        Ok(List(xs))
    case Maps(docs) =>
      if |docs| == 0 then Ok(v)
      else
        var xs :- FormatDocs(refs, db, tb, docs, store, v);
        Ok(List(xs))
    case Map(m) =>
      var f :- FormatWhereSpec(refs, db, tb, m, store, v);
      Ok(Map(f))
    case _ => Ok(v)
  }

  /** The new value of the entry `k: v` of a condition on table `tb`. */
  function FormatEntry(refs: RefTable, db: Option<string>, tb: string, k: string, v: Value, store: Store)
    : (r: Result<Value>)
    decreases v, 5, 0
  {
    if IsCombinator(k) then FormatArr(refs, db, tb, v, store)
    else if k == "" then Err(EmptyKey)
    else
      match LookupRef(refs, tb, RealKey(k))
      case None => Ok(v)
      case Some(rt) => FormatRef(refs, db, tb, rt.to, v, store)
  }

  /** The value of a foreign-key column referring to table `to`: a condition
      map becomes a `refQ` on `to`, a `refQ` is kept. */
  function FormatRef(refs: RefTable, db: Option<string>, tb: string, to: string, v: Value, store: Store)
    : (r: Result<Value>)
    decreases v, 4, 1
  {
    match v
    case Map(m) =>
      var cond :- FormatWhereSpec(refs, db, to, m, store, v);
      var q :- MixQuery(cond, store);
      Ok(RefQV(RefQ(tb, Some(refs), db, q)))
    case RefQV(_) => Ok(v)
    case _ => Err(RefConditionType)
  }

  /** The entries of `raw` named by `keys` rewritten, in that order. */
  function FormatKeys(refs: RefTable, db: Option<string>, tb: string, raw: map<string, Value>, keys: seq<string>,
                      store: Store, bound: Value): (r: Result<map<string, Value>>)
    requires Below(raw, bound)
    requires forall i | 0 <= i < |keys| :: keys[i] in raw
    ensures r.Ok? ==> r.value.Keys == raw.Keys
    decreases bound, 1, |keys|
  {
    if |keys| == 0 then Ok(raw)
    else
      var n := |keys| - 1;
      var out :- FormatKeys(refs, db, tb, raw, keys[..n], store, bound);
      var nv :- FormatEntry(refs, db, tb, keys[n], raw[keys[n]], store);
      Ok(out[keys[n] := nv])
  }

  function FormatWhereSpec(refs: RefTable, db: Option<string>, tb: string, raw: map<string, Value>,
                           store: Store, bound: Value): (r: Result<map<string, Value>>)
    requires Below(raw, bound)
    ensures r.Ok? ==> r.value.Keys == raw.Keys
    decreases bound, 2, 0
  {
    FormatKeys(refs, db, tb, raw, CondKeys(raw), store, bound)
  }

  /** `formatWhere(tb, raw)` */
  function FormatWhere(refs: RefTable, db: Option<string>, tb: string, raw: map<string, Value>, store: Store)
    : (r: Result<map<string, Value>>)
    ensures r.Ok? ==> r.value.Keys == raw.Keys
  {
    FormatWhereSpec(refs, db, tb, raw, store, Map(raw))
  }

  lemma FormatKeysStep(refs: RefTable, db: Option<string>, tb: string, raw: map<string, Value>, keys: seq<string>,
                       i: nat, out: map<string, Value>, store: Store, bound: Value)
    requires Below(raw, bound)
    requires forall j | 0 <= j < |keys| :: keys[j] in raw
    requires i < |keys| && FormatKeys(refs, db, tb, raw, keys[..i], store, bound) == Ok(out)
    ensures FormatKeys(refs, db, tb, raw, keys[..i + 1], store, bound)
         == (var nv :- FormatEntry(refs, db, tb, keys[i], raw[keys[i]], store); Ok(out[keys[i] := nv]))
  {
    assert keys[..i + 1][..i] == keys[..i];
  }

  lemma {:induction false} FormatKeysPrefixErr(refs: RefTable, db: Option<string>, tb: string, raw: map<string, Value>,
                                               keys: seq<string>, i: nat, store: Store, bound: Value)
    requires Below(raw, bound)
    requires forall j | 0 <= j < |keys| :: keys[j] in raw
    requires i <= |keys| && FormatKeys(refs, db, tb, raw, keys[..i], store, bound).Err?
    ensures FormatKeys(refs, db, tb, raw, keys, store, bound) == FormatKeys(refs, db, tb, raw, keys[..i], store, bound)
    decreases |keys| - i
  {
    if i < |keys| {
      assert keys[..i + 1][..i] == keys[..i];
      FormatKeysPrefixErr(refs, db, tb, raw, keys, i + 1, store, bound);
    } else {
      assert keys[..i] == keys;
    }
  }

  /** The body of the loop of `formatWhere` for one key. */
  method FormatKey(refs: RefTable, db: Option<string>, tb: string, k: string, v: Value, store: Store)
    returns (r: Result<Value>)
    ensures r == FormatEntry(refs, db, tb, k, v, store)
  {
    if IsCombinator(k) {
      return FormatArr(refs, db, tb, v, store);
    }
    if k == "" {
      return Err(EmptyKey);
    }
    var ref := LookupRef(refs, tb, RealKey(k));
    if ref.None? {
      return Ok(v);
    }
    r := FormatRefRun(refs, db, tb, ref.value.to, v, store);
  }

  /** The foreign-key branch of `formatWhere`'s loop. */
  method FormatRefRun(refs: RefTable, db: Option<string>, tb: string, to: string, v: Value, store: Store)
    returns (r: Result<Value>)
    ensures r == FormatRef(refs, db, tb, to, v, store)
  {
    if !v.Map? {
      if v.RefQV? {
        return Ok(v);
      }
      return Err(RefConditionType);
    }
    var cond := FormatWhere(refs, db, to, v.fields, store);
    if cond.Err? {
      return Err(cond.error);
    }
    var q := MixQuery(cond.value, store);
    if q.Err? {
      return Err(q.error);
    }
    r := Ok(RefQV(RefQ(tb, Some(refs), db, q.value)));
  }

  /** One turn of the loop of `formatWhere`: rewrite the `i`th key of `raw`
      in the map `out` built so far. A failure ends the whole rewriting. */
  method FormatNext(refs: RefTable, db: Option<string>, tb: string, raw: map<string, Value>,
                    i: nat, out: map<string, Value>, store: Store, ghost bound: Value)
    returns (r: Result<map<string, Value>>)
    requires Below(raw, bound)
    requires i < |CondKeys(raw)| && FormatKeys(refs, db, tb, raw, CondKeys(raw)[..i], store, bound) == Ok(out)
    ensures r.Ok? ==> r == FormatKeys(refs, db, tb, raw, CondKeys(raw)[..i + 1], store, bound)
    ensures r.Err? ==> r == FormatWhereSpec(refs, db, tb, raw, store, bound)
  {
    var keys := CondKeys(raw);
    FormatKeysStep(refs, db, tb, raw, keys, i, out, store, bound);
    var nv := FormatKey(refs, db, tb, keys[i], raw[keys[i]], store);
    if nv.Err? {
      FormatKeysPrefixErr(refs, db, tb, raw, keys, i + 1, store, bound);
      FormatKeysAll(refs, db, tb, raw, store, bound);
      return Err(nv.error);
    }
    r := Ok(out[keys[i] := nv.value]);
  }

  /** `formatWhere` as the code runs it: one pass over the keys, each entry
      overwritten with its rewritten value. */
  method FormatWhereRun(refs: RefTable, db: Option<string>, tb: string, raw: map<string, Value>, store: Store,
                        ghost bound: Value)
    returns (r: Result<map<string, Value>>)
    requires Below(raw, bound)
    ensures r == FormatWhereSpec(refs, db, tb, raw, store, bound)
  {
    var out := raw;
    var n := |CondKeys(raw)|;
    var i := 0;
    FormatKeysNone(refs, db, tb, raw, store, bound);
    while i < n
      invariant 0 <= i <= n
      invariant FormatKeys(refs, db, tb, raw, CondKeys(raw)[..i], store, bound) == Ok(out)
    {
      var next := FormatNext(refs, db, tb, raw, i, out, store, bound);
      if next.Err? {
        return next;
      }
      out := next.value;
      i := i + 1;
    }
    FormatKeysAll(refs, db, tb, raw, store, bound);
    r := Ok(out);
  }

  lemma FormatKeysNone(refs: RefTable, db: Option<string>, tb: string, raw: map<string, Value>, store: Store,
                       bound: Value)
    requires Below(raw, bound)
    ensures FormatKeys(refs, db, tb, raw, CondKeys(raw)[..0], store, bound) == Ok(raw)
  {
  }

  lemma FormatKeysAll(refs: RefTable, db: Option<string>, tb: string, raw: map<string, Value>, store: Store,
                      bound: Value)
    requires Below(raw, bound)
    ensures FormatKeys(refs, db, tb, raw, CondKeys(raw)[..|CondKeys(raw)|], store, bound)
         == FormatWhereSpec(refs, db, tb, raw, store, bound)
  {
    assert CondKeys(raw)[..|CondKeys(raw)|] == CondKeys(raw);
  }
}
