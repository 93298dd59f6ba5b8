/**
 * Properties of `formatWhere`: each entry of the condition is rewritten on
 * its own, so the rewritten map is described key by key; foreign-key
 * columns are found with or without a leading `~`; a foreign-key column
 * whose condition is not a map (or an already built `refQ`) is rejected;
 * every other column keeps its value.
 */
module OrmWhereProperties {
  import opened Wrappers
  import opened GoStrings
  import opened Values
  import opened QueryCombine
  import opened OrmWhere

  predicate Distinct(keys: seq<string>) {
    forall i, j | 0 <= i < j < |keys| :: keys[i] != keys[j]
  }

  /** The rewriting gets through when every entry it names can be
      rewritten. */
  lemma {:induction false} FormatKeysOk(refs: RefTable, db: Option<string>, tb: string, raw: map<string, Value>,
                                        keys: seq<string>, store: Store, bound: Value)
    requires Below(raw, bound)
    requires forall i | 0 <= i < |keys| :: keys[i] in raw
    requires forall i | 0 <= i < |keys| :: FormatEntry(refs, db, tb, keys[i], raw[keys[i]], store).Ok?
    ensures FormatKeys(refs, db, tb, raw, keys, store, bound).Ok?
  {
    if |keys| > 0 {
      var n := |keys| - 1;
      var init := keys[..n];
      assert forall i | 0 <= i < n :: init[i] == keys[i];
      FormatKeysOk(refs, db, tb, raw, init, store, bound);
    }
  }

  /** One entry that cannot be rewritten makes the whole rewriting fail. */
  lemma {:induction false} FormatKeysErr(refs: RefTable, db: Option<string>, tb: string, raw: map<string, Value>,
                                         keys: seq<string>, store: Store, bound: Value, i: int)
    requires Below(raw, bound)
    requires forall j | 0 <= j < |keys| :: keys[j] in raw
    requires 0 <= i < |keys| && FormatEntry(refs, db, tb, keys[i], raw[keys[i]], store).Err?
    ensures FormatKeys(refs, db, tb, raw, keys, store, bound).Err?
  {
    var n := |keys| - 1;
    if i < n {
      var init := keys[..n];
      assert init[i] == keys[i];
      FormatKeysErr(refs, db, tb, raw, init, store, bound, i);
    }
  }

  /** A successful rewriting of distinct `keys` gives the `i`th of them its
      rewritten value. */
  lemma {:induction false} FormatKeysAt(refs: RefTable, db: Option<string>, tb: string, raw: map<string, Value>,
                                        keys: seq<string>, store: Store, bound: Value, out: map<string, Value>, i: int)
    requires Below(raw, bound)
    requires forall j | 0 <= j < |keys| :: keys[j] in raw
    requires Distinct(keys)
    requires FormatKeys(refs, db, tb, raw, keys, store, bound) == Ok(out)
    requires 0 <= i < |keys|
    ensures keys[i] in out && FormatEntry(refs, db, tb, keys[i], raw[keys[i]], store) == Ok(out[keys[i]])
  {
    var n := |keys| - 1;
    var init := keys[..n];
    var prev := FormatKeys(refs, db, tb, raw, init, store, bound);
    var e := FormatEntry(refs, db, tb, keys[n], raw[keys[n]], store);
    assert out == prev.value[keys[n] := e.value];
    if i < n {
      assert init[i] == keys[i] && keys[i] != keys[n];
      assert forall j | 0 <= j < n :: init[j] == keys[j];
      FormatKeysAt(refs, db, tb, raw, init, store, bound, prev.value, i);
    }
  }

  /** `CondKeys` lists every key of the map once. */
  lemma CondKeysOf(raw: map<string, Value>)
    ensures Distinct(CondKeys(raw))
    ensures forall k | k in raw :: k in CondKeys(raw)
  {
    KeyOrderDistinct(raw.Keys);
  }

  // ---------------------------------------------------------------------
  // formatWhere, entry by entry

  /** `formatWhere` gets through when every entry can be rewritten. */
  lemma FormatWhereOk(refs: RefTable, db: Option<string>, tb: string, raw: map<string, Value>, store: Store)
    requires forall k | k in raw :: FormatEntry(refs, db, tb, k, raw[k], store).Ok?
    ensures FormatWhere(refs, db, tb, raw, store).Ok?
  {
    FormatKeysOk(refs, db, tb, raw, CondKeys(raw), store, Map(raw));
  }

  /** `formatWhere` fails when one entry cannot be rewritten, and otherwise
      holds, under every key, that entry's rewritten value. */
  lemma FormatWhereEntry(refs: RefTable, db: Option<string>, tb: string, raw: map<string, Value>, store: Store,
                         k: string)
    requires k in raw
    ensures FormatEntry(refs, db, tb, k, raw[k], store).Err? ==> FormatWhere(refs, db, tb, raw, store).Err?
    ensures FormatWhere(refs, db, tb, raw, store).Ok? ==>
      k in FormatWhere(refs, db, tb, raw, store).value
      && FormatEntry(refs, db, tb, k, raw[k], store) == Ok(FormatWhere(refs, db, tb, raw, store).value[k])
  {
    CondKeysOf(raw);
    var keys := CondKeys(raw);
    var i :| 0 <= i < |keys| && keys[i] == k;
    var r := FormatWhere(refs, db, tb, raw, store);
    if r.Ok? {
      FormatKeysAt(refs, db, tb, raw, keys, store, Map(raw), r.value, i);
    } else if FormatEntry(refs, db, tb, k, raw[k], store).Err? {
      FormatKeysErr(refs, db, tb, raw, keys, store, Map(raw), i);
    }
  }

  /** A column with no foreign-key reference keeps its condition. */
  lemma FormatWhereKeeps(refs: RefTable, db: Option<string>, tb: string, raw: map<string, Value>, store: Store,
                         k: string)
    requires k in raw && k != "" && !IsCombinator(k) && LookupRef(refs, tb, RealKey(k)).None?
    requires FormatWhere(refs, db, tb, raw, store).Ok?
    ensures FormatWhere(refs, db, tb, raw, store).value[k] == raw[k]
  {
    FormatWhereEntry(refs, db, tb, raw, store, k);
  }

  /** An empty key makes `formatWhere` fail (`k[0]` panics). */
  lemma FormatWhereEmptyKey(refs: RefTable, db: Option<string>, tb: string, raw: map<string, Value>, store: Store)
    requires "" in raw
    ensures FormatWhere(refs, db, tb, raw, store).Err?
  {
    assert !IsCombinator("");
    FormatWhereEntry(refs, db, tb, raw, store, "");
  }

  /** A leading `~` is ignored when the reference of a column is looked up:
      `~c` is rewritten as `c` would be. */
  lemma FormatEntryTilde(refs: RefTable, db: Option<string>, tb: string, c: string, v: Value, store: Store)
    requires c != "" && c[0] != '~' && !IsCombinator(c)
    ensures FormatEntry(refs, db, tb, "~" + c, v, store) == FormatEntry(refs, db, tb, c, v, store)
  {
    assert ("~" + c)[0] == '~' && ("~" + c)[1..] == c;
    assert !IsCombinator("~" + c) by {
      assert ("~" + c)[0] != '$';
    }
  }

  /** A foreign-key column whose condition is neither a map nor a `refQ`
      makes `formatWhere` fail. */
  lemma FormatWhereRefRejects(refs: RefTable, db: Option<string>, tb: string, raw: map<string, Value>, store: Store,
                              k: string)
    requires k in raw && k != "" && !IsCombinator(k) && LookupRef(refs, tb, RealKey(k)).Some?
    requires !raw[k].Map? && !raw[k].RefQV?
    ensures FormatEntry(refs, db, tb, k, raw[k], store) == Err(RefConditionType)
    ensures FormatWhere(refs, db, tb, raw, store).Err?
  {
    FormatWhereEntry(refs, db, tb, raw, store, k);
  }

  /** A foreign-key column that already holds a `refQ` keeps it. */
  lemma FormatWhereRefKept(refs: RefTable, db: Option<string>, tb: string, raw: map<string, Value>, store: Store,
                           k: string)
    requires k in raw && k != "" && !IsCombinator(k) && LookupRef(refs, tb, RealKey(k)).Some? && raw[k].RefQV?
    requires FormatWhere(refs, db, tb, raw, store).Ok?
    ensures FormatWhere(refs, db, tb, raw, store).value[k] == raw[k]
  {
    FormatWhereEntry(refs, db, tb, raw, store, k);
  }

  /** A foreign-key column with a condition map gets a `refQ` from table
      `tb` whose query is the condition, itself rewritten for the referenced
      table, mixed into a query. */
  lemma FormatWhereRefMap(refs: RefTable, db: Option<string>, tb: string, raw: map<string, Value>, store: Store,
                          k: string)
    requires k in raw && k != "" && !IsCombinator(k) && LookupRef(refs, tb, RealKey(k)).Some? && raw[k].Map?
    requires FormatWhere(refs, db, tb, raw, store).Ok?
    ensures var to := LookupRef(refs, tb, RealKey(k)).value.to;
      && FormatWhere(refs, db, to, raw[k].fields, store).Ok?
      && MixQuery(FormatWhere(refs, db, to, raw[k].fields, store).value, store).Ok?
      && FormatWhere(refs, db, tb, raw, store).value[k]
         == RefQV(RefQ(tb, Some(refs), db, MixQuery(FormatWhere(refs, db, to, raw[k].fields, store).value, store).value))
  {
    FormatWhereEntry(refs, db, tb, raw, store, k);
  }

  /** `$and`, `$or` and `$nor` values are rewritten by `formatWhereArr`. */
  lemma FormatWhereCombinator(refs: RefTable, db: Option<string>, tb: string, raw: map<string, Value>, store: Store,
                              k: string)
    requires k in raw && IsCombinator(k)
    requires FormatWhere(refs, db, tb, raw, store).Ok?
    ensures FormatArr(refs, db, tb, raw[k], store) == Ok(FormatWhere(refs, db, tb, raw, store).value[k])
  {
    FormatWhereEntry(refs, db, tb, raw, store, k);
  }

  // ---------------------------------------------------------------------
  // Rewriting twice

  /** Outside `$and`/`$or`/`$nor`, an entry that has been rewritten is
      rewritten to itself. */
  lemma FormatEntryIdempotent(refs: RefTable, db: Option<string>, tb: string, k: string, v: Value, store: Store)
    requires !IsCombinator(k) && FormatEntry(refs, db, tb, k, v, store).Ok?
    ensures FormatEntry(refs, db, tb, k, FormatEntry(refs, db, tb, k, v, store).value, store)
         == FormatEntry(refs, db, tb, k, v, store)
  {
    assert k != "";
    var ref := LookupRef(refs, tb, RealKey(k));
    if ref.Some? {
      FormatRefIdempotent(refs, db, tb, ref.value.to, v, store);
    }
  }

  /** A foreign-key value that has been rewritten is a `refQ`, which is kept. */
  lemma FormatRefIdempotent(refs: RefTable, db: Option<string>, tb: string, to: string, v: Value, store: Store)
    requires FormatRef(refs, db, tb, to, v, store).Ok?
    ensures FormatRef(refs, db, tb, to, v, store).value.RefQV?
    ensures FormatRef(refs, db, tb, to, FormatRef(refs, db, tb, to, v, store).value, store)
         == FormatRef(refs, db, tb, to, v, store)
  {
  }

  /** Rewriting a condition without `$and`/`$or`/`$nor` entries a second
      time changes nothing: each foreign-key column already holds its
      `refQ`, which is kept. `Cond` relies on this, as it stores the
      rewritten condition back into the query state. */
  lemma FormatWhereIdempotent(refs: RefTable, db: Option<string>, tb: string, raw: map<string, Value>, store: Store)
    requires forall k | k in raw :: !IsCombinator(k)
    requires FormatWhere(refs, db, tb, raw, store).Ok?
    ensures FormatWhere(refs, db, tb, FormatWhere(refs, db, tb, raw, store).value, store)
         == FormatWhere(refs, db, tb, raw, store)
  {
    var out := FormatWhere(refs, db, tb, raw, store).value;
    forall k | k in out
      ensures FormatEntry(refs, db, tb, k, out[k], store) == Ok(out[k])
    {
      FormatWhereEntry(refs, db, tb, raw, store, k);
      FormatEntryIdempotent(refs, db, tb, k, raw[k], store);
    }
    FormatWhereOk(refs, db, tb, out, store);
    var again := FormatWhere(refs, db, tb, out, store).value;
    forall k | k in out
      ensures again[k] == out[k]
    {
      FormatWhereEntry(refs, db, tb, out, store, k);
    }
    assert again == out;
  }
}
