/**
 * Properties of the foreign-key registry: what `AddTableDef` records for a
 * struct, what `BuildRefs` resolves the targets to, and the queries the
 * `Foreign` and `ForeignList` lookups run.
 */
module ReferenceProperties {
  import opened Wrappers
  import opened GoStrings
  import opened ObjectIds
  import opened Values
  import opened QueryCompile
  import opened CompileProperties
  import opened QueryBuild
  import opened BuildProperties
  import opened QueryCombine
  import opened CombineProperties
  import opened References

  // ---------------------------------------------------------------------
  // Targets of Foreign[...] types

  /** The type `pre[T]post` of a `Foreign[T]` field names `T`. */
  lemma TargetOfForeign(pre: string, t: string, post: string)
    requires '[' !in pre && ']' !in pre && ']' !in t
    requires t != "" && t[0] != '*'
    ensures TargetOf(pre + "[" + t + "]" + post) == Ok(t)
  {
    var s := pre + "[" + t + "]" + post;
    var j := |pre| + 1 + |t|;
    assert forall k | 0 <= k < |pre| :: s[k] == pre[k];
    assert forall k | 0 <= k < j :: s[k] == (pre + "[" + t)[k];
    assert s[|pre|] == '[' && s[j] == ']';
    assert IndexOf(s, '[') == |pre|;
    assert IndexOf(s, ']') == j;
    assert s[|pre| + 1..j] == t;
  }

  /** A type with no brackets, or with "[]", names no target. */
  lemma TargetOfPlain(s: string)
    requires '[' !in s || ']' !in s
    ensures TargetOf(s) == Err(BadForeignType)
  {
  }

  // ---------------------------------------------------------------------
  // The field loop of AddTableDef

  /** The loop gets through exactly when every ref field names a target. */
  lemma {:induction false} ScanFieldsPass(refs: RefTable, tb: string, fields: seq<FieldDef>)
    ensures ScanFields(refs, tb, fields).outcome.Pass? <==> forall i | 0 <= i < |fields| :: FieldRef(fields[i]).Ok?
    ensures ScanFields(refs, tb, fields).outcome.Fail? ==> ScanFields(refs, tb, fields).outcome.error == BadForeignType
  {
    if |fields| > 0 {
      var init := fields[..|fields| - 1];
      ScanFieldsPass(refs, tb, init);
      assert forall i | 0 <= i < |init| :: init[i] == fields[i];
    }
  }

  /** Only the table being defined changes. */
  lemma {:induction false} ScanFieldsOthers(refs: RefTable, tb: string, fields: seq<FieldDef>)
    ensures refs.Keys <= ScanFields(refs, tb, fields).refs.Keys <= refs.Keys + {tb}
    ensures forall t | t in refs && t != tb :: ScanFields(refs, tb, fields).refs[t] == refs[t]
  {
    if |fields| > 0 {
      ScanFieldsOthers(refs, tb, fields[..|fields| - 1]);
    }
  }

  /** Field `i` is a ref field with column name `c`. */
  predicate RefColumn(fields: seq<FieldDef>, i: int, c: string) {
    0 <= i < |fields| && IsRefField(fields[i]) && fields[i].bson == c
  }

  /** For a new table, the columns recorded are exactly the `bson` names of
      its ref fields. */
  lemma {:induction false} ScanFieldsColumns(refs: RefTable, tb: string, fields: seq<FieldDef>, c: string)
    requires tb !in refs
    requires ScanFields(refs, tb, fields).outcome.Pass?
    ensures var r := ScanFields(refs, tb, fields).refs;
      (tb in r && c in r[tb]) <==> exists i :: RefColumn(fields, i, c)
  {
    if |fields| > 0 {
      var n := |fields| - 1;
      var init := fields[..n];
      var s := ScanFields(refs, tb, init);
      assert s.outcome.Pass?;
      ScanFieldsColumns(refs, tb, init, c);
      assert forall i | RefColumn(init, i, c) :: RefColumn(fields, i, c);
      assert forall i | RefColumn(fields, i, c) && i < n :: RefColumn(init, i, c);
      if RefColumn(fields, n, c) {
        assert fields[n].bson == c;
      }
    }
  }

  /** The entry of a recorded column comes from the last ref field with that
      name. */
  lemma {:induction false} ScanFieldsLast(refs: RefTable, tb: string, fields: seq<FieldDef>, i: int, c: string)
    requires ScanFields(refs, tb, fields).outcome.Pass?
    requires RefColumn(fields, i, c) && forall j | i < j < |fields| :: !RefColumn(fields, j, c)
    ensures var r := ScanFields(refs, tb, fields).refs;
      && TargetOf(fields[i].typeName).Ok?
      && tb in r && c in r[tb] && r[tb][c] == RefType(TargetOf(fields[i].typeName).value, RefMode(fields[i].refTag))
  {
    ScanFieldsPass(refs, tb, fields);
    var n := |fields| - 1;
    var init := fields[..n];
    var s := ScanFields(refs, tb, init);
    assert s.outcome.Pass?;
    if i < n {
      assert forall j | 0 <= j < |init| :: init[j] == fields[j];
      assert forall j | i < j < |init| :: RefColumn(init, j, c) == RefColumn(fields, j, c);
      ScanFieldsLast(refs, tb, init, i, c);
      assert !RefColumn(fields, n, c);
    }
  }

  // ---------------------------------------------------------------------
  // BuildRefs

  /** After a successful `BuildRefs` on a valid registry every entry names a
      defined table, and keeps its mode. */
  lemma ResolvedTargets(refs: RefTable, s2t: map<string, string>, defs: set<string>, t: string, c: string)
    requires forall s | s in s2t :: s2t[s] in defs
    requires Resolvable(refs, s2t)
    requires t in refs && c in refs[t]
    ensures t in ResolveAll(refs, s2t) && c in ResolveAll(refs, s2t)[t]
    ensures ResolveAll(refs, s2t)[t][c].to != "" && ResolveAll(refs, s2t)[t][c].to in defs
    ensures ResolveAll(refs, s2t)[t][c].to == s2t[refs[t][c].to]
    ensures ResolveAll(refs, s2t)[t][c].mode == refs[t][c].mode
  {
    assert TableResolvable(refs[t], s2t);
    assert EntryOk(refs[t][c], s2t);
  }

  /** An entry is unresolvable exactly when its target struct has no table. */
  lemma UnresolvableEntry(refs: RefTable, s2t: map<string, string>)
    ensures !Resolvable(refs, s2t) <==>
      exists t, c :: t in refs && c in refs[t] && Resolve(refs[t][c], s2t).to == ""
  {
    if !Resolvable(refs, s2t) {
      var t :| t in refs && !TableResolvable(refs[t], s2t);
      var c :| c in refs[t] && !EntryOk(refs[t][c], s2t);
      assert Resolve(refs[t][c], s2t).to == "";
    }
  }

  // ---------------------------------------------------------------------
  // Foreign lookups

  /** `Foreign.ToData` finds one document by `_id`. */
  lemma ForeignLookupQuery(r: Foreign, store: Store)
    requires r.ref != "" && !IdIsZero(r.id)
    ensures ForeignLookup(r, store) == Ok(FindOne(r.ref, QueryData([Node("_id", Oid(r.id))], map[])))
    ensures Cond(ForeignLookup(r, store).value.query) == Ok(map["_id" := Map(map["$eq" := Oid(r.id)])])
  {
    assert !HasSep("_id") by {
      assert "_id"[1] != '_';
    }
    MixSingle("_id", Oid(r.id), store);
    assert Q("_id", Oid(r.id), store) == Ok(QueryData([Node("_id", Oid(r.id))], map[]));
    CompileEq("_id", Oid(r.id));
  }

  /** `Q("_id__in", ids)` on a slice of ObjectIDs keeps the slice. */
  lemma QIdsIn(ids: seq<ObjectId>, store: Store)
    ensures Q("_id__in", Oids(ids), store) == Ok(QueryData([Node("_id__in", Oids(ids))], map[]))
  {
    QIdIn(Oids(ids), store);
  }

  /** The node `_id__in` compiles to an `$in` on `_id`. */
  lemma FilterIdsIn(v: Value)
    ensures FilterOf([Node("_id__in", v)]) == Ok(map["_id" := Map(map["$in" := v])])
  {
    IdInKey();
    CompileOp("_id__in", "_id", "in", v);
    assert "$" + "in" == "$in";
  }

  /** `MixQ({"_id__in": ids})` on a slice of ObjectIDs. */
  lemma MixIdsIn(ids: seq<ObjectId>, store: Store)
    ensures MixQuery(map["_id__in" := Oids(ids)], store) == Ok(QueryData([Node("_id__in", Oids(ids))], map[]))
    ensures FilterOf([Node("_id__in", Oids(ids))]) == Ok(map["_id" := Map(map["$in" := Oids(ids)])])
  {
    QIdsIn(ids, store);
    assert "_id__in"[0] != '~';
    MixSingle("_id__in", Oids(ids), store);
    FilterIdsIn(Oids(ids));
  }

  /** `ForeignList.ToData` finds the documents whose `_id` is in the list. */
  lemma ForeignListQuery(rs: seq<Foreign>, store: Store)
    requires LastRef(rs) != "" && |NonZeroIds(rs)| > 0
    ensures ForeignListLookup(rs, store)
         == Ok(FindMany(LastRef(rs), QueryData([Node("_id__in", Oids(NonZeroIds(rs)))], map[])))
    ensures Cond(ForeignListLookup(rs, store).value.query)
         == Ok(map["_id" := Map(map["$in" := Oids(NonZeroIds(rs))])])
  {
    MixIdsIn(NonZeroIds(rs), store);
  }

  /** The list a successful `ToRefListData` returns looks up every one of its
      ids, in the table of its last element. */
  lemma RefListLookup(s2t: map<string, string>, data: seq<Record>, rs: seq<Foreign>)
    requires ToRefList(s2t, data) == Ok(rs) && |rs| > 0
    ensures LastRef(rs) == rs[|rs| - 1].ref
    ensures NonZeroIds(rs) == IdsOf(rs)
  {
    assert ToRefData(s2t, Some(data[|data| - 1])).Ok?;
    AllNonZero(s2t, data, rs);
  }

  lemma AllNonZero(s2t: map<string, string>, data: seq<Record>, rs: seq<Foreign>)
    requires ToRefList(s2t, data) == Ok(rs)
    ensures NonZeroIds(rs) == IdsOf(rs)
  {
    forall i | 0 <= i < |rs| ensures !IdIsZero(rs[i].id) {
      assert ToRefData(s2t, Some(data[i])).Ok?;
    }
  }

  /** A registered struct whose `_id` holds the hex form of a non-zero id
      refers to that id in its table. */
  lemma ToRefDataHex(s2t: map<string, string>, typ: TypeDef, id: ObjectId, rest: seq<(string, IdValue)>)
    requires typ.isStruct && TableOf(s2t, typ) != "" && !IdIsZero(id)
    ensures ToRefData(s2t, Some(Record(typ, [("_id", TextId(Hex(id)))] + rest))) == Ok(Foreign(TableOf(s2t, typ), id))
  {
    HexRoundTrip(id);
    assert FirstIdField([("_id", TextId(Hex(id)))] + rest, 0);
  }
}
