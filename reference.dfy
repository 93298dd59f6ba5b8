/**
 * The foreign-key registry `Reference` (reference.go:139-270) and the
 * conversions around it: `Foreign.ToData`, `ForeignList.ToData`,
 * `ToRefData` and `ToRefListData` (reference.go:65-389).
 *
 * Reflection is replaced by an explicit schema: a struct definition is a
 * `TypeDef` listing, per field, whether it is exported, its `bson` and `ref`
 * tags and the name of its type (after dereferencing a pointer).
 */
module References {
  import opened Wrappers
  import opened GoStrings
  import opened ObjectIds
  import opened Values
  import opened QueryCombine

  // ---------------------------------------------------------------------
  // Schema

  datatype FieldDef = FieldDef(exported: bool, bson: string, refTag: string, typeName: string)

  datatype TypeDef = TypeDef(isStruct: bool, pkgPath: string, name: string, fields: seq<FieldDef>)

  /** `fmt.Sprintf("%s.%s", tp.PkgPath(), tp.Name())` */
  function FullName(t: TypeDef): string {
    t.pkgPath + "." + t.name
  }

  /** A field that carries a foreign key: exported, with a `bson` and a
      `ref` tag. */
  predicate IsRefField(f: FieldDef) {
    f.exported && f.bson != "" && f.refTag != ""
  }

  /** The match mode of a `ref` tag. */
  function RefMode(tag: string): (m: int)
    ensures m == RefAll <==> tag == "all"
    ensures m == RefMatch <==> tag == "match"
    ensures m == RefDefault <==> tag != "all" && tag != "match"
  {
    if tag == "all" then RefAll else if tag == "match" then RefMatch else RefDefault
  }

  /** The struct a `Foreign[...]` type names: the text between the first '['
      and the first ']', which must be non-empty and not a pointer. */
  function TargetOf(typeName: string): (r: Result<string>)
    ensures r.Err? ==> r.error == BadForeignType
    ensures r.Ok? ==>
      exists i, j :: 0 <= i < j < |typeName| && typeName[i] == '[' && typeName[j] == ']'
        && '[' !in typeName[..i] && ']' !in typeName[..j] && r.value == typeName[i + 1..j]
        && r.value != "" && r.value[0] != '*'
  {
    var first := IndexOf(typeName, '[');
    var second := IndexOf(typeName, ']');
    if first < 0 || second < 0 || second <= first then Err(BadForeignType)
    else
      var t := typeName[first + 1..second];
      if t == "" || t[0] == '*' then Err(BadForeignType)
      else Ok(t)
  }

  /** The ref entry a field yields: none unless it is a ref field; an error
      when its type does not name a target. */
  function FieldRef(f: FieldDef): (r: Result<Option<RefType>>)
    ensures r.Ok? ==> (r.value.Some? <==> IsRefField(f))
    ensures r.Err? <==> IsRefField(f) && TargetOf(f.typeName).Err?
    ensures r.Ok? && r.value.Some? ==> r.value.value == RefType(TargetOf(f.typeName).value, RefMode(f.refTag))
  {
    if !IsRefField(f) then Ok(None)
    else
      var t :- TargetOf(f.typeName);
      Ok(Some(RefType(t, RefMode(f.refTag))))
  }

  /** `tableRef[tb][col] = rt`, creating the table's map when missing. */
  function AddRef(refs: RefTable, tb: string, col: string, rt: RefType): (r: RefTable)
    ensures r.Keys == refs.Keys + {tb}
    ensures forall t | t in refs && t != tb :: r[t] == refs[t]
    ensures r[tb].Keys == (if tb in refs then refs[tb].Keys else {}) + {col}
    ensures r[tb][col] == rt
    ensures tb in refs ==> forall c | c in refs[tb] && c != col :: r[tb][c] == refs[tb][c]
  {
    if tb in refs then refs[tb := refs[tb][col := rt]] else refs[tb := map[col := rt]]
  }

  /** The state of the field loop of `AddTableDef`: the reference table and
      whether the loop got through. */
  datatype Scan = Scan(refs: RefTable, outcome: Outcome)

  /** The field loop of `AddTableDef` over the first fields, `fields` in
      order; it stops at the first field whose type names no target. */
  function ScanFields(refs: RefTable, tb: string, fields: seq<FieldDef>): Scan {
    if |fields| == 0 then Scan(refs, Pass)
    else
      var s := ScanFields(refs, tb, fields[..|fields| - 1]);
      var f := fields[|fields| - 1];
      if s.outcome.Fail? then s
      else match FieldRef(f)
        case Err(e) => Scan(s.refs, Fail(e))
        case Ok(None) => s
        case Ok(Some(rt)) => Scan(AddRef(s.refs, tb, f.bson, rt), Pass)
  }

  // ---------------------------------------------------------------------
  // Resolution of targets (BuildRefs)

  predicate EntryOk(rt: RefType, s2t: map<string, string>) {
    rt.to in s2t && s2t[rt.to] != ""
  }

  /** `ref.To = r.structToTable[ref.To]`: the table of the struct, or "". */
  function Resolve(rt: RefType, s2t: map<string, string>): RefType {
    RefType(if rt.to in s2t then s2t[rt.to] else "", rt.mode)
  }

  predicate TableResolvable(m: map<string, RefType>, s2t: map<string, string>) {
    forall c | c in m :: EntryOk(m[c], s2t)
  }

  function ResolveTable(m: map<string, RefType>, s2t: map<string, string>): map<string, RefType> {
    map c | c in m :: Resolve(m[c], s2t)
  }

  predicate PartlyResolvedTable(m': map<string, RefType>, m: map<string, RefType>, s2t: map<string, string>) {
    m'.Keys == m.Keys && forall c | c in m :: m'[c] == m[c] || m'[c] == Resolve(m[c], s2t)
  }

  predicate Resolvable(refs: RefTable, s2t: map<string, string>) {
    forall t | t in refs :: TableResolvable(refs[t], s2t)
  }

  function ResolveAll(refs: RefTable, s2t: map<string, string>): RefTable {
    map t | t in refs :: ResolveTable(refs[t], s2t)
  }

  predicate PartlyResolved(refs': RefTable, refs: RefTable, s2t: map<string, string>) {
    refs'.Keys == refs.Keys && forall t | t in refs :: PartlyResolvedTable(refs'[t], refs[t], s2t)
  }

  /** The inner loop of `BuildRefs` over one table's columns, visited in
      any order (Go's `range` over a map). */
  method ResolveColumns(m: map<string, RefType>, s2t: map<string, string>) returns (m2: map<string, RefType>, o: Outcome)
    ensures o.Pass? <==> TableResolvable(m, s2t)
    ensures o.Pass? ==> m2 == ResolveTable(m, s2t)
    ensures o.Fail? ==> o.error == UnresolvedTable && PartlyResolvedTable(m2, m, s2t)
  {
    m2 := m;
    var todo := m.Keys;
    while todo != {}
      invariant todo <= m.Keys
      invariant m2.Keys == m.Keys
      invariant forall c | c in m && c !in todo :: m2[c] == Resolve(m[c], s2t) && EntryOk(m[c], s2t)
      invariant forall c | c in todo :: m2[c] == m[c]
      decreases |todo|
    {
      var c :| c in todo;
      var r := Resolve(m[c], s2t);
      m2 := m2[c := r];
      if r.to == "" {
        ColumnsFailed(m, m2, s2t, c);
        return m2, Fail(UnresolvedTable);
      }
      todo := todo - {c};
    }
    ColumnsResolved(m, m2, s2t);
    o := Pass;
  }

  lemma ColumnsResolved(m: map<string, RefType>, m2: map<string, RefType>, s2t: map<string, string>)
    requires m2.Keys == m.Keys
    requires forall c | c in m :: m2[c] == Resolve(m[c], s2t) && EntryOk(m[c], s2t)
    ensures TableResolvable(m, s2t) && m2 == ResolveTable(m, s2t)
  {
  }

  lemma ColumnsFailed(m: map<string, RefType>, m2: map<string, RefType>, s2t: map<string, string>, c: string)
    requires m2.Keys == m.Keys && c in m
    requires forall d | d in m :: m2[d] == m[d] || m2[d] == Resolve(m[d], s2t)
    requires Resolve(m[c], s2t).to == ""
    ensures !TableResolvable(m, s2t) && PartlyResolvedTable(m2, m, s2t)
  {
    assert !EntryOk(m[c], s2t);
  }

  // ---------------------------------------------------------------------
  // The registry

  class Reference {
    var tableDef: map<string, TypeDef>
    var tableRef: RefTable
    var structToTable: map<string, string>

    /** Every registered struct names a defined table, and only defined
        tables have references. */
    predicate Valid()
      reads this
    {
      && tableRef.Keys <= tableDef.Keys
      && forall s | s in structToTable :: structToTable[s] in tableDef
    }

    /** `NewReference()` */
    constructor ()
      ensures Valid()
      ensures tableDef == map[] && tableRef == map[] && structToTable == map[]
    {
      tableDef := map[];
      tableRef := map[];
      structToTable := map[];
    }

    /** `getTableName(name)`: the table registered for a struct, or "". */
    function GetTableName(structName: string): (t: string)
      reads this
      ensures structName in structToTable ==> t == structToTable[structName]
      ensures structName !in structToTable ==> t == ""
    {
      if structName in structToTable then structToTable[structName] else ""
    }

    /** `getRef(tb, col)` */
    function GetRef(tb: string, col: string): (r: Option<RefType>)
      reads this
      ensures r.Some? <==> tb in tableRef && col in tableRef[tb]
      ensures r.Some? ==> r.value == tableRef[tb][col]
    {
      LookupRef(tableRef, tb, col)
    }

    /** `AddTableDef(tbName, def)`: checks, then registers the struct and the
        table and records the ref entry of every ref field, in field order. A
        field whose type names no target panics midway, as in the code.  */
    method AddTableDef(tbName: string, def: TypeDef) returns (o: Outcome)
      requires Valid()
      modifies this
      ensures Valid()
      ensures tbName in old(tableDef) ==> o == Fail(DuplicateTable) && unchanged(this)
      ensures tbName !in old(tableDef) && !def.isStruct ==> o == Fail(NotStruct) && unchanged(this)
      ensures tbName !in old(tableDef) && def.isStruct && FullName(def) in old(structToTable) ==>
        o == Fail(DuplicateStruct) && unchanged(this)
      ensures tbName !in old(tableDef) && def.isStruct && FullName(def) !in old(structToTable) ==>
        && structToTable == old(structToTable)[FullName(def) := tbName]
        && tableDef == old(tableDef)[tbName := def]
        && tableRef == ScanFields(old(tableRef), tbName, def.fields).refs
        && o == ScanFields(old(tableRef), tbName, def.fields).outcome
    {
      if tbName in tableDef {
        return Fail(DuplicateTable);
      }
      if !def.isStruct {
        return Fail(NotStruct);
      }
      var full := FullName(def);
      if full in structToTable {
        return Fail(DuplicateStruct);
      }
      structToTable := structToTable[full := tbName];
      tableDef := tableDef[tbName := def];
      ghost var start := tableRef;
      var i := 0;
      while i < |def.fields|
        invariant 0 <= i <= |def.fields|
        invariant ScanFields(start, tbName, def.fields[..i]) == Scan(tableRef, Pass)
        invariant structToTable == old(structToTable)[full := tbName]
        invariant tableDef == old(tableDef)[tbName := def]
        invariant tableRef.Keys <= tableDef.Keys
      {
        var f := def.fields[i];
        assert def.fields[..i + 1][..i] == def.fields[..i];
        var fr := FieldRef(f);
        if fr.Err? {
          assert ScanFields(start, tbName, def.fields[..i + 1]) == Scan(tableRef, Fail(fr.error));
          ScanFieldsStops(start, tbName, def.fields, i + 1);
          return Fail(fr.error);
        }
        if fr.value.Some? {
          tableRef := AddRef(tableRef, tbName, f.bson, fr.value.value);
        }
        i := i + 1;
      }
      assert def.fields[..i] == def.fields;
      o := Pass;
    }

    /** `BuildRefs()`: every entry's target struct is replaced by its table.
        An unregistered target panics; the entries visited until then keep
        their new value. */
    method BuildRefs() returns (o: Outcome)
      requires Valid()
      modifies this
      ensures Valid()
      ensures tableDef == old(tableDef) && structToTable == old(structToTable)
      ensures o.Pass? <==> Resolvable(old(tableRef), structToTable)
      ensures o.Pass? ==> tableRef == ResolveAll(old(tableRef), structToTable)
      ensures o.Fail? ==> o.error == UnresolvedTable && PartlyResolved(tableRef, old(tableRef), structToTable)
    {
      var refs, o2 := ResolveTables(tableRef, structToTable);
      tableRef := refs;
      o := o2;
    }
  }

  /** The outer loop of `BuildRefs` over the tables, visited in any order. */
  method ResolveTables(start: RefTable, s2t: map<string, string>) returns (refs: RefTable, o: Outcome)
    ensures refs.Keys == start.Keys
    ensures o.Pass? <==> Resolvable(start, s2t)
    ensures o.Pass? ==> refs == ResolveAll(start, s2t)
    ensures o.Fail? ==> o.error == UnresolvedTable && PartlyResolved(refs, start, s2t)
  {
    refs := start;
    var todo := start.Keys;
    while todo != {}
      invariant todo <= start.Keys
      invariant refs.Keys == start.Keys
      invariant forall t | t in start && t !in todo ::
        refs[t] == ResolveTable(start[t], s2t) && TableResolvable(start[t], s2t)
      invariant forall t | t in todo :: refs[t] == start[t]
      decreases |todo|
    {
      var t :| t in todo;
      var m2, o2 := ResolveColumns(refs[t], s2t);
      refs := refs[t := m2];
      if o2.Fail? {
        assert !TableResolvable(start[t], s2t);
        PartlyAfterFailure(refs, start, s2t, todo, t);
        return refs, o2;
      }
      todo := todo - {t};
    }
    AllResolved(refs, start, s2t);
    o := Pass;
  }

  lemma PartlyAfterFailure(refs: RefTable, start: RefTable, s2t: map<string, string>, todo: set<string>, t: string)
    requires refs.Keys == start.Keys && todo <= start.Keys && t in todo
    requires forall t' | t' in start && t' !in todo :: refs[t'] == ResolveTable(start[t'], s2t)
    requires forall t' | t' in todo && t' != t :: refs[t'] == start[t']
    requires t in start && PartlyResolvedTable(refs[t], start[t], s2t)
    ensures PartlyResolved(refs, start, s2t)
  {
    forall t' | t' in start ensures PartlyResolvedTable(refs[t'], start[t'], s2t) {
      if t' != t && t' !in todo {
        assert forall c | c in start[t'] :: refs[t'][c] == Resolve(start[t'][c], s2t);
      }
    }
  }

  lemma AllResolved(refs: RefTable, start: RefTable, s2t: map<string, string>)
    requires refs.Keys == start.Keys
    requires forall t | t in start :: refs[t] == ResolveTable(start[t], s2t) && TableResolvable(start[t], s2t)
    ensures refs == ResolveAll(start, s2t) && Resolvable(start, s2t)
  {
  }

  /** Once the field loop has stopped it stays stopped. */
  lemma {:induction false} ScanFieldsStops(refs: RefTable, tb: string, fields: seq<FieldDef>, i: nat)
    requires i <= |fields| && ScanFields(refs, tb, fields[..i]).outcome.Fail?
    ensures ScanFields(refs, tb, fields) == ScanFields(refs, tb, fields[..i])
    decreases |fields| - i
  {
    if i < |fields| {
      assert fields[..i + 1][..i] == fields[..i];
      ScanFieldsStops(refs, tb, fields, i + 1);
    } else {
      assert fields[..i] == fields;
    }
  }

  // ---------------------------------------------------------------------
  // Foreign and ForeignList

  /** `Foreign[T]`: a table name and an id. */
  datatype Foreign = Foreign(ref: string, id: ObjectId)

  /** The lookup `ToData` hands to the collection. */
  datatype Lookup = NoLookup | FindOne(collection: string, query: QueryData) | FindMany(collection: string, query: QueryData)

  /** `Foreign.ToData`: no lookup for an empty table name or a zero id;
      otherwise a `FindOne` on `MixQ({"_id": id})`. */
  function ForeignLookup(r: Foreign, store: Store): (l: Result<Lookup>)
    ensures l.Ok? && l.value.NoLookup? <==> r.ref == "" || IdIsZero(r.id)
    ensures l.Ok? && l.value.FindOne? ==> l.value.collection == r.ref
  {
    if r.ref == "" || IdIsZero(r.id) then Ok(NoLookup)
    else
      var q :- MixQuery(map["_id" := Oid(r.id)], store);
      Ok(FindOne(r.ref, q))
  }

  /** The last non-empty table name of a list, or "". */
  function LastRef(rs: seq<Foreign>): (t: string)
    ensures t == "" <==> forall i | 0 <= i < |rs| :: rs[i].ref == ""
  {
    if |rs| == 0 then ""
    else if rs[|rs| - 1].ref != "" then rs[|rs| - 1].ref
    else
      var t := LastRef(rs[..|rs| - 1]);
      assert forall i | 0 <= i < |rs| - 1 :: rs[..|rs| - 1][i] == rs[i];
      t
  }

  /** A non-empty `LastRef` is the table name of an element after which every
      name is empty. */
  lemma {:induction false} LastRefIsLast(rs: seq<Foreign>)
    requires LastRef(rs) != ""
    ensures exists i :: 0 <= i < |rs| && rs[i].ref == LastRef(rs) && forall j | i < j < |rs| :: rs[j].ref == ""
  {
    var n := |rs| - 1;
    if rs[n].ref != "" {
      assert rs[n].ref == LastRef(rs);
    } else {
      var init := rs[..n];
      LastRefIsLast(init);
      var i :| 0 <= i < n && init[i].ref == LastRef(init) && forall j | i < j < n :: init[j].ref == "";
      assert rs[i].ref == LastRef(rs);
      assert forall j | i < j < |rs| :: rs[j].ref == "" by {
        forall j | i < j < |rs| ensures rs[j].ref == "" {
          if j < n {
            assert init[j] == rs[j];
          }
        }
      }
    }
  }

  /** The ids of a list, in order. */
  function IdsOf(rs: seq<Foreign>): (ids: seq<ObjectId>)
    ensures |ids| == |rs| && forall i | 0 <= i < |rs| :: ids[i] == rs[i].id
  {
    seq(|rs|, i requires 0 <= i < |rs| => rs[i].id)
  }

  /** The non-zero ids of a list, in order. */
  function NonZeroIds(rs: seq<Foreign>): (ids: seq<ObjectId>)
    ensures |ids| <= |rs|
    ensures forall id :: id in ids <==> id in IdsOf(rs) && !IdIsZero(id)
    ensures (forall i | 0 <= i < |rs| :: !IdIsZero(rs[i].id)) ==> ids == IdsOf(rs)
  {
    if |rs| == 0 then []
    else
      var init := NonZeroIds(rs[..|rs| - 1]);
      assert IdsOf(rs) == IdsOf(rs[..|rs| - 1]) + [rs[|rs| - 1].id];
      if IdIsZero(rs[|rs| - 1].id) then init else init + [rs[|rs| - 1].id]
  }

  /** `ForeignList.ToData`: a `FindMany` on `MixQ({"_id__in": ids})` over
      the last named table and the non-zero ids, or no lookup when either is
      missing. */
  function ForeignListLookup(rs: seq<Foreign>, store: Store): (l: Result<Lookup>)
    ensures l.Ok? && l.value.NoLookup? <==> LastRef(rs) == "" || |NonZeroIds(rs)| == 0
    ensures l.Ok? && l.value.FindMany? ==> l.value.collection == LastRef(rs)
  {
    if |rs| == 0 then Ok(NoLookup)
    else
      var coll := LastRef(rs);
      var ids := NonZeroIds(rs);
      if coll == "" || |ids| == 0 then Ok(NoLookup)
      else
        var q :- MixQuery(map["_id__in" := Oids(ids)], store);
        Ok(FindMany(coll, q))
  }

  /** The loop of `ForeignList.ToData`: the last named table and the non-zero
      ids. */
  method ScanForeigns(rs: seq<Foreign>) returns (coll: string, ids: seq<ObjectId>)
    ensures coll == LastRef(rs) && ids == NonZeroIds(rs)
  {
    coll := "";
    ids := [];
    var i := 0;
    while i < |rs|
      invariant 0 <= i <= |rs|
      invariant coll == LastRef(rs[..i]) && ids == NonZeroIds(rs[..i])
    {
      assert rs[..i + 1][..i] == rs[..i];
      if rs[i].ref != "" {
        coll := rs[i].ref;
      }
      if !IdIsZero(rs[i].id) {
        ids := ids + [rs[i].id];
      }
      i := i + 1;
    }
    assert rs[..i] == rs;
  }

  /** `ForeignList.ToData` as the code runs it. */
  method ForeignListToData(rs: seq<Foreign>, store: Store) returns (l: Result<Lookup>)
    ensures l == ForeignListLookup(rs, store)
  {
    if |rs| == 0 {
      return Ok(NoLookup);
    }
    var coll, ids := ScanForeigns(rs);
    if coll == "" || |ids| == 0 {
      return Ok(NoLookup);
    }
    var q := MixQuery(map["_id__in" := Oids(ids)], store);
    if q.Err? {
      return Err(q.error);
    }
    l := Ok(FindMany(coll, q.value));
  }


  // ---------------------------------------------------------------------
  // ToRefData and ToRefListData

  /** The value of a struct's `_id` field: text or a byte array. */
  datatype IdValue = TextId(s: string) | ByteId(b: seq<byte>)

  /** A struct value: its type and, per field, the `bson` tag and the value
      of fields that can hold an id. */
  datatype Record = Record(typ: TypeDef, ids: seq<(string, IdValue)>)

  /** The id an `_id` field holds: hex text is parsed, bytes are copied. */
  function IdOfValue(v: IdValue): (r: Result<ObjectId>)
    ensures r.Err? ==> r.error == InvalidHex
    ensures r.Err? <==> v.TextId? && ParseHex(v.s).Err?
  {
    match v
    case TextId(s) => ParseHex(s)
    case ByteId(b) => Ok(CopyId(b))
  }

  /** The first field tagged `_id`, if any. */
  predicate FirstIdField(fields: seq<(string, IdValue)>, i: int) {
    0 <= i < |fields| && fields[i].0 == "_id" && forall j | 0 <= j < i :: fields[j].0 != "_id"
  }

  /** The id of the first field tagged `_id`; the zero id when there is none. */
  function RecordId(fields: seq<(string, IdValue)>): (r: Result<ObjectId>)
    ensures r.Err? ==> r.error == InvalidHex
    ensures (forall i | 0 <= i < |fields| :: fields[i].0 != "_id") ==> r == Ok(NilId)
    ensures forall i | FirstIdField(fields, i) :: r == IdOfValue(fields[i].1)
  {
    if |fields| == 0 then Ok(NilId)
    else if fields[0].0 == "_id" then IdOfValue(fields[0].1)
    else
      var r := RecordId(fields[1..]);
      assert forall i | FirstIdField(fields, i) :: FirstIdField(fields[1..], i - 1) by {
        forall i | FirstIdField(fields, i) ensures FirstIdField(fields[1..], i - 1) {
          assert forall j | 0 <= j < i - 1 :: fields[1..][j] == fields[j + 1];
        }
      }
      r
  }

  /** The field loop of `ToRefData`, which stops at the first `_id`. */
  method FindRecordId(fields: seq<(string, IdValue)>) returns (r: Result<ObjectId>)
    ensures r == RecordId(fields)
  {
    var i := 0;
    while i < |fields|
      invariant 0 <= i <= |fields|
      invariant RecordId(fields) == RecordId(fields[i..])
    {
      if fields[i].0 == "_id" {
        return IdOfValue(fields[i].1);
      }
      assert fields[i..][1..] == fields[i + 1..];
      i := i + 1;
    }
    r := Ok(NilId);
  }

  /** The table a struct type is registered under, or "". */
  function TableOf(s2t: map<string, string>, typ: TypeDef): string {
    if FullName(typ) in s2t then s2t[FullName(typ)] else ""
  }

  /** `ToRefData(r, data)`, over the registry's struct-to-table map. */
  function ToRefData(s2t: map<string, string>, data: Option<Record>): (r: Result<Foreign>)
    ensures (data.None? || !data.value.typ.isStruct) ==> r == Err(NotStructPointer)
    ensures data.Some? && data.value.typ.isStruct ==>
      var tb := TableOf(s2t, data.value.typ);
      var id := RecordId(data.value.ids);
      && (tb == "" ==> r == Err(UndefinedStruct))
      && (tb != "" && id.Err? ==> r == Err(InvalidHex))
      && (tb != "" && id.Ok? && IdIsZero(id.value) ==> r == Err(ZeroObjectId))
      && (tb != "" && id.Ok? && !IdIsZero(id.value) ==> r == Ok(Foreign(tb, id.value)))
  {
    if data.None? || !data.value.typ.isStruct then Err(NotStructPointer)
    else
      var tb := TableOf(s2t, data.value.typ);
      if tb == "" then Err(UndefinedStruct)
      else
        var id :- RecordId(data.value.ids);
        if IdIsZero(id) then Err(ZeroObjectId) else Ok(Foreign(tb, id))
  }

  /** `ToRefListData(r, data)`: every element converted, the first failure
      failing the whole list. */
  function ToRefList(s2t: map<string, string>, data: seq<Record>): (r: Result<seq<Foreign>>)
    ensures r.Ok? <==> forall i | 0 <= i < |data| :: ToRefData(s2t, Some(data[i])).Ok?
    ensures r.Ok? ==> |r.value| == |data| && forall i | 0 <= i < |data| :: r.value[i] == ToRefData(s2t, Some(data[i])).value
  {
    if |data| == 0 then Ok([])
    else
      var init := data[..|data| - 1];
      assert forall i | 0 <= i < |init| :: init[i] == data[i];
      var rs :- ToRefList(s2t, init);
      var f :- ToRefData(s2t, Some(data[|data| - 1]));
      Ok(rs + [f])
  }

  /** `ToRefListData` as the loop the code runs; a nil slice is an error. */
  method ToRefListData(s2t: map<string, string>, data: Option<seq<Record>>) returns (r: Result<seq<Foreign>>)
    ensures data.None? ==> r == Err(NotStructPointer)
    ensures data.Some? ==> r == ToRefList(s2t, data.value)
  {
    if data.None? {
      return Err(NotStructPointer);
    }
    var xs := data.value;
    var refList: seq<Foreign> := [];
    var i := 0;
    while i < |xs|
      invariant 0 <= i <= |xs|
      invariant ToRefList(s2t, xs[..i]) == Ok(refList)
    {
      assert xs[..i + 1][..i] == xs[..i];
      var f := ToRefData(s2t, Some(xs[i]));
      if f.Err? {
        ToRefListStops(s2t, xs, i + 1);
        return Err(f.error);
      }
      refList := refList + [f.value];
      i := i + 1;
    }
    assert xs[..i] == xs;
    r := Ok(refList);
  }

  lemma {:induction false} ToRefListStops(s2t: map<string, string>, data: seq<Record>, i: nat)
    requires i <= |data| && ToRefList(s2t, data[..i]).Err?
    ensures ToRefList(s2t, data) == ToRefList(s2t, data[..i])
    decreases |data| - i
  {
    if i < |data| {
      assert data[..i + 1][..i] == data[..i];
      ToRefListStops(s2t, data, i + 1);
    } else {
      assert data[..i] == data;
    }
  }
}
