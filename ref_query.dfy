/**
 * `refQ.getData` (reference.go:23-61): resolve a foreign-key sub-query to
 * the ids of the matching documents of the referenced table. The database
 * is the `store` parameter.
 */
module RefQuery {
  import opened Wrappers
  import opened Values
  import opened QueryCompile

  /** `v["_id"]` of every result document, in result order (nil when absent). */
  function IdOf(doc: Filter): Value {
    if "_id" in doc then doc["_id"] else Nil
  }

  function IdsOf(docs: seq<Filter>): (ids: seq<Value>)
    ensures |ids| == |docs|
    ensures forall i | 0 <= i < |docs| :: ids[i] == IdOf(docs[i])
  {
    if |docs| == 0 then [] else [IdOf(docs[0])] + IdsOf(docs[1..])
  }

  /** What `getData(col)` returns: the referenced ids and the match mode. */
  function RefData(rq: RefQ, col: string, store: Store): Result<(seq<Value>, int)> {
    if rq.db.None? then Err(RefNoDatabase)
    else if rq.ref.None? then Err(RefNoRegistry)
    else if rq.from == "" then Err(RefNoSource)
    else
      var c :- Cond(rq.query);
      if |c| == 0 then Err(RefEmptyQuery)
      else match LookupRef(rq.ref.value, rq.from, col)
        case None => Err(RefUnknownColumn)
        case Some(rt) =>
          match store(rq.db.value, rt.to, c)
          case StoreFailed => Err(StoreFailure)
          case Found(docs) => Ok((IdsOf(docs), rt.mode))
  }

  /** `getData` fails exactly when the database or the registry is missing,
      the source table is empty, the sub-query does not compile or is empty,
      the column has no reference, or the find fails. */
  lemma RefDataFails(rq: RefQ, col: string, store: Store)
    ensures RefData(rq, col, store).Err? <==>
      rq.db.None? || rq.ref.None? || rq.from == "" || Cond(rq.query).Err? || IsEmpty(rq.query)
      || LookupRef(rq.ref.value, rq.from, col).None?
      || store(rq.db.value, LookupRef(rq.ref.value, rq.from, col).value.to, Cond(rq.query).value).StoreFailed?
  {
  }

  /** On success the ids are those of the documents found in the referenced
      table with the compiled sub-query, in result order, together with the
      column's match mode. */
  lemma RefDataOk(rq: RefQ, col: string, store: Store)
    requires RefData(rq, col, store).Ok?
    ensures var rt := LookupRef(rq.ref.value, rq.from, col).value;
            var docs := store(rq.db.value, rt.to, Cond(rq.query).value).docs;
            && RefData(rq, col, store).value.1 == rt.mode
            && |RefData(rq, col, store).value.0| == |docs|
            && forall i | 0 <= i < |docs| :: RefData(rq, col, store).value.0[i] == IdOf(docs[i])
  {
  }

  /** `getData` as the code runs it: checks, one find, then a loop appending
      each document's `_id`. */
  method GetData(rq: RefQ, col: string, store: Store) returns (r: Result<(seq<Value>, int)>)
    ensures r == RefData(rq, col, store)
  {
    if rq.db.None? {
      return Err(RefNoDatabase);
    }
    if rq.ref.None? {
      return Err(RefNoRegistry);
    }
    if rq.from == "" {
      return Err(RefNoSource);
    }
    var c: Result<Filter>;
    if |rq.query.rawCond| > 0 {
      c := Ok(rq.query.rawCond);
    } else {
      c := CompileNodes(rq.query.nodes);
    }
    if c.Err? {
      return Err(c.error);
    }
    if |c.value| == 0 {
      return Err(RefEmptyQuery);
    }
    var ref := LookupRef(rq.ref.value, rq.from, col);
    if ref.None? {
      return Err(RefUnknownColumn);
    }
    var reply := store(rq.db.value, ref.value.to, c.value);
    if reply.StoreFailed? {
      return Err(StoreFailure);
    }
    var docs := reply.docs;
    var arr: seq<Value> := [];
    var i := 0;
    while i < |docs|
      invariant 0 <= i <= |docs|
      invariant arr == IdsOf(docs[..i])
    {
      IdsOfSnoc(docs[..i], docs[i]);
      assert docs[..i + 1] == docs[..i] + [docs[i]];
      arr := arr + [IdOf(docs[i])];
      i := i + 1;
    }
    assert docs[..i] == docs;
    return Ok((arr, ref.value.mode));
  }

  lemma IdsOfSnoc(docs: seq<Filter>, d: Filter)
    ensures IdsOf(docs + [d]) == IdsOf(docs) + [IdOf(d)]
  {
  }
}
