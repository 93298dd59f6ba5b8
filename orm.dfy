/**
 * The ORM query state (orm.go): the `mongoOrmQ` an `ORM` accumulates through
 * its chained builder calls, the way its `Limit` slice becomes the skip and
 * limit of a find, the rewriting of its condition before a query is built,
 * and the page arithmetic of `PageData`.
 *
 * The database calls are parameters: `Counter` stands for
 * `Collection.Count`; the decoding of documents into Go values is not part
 * of this model.
 */
module OrmQueries {
  import opened Wrappers
  import opened GoInts
  import opened Values
  import opened QueryCombine
  import opened QueryOptions
  import opened References
  import opened OrmWhere

  /** `mongoOrmQ` */
  datatype OrmQuery = OrmQuery(
    distinct: bool,
    select: seq<string>,
    order: seq<string>,
    limit: seq<uint64>,
    where: map<string, Value>,
    projection: map<string, Value>)

  /** `newMongoOrmQ()`: not distinct, nothing selected, ordered, limited,
      filtered or projected. */
  const NewOrmQuery := OrmQuery(false, [], [], [], map[], map[])

  /** `Paging` */
  datatype Paging = Paging(pageNo: int64, pageSize: int64, total: int64, pageTotal: int64)

  /** `Collection.Count`: (database, collection, query) -> number of matching
      documents, or the error the driver returns. */
  type Counter = (string, string, QueryData) -> Result<int64>

  // ---------------------------------------------------------------------
  // Query(pair...)

  /** The key written by the `j`th pair; `keyOf` is `util.Any2String`. */
  function PairKey(pair: seq<Value>, keyOf: Value -> string, j: nat): string
    requires 2 * j < |pair|
  {
    keyOf(pair[2 * j])
  }

  /** The condition after the first `n` pairs of `Query(pair...)` have been
      written into `where`, one after the other. */
  function PairsWhere(where: map<string, Value>, pair: seq<Value>, keyOf: Value -> string, n: nat)
    : map<string, Value>
    requires 2 * n <= |pair|
  {
    if n == 0 then where
    else PairsWhere(where, pair, keyOf, n - 1)[PairKey(pair, keyOf, n - 1) := pair[2 * (n - 1) + 1]]
  }

  /** The keys afterwards are the old keys and the key of every pair. */
  lemma {:induction false} PairsWhereKeys(where: map<string, Value>, pair: seq<Value>, keyOf: Value -> string, n: nat)
    requires 2 * n <= |pair|
    ensures PairsWhere(where, pair, keyOf, n).Keys
         == where.Keys + set j | 0 <= j < n :: PairKey(pair, keyOf, j)
  {
    if n > 0 {
      PairsWhereKeys(where, pair, keyOf, n - 1);
      var before := set j | 0 <= j < n - 1 :: PairKey(pair, keyOf, j);
      var after := set j | 0 <= j < n :: PairKey(pair, keyOf, j);
      assert after == before + {PairKey(pair, keyOf, n - 1)} by {
        forall x | x in after ensures x in before + {PairKey(pair, keyOf, n - 1)} {
          var j :| 0 <= j < n && x == PairKey(pair, keyOf, j);
          if j < n - 1 {
            assert x in before;
          }
        }
      }
    }
  }

  /** Of several pairs with the same key, the last one wins. */
  lemma {:induction false} PairsWhereLast(where: map<string, Value>, pair: seq<Value>, keyOf: Value -> string, n: nat,
                                          i: nat)
    requires 2 * n <= |pair| && i < n
    requires forall j | i < j < n :: PairKey(pair, keyOf, j) != PairKey(pair, keyOf, i)
    ensures PairKey(pair, keyOf, i) in PairsWhere(where, pair, keyOf, n)
    ensures PairsWhere(where, pair, keyOf, n)[PairKey(pair, keyOf, i)] == pair[2 * i + 1]
  {
    if i < n - 1 {
      PairsWhereLast(where, pair, keyOf, n - 1, i);
    }
  }

  /** A key no pair names keeps its entry, or its absence. */
  lemma {:induction false} PairsWhereOthers(where: map<string, Value>, pair: seq<Value>, keyOf: Value -> string, n: nat,
                                            k: string)
    requires 2 * n <= |pair|
    requires forall j | 0 <= j < n :: PairKey(pair, keyOf, j) != k
    ensures k in PairsWhere(where, pair, keyOf, n) <==> k in where
    ensures k in where ==> PairsWhere(where, pair, keyOf, n)[k] == where[k]
  {
    if n > 0 {
      PairsWhereOthers(where, pair, keyOf, n - 1, k);
    }
  }

  // ---------------------------------------------------------------------
  // The Limit slice

  /** `Page(no, size)`'s Limit slice: skip `size * (no - 1)` documents, as
      `uint` arithmetic, then take `size`. */
  function PageLimit(no: uint64, size: uint64): (l: seq<uint64>)
    requires no >= 1
    ensures |l| == 2 && l[1] == size
    ensures (l[0] - size * (no - 1)) % TWO_64 == 0
    ensures size * (no - 1) < TWO_64 ==> l[0] == size * (no - 1)
  {
    [WrapU64(size * (no - 1)), size]
  }

  /** The skip and limit a find of several documents (`toListData`) takes
      from the Limit slice: one element is the limit, two are the skip and
      the limit; each goes through `int64(...)` and the range checks of the
      options. */
  function ManyWindow(limit: seq<uint64>): (r: Result<(Option<int64>, Option<int64>)>)
    ensures |limit| == 1 ==> (r.Ok? <==> 1 <= limit[0] < TWO_63)
    ensures |limit| == 1 && r.Ok? ==> r.value == (None, Some(limit[0] as int64))
    ensures |limit| == 1 && r.Err? ==> r.error == LimitTooSmall
    ensures |limit| == 2 ==> (r.Ok? <==> limit[0] < TWO_63 && 1 <= limit[1] < TWO_63)
    ensures |limit| == 2 && r.Ok? ==> r.value == (Some(limit[0] as int64), Some(limit[1] as int64))
    ensures |limit| == 2 && limit[0] >= TWO_63 ==> r == Err(NegativeSkip)
    ensures |limit| != 1 && |limit| != 2 ==> r == Ok((None, None))
  {
    if |limit| == 1 then
      var l :- CheckLimit(WrapI64(limit[0]));
      Ok((None, Some(l)))
    else if |limit| == 2 then
      var s :- CheckSkip(WrapI64(limit[0]));
      var l :- CheckLimit(WrapI64(limit[1]));
      Ok((Some(s), Some(l)))
    else Ok((None, None))
  }

  /** The skip a find of one document (`ToData`) takes from the Limit slice:
      only a one-element slice counts, and as a skip. */
  function OneSkip(limit: seq<uint64>): (r: Result<Option<int64>>)
    ensures |limit| == 1 ==> (r.Ok? <==> limit[0] < TWO_63)
    ensures |limit| == 1 && r.Ok? ==> r.value == Some(limit[0] as int64)
    ensures |limit| == 1 && r.Err? ==> r.error == NegativeSkip
    ensures |limit| != 1 ==> r == Ok(None)
  {
    if |limit| == 1 then
      var s :- CheckSkip(WrapI64(limit[0]));
      Ok(Some(s))
    else Ok(None)
  }

  /** A page set on the ORM becomes the same window as `FindOptions.Page`
      of that page would set. */
  lemma PageLimitWindow(no: uint64, size: uint64)
    requires 1 <= no < TWO_63 && 1 <= size < TWO_63 && size * no < TWO_63
    ensures PageWindow(no as int64, size as int64).Ok?
    ensures ManyWindow(PageLimit(no, size))
         == Ok((Some(PageWindow(no as int64, size as int64).value.0), Some(PageWindow(no as int64, size as int64).value.1)))
  {
    var skip := SkipOfPage(no, size);
    assert PageLimit(no, size) == [skip, size];
    ManyWindowPair(skip, size);
  }

  /** The skip of page `no` when no product overflows. */
  lemma SkipOfPage(no: uint64, size: uint64) returns (skip: uint64)
    requires 1 <= no < TWO_63 && 1 <= size < TWO_63 && size * no < TWO_63
    ensures skip < TWO_63 && skip == size * (no - 1) == (no - 1) * size
    ensures PageLimit(no, size)[0] == skip
    ensures PageWindow(no as int64, size as int64) == Ok((skip as int64, size as int64))
  {
    MulLess(no - 1, no, size);
    skip := size * (no - 1);
  }

  /** A two-element Limit slice in range is the skip and the limit. */
  lemma ManyWindowPair(skip: uint64, size: uint64)
    requires skip < TWO_63 && 1 <= size < TWO_63
    ensures ManyWindow([skip, size]) == Ok((Some(skip as int64), Some(size as int64)))
  {
  }

  /** Consecutive pages are consecutive windows. */
  lemma PageLimitsAdjacent(no: uint64, size: uint64)
    requires 1 <= no && no + 1 < TWO_64 && size * no < TWO_64
    ensures PageLimit(no + 1, size)[0] == PageLimit(no, size)[0] + size
  {
    MulLess(no - 1, no, size);
    assert size * no == size * (no - 1) + size;
  }

  /** `a * c <= b * c` for `a <= b` and `c >= 0`. */
  lemma MulLess(a: int, b: int, c: int)
    requires a <= b && 0 <= c
    ensures a * c <= b * c && c * a <= c * b
  {
    assert b * c - a * c == (b - a) * c;
  }

  /** The find options `toListData` builds: the selected columns, the
      window of the Limit slice, the projection and the sort order, in that
      order; the first range check or empty column that fails panics. */
  method FindManyOptions(q: OrmQuery) returns (opts: FindOptions, o: Outcome)
    ensures fresh(opts) && fresh(opts.one) && fresh(opts.one.basic)
    ensures o.Pass? <==> FirstEmpty(q.select) == |q.select| && ManyWindow(q.limit).Ok? && FirstEmpty(q.order) == |q.order|
    ensures o.Fail? && FirstEmpty(q.select) < |q.select| ==> o.error == EmptyColumn
    ensures o.Fail? && FirstEmpty(q.select) == |q.select| && ManyWindow(q.limit).Err? ==> o.error == ManyWindow(q.limit).error
    ensures o.Pass? ==>
      && opts.one.basic.field == Entries(q.select, 0)
      && (opts.one.skip, opts.limit) == ManyWindow(q.limit).value
      && opts.one.basic.projection == Some(q.projection)
      && opts.one.basic.sort == Entries(q.order, -1)
  {
    opts := new FindOptions();
    o := opts.one.basic.Select(q.select);
    if o.Fail? {
      return;
    }
    assert q.select[..|q.select|] == q.select;
    o := ApplyManyWindow(opts, q.limit);
    if o.Fail? {
      return;
    }
    o := FinishBasic(opts.one.basic, q);
  }

  /** Sets the projection and then the sort order on fresh basic options. */
  method FinishBasic(b: BasicFindOptions, q: OrmQuery) returns (o: Outcome)
    requires b.projection == None && b.sort == []
    modifies b
    ensures b.field == old(b.field) && b.projection == Some(q.projection)
    ensures o.Pass? <==> FirstEmpty(q.order) == |q.order|
    ensures o.Fail? ==> o.error == EmptyColumn
    ensures o.Pass? ==> b.sort == Entries(q.order, -1)
  {
    b.Projection(q.projection);
    assert map[] + q.projection == q.projection;
    o := b.Sort(q.order);
    assert q.order[..|q.order|] == q.order;
  }

  /** Sets the window of the Limit slice on fresh find options. */
  method ApplyManyWindow(opts: FindOptions, limit: seq<uint64>) returns (o: Outcome)
    requires opts.one.skip == None && opts.limit == None
    modifies opts, opts.one
    ensures o.Pass? <==> ManyWindow(limit).Ok?
    ensures o.Fail? ==> o.error == ManyWindow(limit).error
    ensures o.Pass? ==> (opts.one.skip, opts.limit) == ManyWindow(limit).value
  {
    o := Pass;
    if |limit| == 1 {
      o := opts.Limit(WrapI64(limit[0]));
    } else if |limit| == 2 {
      o := opts.one.Skip(WrapI64(limit[0]));
      if o.Pass? {
        o := opts.Limit(WrapI64(limit[1]));
      }
    }
  }

  /** The find-one options `ToData` builds for a map or struct target: the
      selected columns, the skip of the Limit slice, the projection and the
      sort order. */
  method FindOneOpts(q: OrmQuery) returns (opts: FindOneOptions, o: Outcome)
    ensures fresh(opts) && fresh(opts.basic)
    ensures o.Pass? <==> FirstEmpty(q.select) == |q.select| && OneSkip(q.limit).Ok? && FirstEmpty(q.order) == |q.order|
    ensures o.Fail? && FirstEmpty(q.select) == |q.select| && OneSkip(q.limit).Err? ==> o.error == NegativeSkip
    ensures o.Pass? ==>
      && opts.basic.field == Entries(q.select, 0)
      && opts.skip == OneSkip(q.limit).value
      && opts.basic.projection == Some(q.projection)
      && opts.basic.sort == Entries(q.order, -1)
  {
    opts := new FindOneOptions();
    o := opts.basic.Select(q.select);
    if o.Fail? {
      return;
    }
    assert q.select[..|q.select|] == q.select;
    o := ApplyOneSkip(opts, q.limit);
    if o.Fail? {
      return;
    }
    o := FinishBasic(opts.basic, q);
  }

  /** Sets the skip of the Limit slice on fresh find-one options. */
  method ApplyOneSkip(opts: FindOneOptions, limit: seq<uint64>) returns (o: Outcome)
    requires opts.skip == None
    modifies opts
    ensures o.Pass? <==> OneSkip(limit).Ok?
    ensures o.Fail? ==> o.error == NegativeSkip
    ensures o.Pass? ==> opts.skip == OneSkip(limit).value
  {
    o := Pass;
    if |limit| == 1 {
      o := opts.Skip(WrapI64(limit[0]));
    }
  }

  // ---------------------------------------------------------------------
  // PageData arithmetic

  /** The number of pages of `size` documents that `total` documents
      fill: `total / int64(size)`, plus one for a remainder, in Go's
      `int64` arithmetic. For the values a count can have it is the
      ceiling of `total / size`. */
  function PageCount(total: int64, size: uint64): (pages: int64)
    requires size != 0
    ensures 0 <= total && size < TWO_63 ==> 0 <= pages && total <= pages * size && (pages - 1) * size < total
  {
    var s := WrapI64(size);
    WrapNonZero(size);
    var t := WrapI64(GoDiv(total, s));
    var m := GoMod(total, s);
    if m > 0 then
      CeilStep(total, size, s, t, m);
      WrapI64(t + 1)
    else
      CeilExact(total, size, s, t, m);
      t
  }

  lemma WrapNonZero(size: uint64)
    requires size != 0
    ensures WrapI64(size) != 0
  {
  }

  /** With a remainder, the quotient plus one is the ceiling. */
  lemma CeilStep(total: int64, size: uint64, s: int64, t: int64, m: int)
    requires s == WrapI64(size) && s != 0 && t == WrapI64(GoDiv(total, s)) && m == GoMod(total, s) && m > 0
    ensures 0 <= total && size < TWO_63 ==>
      t + 1 < TWO_63 && WrapI64(t + 1) == t + 1 && 0 <= t && total <= (t + 1) * size && t * size < total
  {
    if 0 <= total && size < TWO_63 {
      CountQuotient(total, size, s, t, m);
      DivBounds(total, size);
      assert (t + 1) * size == t * size + size;
    }
  }

  /** Without a remainder, the quotient is the ceiling. */
  lemma CeilExact(total: int64, size: uint64, s: int64, t: int64, m: int)
    requires s == WrapI64(size) && s != 0 && t == WrapI64(GoDiv(total, s)) && m == GoMod(total, s) && m <= 0
    ensures 0 <= total && size < TWO_63 ==> 0 <= t && total <= t * size && (t - 1) * size < total
  {
    if 0 <= total && size < TWO_63 {
      CountQuotient(total, size, s, t, m);
      DivBounds(total, size);
      assert (t - 1) * size == t * size - size;
    }
  }

  /** For a count and a size in range, Go's quotient and remainder are the
      mathematical ones. */
  lemma CountQuotient(total: int64, size: uint64, s: int64, t: int64, m: int)
    requires s == WrapI64(size) && s != 0 && t == WrapI64(GoDiv(total, s)) && m == GoMod(total, s)
    requires 0 <= total && size < TWO_63
    ensures s == size && t == total / size && m == total % size
  {
    DivBounds(total, size);
    assert s == size;
    assert GoDiv(total, s) == total / size;
  }

  /** Quotient and remainder of a division by a positive number. */
  lemma DivBounds(total: int, size: int)
    requires 0 <= total && 1 <= size
    ensures total == total / size * size + total % size && 0 <= total % size < size
    ensures 0 <= total / size <= total && (total % size > 0 ==> total / size < total)
  {
    MulLess(1, size, total / size);
  }

  /** `PageData`'s page number: at most the number of pages, at least 1. */
  function ClampPage(no: uint64, pages: int64): (p: uint64)
    ensures 1 <= p
    ensures 0 <= pages ==> p <= pages || p == 1
    ensures 0 <= pages && 1 <= no <= pages ==> p == no
    ensures 0 <= pages && no > pages ==> p == (if pages == 0 then 1 else pages)
  {
    var c := if no > WrapU64(pages) then WrapU64(pages) else no;
    if c < 1 then 1 else c
  }

  /** The page `PageData` settles on starts inside the documents counted
      (or at 0 when there are none). */
  lemma PageWithinTotal(total: int64, no: uint64, size: uint64)
    requires 0 <= total && 1 <= no && 1 <= size < TWO_63
    ensures var p := ClampPage(no, PageCount(total, size));
      (p - 1) * size < total || (total == 0 && p == 1)
  {
    var pages := PageCount(total, size);
    var p := ClampPage(no, pages);
    if total > 0 {
      assert pages >= 1 && p <= pages;
      MulLess(p - 1, pages - 1, size);
    }
  }

  // ---------------------------------------------------------------------
  // The ORM

  class Orm {
    const refConf: Reference
    const db: string
    const tableName: string
    var keepQuery: bool
    var q: OrmQuery

    /** `NewORMByDB(ctx, db, tbName, ref)` and `NewORMByClient(...)`: an ORM
        on one table that keeps its query between calls, starting empty. */
    constructor (db: string, tableName: string, refConf: Reference)
      ensures this.db == db && this.tableName == tableName && this.refConf == refConf
      ensures keepQuery && q == NewOrmQuery
    {
      this.db := db;
      this.tableName := tableName;
      this.refConf := refConf;
      keepQuery := true;
      q := NewOrmQuery;
    }

    /** `Query(pair...)`: an odd number of values panics; otherwise every
        pair `(key, value)` is written into the condition, in order. */
    method Query(pair: seq<Value>, keyOf: Value -> string) returns (o: Outcome)
      modifies this
      ensures |pair| % 2 != 0 ==> o == Fail(OddPairs) && q == old(q)
      ensures |pair| % 2 == 0 ==> o == Pass && q == old(q).(where := PairsWhere(old(q.where), pair, keyOf, |pair| / 2))
      ensures keepQuery == old(keepQuery)
    {
      if |pair| % 2 != 0 {
        return Fail(OddPairs);
      }
      o := Pass;
      if |pair| == 0 {
        return;
      }
      var i := 0;
      var n := |pair| / 2;
      while i < n
        invariant 0 <= i <= n
        invariant q == old(q).(where := PairsWhere(old(q.where), pair, keyOf, i))
        invariant keepQuery == old(keepQuery)
      {
        q := q.(where := q.where[keyOf(pair[2 * i]) := pair[2 * i + 1]]);
        i := i + 1;
      }
    }

    /** `OverLimit(over, size)`: skip `over`, take `size`. */
    method OverLimit(over: uint64, size: uint64)
      modifies this
      ensures q == old(q).(limit := [over, size]) && keepQuery == old(keepQuery)
    {
      q := q.(limit := [over, size]);
    }

    /** `Page(pageNo, pageSize)`: a zero size panics, then a zero page
        number; otherwise the Limit slice selects that page. */
    method Page(pageNo: uint64, pageSize: uint64) returns (o: Outcome)
      modifies this
      ensures pageSize == 0 ==> o == Fail(PageSizeZero) && q == old(q)
      ensures pageSize != 0 && pageNo == 0 ==> o == Fail(PageNoZero) && q == old(q)
      ensures pageSize != 0 && pageNo != 0 ==> o == Pass && q == old(q).(limit := PageLimit(pageNo, pageSize))
      ensures keepQuery == old(keepQuery)
    {
      if pageSize == 0 {
        return Fail(PageSizeZero);
      }
      if pageNo == 0 {
        return Fail(PageNoZero);
      }
      q := q.(limit := [WrapU64(pageSize * (pageNo - 1)), pageSize]);
      o := Pass;
    }

    /** `Limit(size)`: take `size`. */
    method Limit(size: uint64)
      modifies this
      ensures q == old(q).(limit := [size]) && keepQuery == old(keepQuery)
    {
      q := q.(limit := [size]);
    }

    method Distinct(b: bool)
      modifies this
      ensures q == old(q).(distinct := b) && keepQuery == old(keepQuery)
    {
      q := q.(distinct := b);
    }

    method KeepQuery(b: bool)
      modifies this
      ensures keepQuery == b && q == old(q)
    {
      keepQuery := b;
    }

    /** `Where(col, value)`: adds or overwrites one condition. */
    method Where(col: string, value: Value)
      modifies this
      ensures q == old(q).(where := old(q.where)[col := value]) && keepQuery == old(keepQuery)
    {
      q := q.(where := q.where[col := value]);
    }

    /** `Wheres(where)`: adds or overwrites exactly the given conditions. */
    method Wheres(where: map<string, Value>)
      modifies this
      ensures q == old(q).(where := old(q.where) + where) && keepQuery == old(keepQuery)
    {
      var w := MergeInto(q.where, where);
      q := q.(where := w);
    }

    /** `Projection(col, value)` */
    method Projection(col: string, value: Value)
      modifies this
      ensures q == old(q).(projection := old(q.projection)[col := value]) && keepQuery == old(keepQuery)
    {
      q := q.(projection := q.projection[col := value]);
    }

    /** `Projections(where)`: adds or overwrites exactly the given entries. */
    method Projections(where: map<string, Value>)
      modifies this
      ensures q == old(q).(projection := old(q.projection) + where) && keepQuery == old(keepQuery)
    {
      var p := MergeInto(q.projection, where);
      q := q.(projection := p);
    }

    /** `Select(cols...)`: appends the columns, in order. */
    method Select(cols: seq<string>)
      modifies this
      ensures q == old(q).(select := old(q.select) + cols) && keepQuery == old(keepQuery)
    {
      q := q.(select := q.select + cols);
    }

    /** `Order(cols...)`: appends the sort columns, in order. */
    method Order(cols: seq<string>)
      modifies this
      ensures q == old(q).(order := old(q.order) + cols) && keepQuery == old(keepQuery)
    {
      q := q.(order := q.order + cols);
    }

    /** `ClearCache()`: a fresh, empty query. */
    method ClearCache()
      modifies this
      ensures q == NewOrmQuery && keepQuery == old(keepQuery)
    {
      q := NewOrmQuery;
    }

    /** `Cond()`: the condition is rewritten in place by `formatWhere` and
        then mixed into a query. A failing rewrite leaves the condition as
        it was. */
    method Cond(store: Store) returns (r: Result<QueryData>)
      modifies this
      ensures var f := FormatWhere(refConf.tableRef, Some(db), tableName, old(q.where), store);
        && (f.Ok? ==> q == old(q).(where := f.value) && r == MixQuery(f.value, store))
        && (f.Err? ==> q == old(q) && r == Err(f.error))
      ensures keepQuery == old(keepQuery)
    {
      var f := FormatWhereRun(refConf.tableRef, Some(db), tableName, q.where, store, Map(q.where));
      if f.Err? {
        return Err(f.error);
      }
      q := q.(where := f.value);
      r := MixQuery(q.where, store);
    }

    /** `Count(clearCache)`: counts the documents the condition matches;
        with `clearCache` the query is reset afterwards, whatever happened. */
    method Count(clearCache: bool, store: Store, counter: Counter) returns (r: Result<int64>)
      modifies this
      ensures var f := FormatWhere(refConf.tableRef, Some(db), tableName, old(q.where), store);
        && (f.Err? ==> r == Err(f.error))
        && (f.Ok? ==> r == (var mq :- MixQuery(f.value, store); counter(db, tableName, mq)))
        && (!clearCache && f.Ok? ==> q == old(q).(where := f.value))
        && (!clearCache && f.Err? ==> q == old(q))
      ensures clearCache ==> q == NewOrmQuery
      ensures keepQuery == old(keepQuery)
    {
      var mq := Cond(store);
      if mq.Err? {
        r := Err(mq.error);
      } else {
        r := counter(db, tableName, mq.value);
      }
      if clearCache {
        ClearCache();
      }
    }

    /** `PageData(target, pageNo, pageSize)` up to the fetch of the page:
        counts the documents, checks the arguments, works out the number of
        pages, clamps the page number into range and selects that page. */
    method PageData(pageNo: uint64, pageSize: uint64, store: Store, counter: Counter) returns (r: Result<Paging>)
      modifies this
      ensures var f := FormatWhere(refConf.tableRef, Some(db), tableName, old(q.where), store);
        var counted := (var w :- f; var mq :- MixQuery(w, store); counter(db, tableName, mq));
        && (counted.Err? ==> r == Err(counted.error))
        && (counted.Ok? && (pageNo == 0 || pageSize == 0) ==> r == Err(PagingZero))
        && (counted.Ok? && pageNo != 0 && pageSize != 0 ==>
              var pages := PageCount(counted.value, pageSize);
              var p := ClampPage(pageNo, pages);
              && r == Ok(Paging(WrapI64(p), WrapI64(pageSize), counted.value, pages))
              && q == old(q).(where := f.value, limit := PageLimit(p, pageSize)))
        && (counted.Err? || pageNo == 0 || pageSize == 0 ==>
              q == (if f.Ok? then old(q).(where := f.value) else old(q)))
      ensures keepQuery == old(keepQuery)
    {
      var total := Count(false, store, counter);
      if total.Err? {
        return Err(total.error);
      }
      if pageNo == 0 || pageSize == 0 {
        return Err(PagingZero);
      }
      var pages := PageCount(total.value, pageSize);
      var p := ClampPage(pageNo, pages);
      var o := Page(p, pageSize);
      r := Ok(Paging(WrapI64(p), WrapI64(pageSize), total.value, pages));
    }
  }
}
