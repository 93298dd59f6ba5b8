/**
 * The find, count and update option builders (query_options.go): column
 * selection and sort order parsed from `+`/`-` prefixes, the projection
 * map, and the range-checked skip and limit values.
 */
module QueryOptions {
  import opened Wrappers
  import opened GoInts
  import opened Values

  // ---------------------------------------------------------------------
  // Update operators

  /** `updateType` */
  datatype UpdateType = UpdateType(name: string) {
    /** `updateType.String()`: the operator's own text. */
    function String(): (s: string)
      ensures UpdateType(s) == this
    {
      name
    }
  }

  const UpdateSet := UpdateType("$set")
  const UpdateUnset := UpdateType("$unset")
  const UpdateInc := UpdateType("$inc")
  const UpdatePush := UpdateType("$push")
  const UpdatePull := UpdateType("$pull")
  const UpdatePop := UpdateType("$pop")

  /** The six update operators name six different MongoDB operators. */
  lemma UpdateOperators()
    ensures UpdateSet.String() == "$set" && UpdateUnset.String() == "$unset" && UpdateInc.String() == "$inc"
    ensures UpdatePush.String() == "$push" && UpdatePull.String() == "$pull" && UpdatePop.String() == "$pop"
    ensures |{UpdateSet, UpdateUnset, UpdateInc, UpdatePush, UpdatePull, UpdatePop}| == 6
  {
    assert UpdateSet.name[1] == 's' && UpdateUnset.name[1] == 'u' && UpdateInc.name[1] == 'i';
    assert UpdatePush.name[2] == 'u' && UpdatePull.name[2] == 'u' && UpdatePop.name[2] == 'o';
    assert UpdatePush.name[3] == 's' && UpdatePull.name[3] == 'l';
  }

  // ---------------------------------------------------------------------
  // Select and Sort

  /** `bson.E`: one key with its value. */
  datatype Elem = Elem(key: string, value: int)

  /** One column of `Select` (`minus` = 0) or `Sort` (`minus` = -1): a
      leading '-' gives `minus`, a leading '+' or none gives 1; the prefix
      is dropped. */
  function Entry(col: string, minus: int): (e: Elem)
    requires col != ""
  {
    if col[0] == '-' then Elem(col[1..], minus)
    else if col[0] == '+' then Elem(col[1..], 1)
    else Elem(col, 1)
  }

  /** The position of the first empty column (where `col[0]` panics), or the
      number of columns. */
  function FirstEmpty(cols: seq<string>): (n: nat)
    ensures n <= |cols|
    ensures forall i | 0 <= i < n :: cols[i] != ""
    ensures n < |cols| ==> cols[n] == ""
  {
    if |cols| == 0 then 0
    else if cols[0] == "" then 0
    else 1 + FirstEmpty(cols[1..])
  }

  /** The entries of some non-empty columns, in order. */
  function Entries(cols: seq<string>, minus: int): (es: seq<Elem>)
    requires forall i | 0 <= i < |cols| :: cols[i] != ""
  {
    if |cols| == 0 then [] else Entries(cols[..|cols| - 1], minus) + [Entry(cols[|cols| - 1], minus)]
  }

  /** One entry per column, in order: a '-' column has the `minus` value,
      any other the value 1, and the key is the column without its sign. */
  lemma {:induction false} EntriesShape(cols: seq<string>, minus: int)
    requires forall i | 0 <= i < |cols| :: cols[i] != ""
    ensures |Entries(cols, minus)| == |cols|
    ensures forall i | 0 <= i < |cols| ::
      Entries(cols, minus)[i] == (if cols[i][0] == '-' then Elem(cols[i][1..], minus)
                                 else if cols[i][0] == '+' then Elem(cols[i][1..], 1)
                                 else Elem(cols[i], 1))
  {
    if |cols| > 0 {
      EntriesShape(cols[..|cols| - 1], minus);
    }
  }

  /** A column's key and sign together give the column back: `-k` for the
      `minus` value and `k` otherwise, unless `k` itself starts with a sign. */
  lemma EntryRoundTrip(col: string, minus: int)
    requires col != "" && minus != 1
    ensures var e := Entry(col, minus);
      (e.value == minus ==> col == "-" + e.key)
      && (e.value == 1 ==> col == e.key || col == "+" + e.key)
  {
    if col[0] == '-' || col[0] == '+' {
      assert col == [col[0]] + col[1..];
    }
  }

  /** The entries of `m` whose keys are in `ks`. */
  function Restrict<V>(m: map<string, V>, ks: set<string>): map<string, V> {
    map k | k in m && k in ks :: m[k]
  }

  /** Writing one more key of `m` extends the written part by that key. */
  lemma RestrictAdd<V>(start: map<string, V>, m: map<string, V>, ks: set<string>, k: string)
    requires k in m
    ensures (start + Restrict(m, ks))[k := m[k]] == start + Restrict(m, ks + {k})
  {
  }

  /** `for k, v := range m { dst[k] = v }`, in any key order. */
  method MergeInto<V>(dst: map<string, V>, m: map<string, V>) returns (p: map<string, V>)
    ensures p == dst + m
  {
    p := dst;
    var todo := m.Keys;
    while todo != {}
      invariant todo <= m.Keys
      invariant p == dst + Restrict(m, m.Keys - todo)
      decreases |todo|
    {
      var k :| k in todo;
      RestrictAdd(dst, m, m.Keys - todo, k);
      p := p[k := m[k]];
      todo := todo - {k};
    }
    assert m.Keys - todo == m.Keys;
    assert Restrict(m, m.Keys) == m;
  }

  class BasicFindOptions {
    var field: seq<Elem>
    var sort: seq<Elem>
    var projection: Option<map<string, Value>>

    /** The zero value: no fields, no sort, a nil projection. */
    constructor ()
      ensures field == [] && sort == [] && projection == None
    {
      field := [];
      sort := [];
      projection := None;
    }

    /** `Select(cols)`: one entry per column, `-col` hidden (0) and `col` or
        `+col` shown (1). An empty column panics after the entries before it
        have been appended. */
    method Select(cols: seq<string>) returns (o: Outcome)
      modifies this
      ensures var n := FirstEmpty(cols);
        field == old(field) + Entries(cols[..n], 0) && (o.Pass? <==> n == |cols|)
      ensures o.Fail? ==> o.error == EmptyColumn
      ensures sort == old(sort) && projection == old(projection)
    {
      var i := 0;
      while i < |cols|
        invariant 0 <= i <= |cols| && i <= FirstEmpty(cols)
        invariant field == old(field) + Entries(cols[..i], 0)
        invariant sort == old(sort) && projection == old(projection)
      {
        if cols[i] == "" {
          return Fail(EmptyColumn);
        }
        assert cols[..i + 1][..i] == cols[..i];
        field := field + [Entry(cols[i], 0)];
        i := i + 1;
      }
      o := Pass;
      assert cols[..i] == cols;
    }

    /** `Sort(cols)`: `-col` descending (-1), `col` or `+col` ascending (1),
        in input order. An empty column panics after the entries before it
        have been appended. */
    method Sort(cols: seq<string>) returns (o: Outcome)
      modifies this
      ensures var n := FirstEmpty(cols);
        sort == old(sort) + Entries(cols[..n], -1) && (o.Pass? <==> n == |cols|)
      ensures o.Fail? ==> o.error == EmptyColumn
      ensures field == old(field) && projection == old(projection)
    {
      var i := 0;
      while i < |cols|
        invariant 0 <= i <= |cols| && i <= FirstEmpty(cols)
        invariant sort == old(sort) + Entries(cols[..i], -1)
        invariant field == old(field) && projection == old(projection)
      {
        if cols[i] == "" {
          return Fail(EmptyColumn);
        }
        assert cols[..i + 1][..i] == cols[..i];
        sort := sort + [Entry(cols[i], -1)];
        i := i + 1;
      }
      o := Pass;
      assert cols[..i] == cols;
    }

    /** `Projection(m)`: creates the map when nil, then adds or overwrites
        exactly the given keys. */
    method Projection(m: map<string, Value>)
      modifies this
      ensures projection == Some((if old(projection).Some? then old(projection).value else map[]) + m)
      ensures field == old(field) && sort == old(sort)
    {
      var p := MergeInto(if projection.Some? then projection.value else map[], m);
      projection := Some(p);
    }
  }

  // ---------------------------------------------------------------------
  // Skip, Limit and Page

  /** `Skip(i)`: a negative skip panics. */
  function CheckSkip(i: int64): (r: Result<int64>)
    ensures r.Ok? <==> i >= 0
    ensures r.Ok? ==> r.value == i
    ensures r.Err? ==> r.error == NegativeSkip
  {
    if i < 0 then Err(NegativeSkip) else Ok(i)
  }

  /** `Limit(i)`: a limit below 1 panics. */
  function CheckLimit(i: int64): (r: Result<int64>)
    ensures r.Ok? <==> i >= 1
    ensures r.Ok? ==> r.value == i
    ensures r.Err? ==> r.error == LimitTooSmall
  {
    if i < 1 then Err(LimitTooSmall) else Ok(i)
  }

  /** `Page(no, size)`: the skip and limit of page `no` (from 1) of pages of
      `size` documents; the product wraps as Go's `int64` does. */
  function PageWindow(no: int64, size: int64): (r: Result<(int64, int64)>)
    ensures r.Ok? <==> no >= 1 && size >= 1
    ensures no < 1 ==> r == Err(PageNoTooSmall)
    ensures no >= 1 && size < 1 ==> r == Err(PageSizeTooSmall)
    ensures r.Ok? ==> r.value.1 == size
    ensures r.Ok? ==> (r.value.0 - (no - 1) * size) % TWO_64 == 0
    ensures r.Ok? && (no - 1) * size < TWO_63 ==> r.value.0 == (no - 1) * size
  {
    if no < 1 then Err(PageNoTooSmall)
    else if size < 1 then Err(PageSizeTooSmall)
    else Ok((WrapI64((no - 1) * size), size))
  }

  /** Consecutive pages are consecutive windows: page `no + 1` starts where
      page `no` ends. */
  lemma PagesAdjacent(no: int64, size: int64)
    requires no >= 1 && size >= 1 && no + 1 < TWO_63 && no * size < TWO_63
    ensures PageWindow(no, size).Ok? && PageWindow(no + 1, size).Ok?
    ensures PageWindow(no + 1, size).value.0 == PageWindow(no, size).value.0 + PageWindow(no, size).value.1
  {
    assert (no - 1) * size <= no * size;
  }

  class CountOptions {
    var skip: Option<int64>
    var limit: Option<int64>

    /** `NewCount()` */
    constructor ()
      ensures skip == None && limit == None
    {
      skip := None;
      limit := None;
    }

    method Skip(i: int64) returns (o: Outcome)
      modifies this
      ensures CheckSkip(i).Ok? ==> o == Pass && skip == Some(i) && limit == old(limit)
      ensures CheckSkip(i).Err? ==> o == Fail(CheckSkip(i).error) && unchanged(this)
    {
      var r := CheckSkip(i);
      if r.Err? {
        return Fail(r.error);
      }
      skip := Some(r.value);
      o := Pass;
    }

    method Limit(i: int64) returns (o: Outcome)
      modifies this
      ensures CheckLimit(i).Ok? ==> o == Pass && limit == Some(i) && skip == old(skip)
      ensures CheckLimit(i).Err? ==> o == Fail(CheckLimit(i).error) && unchanged(this)
    {
      var r := CheckLimit(i);
      if r.Err? {
        return Fail(r.error);
      }
      limit := Some(r.value);
      o := Pass;
    }
  }

  /** `FindOneOptions`: the basic find options and a skip. */
  class FindOneOptions {
    const basic: BasicFindOptions
    var skip: Option<int64>

    /** `NewFindOneOptions()` */
    constructor ()
      ensures fresh(basic) && basic.field == [] && basic.sort == [] && basic.projection == None
      ensures skip == None
    {
      basic := new BasicFindOptions();
      skip := None;
    }

    method Skip(i: int64) returns (o: Outcome)
      modifies this
      ensures CheckSkip(i).Ok? ==> o == Pass && skip == Some(i)
      ensures CheckSkip(i).Err? ==> o == Fail(CheckSkip(i).error) && unchanged(this)
    {
      var r := CheckSkip(i);
      if r.Err? {
        return Fail(r.error);
      }
      skip := Some(r.value);
      o := Pass;
    }
  }

  /** `FindOptions`: the find-one options and a limit. */
  class FindOptions {
    const one: FindOneOptions
    var limit: Option<int64>

    /** `NewFindOptions()` */
    constructor ()
      ensures fresh(one) && fresh(one.basic) && one.skip == None && limit == None
      ensures one.basic.field == [] && one.basic.sort == [] && one.basic.projection == None
    {
      one := new FindOneOptions();
      limit := None;
    }

    method Limit(i: int64) returns (o: Outcome)
      modifies this
      ensures CheckLimit(i).Ok? ==> o == Pass && limit == Some(i)
      ensures CheckLimit(i).Err? ==> o == Fail(CheckLimit(i).error) && unchanged(this)
    {
      var r := CheckLimit(i);
      if r.Err? {
        return Fail(r.error);
      }
      limit := Some(r.value);
      o := Pass;
    }

    /** `Page(no, size)`: sets the skip and the limit of that page. */
    method Page(no: int64, size: int64) returns (o: Outcome)
      modifies this, one
      ensures PageWindow(no, size).Ok? ==>
        o == Pass && one.skip == Some(PageWindow(no, size).value.0) && limit == Some(size)
      ensures PageWindow(no, size).Err? ==> o == Fail(PageWindow(no, size).error) && unchanged(this, one)
    {
      var w := PageWindow(no, size);
      if w.Err? {
        return Fail(w.error);
      }
      one.skip := Some(w.value.0);
      limit := Some(w.value.1);
      o := Pass;
    }
  }

  /** `BasicUpdateOptions`, the update options of `Update`, `Replace`,
      `FindOneAndReplace` and `FindOneAndUpdate`. */
  class UpdateOptions {
    var upsert: Option<bool>

    constructor ()
      ensures upsert == None
    {
      upsert := None;
    }

    /** `Upsert(b)` records exactly `b`. */
    method Upsert(b: bool)
      modifies this
      ensures upsert == Some(b)
    {
      upsert := Some(b);
    }
  }
}
