/**
 * The dynamic values the DSL passes around as Go `interface{}`, and the
 * records of the query builder (query.go, reference.go).
 *
 * Every Go type that the code switches on has its own constructor, so a
 * type assertion that Go would reject is a constructor mismatch here.
 * A Go nil slice of a concrete type is the empty sequence of that
 * constructor; an untyped nil is `Nil`.
 */
module Values {
  import opened Wrappers
  import opened ObjectIds

  datatype Value =
    | Nil                                        // untyped nil
    | Bool(b: bool)
    | Int(i: int)
    | Float(f: real)
    | Str(s: string)
    | Bytes(bytes: seq<byte>)                    // []byte
    | Oid(id: ObjectId)                          // primitive.ObjectID
    | Strs(strs: seq<string>)                    // []string
    | BytesList(chunks: seq<seq<byte>>)          // [][]byte
    | Oids(ids: seq<ObjectId>)                   // []primitive.ObjectID
    | List(items: seq<Value>)                    // []interface{}
    | Map(fields: map<string, Value>)            // map[string]interface{}
    | Maps(docs: seq<Doc>)                       // []map[string]interface{}
    | Floats1(xs1: seq<real>)                    // []float64
    | Floats2(xs2: seq<seq<real>>)               // [][]float64
    | Floats3(xs3: seq<seq<seq<real>>>)          // [][][]float64
    | Floats4(xs4: seq<seq<seq<seq<real>>>>)     // [][][][]float64
    | QueryV(query: QueryData)                   // *Query
    | Queries(queries: seq<QueryData>)           // []*Query
    | RefQV(refq: RefQ)                          // *refQ (also refQ where the code accepts both)
    | RefQValue(refqv: RefQ)                     // refQ held by value
    | TempRef(from: string, where: map<string, Value>)   // *tempRefQ (orm.go)
    | NodeV(node: Node)                          // queryNode
    | Nodes(nodes: seq<Node>)                    // []queryNode

  /** One element of a `[]map[string]interface{}`. */
  datatype Doc = Doc(fields: map<string, Value>)

  /** A compiled filter document. */
  type Filter = map<string, Value>

  /** `queryNode`: one DSL key with its value. */
  datatype Node = Node(key: string, value: Value)

  /** The state of a `Query`: its nodes and its raw condition. */
  datatype QueryData = QueryData(nodes: seq<Node>, rawCond: Filter)

  /** `NewQuery()` */
  const EmptyQuery := QueryData([], map[])

  /** `Query.Empty()`: no raw condition and no nodes. */
  predicate IsEmpty(q: QueryData) {
    |q.rawCond| == 0 && |q.nodes| == 0
  }

  /** `refType`: the table a column refers to and its match mode. */
  datatype RefType = RefType(to: string, mode: int)

  const RefDefault := 1
  const RefAll := 2
  const RefMatch := 3

  /** `Reference.tableRef`: table -> column -> reference. */
  type RefTable = map<string, map<string, RefType>>

  /** `refQ`: a sub-query on the table a foreign key refers to. `ref` is the
      registry's reference table (`None` for a nil `*Reference`), `db` names
      the database (`None` for a nil `*Database`). */
  datatype RefQ = RefQ(from: string, ref: Option<RefTable>, db: Option<string>, query: QueryData)

  /** `getRef`: the reference recorded for column `col` of `table`, if any. */
  function LookupRef(refs: RefTable, table: string, col: string): (r: Option<RefType>)
    ensures r.Some? <==> table in refs && col in refs[table]
    ensures r.Some? ==> r.value == refs[table][col]
  {
    if table in refs && col in refs[table] then Some(refs[table][col]) else None
  }

  /** What the database returns for a find on one collection. */
  datatype StoreReply = Found(docs: seq<Filter>) | StoreFailed

  /** The database contents: (database, collection, filter) -> reply. */
  type Store = (string, string, Filter) -> StoreReply
}
