# A Dafny model of the query layer of `assembly-hub/mongo`

`assembly-hub/mongo` is a thin Go layer over the MongoDB driver. Its core is
a small query language. `Q(key, value)` turns a key such as `age__gt` or
`name__istartswith` into query nodes, and `MixQ` does the same for a whole
condition map, with `~`-negation and the `$and`/`$or`/`$nor` combinators.
`Query.Cond()` compiles the nodes into the nested filter document MongoDB
expects. Around this core sit four pieces:

- a registry of collections and their foreign keys (`Reference`), whose keys
  appear in queries as `refQ` sub-queries and are rewritten into `$id` tests;
- the option builders for finds and counts;
- the `ORM` builder, which accumulates a query state through chained calls;
- the zero-id test `ObjectIDIsZero`.

The model is written as values and functions where the Go code is such
expressions:

- `Q`, `NotQ` and `idFormat`;
- the geo and pattern translations;
- `innerNodeFilter`;
- the lookups.

It is written as classes and methods where the Go code updates objects in
place:

- `Query` and its `And`/`Or`/`Nor`/`SetRawCond`;
- `Reference.AddTableDef`/`BuildRefs`;
- the option structs;
- `ORM`.

Each loop of the Go code (`innerFilter`, `MixQ`, `orNor`, `getData`,
`BuildRefs`, `ToRefListData`, `formatWhere`, `Select`/`Sort`/`Projection`)
is a method with a `while` loop. The method is proved equal to a recursive
specification function, and the lemmas state the properties of that
function.

Modules, in dependency order:

| module | file | contents |
|---|---|---|
| `Wrappers` | `wrappers.dfy` | `Option`, `Result`, `Outcome`. The Go panics and returned errors become `Err`/`Fail` with an `Error` tag. |
| `ObjectIds` | `object_ids.dfy` | ObjectIDs as 12 bytes, hex parsing and printing, `ObjectIDIsZero` |
| `GoStrings` | `go_strings.dfy` | `strings.Contains`/`Split`/`Index`, `regexp.QuoteMeta`, one enumeration of a set of map keys |
| `GoInts` | `go_ints.dfy` | `uint`/`int64` wrap-around, Go's truncating `/` and `%` |
| `Values` | `values.dfy` | the dynamic values (`interface{}`) a condition holds, `queryNode`, `Query` data, `refType`, `refQ`, the store |
| `QueryCompile` | `query_compile.dfy` | `innerNodeFilter`, `innerOrNorFilter`, `innerFilter`, `Cond` |
| `CompileProperties` | `compile_properties.dfy` | what the compiler makes of each kind of node |
| `RefQuery` | `ref_query.dfy` | `refQ.getData` |
| `QueryBuild` | `query_build.dfy` | `idFormat`, `generateForeignKeyCondition`, the geo and pattern translations, `Q`, `NotQ` |
| `BuildProperties` | `build_properties.dfy` | what `Q` and `NotQ` build, and what that compiles to |
| `QueryCombine` | `query_combine.dfy` | `And`, `orNor`, `Or`, `Nor`, `MixQ` and the `Query` class |
| `CombineProperties` | `combine_properties.dfy` | properties of the combinators and of `MixQ` |
| `References` | `reference.dfy` | the `Reference` class, `Foreign`/`ForeignList` lookups, `ToRefData`, `ToRefListData` |
| `ReferenceProperties` | `reference_properties.dfy` | properties of the registry and the lookups |
| `QueryOptions` | `query_options.dfy` | `updateType`, `BasicFindOptions`, `CountOptions`, `FindOneOptions`, `FindOptions`, `BasicUpdateOptions` |
| `OrmWhere` | `orm_where.dfy` | `formatWhere`/`formatWhereArr`, the rewriting of foreign-key conditions |
| `OrmWhereProperties` | `orm_where_properties.dfy` | properties of that rewriting |
| `OrmQueries` | `orm.dfy` | `mongoOrmQ`, the `ORM` class, the Limit slice, the `PageData` arithmetic |

What is outside the model is a parameter:

- `Store` is a find on a collection: (database, collection, filter) to
  documents or a failure.
- `Counter` is `Collection.Count`.
- `keyOf` is `util.Any2String`.

## Model

| member | source | states |
|---|---|---|
| `ObjectIds.BytesToString` | type.go:10 | `string(b)` has one character per byte, with the byte's value |
| `ObjectIds.IdIsZeroBytes` | type.go:21-22 | an ObjectID is zero exactly when all twelve bytes are 0, so one non-zero byte makes it non-zero |
| `ObjectIds.StringIdIsZeroChars` | type.go:19-20 | a string id is zero exactly when it is empty or is twelve NUL characters |
| `ObjectIds.ZeroIdCases` | type_test.go:8-16 | `ObjectID{}`, `""` and `string(ObjectID{}[:])` are zero; the 24-character text of zeros is not |
| `ObjectIds.ParseHex` | object_id.go:23-30 | parsing succeeds exactly on 24 hex digits; anything else is the invalid-hex error |
| `ObjectIds.EncodeDecode` | object_id.go:9-11 | the hex text of some bytes is hex and decodes back to the same bytes |
| `ObjectIds.HexRoundTrip` | object_id.go:9-21 | the text form of an ObjectID parses back to the same ObjectID |
| `ObjectIds.CopyId` | reference.go:304-305 | `copy(objID[:], b)` takes the first min(12, \|b\|) bytes and leaves the rest zero |
| `GoStrings.Split` | query.go:456 | splitting gives at least one piece |
| `GoStrings.JoinSplit` | query.go:455-456 | joining the pieces with `__` gives the key back |
| `GoStrings.SplitHasSep` | query.go:455-456 | a key splits into more than one piece exactly when it contains `__`; without `__` it is one piece |
| `GoStrings.SplitAfterField` | query.go:456-461 | `f__rest`, where `f` has no `__` and does not end in `_`, splits into `f` followed by the pieces of `rest` |
| `GoStrings.NoSepConcat` | query.go:154 | joining two keys without `__` creates none unless the join is `_` + `_` |
| `GoStrings.IndexOf` | reference.go:215 | the result is -1 exactly when the character is absent, and otherwise is its first position |
| `GoStrings.QuoteMetaRoundTrip` | query.go:401-433 | the escaped literal reads back as the original text, and text without special characters is unchanged |
| `GoStrings.KeyOrder` | query.go:485 | one enumeration of a map's keys: every key, and nothing else |
| `GoStrings.KeyOrderDistinct` | query.go:485 | that enumeration visits no key twice |
| `GoInts.WrapU64` | orm.go:130 | the `uint` result is congruent to the exact value modulo 2^64, and equals it when in range |
| `GoInts.WrapI64` | orm.go:235 | the `int64` conversion is congruent modulo 2^64, exact in range, and wraps values in [2^63, 2^64) to negatives |
| `GoInts.GoDiv` | orm.go:235 | Go's `/` is the mathematical quotient for non-negative operands |
| `GoInts.GoMod` | orm.go:236 | Go's `%` is the mathematical remainder for non-negative operands |
| `Values.LookupRef` | reference.go:263-270 | the lookup finds an entry exactly when the table has recorded that column, and then returns that entry |
| `QueryCompile.AddEntry` | query.go:685-714 | adding one pair adds exactly the key it goes under and leaves every other key alone |
| `QueryCompile.FilterOf` | query.go:682-717 | the compiled filter is empty exactly when there are no nodes |
| `QueryCompile.Cond` | query.go:719-726 | a non-empty raw condition is returned as it is; the result is empty exactly for an empty query |
| `QueryCompile.FilterOfPrefixErr` | query.go:684-685 | once a prefix of the nodes fails to compile, the whole list fails with the same error |
| `QueryCompile.CompileNodes` | query.go:682-717 | the loop of `innerFilter` computes `FilterOf` |
| `CompileProperties.CompileEq` | query.go:677-679 | a key without `__` compiles to `{key: {$eq: value}}` |
| `CompileProperties.OperatorKey` | query.go:668-669 | `f + "__" + op` is an operator key with field `f` and operator `op` |
| `CompileProperties.NodeFilterOp` | query.go:668-676 | a node `f__op` lowers to `f` and its operator document |
| `CompileProperties.CompileOp` | query.go:668-676 | a key `f__op` compiles to `{f: {"$op": v}}`, except that a `regex` value is placed under `f` as it is |
| `CompileProperties.AddEntryMerge` | query.go:698-710 | an operator document for a field already present is merged into its sub-document |
| `CompileProperties.FilterOfSameField` | query.go:698-710 | two nodes on one field: the second is merged into the entry of the first |
| `CompileProperties.MergeSameField` | query.go:698-710 | two operators on one field share one sub-document, and for the same operator the later value wins |
| `CompileProperties.NodeFilterNot` | query.go:661-665 | `$not` of `f__op` lowers to `{f: {$not: {"$op": v}}}` |
| `CompileProperties.MergeNegatedSameField` | query.go:699-708 | two negated operators on one field: the earlier `$not` entries are copied over the later ones |
| `CompileProperties.AddEntryNot` | query.go:699-708 | adding a `$not` document where a non-empty one is present gives their union, with the old entries winning |
| `CompileProperties.MergeOpsNot` | query.go:699-708 | merging two `$not` documents keeps the old entries over the new |
| `CompileProperties.MergeOpsWithNot` | query.go:699-708 | a new operator document holding `$not` merges its `$not` specially and copies the rest |
| `CompileProperties.MergeNotEarlier` | query.go:700-706 | the entries of a non-empty earlier `$not` document win over the new ones |
| `CompileProperties.FilterOfPrefixOk` | query.go:684-685 | when a list compiles, so do its prefix and its last node |
| `CompileProperties.OrNorCollected` | query.go:686-696 | the filter has `$and` exactly when some node is `$or`/`$nor`, and then holds all of them in node order, one document each |
| `CompileProperties.AddEntryAnd` | query.go:686-714 | an `$or`/`$nor` pair is appended to the `$and` list; any other pair leaves that list alone |
| `CompileProperties.FilterNodeOk` | query.go:684-685 | every node of a list that compiles compiles on its own |
| `CompileProperties.FilterKeyCovered` | query.go:685-714 | every key a node lowers to is a key of the filter |
| `CompileProperties.FilterKeysOnly` | query.go:685-714 | every key of the filter is the key some node lowers to |
| `CompileProperties.FilterKeysStep` | query.go:685-714 | the keys of a filter are those of the rest plus the last node's key |
| `RefQuery.IdsOf` | reference.go:56-59 | the `_id` of each result document, in result order |
| `RefQuery.RefDataFails` | reference.go:23-55 | `getData` fails exactly when any of these holds: no database, no registry, no source table, a sub-query that fails or is empty, no reference for the column, or a failed find |
| `RefQuery.RefDataOk` | reference.go:41-60 | on success the ids are those of the found documents, in order, and the mode is the column's |
| `RefQuery.GetData` | reference.go:23-60 | the checks, the find and the appending loop compute `RefData` |
| `QueryBuild.StrsToIds` | query.go:114-119 | a converted `[]string` keeps its length |
| `QueryBuild.ChunksToIds` | query.go:120-125 | a converted `[][]byte` keeps its length |
| `QueryBuild.ItemsToIds` | query.go:126-138 | a converted `[]interface{}` keeps its length |
| `QueryBuild.HexStrings` | query.go:114-119 | the hex text of each id, in order |
| `QueryBuild.OidValues` | query.go:114-119 | each id as an element of a `[]interface{}`, in order |
| `QueryBuild.StrsToIdsHex` | query.go:114-119 | the hex texts of some ids convert back to exactly those ids |
| `QueryBuild.StrsToIdsOk` | query.go:114-119 | a `[]string` converts exactly when every element is 24 hex digits |
| `QueryBuild.ItemsToIdsShape` | query.go:126-138 | a `[]interface{}` converts exactly when every string or byte element is 24 hex digits; those become ObjectIDs and the rest are kept |
| `QueryBuild.RefNodes` | query.go:160-180 | the rewrite succeeds exactly for the three match modes |
| `QueryBuild.ForeignKeyCondition` | query.go:144-187 | a value that is not a `refQ` gives no rewrite; a `refQ` or `*refQ` on a key with `__` is rejected; a rewrite is one or two nodes with no raw condition |
| `QueryBuild.PolygonCoordinates` | query.go:193-203 | `[][]float64` is promoted to a one-element `[][][]float64`, `[][][]float64` is kept, anything else is rejected |
| `QueryBuild.MultiPolygonCoordinates` | query.go:209-218 | `[][][]float64` is promoted to a one-element `[][][][]float64`, `[][][][]float64` is kept, anything else is rejected |
| `QueryBuild.Circle` | query.go:226-306 | a circle is accepted exactly when it is three numbers with a positive radius, and becomes the centre and the converted radius |
| `QueryBuild.Q` | query.go:449-474 | `Q` gives one or two nodes and no raw condition, and exactly one node unless the value is a `refQ` |
| `QueryBuild.NegateEach` | query.go:94-100 | each node wrapped in `$not`, in order |
| `QueryBuild.NotQ` | query.go:81-108 | `NotQ` succeeds exactly when `Q` does; one node is wrapped in `$not`, several become one `$or` of their negations in the same order |
| `BuildProperties.QPlainKey` | query.go:463-473 | a key without `__` gives one node with the key and value unchanged, compiling to `{key: {$eq: value}}` |
| `BuildProperties.QSplitKey` | query.go:455-461 | on `f__op` the value goes through `idFormat` for an id field, then through the operator translation |
| `BuildProperties.GeoConditionPlain` | query.go:394-447 | an operator `Q` does not translate leaves the key and value alone |
| `BuildProperties.QOperatorNode` | query.go:455-473 | a plain operator key gives one node with the key and value unchanged |
| `BuildProperties.QOperatorKey` | query.go:455-473 | a plain operator key `f__op` compiles to `{f: {"$op": v}}`, or `{f: v}` for `regex` |
| `BuildProperties.QPatternKey` | query.go:400-433 | a pattern token becomes an `f__regex` node with the regex document, which compiles to `{f: regexdoc}` |
| `BuildProperties.QPatternNode` | query.go:400-433 | a pattern token gives one `f__regex` node holding the regex document |
| `BuildProperties.RegexKey` | query.go:403 | `f + "__regex"` is an operator key on `f` |
| `BuildProperties.QPatternNotString` | query.go:400-433 | a pattern value that is not a string is rejected |
| `BuildProperties.RegexDocShape` | query.go:400-433 | `startswith` anchors the escaped text at the start, `endswith` at the end, `contains` nowhere; `$options: "i"` is present exactly for the `i` variants |
| `BuildProperties.QIdHex` | query.go:110-113 | hex text on `_id` becomes the ObjectID it spells |
| `BuildProperties.QIdInvalid` | query.go:110-113 | text on `_id` that is not 24 hex digits is rejected |
| `BuildProperties.QIdOperatorNode` | query.go:455-461 | on an id field `f__op` keeps the operator and passes the value through `idFormat` |
| `BuildProperties.IdInKey` | query.go:455-457 | `_id__in` is the operator `in` on `_id` |
| `BuildProperties.IdInFacts` | query.go:455-461 | `_id__in` is an operator key on an id field, with an operator `Q` does not translate |
| `BuildProperties.QIdIn` | query.go:455-473 | the value of `_id__in` goes through `idFormat` |
| `BuildProperties.QIdList` | query.go:114-119 | a `[]string` of hex texts on `_id__in` becomes the `[]interface{}` of their ObjectIDs |
| `BuildProperties.QPolygonPromotes` | query.go:192-203 | `geo_within_polygon` promotes a single ring list to a one-element list |
| `BuildProperties.QCircleChecks` | query.go:226-243 | the two circle operators accept exactly three numbers with a positive radius |
| `BuildProperties.QMatch` | query.go:434-443 | `match` rejects a value that is not a `*Query`, rejects a query whose filter is empty, and otherwise becomes `f__elemMatch` of that filter |
| `BuildProperties.QBoxIgnoresCorners` | query.go:262-275 | `geo_within_2d_box` checks the length and then stores a nil box, whatever the corners |
| `BuildProperties.QNearIgnoresBarePoint` | query.go:322-337 | `near` with a bare coordinate pair stores a nil point, whatever the pair |
| `BuildProperties.RefKeys` | query.go:160-177 | the rewritten keys `key.$id__all`, `key.$id__in` and `key__size` are operator keys on `key.$id` and `key` |
| `BuildProperties.QRef` | query.go:450-453 | a `refQ` value, by pointer or by value, is replaced by the nodes of its rewrite |
| `BuildProperties.RefMatchCompiles` | query.go:160-167 | match mode compiles to `{key.$id: {$all: ids}, key: {$size: \|ids\|}}` |
| `BuildProperties.RefAllCompiles` | query.go:168-172 | all mode compiles to `{key.$id: {$all: ids}}` |
| `BuildProperties.RefDefaultCompiles` | query.go:173-177 | default mode compiles to `{key.$id: {$in: ids}}` |
| `BuildProperties.NotQSingle` | query.go:88-92 | negating a one-node query compiles to that node's entry with its value under `$not` |
| `BuildProperties.NotQRefMatch` | query.go:93-105 | negating a match-mode foreign key gives, by De Morgan, an `$or` of the two negated conditions |
| `QueryCombine.OrNorNode` | query.go:587-603 | an alternative with an empty filter gives no node; a filter that is `$and` alone gives its own `$and` list, and panics when that list is not a list of documents; otherwise the node is an `$and` list of documents |
| `QueryCombine.OrNorNodes` | query.go:584-606 | at most one node per alternative, each an `$and` list of documents |
| `QueryCombine.ArrQuery` | query.go:496-520 | a combinator value is accepted exactly when it is a list, a list of maps, a list of queries or a map |
| `QueryCombine.SubQueries` | query.go:524-539 | the sub-queries kept are all non-empty |
| `QueryCombine.MixEntry` | query.go:485-555 | one entry keeps the raw condition and only appends nodes |
| `QueryCombine.MixKeys` | query.go:484-556 | mixing some keys gives a query with no raw condition |
| `QueryCombine.CondKeys` | query.go:485 | every key visited is a key of the map |
| `QueryCombine.MixQSpec` | query.go:479-558 | `MixQ` gives no raw condition, and an empty map gives an empty query |
| `QueryCombine.MixQuery` | query.go:479-558 | the same, for the entry point without a termination bound |
| `QueryCombine.CondOf` | query.go:719-726 | the method computes `Cond` of a query value |
| `QueryCombine.Query.constructor` | query.go:74-79 | `NewQuery()` is the empty query |
| `QueryCombine.Query.SetRawCond` | query.go:562-565 | replaces the raw condition and keeps the nodes |
| `QueryCombine.Query.And` | query.go:567-572 | appends the nodes of every query, in order |
| `QueryCombine.Query.Empty` | query.go:580-582 | true exactly when there is no raw condition and no node |
| `QueryCombine.Query.Cond` | query.go:719-726 | computes `Cond` of the query's state |
| `QueryCombine.Query.OrNor` | query.go:584-606 | the loop computes `OrNorNodes` |
| `QueryCombine.Query.OrNorWith` | query.go:608-640 | `Or`/`Nor` append one node holding the alternatives, unless none is left; a panic leaves the query as it was |
| `QueryCombine.Query.Or` | query.go:608-620 | the same for `$or` |
| `QueryCombine.Query.Nor` | query.go:628-640 | the same for `$nor` |
| `QueryCombine.OrNorNodesPrefixErr` | query.go:586-587 | once an alternative panics, `orNor` panics with its error |
| `QueryCombine.MixKeysPrefixErr` | query.go:485-555 | once an entry panics, `MixQ` panics with its error |
| `QueryCombine.SubQueriesPrefixErr` | query.go:525-538 | once an item panics, gathering the sub-queries panics with its error |
| `QueryCombine.SubQueriesNext` | query.go:526-538 | one turn of the gathering loop computes `SubQueries` of one more item |
| `QueryCombine.CollectSubQueries` | query.go:524-539 | the gathering loop computes `SubQueries` |
| `QueryCombine.MixCombinator` | query.go:495-552 | a combinator entry updates the query as `MixEntry` specifies |
| `QueryCombine.MixEntryStep` | query.go:486-555 | one entry of the loop updates the query as `MixEntry` specifies |
| `QueryCombine.MixCondition` | query.go:490-494 | a plain or negated entry updates the query as `MixEntry` specifies |
| `QueryCombine.MixNext` | query.go:485-556 | one turn of `MixQ`'s loop extends the mixed prefix by one key |
| `QueryCombine.MixQ` | query.go:479-558 | the loop builds `MixQSpec` |
| `CombineProperties.AllNodesAppend` | query.go:567-572 | `And` over two lists is `And` over the first, then over the second, so the node counts add up |
| `CombineProperties.NonEmpty` | query.go:529-535 | the queries kept are all non-empty |
| `CombineProperties.AllNodesNonEmpty` | query.go:567-572 | empty queries contribute no nodes to `And` |
| `CombineProperties.OrNorNodesOk` | query.go:584-606 | `orNor` panics exactly when an alternative fails to compile or is a lone `$and` that is not a document list |
| `CombineProperties.OrNorNodesNone` | query.go:588-590 | `orNor` gives no node exactly when every alternative is empty |
| `CombineProperties.OrNorNodesNonEmpty` | query.go:588-590 | empty alternatives are skipped |
| `CombineProperties.OrNorNodesPlain` | query.go:592-603 | every plain alternative becomes its own one-document `$and` node, in order |
| `CombineProperties.OrNorNodesFlatten` | query.go:585-603 | every non-empty alternative becomes one `$and` node, in order; one that compiles to `$and` alone is flattened into its list |
| `CombineProperties.OrNorNodesAndNotMaps` | query.go:592-593 | an alternative compiling to `$and` alone with a value that is not a list of documents panics, once the alternatives before it are taken |
| `CombineProperties.OrNorFilterAnd` | query.go:648-655 | `innerOrNorFilter` of `$and` nodes is one `$and` document per node |
| `CombineProperties.OrCompiles` | query.go:608-640 | `Or`/`Nor` of plain alternatives compiles to `{$and: [{$or: alts}]}` with one `{$and: [filter]}` per alternative, in order |
| `CombineProperties.MixKeysBound` | query.go:485 | the termination bound does not change the result |
| `CombineProperties.MixBound` | query.go:479-558 | `MixQSpec` under any bound is `MixQuery` |
| `CombineProperties.MixSingleEntry` | query.go:484-557 | a one-key map is that key's entry applied to a new query |
| `CombineProperties.MixSingle` | query.go:554 | a key that is neither empty, negated nor a combinator gives `Q(k, v)` |
| `CombineProperties.MixTilde` | query.go:490-494 | `~k` gives `NotQ(k, v)`, and `~$and`, `~$or`, `~$nor` panic |
| `CombineProperties.MixEmptyKey` | query.go:486-488 | the empty key is skipped |
| `CombineProperties.MixAndMap` | query.go:508-510 | `$and` given a map is the map itself |
| `CombineProperties.SubQueriesOfQueries` | query.go:532-535 | a list of queries yields its non-empty ones |
| `CombineProperties.MixAndQueries` | query.go:504-546 | `$and` given queries is `And` over them, without their raw conditions |
| `CombineProperties.MixOrNorQueries` | query.go:504-550 | `$or`/`$nor` given queries is `Or`/`Nor` over them |
| `CombineProperties.MixPlainKeys` | query.go:553-555 | a map of plain keys is the `And` of their `Q`s |
| `References.RefMode` | reference.go:200-208 | `"all"` is mode 2, `"match"` is mode 3, anything else is mode 1 |
| `References.TargetOf` | reference.go:214-226 | the target is the text between the first `[` and the first `]`; it is rejected when a bracket is missing, the text is empty or it starts with `*` |
| `References.FieldRef` | reference.go:194-226 | only an exported field with `bson` and `ref` tags yields an entry, rejected exactly when its type names no target |
| `References.AddRef` | reference.go:227-239 | records one column of one table, creating the table's map, and changes nothing else |
| `References.ResolveColumns` | reference.go:246-251 | the inner loop resolves every column, or stops at an unresolvable one with the rest partly resolved |
| `References.ColumnsResolved` | reference.go:246-251 | when every column resolves, the table is resolvable and resolved |
| `References.ColumnsFailed` | reference.go:248-250 | a column whose struct has no table fails the whole table |
| `References.Reference.Valid` | reference.go:146-150 | every registered struct names a defined table, and only defined tables have references |
| `References.Reference.constructor` | reference.go:164-170 | `NewReference()` is the empty registry |
| `References.Reference.GetTableName` | reference.go:172-174 | the table registered for a struct, or `""` |
| `References.Reference.GetRef` | reference.go:263-270 | the entry exactly when the table has recorded the column |
| `References.Reference.AddTableDef` | reference.go:176-242 | rejects a duplicate table, a non-struct and a struct already registered; otherwise registers both and records the ref columns, stopping at a bad foreign type |
| `References.Reference.BuildRefs` | reference.go:244-254 | succeeds exactly when every target struct has a table, and then replaces each target with its table; on failure it reports an undefined table |
| `References.ResolveTables` | reference.go:245-253 | the outer loop over the tables does the same for a whole table map |
| `References.PartlyAfterFailure` | reference.go:245-253 | a failure leaves some tables resolved, one partly resolved and the rest as they were |
| `References.AllResolved` | reference.go:245-253 | when every table resolves, the registry is resolvable and resolved |
| `References.ScanFieldsStops` | reference.go:216-225 | once the field loop has panicked it stays stopped |
| `References.ForeignLookup` | reference.go:78-93 | no lookup exactly when the table name is empty or the id is zero; otherwise a find on that table |
| `References.LastRef` | reference.go:111-114 | the last non-empty table name is empty exactly when all names are |
| `References.LastRefIsLast` | reference.go:111-114 | a non-empty last name belongs to an element after which every name is empty |
| `References.IdsOf` | reference.go:111-118 | the ids of a list, in order |
| `References.NonZeroIds` | reference.go:115-117 | exactly the non-zero ids of the list; a list whose ids are all non-zero keeps them all, in order |
| `References.ForeignListLookup` | reference.go:104-134 | no lookup exactly when no table is named or no id is non-zero; otherwise a find on the last named table |
| `References.ScanForeigns` | reference.go:109-118 | the loop computes the last named table and the non-zero ids |
| `References.ForeignListToData` | reference.go:104-134 | the method computes `ForeignListLookup` |
| `References.IdOfValue` | reference.go:297-306 | a text `_id` is parsed, failing exactly on bad hex; bytes are copied |
| `References.RecordId` | reference.go:293-309 | the id of the first `_id` field, or the zero id when there is none |
| `References.FindRecordId` | reference.go:295-309 | the field loop, which stops at the first `_id`, computes `RecordId` |
| `References.ToRefData` | reference.go:272-319 | rejects a non-struct, an unregistered struct, bad hex and a zero id; otherwise gives the table name and the id |
| `References.ToRefList` | reference.go:342-386 | succeeds exactly when every element converts, and then converts each element in order |
| `References.ToRefListData` | reference.go:325-389 | a nil slice is an error; otherwise the loop computes `ToRefList` |
| `References.ToRefListStops` | reference.go:342-386 | once an element fails, the whole list fails with its error |
| `ReferenceProperties.TargetOfForeign` | reference.go:214-225 | `pre[T]post` names `T` |
| `ReferenceProperties.TargetOfPlain` | reference.go:216-218 | a type without both brackets names no target |
| `ReferenceProperties.ScanFieldsPass` | reference.go:194-241 | the field loop gets through exactly when every ref field names a target |
| `ReferenceProperties.ScanFieldsOthers` | reference.go:227-239 | only the table being defined changes |
| `ReferenceProperties.ScanFieldsColumns` | reference.go:194-241 | for a new table, the columns recorded are exactly the `bson` names of its ref fields |
| `ReferenceProperties.ScanFieldsLast` | reference.go:227-239 | a recorded column holds the target and mode of the last ref field with that name |
| `ReferenceProperties.ResolvedTargets` | reference.go:244-254 | after a successful `BuildRefs` every entry names a defined table, the one registered for its struct, and keeps its mode |
| `ReferenceProperties.UnresolvableEntry` | reference.go:248-250 | `BuildRefs` fails exactly when some entry's struct has no table |
| `ReferenceProperties.ForeignLookupQuery` | reference.go:82-88 | `Foreign.ToData` finds one document by `_id`, and the query compiles to `{_id: {$eq: id}}` |
| `ReferenceProperties.QIdsIn` | reference.go:126-128 | `Q("_id__in", ids)` on a slice of ObjectIDs keeps the slice |
| `ReferenceProperties.FilterIdsIn` | reference.go:126-128 | `_id__in` compiles to `{_id: {$in: ids}}` |
| `ReferenceProperties.MixIdsIn` | reference.go:126-128 | `MixQ({"_id__in": ids})` is that one node |
| `ReferenceProperties.ForeignListQuery` | reference.go:124-129 | `ForeignList.ToData` finds the documents whose `_id` is in the non-zero ids |
| `ReferenceProperties.RefListLookup` | reference.go:325-389 | a list made by `ToRefListData` looks up every one of its ids, in the table of its last element |
| `ReferenceProperties.AllNonZero` | reference.go:378-380 | every id `ToRefListData` returns is non-zero |
| `ReferenceProperties.ToRefDataHex` | reference.go:296-318 | a registered struct whose `_id` holds the hex of a non-zero id refers to that id in its table |
| `QueryOptions.UpdateType.String` | query_options.go:21-23 | the operator's text gives the operator back |
| `QueryOptions.UpdateOperators` | query_options.go:26-33 | the six operators are `$set`, `$unset`, `$inc`, `$push`, `$pull` and `$pop`, all different |
| `QueryOptions.FirstEmpty` | query_options.go:44-46 | the position of the first empty column (where `col[0]` panics), or the number of columns |
| `QueryOptions.EntriesShape` | query_options.go:43-81 | one entry per column, in order: `-col` has the minus value, `+col` and `col` the value 1, the sign stripped |
| `QueryOptions.EntryRoundTrip` | query_options.go:44-52 | an entry's key and value give the column back, up to a `+` prefix |
| `QueryOptions.RestrictAdd` | query_options.go:61-63 | writing one more key extends the written part by that key |
| `QueryOptions.MergeInto` | query_options.go:61-63 | writing every entry of a map, in any order, gives `dst + m` |
| `QueryOptions.BasicFindOptions.constructor` | query_options.go:35-39 | no fields, no sort, a nil projection |
| `QueryOptions.BasicFindOptions.Select` | query_options.go:43-55 | appends the entries of the columns, value 0 for `-`, and panics at the first empty column with the earlier ones appended |
| `QueryOptions.BasicFindOptions.Sort` | query_options.go:69-81 | appends the entries of the columns, value -1 for `-`, and panics at the first empty column with the earlier ones appended |
| `QueryOptions.BasicFindOptions.Projection` | query_options.go:57-65 | creates the map when nil and then adds or overwrites exactly the given keys |
| `QueryOptions.CheckSkip` | query_options.go:138-145 | a skip is accepted exactly when it is not negative |
| `QueryOptions.CheckLimit` | query_options.go:147-153 | a limit is accepted exactly when it is at least 1 |
| `QueryOptions.PageWindow` | query_options.go:211-223 | page `no` of size `size` is accepted exactly when both are at least 1; pages through skip `(no-1)*size` (wrapping as `int64`) and limit `size` |
| `QueryOptions.PagesAdjacent` | query_options.go:211-223 | page `no + 1` starts where page `no` ends |
| `QueryOptions.CountOptions.constructor` | query_options.go:132-135 | no skip and no limit |
| `QueryOptions.CountOptions.Skip` | query_options.go:138-145 | stores a non-negative skip, and otherwise panics with nothing changed |
| `QueryOptions.CountOptions.Limit` | query_options.go:147-153 | stores a limit of at least 1, and otherwise panics with nothing changed |
| `QueryOptions.FindOneOptions.constructor` | query_options.go:181-184 | empty basic options and no skip |
| `QueryOptions.FindOneOptions.Skip` | query_options.go:187-194 | stores a non-negative skip, and otherwise panics with nothing changed |
| `QueryOptions.FindOptions.constructor` | query_options.go:196-199 | empty find-one options and no limit |
| `QueryOptions.FindOptions.Limit` | query_options.go:202-209 | stores a limit of at least 1, and otherwise panics with nothing changed |
| `QueryOptions.FindOptions.Page` | query_options.go:211-223 | sets the skip and the limit of the page, and otherwise panics with nothing changed |
| `QueryOptions.UpdateOptions.constructor` | query_options.go:83-85 | no upsert flag |
| `QueryOptions.UpdateOptions.Upsert` | query_options.go:87-90 | records exactly `b` |
| `OrmWhere.FormatList` | orm.go:544-553 | a rewritten `[]interface{}` keeps its length |
| `OrmWhere.FormatDocs` | orm.go:554-558 | a rewritten `[]map[string]interface{}` keeps its length |
| `OrmWhere.FormatArr` | orm.go:542-566 | a value that is neither a list nor a map is returned as it is |
| `OrmWhere.FormatKeys` | orm.go:570-596 | rewriting keeps the keys of the condition |
| `OrmWhere.FormatWhereSpec` | orm.go:568-634 | the same, for the whole condition |
| `OrmWhere.FormatWhere` | orm.go:568-634 | the same, for the entry point without a termination bound |
| `OrmWhere.FormatKeysPrefixErr` | orm.go:581-583 | once an entry panics, the rewriting panics with its error |
| `OrmWhere.FormatKey` | orm.go:571-594 | the loop body computes `FormatEntry` |
| `OrmWhere.FormatRefRun` | orm.go:580-604 | the foreign-key branch computes `FormatRef` |
| `OrmWhere.FormatNext` | orm.go:570-595 | one turn of the loop extends the rewritten prefix by one key |
| `OrmWhere.FormatWhereRun` | orm.go:568-634 | the loop computes `FormatWhereSpec` |
| `OrmWhereProperties.FormatKeysOk` | orm.go:570-596 | the rewriting gets through when every entry it names can be rewritten |
| `OrmWhereProperties.FormatKeysErr` | orm.go:581-583 | one entry that cannot be rewritten makes the rewriting fail |
| `OrmWhereProperties.FormatKeysAt` | orm.go:570-596 | a successful rewriting of distinct keys gives each its rewritten value |
| `OrmWhereProperties.CondKeysOf` | orm.go:570 | the keys are visited once each, all of them |
| `OrmWhereProperties.FormatWhereOk` | orm.go:568-634 | `formatWhere` gets through when every entry can be rewritten |
| `OrmWhereProperties.FormatWhereEntry` | orm.go:568-634 | `formatWhere` fails when one entry cannot be rewritten, and otherwise holds every entry's rewritten value |
| `OrmWhereProperties.FormatWhereKeeps` | orm.go:573-580 | a column with no foreign-key reference keeps its condition |
| `OrmWhereProperties.FormatWhereEmptyKey` | orm.go:575 | an empty key makes `formatWhere` fail (`k[0]` panics) |
| `OrmWhereProperties.FormatEntryTilde` | orm.go:574-579 | a leading `~` is ignored when the column's reference is looked up |
| `OrmWhereProperties.FormatWhereRefRejects` | orm.go:580-583 | a foreign-key column whose condition is neither a map nor a `*refQ` is rejected |
| `OrmWhereProperties.FormatWhereRefKept` | orm.go:581-586 | a foreign-key column that already holds a `*refQ` keeps it |
| `OrmWhereProperties.FormatWhereRefMap` | orm.go:588-605 | a foreign-key column's map is rewritten on the referenced table, mixed, and becomes a `refQ` from this table |
| `OrmWhereProperties.FormatWhereCombinator` | orm.go:571-572 | `$and`, `$or` and `$nor` values are rewritten by `formatWhereArr` |
| `OrmWhereProperties.FormatEntryIdempotent` | orm.go:573-594 | outside the combinators, a rewritten entry rewrites to itself |
| `OrmWhereProperties.FormatRefIdempotent` | orm.go:580-605 | a rewritten foreign-key value is a `refQ`, which is kept |
| `OrmWhereProperties.FormatWhereIdempotent` | orm.go:568-634 | rewriting a rewritten condition changes nothing, as when `Cond` is called twice on the same state |
| `OrmQueries.PairsWhereKeys` | orm.go:111-113 | the keys afterwards are the old keys plus the key of every pair |
| `OrmQueries.PairsWhereLast` | orm.go:111-113 | of several pairs with the same key, the last one wins |
| `OrmQueries.PairsWhereOthers` | orm.go:111-113 | a key no pair names keeps its entry, or its absence |
| `OrmQueries.PageLimit` | orm.go:130 | the Limit slice is `[size*(no-1), size]`, with the product wrapping as `uint` |
| `OrmQueries.ManyWindow` | orm.go:369-374 | a one-element slice is a limit, a two-element one a skip and a limit, anything else neither; out-of-range values panic as the option setters do |
| `OrmQueries.OneSkip` | orm.go:487-489 | only a one-element slice counts, and as a skip |
| `OrmQueries.PageLimitWindow` | orm.go:122-132 | a page set on the ORM becomes the same window as `FindOptions.Page` sets for that page |
| `OrmQueries.SkipOfPage` | orm.go:130 | without overflow, the skip of page `no` is `(no-1)*size` |
| `OrmQueries.ManyWindowPair` | orm.go:371-374 | a two-element slice in range is the skip and the limit |
| `OrmQueries.PageLimitsAdjacent` | orm.go:130 | consecutive pages are consecutive windows |
| `OrmQueries.FindManyOptions` | orm.go:366-376 | the options of a find of many: select entries, the Limit-slice window, the projection and the sort entries, the first failing step deciding the panic |
| `OrmQueries.FinishBasic` | orm.go:375-376 | sets the projection and then the sort |
| `OrmQueries.ApplyManyWindow` | orm.go:369-374 | sets the window of the Limit slice |
| `OrmQueries.FindOneOpts` | orm.go:484-491 | the options of a find of one: select entries, the skip of a one-element Limit slice, the projection and the sort entries |
| `OrmQueries.ApplyOneSkip` | orm.go:487-489 | sets the skip of the Limit slice |
| `OrmQueries.PageCount` | orm.go:235-238 | for a count and a size in range, the number of pages is the ceiling of `total/size` |
| `OrmQueries.CeilStep` | orm.go:236-237 | with a remainder, the quotient plus one is the ceiling |
| `OrmQueries.CeilExact` | orm.go:235 | without a remainder, the quotient is the ceiling |
| `OrmQueries.CountQuotient` | orm.go:235-236 | for values in range, Go's quotient and remainder are the mathematical ones |
| `OrmQueries.ClampPage` | orm.go:240-245 | the page is at most the number of pages and at least 1, and is unchanged when it is in range |
| `OrmQueries.PageWithinTotal` | orm.go:231-246 | the page settled on starts inside the documents counted, or is page 1 of nothing |
| `OrmQueries.Orm.constructor` | orm.go:69-99 | an ORM on one table that keeps its query, starting from `newMongoOrmQ()` |
| `OrmQueries.Orm.Query` | orm.go:103-115 | an odd number of values panics with nothing changed; otherwise every pair is written into the condition, in order |
| `OrmQueries.Orm.OverLimit` | orm.go:117-120 | the Limit slice becomes `[over, size]` |
| `OrmQueries.Orm.Page` | orm.go:122-132 | a zero size panics, then a zero page number; otherwise the Limit slice selects that page |
| `OrmQueries.Orm.Limit` | orm.go:134-137 | the Limit slice becomes `[size]` |
| `OrmQueries.Orm.Distinct` | orm.go:139-142 | sets the distinct flag only |
| `OrmQueries.Orm.KeepQuery` | orm.go:144-147 | sets the keep-query flag only |
| `OrmQueries.Orm.Where` | orm.go:149-152 | adds or overwrites one condition |
| `OrmQueries.Orm.Wheres` | orm.go:154-159 | adds or overwrites exactly the given conditions |
| `OrmQueries.Orm.Projection` | orm.go:161-164 | adds or overwrites one projection entry |
| `OrmQueries.Orm.Projections` | orm.go:166-171 | adds or overwrites exactly the given projection entries |
| `OrmQueries.Orm.Select` | orm.go:173-176 | appends the columns, in order |
| `OrmQueries.Orm.Order` | orm.go:178-181 | appends the sort columns, in order |
| `OrmQueries.Orm.ClearCache` | orm.go:183-186 | resets the query state to `newMongoOrmQ()` |
| `OrmQueries.Orm.Cond` | orm.go:188-190 | the query of the rewritten condition; the rewriting is written back into the state |
| `OrmQueries.Orm.Count` | orm.go:636-651 | counts with the query of the rewritten condition; with `clearCache` the state is reset whatever happened |
| `OrmQueries.Orm.PageData` | orm.go:225-260 | counts, rejects a zero page number or size, computes the pages, clamps the page and selects it; returns page, size, total and pages; the rewritten condition is written back even when the count fails or an argument is 0 |

## Left out

- Driver plumbing (`collection.go`, `client.go`, `database.go`, `config.go`, `struct.go`, `bulk_model.go`): the model has no connection, session or context. The finds `getData`, `Foreign.ToData` and `ForeignList.ToData` issue are the `Store` parameter or a returned `Lookup` value. The count is the `Counter` parameter.
- Decoding documents into Go values: this is reflection. It covers `ToData`, `toListData`, `setDataFunc` and `returnDataFormat` in orm.go and `Foreign.GetData`/`ForeignList.GetData`. `Exist`, `ToJSON`, `Query.JSON` and the Insert/Update/Delete passthroughs are also left out.
- Reflection over struct types: a struct is given explicitly as a `TypeDef` holding its package path, name and fields, each field with its `exported` flag, `bson` tag, `ref` tag and type name. An `_id` field is given as text or bytes.
- `util.Any2String`: the `keyOf` parameter of `Orm.Query`.
- Go map iteration order: `MixQ`, `formatWhere`, `BuildRefs`, `Projection` and `Wheres` range over maps.
  - The loops of `BuildRefs` and `Projection` visit keys in any order (`:|`).
  - `MixQ` and `formatWhere` follow the one fixed enumeration `KeyOrder`. The lemmas about them state nothing that depends on that order, except through a single key.
- Concurrency: when several foreign-key columns need a sub-query, `formatWhere` resolves them on a task executor (orm.go:608-631). Every task reads and writes the same condition map and runs `MixQ`, which can panic inside the task. The executor (`github.com/assembly-hub/task`) is not part of this model.
  - The model assumes the executor runs the resolutions one at a time. It resolves each one in turn, at the point where its column is rewritten, and drops the intermediate `tempRefQ`. Run in parallel, Go's tasks could instead end the process with a concurrent map write.
  - The model assumes the executor passes a task's panic on as the panic of `formatWhere`. An unrecovered panic in a goroutine would instead end the process.
  - When several entries fail, the error reported can differ from Go's.
- Nil elements: the model's lists have no nil elements. A nil `*Foreign[T]` in a `ForeignList[T]` panics at `ref.Ref` (reference.go:112). A nil `*T` given to `ToRefListData` panics at `elem.Type()` (reference.go:346-354). Neither panic is modelled.
- Partial updates before a panic:
  - `formatWhere` rewrites `orm.Q.Where` in place, so a panic midway leaves some entries rewritten. In the model, `Orm.Cond`, `Orm.Count` and `Orm.PageData` leave the condition unchanged when the rewrite fails and replace it whole when the rewrite succeeds. `Orm.PageData` keeps the rewritten condition when the count fails or the page number or size is 0 afterwards, as Go does.
  - `Reference.AddTableDef` keeps the Go behaviour: the registrations and the columns before the failing field stay.
  - `Query.Or`/`Nor` leave the query unchanged on a panic.
- Shared, mutable sub-documents in `innerFilter` and `And`: the model's filters and node values are immutable values.
  - Go stores a value map by reference: `filter[k] = v` stores the regex document of a node, or a user-given `f__regex` map, into the filter itself (query.go:669-670, 711-712).
  - A later operator on the same field then writes into that stored map (query.go:709). A `$not` merge writes the old entries into the new node's own map (query.go:704).
  - So in Go, `Cond()` can change node values still held by the query. `And` copies nodes, not their maps (query.go:569), so the change shows through every query that shares them. For example, after `q2 := NewAnd(q1, Q("name__ne", "b")); q2.Cond()`, Go's `q1.Cond()` returns `{name: {$regex: "^a.*", $ne: "b"}}` for `q1 := Q("name__startswith", "a")`. The model's `Cond` of `q1` stays `{name: {$regex: "^a.*"}}`.
  - The model computes each `Cond` from the nodes as they were built, which is the result the first `Cond()` of a fresh query gives in Go.
- A nil `*Database` or `*Reference` in an `ORM`: the model's ORM always has a database name and a registry. The nil checks of `getData` are modelled.
- A `refQ` holds the registry's foreign-key table as a value, not a pointer to the `Reference`. Later registrations do not show through an existing `refQ`.
- `ToRefListData`'s check that the generic type name holds no `*` (reference.go:339-341) is left out. The type name of `ForeignList[T]` is given by the Go compiler, so it is not an input.
- Floating point: coordinates and radii are `real`, and the radius conversion is real division.
- `OrmQueries.Orm.PageData`: stops after selecting the page. It does not model the `ToData` call that fetches the page into the target, or that call's error.
- `OrmQueries.Orm.Count`: the `defer`red `ClearCache` is modelled as a reset after the count, including after a failed rewrite. The model has no panics to recover from.
- `OrmWhereProperties.FormatWhereIdempotent`: proved only for conditions with no `$and`/`$or`/`$nor` key. A rewritten combinator list can change shape: a `[]map` becomes a `[]interface{}`.
- `OrmQueries.PageCount`: the ceiling is stated for a non-negative count and a size below 2^63. Outside that range the model wraps exactly as the Go conversions do, but states nothing more.
- `QueryOptions.PageWindow`: the skip is exact when `(no-1)*size` fits in `int64`. Otherwise it is stated only modulo 2^64, which is how Go wraps it.
- `OrmQueries.PageLimitWindow`: stated for page numbers and sizes whose product fits in `int64`.
- `BuildProperties.QNearIgnoresBarePoint` and `BuildProperties.QBoxIgnoresCorners`: these record that `near`/`near_sphere` with a bare point, `geo_within_2d_box` and `geo_within_2d_polygon` store a nil payload. The model mirrors this and does not correct it. The key `"maxDistance"` without `$` is kept as written.
