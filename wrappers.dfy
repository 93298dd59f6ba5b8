/**
 * Error handling shared by every module. A Go `panic` and a returned Go
 * `error` both become an `Err` carrying the reason; `Outcome` is the result
 * of an operation that returns nothing else.
 */
module Wrappers {

  datatype Option<+T> = None | Some(value: T)

  /** Why an operation panicked or returned an error. */
  datatype Error =
    // object ids
    | InvalidHex
    // query building
    | RefKeyHasSep | RefModeUnknown
    | RefNoDatabase | RefNoRegistry | RefNoSource | RefEmptyQuery | RefUnknownColumn
    | StoreFailure
    | GeoBadValue | PatternNotString | MatchNotQuery | MatchEmpty
    | NotQEmpty | TildeCombinator | CombinatorBadValue | CombinatorBadItem
    // query compilation
    | NotNodeList | NotNode | AndNotMapList
    | MergeNotMap | MergeTargetNotMap | NotMergeBadValue
    // registry
    | DuplicateTable | NotStruct | DuplicateStruct | BadForeignType | UnresolvedTable
    | NotStructPointer | UndefinedStruct | ZeroObjectId
    // find / count options
    | NegativeSkip | LimitTooSmall | PageNoTooSmall | PageSizeTooSmall | EmptyColumn
    // ORM
    | OddPairs | PageSizeZero | PageNoZero | PagingZero | EmptyKey | RefConditionType

  datatype Result<+T> = Ok(value: T) | Err(error: Error) {
    predicate IsFailure() { Err? }
    function PropagateFailure<U>(): Result<U>
      requires Err?
    {
      Err(error)
    }
    function Extract(): T
      requires Ok?
    {
      value
    }
  }

  datatype Outcome = Pass | Fail(error: Error) {
    predicate IsFailure() { Fail? }
    function PropagateFailure(): Outcome
      requires Fail?
    {
      this
    }
  }
}
