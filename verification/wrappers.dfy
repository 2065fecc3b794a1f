/** Option and Result, plus the error kinds the codec can raise. */
module Wrappers {

  datatype Option<+T> = None | Some(value: T) {
    predicate IsFailure() { None? }

    function PropagateFailure<U>(): Option<U>
      requires None?
    {
      None
    }

    function Extract(): T
      requires Some?
    {
      value
    }

    function GetOr(default: T): T {
      match this
      case Some(v) => v
      case None => default
    }
  }

  /** The exceptions the Java code throws, one constructor per cause. */
  datatype Error =
    | InvalidVersion(version: string)        // metadata_version other than "v2"
    | ColumnNotFound(name: string)           // dotted name missing from the column name list
    | ColumnIdOutOfRange(id: int)            // row-group column id outside the columns list
    | UnrecognizedValueType(className: string) // mxValue of a class with no wire variant
    | MissingMember(member: string)          // obj.get(member) returned null and was dereferenced
    | NullValue                              // any other null dereference
    | WrongJsonType(expected: string)        // asString/asArray/... on the wrong kind of JSON value
    | NumberFormat(text: string)             // Long.parseLong / Integer.parseInt refused the text
    | UnknownEnumName(name: string)          // Enum.valueOf refused the name
    | Truncated                              // input ended inside a varint or a block
    | MalformedVarint                        // more than ten varint bytes
    | NegativeSize                           // a block length read back as a negative int
    | SizeLimitExceeded                      // more bytes than the stream's size limit
    | MessageParseError                      // a sub-message's own bytes did not parse
    | ClassCast                              // a cast to a class the object is not an instance of

  datatype Result<+T> = Ok(value: T) | Err(error: Error) {
    predicate IsFailure() { Err? }

    function PropagateFailure<U>(): Result<U>
      requires Err?
    {
      Err(error)
    }

    function Extract(): T
      requires Ok?
    {
      value
    }
  }

  /** `acc` followed by the list `r` holds; an error passes through unchanged. */
  function Prepended<T>(acc: seq<T>, r: Result<seq<T>>): Result<seq<T>> {
    match r
    case Ok(v) => Ok(acc + v)
    case Err(e) => Err(e)
  }

  lemma PrependedNothing<T>(r: Result<seq<T>>)
    ensures Prepended([], r) == r
  {
    if r.Ok? {
      assert [] + r.value == r.value;
    }
  }

  lemma PrependedTwice<T>(acc: seq<T>, x: seq<T>, r: Result<seq<T>>)
    ensures Prepended(acc, Prepended(x, r)) == Prepended(acc + x, r)
  {
    if r.Ok? {
      assert acc + (x + r.value) == (acc + x) + r.value;
    }
  }

  lemma PrependedToEmpty<T>(acc: seq<T>)
    ensures Prepended(acc, Ok([])) == Ok(acc)
  {
    assert acc + [] == acc;
  }
}
