/** Results, errors and optional values shared by every module. */
module Base {

  datatype Option<+T> = None | Some(value: T)

  /** The exceptions of the library, and the situations in which it has no defined behaviour. */
  datatype Error =
    | IncorrectChunk(tag: int)
    | UnknownType(typeId: int)
    | NotFound
    | PropertyNotFound
    | BadCast            // a failed dynamic_cast to a reference
    | OutOfRange         // std::vector::at
    | BadLength          // a negative count turned into a size
    | AssertionFailed
    | OutOfBuffer        // a read outside the mapped file
    | Undefined          // an end iterator, a null pointer or an uninitialised variable is used
    | NotModelled        // a numeric conversion from text or from floating point
    | InvalidFile        // the "Clarissa" mark is missing
    | NoProgress         // an empty window that leaves the cursor where it was

  datatype Result<+T> = Ok(value: T) | Err(error: Error) {
    predicate IsFailure() {
      Err?
    }

    function PropagateFailure<U>(): Result<U>
      requires Err?
    {
      Err(error)
    }

    function Extract(): T
      requires Ok?
    {
      value
    }
  }

  /** The outcome of a parser: the value read and the position after it. */
  type Parsed<+T> = Result<(T, int)>

  /** The outcome of a list parser that has already produced `done`. */
  function Prepend<T>(done: seq<T>, r: Parsed<seq<T>>): Parsed<seq<T>> {
    match r
    case Ok((rest, end)) => Ok((done + rest, end))
    case Err(e) => Err(e)
  }

  lemma PrependNothing<T>(r: Parsed<seq<T>>)
    ensures Prepend([], r) == r
  {
    if r.Ok? {
      assert [] + r.value.0 == r.value.0;
    }
  }

  lemma PrependEnd<T>(done: seq<T>, end: int)
    ensures Prepend(done, Ok(([], end))) == Ok((done, end))
  {
    assert done + [] == done;
  }

  lemma PrependError<T>(done: seq<T>, e: Error)
    ensures Prepend(done, Err(e)) == Err(e)
  {
  }

  lemma PrependStep<T>(done: seq<T>, x: T, r: Parsed<seq<T>>)
    ensures Prepend(done, Prepend([x], r)) == Prepend(done + [x], r)
  {
    if r.Ok? {
      assert done + ([x] + r.value.0) == done + [x] + r.value.0;
    }
  }

  lemma PrependPrepend<T>(a: seq<T>, b: seq<T>, r: Parsed<seq<T>>)
    ensures Prepend(a, Prepend(b, r)) == Prepend(a + b, r)
  {
    if r.Ok? {
      assert a + (b + r.value.0) == a + b + r.value.0;
    }
  }

  /** The outcome of a loop over a list that has already produced `done`. */
  function Join<T>(done: seq<T>, r: Result<seq<T>>): Result<seq<T>> {
    match r
    case Ok(rest) => Ok(done + rest)
    case Err(e) => Err(e)
  }

  lemma JoinStep<T>(done: seq<T>, more: seq<T>, r: Result<seq<T>>)
    ensures Join(done, Join(more, r)) == Join(done + more, r)
  {
    if r.Ok? {
      assert done + (more + r.value) == done + more + r.value;
    }
  }

  lemma JoinEnds<T>(done: seq<T>, r: Result<seq<T>>)
    ensures Join([], r) == r && Join(done, Ok([])) == Ok(done)
  {
    assert done + [] == done;
    if r.Ok? {
      assert [] + r.value == r.value;
    }
  }

  lemma JoinError<T>(done: seq<T>, e: Error)
    ensures Join(done, Err(e)) == Err(e)
  {
  }
}
