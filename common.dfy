/** Values shared by every layer of the job service: the API error type, the
    failure-compatible results the service returns instead of Go's
    (value, error) pairs, 32-bit integers and instants. */
module Common {

  /** The HTTP-flavoured error kinds the core produces. */
  datatype ErrorKind = NotFound | BadRequest | InternalServerError

  /** An API error: a kind (standing for the HTTP status code) and a message. */
  datatype ApiErr = ApiErr(kind: ErrorKind, message: string)

  function NotFoundError(message: string): ApiErr
  {
    ApiErr(NotFound, message)
  }

  function BadRequestError(message: string): ApiErr
  {
    ApiErr(BadRequest, message)
  }

  /** A value or the error that replaced it. */
  datatype Result<T> = Ok(value: T) | Err(error: ApiErr) {
    predicate IsFailure() { Err? }
    function PropagateFailure<U>(): Result<U>
      requires Err?
    {
      Err(error)
    }
    function Extract(): T
      requires Ok?
    {
      value
    }
  }

  /** The outcome of an operation that returns only an error or nil. */
  datatype Outcome = Pass | Fail(error: ApiErr)

  datatype Option<T> = None | Some(value: T)

  /** Go's (value, error) pair where the value is meaningful even when the
      error is set (the zero value the callee returns beside it). */
  datatype Lookup<T> = Lookup(value: T, err: Option<ApiErr>)

  /** Go's int32. */
  type Int32 = x: int | -0x8000_0000 <= x <= 0x7fff_ffff

  const MaxInt32: int := 0x7fff_ffff

  /** An instant, in nanoseconds; Go's time.Time. Before is `<`. */
  type Time = int

  const Second: int := 1_000_000_000

  /** A set without members is empty. */
  lemma EmptyWithoutMembers<X>(s: set<X>)
    requires forall x :: x !in s
    ensures s == {}
  {
    forall x ensures x !in s { }
    assert s == {};
  }

  /** A set is empty or has a member; lets a loop over the keys of a map
      (Go's `range`) pick its next key. */
  lemma EmptyOrMember<X>(s: set<X>)
    ensures s == {} || exists x :: x in s
  {
    if forall x :: x !in s {
      EmptyWithoutMembers(s);
    }
  }

  /** Two maps with the same keys and the same value at each key are equal. */
  lemma MapsEqual<K, V>(a: map<K, V>, b: map<K, V>)
    requires forall k :: k in a <==> k in b
    requires forall k :: k in a ==> a[k] == b[k]
    ensures a == b
  {
    forall k ensures k in a.Keys <==> k in b.Keys { }
    assert a.Keys == b.Keys;
  }

  /** A map without keys is empty. */
  lemma EmptyMapWithoutKeys<K, V>(m: map<K, V>)
    requires forall k :: k !in m
    ensures m == map[]
  {
    forall k ensures k !in m.Keys { }
    EmptyWithoutMembers(m.Keys);
  }

  /** Takes some member of a non-empty set: the next key of a `range` loop
      over a map, whose order Go leaves unspecified. */
  method Pick<X>(s: set<X>) returns (x: X)
    requires s != {}
    ensures x in s
  {
    EmptyOrMember(s);
    x :| x in s;
  }
}
