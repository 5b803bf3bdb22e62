/** Failure-compatible results, and helpers on identifiers, numbers and sequences shared by
    the models. */
module Common {

  datatype Option<+T> = None | Some(value: T)

  datatype Result<+T, +E> = Ok(value: T) | Err(error: E) {

    predicate IsFailure() { Err? }

    function PropagateFailure<U>(): Result<U, E>
      requires Err?
    {
      Err(error)
    }

    function Extract(): T
      requires Ok?
    {
      value
    }
  }

  /** Succeeds with unit exactly when the condition holds. */
  function Need<E>(condition: bool, error: E): (r: Result<(), E>)
    ensures r.Ok? <==> condition
  {
    if condition then Ok(()) else Err(error)
  }

  const HOUR_MS := 3600000

  function Min(a: int, b: int): (m: int)
    ensures m <= a && m <= b && (m == a || m == b)
  {
    if a < b then a else b
  }

  function Max(a: int, b: int): (m: int)
    ensures a <= m && b <= m && (m == a || m == b)
  {
    if a < b then b else a
  }

  function Elements<T(==)>(s: seq<T>): set<T> { set x | x in s }

  /** Position of the first ':' in an identifier, as `str.find` reports it. */
  function FindColon(s: string): (i: int)
    ensures i == -1 <==> ':' !in s
    ensures i != -1 ==> 0 <= i < |s| && s[i] == ':' && ':' !in s[..i]
  {
    if s == [] then -1
    else if s[0] == ':' then 0
    else
      var rest := FindColon(s[1..]);
      if rest == -1 then -1 else assert s[..rest + 1] == [s[0]] + s[1..][..rest]; rest + 1
  }

  /** The server part of a user or room identifier; identifiers without ':' have none. */
  function Domain(id: string): (d: Option<string>)
    ensures d.Some? <==> ':' in id
    ensures d.Some? ==> exists i | 0 <= i < |id| :: id[i] == ':' && ':' !in id[..i] && d.value == id[i + 1..]
  {
    var i := FindColon(id);
    if i == -1 then None else Some(id[i + 1..])
  }
}
