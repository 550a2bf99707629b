/** Types that several modules share. */
module Wrappers {

  datatype Option<T> = None | Some(value: T)

  datatype Result<T, E> = Ok(value: T) | Err(error: E)

  type Byte = x: int | 0 <= x < 256

  /** What was found in front of what is found later, if anything is. */
  function Prepend<T>(done: seq<T>, r: Option<seq<T>>): (o: Option<seq<T>>)
  {
    if r.None? then None else Some(done + r.value)
  }

  lemma PrependNothing<T>(r: Option<seq<T>>)
    ensures Prepend([], r) == r
  {
    if r.Some? { assert [] + r.value == r.value; }
  }

  lemma PrependTwice<T>(a: seq<T>, b: seq<T>, r: Option<seq<T>>)
    ensures Prepend(a, Prepend(b, r)) == Prepend(a + b, r)
  {
    if r.Some? { assert a + (b + r.value) == a + b + r.value; }
  }

  function PrependOk<T, E>(done: seq<T>, r: Result<seq<T>, E>): (o: Result<seq<T>, E>)
  {
    if r.Err? then r else Ok(done + r.value)
  }

  lemma PrependOkNothing<T, E>(r: Result<seq<T>, E>)
    ensures PrependOk([], r) == r
  {
    if r.Ok? { assert [] + r.value == r.value; }
  }

  lemma PrependOkTwice<T, E>(a: seq<T>, b: seq<T>, r: Result<seq<T>, E>)
    ensures PrependOk(a, PrependOk(b, r)) == PrependOk(a + b, r)
  {
    if r.Ok? { assert a + (b + r.value) == a + b + r.value; }
  }
}
