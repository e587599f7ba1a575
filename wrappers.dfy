/** Optional values: `None` stands for JavaScript's `undefined` (a missing property, an unmapped key). */
module Wrappers {
  datatype Option<+T> = None | Some(value: T)

  /** The elements of an optional value as a sequence of length at most one. */
  function ToSeq<T>(o: Option<T>): (s: seq<T>)
    ensures |s| <= 1
    ensures o.Some? ==> s == [o.value]
    ensures o.None? ==> s == []
  {
    if o.Some? then [o.value] else []
  }
}
