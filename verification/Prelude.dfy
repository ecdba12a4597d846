/** Optional values, results that can fail, and a few facts about sequences and maps. */
module Prelude {

  datatype Option<+T> = None | Some(value: T)

  /** A result in the style of a Python call that may raise; `:-` propagates the error. */
  datatype Result<+T, +E> = Ok(value: T) | Err(error: E) {
    predicate IsFailure() {
      Err?
    }

    function PropagateFailure<U>(): Result<U, E>
      requires Err?
    {
      Err(error)
    }

    function Extract(): T
      requires Ok?
    {
      value
    }
  }

  /** Python truthiness of an optional string: neither missing nor empty. */
  predicate Truthy(o: Option<string>) {
    o.Some? && o.value != ""
  }

  function OrElse<T>(o: Option<T>, default: T): T {
    if o.Some? then o.value else default
  }

  /** The first of two that there is. */
  function Either<T>(a: Option<T>, b: Option<T>): Option<T> {
    if a.Some? then a else b
  }

  /** Lower-casing, within ASCII. */
  function LowerChar(c: char): char {
    if 'A' <= c <= 'Z' then c - 'A' + 'a' else c
  }

  ghost predicate NoDuplicates<T(!new)>(s: seq<T>) {
    forall i, j :: 0 <= i < j < |s| ==> s[i] != s[j]
  }

  /** `s` lists exactly the elements of `xs`, each once, in some order. */
  ghost predicate Lists<T(!new)>(s: seq<T>, xs: set<T>) {
    && NoDuplicates(s)
    && (forall k :: 0 <= k < |s| ==> s[k] in xs)
    && (forall x :: x in xs ==> x in s)
  }

  /** `at` lists, in increasing order, exactly the positions of `ids` that hold a known id. */
  ghost predicate Picks<T(!new)>(ids: seq<T>, known: set<T>, at: seq<nat>) {
    && (forall j :: 0 <= j < |at| ==> at[j] < |ids| && ids[at[j]] in known)
    && (forall j, k :: 0 <= j < k < |at| ==> at[j] < at[k])
    && (forall i: nat :: i < |ids| && ids[i] in known ==> i in at)
  }
}
