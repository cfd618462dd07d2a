/** Optional results and lists, shared by all components. */
module Basics {

  datatype Option<+T> = None | Some(value: T)

  /** No element occurs twice. */
  predicate Distinct(s: seq<string>) {
    forall i, j | 0 <= i < j < |s| :: s[i] != s[j]
  }

  /** A list result in front of the rest of it, which may have failed. */
  function Prepend<T>(front: seq<T>, rest: Option<seq<T>>): Option<seq<T>> {
    if rest.None? then None else Some(front + rest.value)
  }

  lemma PrependTwice<T>(a: seq<T>, b: seq<T>, rest: Option<seq<T>>)
    ensures Prepend(a, Prepend(b, rest)) == Prepend(a + b, rest)
  {
    if rest.Some? {
      assert a + (b + rest.value) == a + b + rest.value;
    }
  }

  lemma PrependNone<T>(a: seq<T>, rest: Option<seq<T>>)
    ensures Prepend([], rest) == rest && Prepend(a, Some([])) == Some(a) && Prepend(a, None) == None
  {
    if rest.Some? {
      assert [] + rest.value == rest.value;
    }
    assert a + [] == a;
  }
}
