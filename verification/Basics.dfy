/** Small shared datatypes and the sequence facts several components need. */
module Basics {

  datatype Option<+T> = None | Some(value: T) {
    function GetOr(default: T): T {
      if Some? then value else default
    }
  }

  datatype Result<+T> = Ok(value: T) | Err(error: string)

  /** No value occurs twice. */
  ghost predicate NoDuplicates<T>(s: seq<T>) {
    forall i, j :: 0 <= i < j < |s| ==> s[i] != s[j]
  }

  /** `s` lists the elements of `keys`, each once, in some order: one possible
      iteration order of a Go map. */
  ghost predicate Enumerates<T(!new)>(s: seq<T>, keys: set<T>) {
    NoDuplicates(s) && forall x :: x in s <==> x in keys
  }

  /** Some element of `s`: the next key a Go map iteration happens to yield. */
  method AnyElement<T(==)>(s: set<T>) returns (x: T)
    requires s != {}
    ensures x in s
  {
    x :| x in s;
  }

  lemma {:induction false} EnumerationLength<T(!new)>(s: seq<T>, keys: set<T>)
    requires Enumerates(s, keys)
    ensures |s| == |keys|
  {
    if s != [] {
      var rest := s[..|s| - 1];
      var last := s[|s| - 1];
      assert s == rest + [last];
      assert Enumerates(rest, keys - {last});
      EnumerationLength(rest, keys - {last});
    } else {
      assert keys == {};
    }
  }
}
