/** Shared wrappers and first-order facts about sequences without repetition. */
module Prelude {

  datatype Option<+T> = None | Some(value: T)

  /** No element occurs twice. */
  ghost predicate NoDup<T>(s: seq<T>) {
    forall i, j :: 0 <= i < j < |s| ==> s[i] != s[j]
  }

  ghost function Elements<T>(s: seq<T>): set<T> {
    set x | x in s
  }

  /** `order` lists every key of a map once: what one `range` over a Go map yields. */
  ghost predicate Enumerates<T>(order: seq<T>, keys: set<T>) {
    NoDup(order) && Elements(order) == keys
  }

  /** `a` is the end of `b`. */
  ghost predicate IsSuffix<T(!new)>(a: seq<T>, b: seq<T>) {
    |a| <= |b| && a == b[|b| - |a|..]
  }

  lemma NoDupConcat<T>(a: seq<T>, b: seq<T>)
    requires NoDup(a) && NoDup(b)
    requires forall x :: x in b ==> x !in a
    ensures NoDup(a + b)
  {
    forall i, j | 0 <= i < j < |a + b| ensures (a + b)[i] != (a + b)[j] {
      if i < |a| <= j {
        assert (a + b)[j] in b;
      }
    }
  }

  /** A duplicate-free sequence has as many positions as elements. */
  lemma {:induction false} NoDupCardinality<T>(s: seq<T>)
    requires NoDup(s)
    ensures |Elements(s)| == |s|
  {
    if s != [] {
      var init, x := s[..|s| - 1], s[|s| - 1];
      NoDupCardinality(init);
      assert s == init + [x];
      assert Elements(s) == Elements(init) + {x};
      assert x !in init;
    } else {
      assert Elements(s) == {};
    }
  }

  /** A range over a map may come to any of its keys first. */
  lemma {:induction false} OrderStarting<T>(keys: set<T>, first: T) returns (order: seq<T>)
    requires first in keys
    ensures Enumerates(order, keys) && order[0] == first
    decreases |keys|
  {
    if next :| next in keys && next != first {
      var rest := OrderStarting(keys - {first}, next);
      order := [first] + rest;
      assert first !in Elements(rest);
      assert Elements(order) == Elements(rest) + {first};
    } else {
      order := [first];
      assert Elements(order) == keys;
    }
  }

  /** A range over a map comes to one more key. */
  lemma RangeStep<T>(order: seq<T>, keys: set<T>, rest: set<T>, next: T)
    requires rest <= keys && Enumerates(order, keys - rest) && next in rest
    ensures Enumerates(order + [next], keys - (rest - {next}))
  {
    assert next !in Elements(order);
    NoDupConcat(order, [next]);
    assert Elements(order + [next]) == Elements(order) + {next};
  }

  lemma RangeEnds<T>(order: seq<T>, keys: set<T>)
    requires Enumerates(order, keys - {})
    ensures Enumerates(order, keys)
  {
    assert keys - {} == keys;
  }

  lemma RangeBegins<T>(keys: set<T>)
    ensures Enumerates([], keys - keys)
  {
  }
}
