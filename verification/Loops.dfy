/** Loops that visit the ids `0..n` of a map in order, updating or counting the entries they select. */
module Loops {

  /** `m` with `f` applied to its entries at the `ids` below `i`. */
  ghost function Mapped<T>(m: map<nat, T>, ids: set<nat>, f: T -> T, i: nat): map<nat, T> {
    map k | k in m :: if k in ids && k < i then f(m[k]) else m[k]
  }

  /** The `ids` below `i` whose entry satisfies `p`. */
  ghost function Picked<T>(m: map<nat, T>, ids: set<nat>, p: T -> bool, i: nat): set<nat> {
    set k | k in ids && k in m && k < i && p(m[k])
  }

  lemma MappedStep<T>(m: map<nat, T>, ids: set<nat>, f: T -> T, i: nat)
    requires i in m
    ensures Mapped(m, ids, f, i)[i] == m[i]
    ensures Mapped(m, ids, f, i + 1) == if i in ids then Mapped(m, ids, f, i)[i := f(m[i])] else Mapped(m, ids, f, i)
  {
  }

  lemma PickedStep<T>(m: map<nat, T>, ids: set<nat>, p: T -> bool, i: nat)
    requires i in m
    ensures Picked(m, ids, p, i + 1) == if i in ids && p(m[i]) then Picked(m, ids, p, i) + {i} else Picked(m, ids, p, i)
    ensures |Picked(m, ids, p, i + 1)| == |Picked(m, ids, p, i)| + if i in ids && p(m[i]) then 1 else 0
  {
    assert Picked(m, ids, p, i + 1) == if i in ids && p(m[i]) then Picked(m, ids, p, i) + {i} else Picked(m, ids, p, i);
  }

  lemma StartOfLoop<T>(m: map<nat, T>, ids: set<nat>, f: T -> T, p: T -> bool)
    ensures Mapped(m, ids, f, 0) == m && Picked(m, ids, p, 0) == {}
  {
  }
}
