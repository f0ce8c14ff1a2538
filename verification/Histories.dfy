/** Histories of commits: what they fold to, and what that leaves each key holding. */
module Histories {
  import opened Types
  import opened Writes

  /** The ops of one commit. */
  type Commit = seq<Op>

  function ApplyOps(ops: seq<Op>, m: Map, index: nat): Map {
    if ops == [] then m else Apply(ops[|ops| - 1], ApplyOps(ops[..|ops| - 1], m, index), index)
  }

  /** The map after every commit of `hist`, the first at index 1. */
  function Fold(hist: seq<Commit>): Map {
    if hist == [] then map[] else ApplyOps(hist[|hist| - 1], Fold(hist[..|hist| - 1]), |hist|)
  }

  // ---- what a commit and a history leave a key holding, read off their positions ----

  /** Op `j` of `ops` is the last one on `key`. */
  ghost predicate LastOp(ops: seq<Op>, key: Bytes, j: nat) {
    && j < |ops| && ops[j].key == key
    && forall i :: j < i < |ops| ==> ops[i].key != key
  }

  /** Within a commit the last op on a key decides: a put binds its value, a delete leaves the key absent. A
      key no op names keeps its binding, version and all. */
  lemma {:induction false} LastOpDecides(ops: seq<Op>, m: Map, index: nat, key: Bytes)
    ensures var r := ApplyOps(ops, m, index);
            && (forall j: nat :: LastOp(ops, key, j) ==>
                  match ops[j]
                  case Put(_, v) => key in r && r[key].value == v
                  case Delete(_) => key !in r)
            && ((forall j: nat :: !LastOp(ops, key, j)) ==>
                  (key in r <==> key in m) && (key in m ==> r[key] == m[key]))
  {
    if ops != [] {
      var n := |ops| - 1;
      LastOpDecides(ops[..n], m, index, key);
      if ops[n].key == key {
        assert LastOp(ops, key, n);
      } else {
        assert forall j: nat :: LastOp(ops, key, j) <==> LastOp(ops[..n], key, j);
      }
    }
  }

  /** Op `j` of commit `i` is on `key`. */
  ghost predicate On(hist: seq<Commit>, key: Bytes, i: nat, j: nat) {
    i < |hist| && j < |hist[i]| && hist[i][j].key == key
  }

  /** Op `j` of commit `i` comes before op `q` of commit `p`. */
  ghost predicate Earlier(i: nat, j: nat, p: nat, q: nat) { i < p || (i == p && j < q) }

  /** Op `j` of commit `i` is the last write to `key`. */
  ghost predicate LastWrite(hist: seq<Commit>, key: Bytes, i: nat, j: nat) {
    On(hist, key, i, j) && forall p: nat, q: nat :: On(hist, key, p, q) ==> !Earlier(i, j, p, q)
  }

  /** Op `q` of commit `p` is the write to `key` that op `j` of commit `i` follows. */
  ghost predicate Previous(hist: seq<Commit>, key: Bytes, p: nat, q: nat, i: nat, j: nat) {
    && On(hist, key, p, q) && Earlier(p, q, i, j)
    && forall r: nat, s: nat :: On(hist, key, r, s) && Earlier(r, s, i, j) ==> !Earlier(p, q, r, s)
  }

  /** Op `j` of commit `i` gave `key` the value it still has: it put a value `key` did not hold, and every
      later write to `key` put that value again. */
  ghost predicate LastChange(hist: seq<Commit>, key: Bytes, i: nat, j: nat) {
    && On(hist, key, i, j) && hist[i][j].Put?
    && (forall p: nat, q: nat :: On(hist, key, p, q) && Earlier(i, j, p, q) ==> hist[p][q] == hist[i][j])
    && (forall p: nat, q: nat :: Previous(hist, key, p, q, i, j) ==> hist[p][q] != hist[i][j])
  }

  /** `m` binds `key` exactly when its last write in `hist` is a put, to that put's value. */
  ghost predicate BindsLast(hist: seq<Commit>, key: Bytes, m: Map) {
    && (key in m <==> exists i: nat, j: nat :: LastWrite(hist, key, i, j) && hist[i][j].Put?)
    && (forall i: nat, j: nat :: LastWrite(hist, key, i, j) && hist[i][j].Put? ==>
          key in m && m[key].value == hist[i][j].value)
  }

  /** `m` gives `key` for its version the index of the commit that last changed its value. */
  ghost predicate StampsLast(hist: seq<Commit>, key: Bytes, m: Map) {
    && (key in m <==> exists i: nat, j: nat :: LastChange(hist, key, i, j))
    && (forall i: nat, j: nat :: LastChange(hist, key, i, j) ==>
          key in m && m[key] == Entry(hist[i][j].value, i + 1))
  }

  /** `m` is what the writes of `hist` leave, key by key. */
  ghost predicate Leaves(hist: seq<Commit>, m: Map) {
    forall key :: BindsLast(hist, key, m) && StampsLast(hist, key, m)
  }

  function Stamp(ops: seq<Op>, index: nat): (ws: seq<Stamped>)
    ensures |ws| == |ops|
    ensures forall j :: 0 <= j < |ops| ==> ws[j] == Stamped(ops[j], index)
  {
    seq(|ops|, j requires 0 <= j < |ops| => Stamped(ops[j], index))
  }

  /** Every write of a history in order, with the index of its commit. */
  function Stamps(hist: seq<Commit>): seq<Stamped> {
    if hist == [] then [] else Stamps(hist[..|hist| - 1]) + Stamp(hist[|hist| - 1], |hist|)
  }

  lemma {:induction false} ApplyIsPlay(ws: seq<Stamped>, ops: seq<Op>, index: nat)
    ensures ApplyOps(ops, Play(ws), index) == Play(ws + Stamp(ops, index))
  {
    if ops == [] {
      assert ws + Stamp(ops, index) == ws;
    } else {
      var n := |ops| - 1;
      var all := ws + Stamp(ops, index);
      ApplyIsPlay(ws, ops[..n], index);
      assert all[..|all| - 1] == ws + Stamp(ops[..n], index);
      assert all[|all| - 1] == Stamped(ops[n], index);
    }
  }

  lemma {:induction false} FoldIsPlay(hist: seq<Commit>)
    ensures Fold(hist) == Play(Stamps(hist))
  {
    if hist != [] {
      FoldIsPlay(hist[..|hist| - 1]);
      ApplyIsPlay(Stamps(hist[..|hist| - 1]), hist[|hist| - 1], |hist|);
    }
  }

  /** Where op `j` of commit `i` is in the run of all writes. */
  function Place(hist: seq<Commit>, i: nat, j: nat): nat
    requires i < |hist|
  {
    |Stamps(hist[..i])| + j
  }

  lemma {:induction false} StampAt(hist: seq<Commit>, i: nat, j: nat)
    requires i < |hist| && j < |hist[i]|
    ensures Place(hist, i, j) < |Stamps(hist[..i + 1])| <= |Stamps(hist)|
    ensures Stamps(hist)[Place(hist, i, j)] == Stamped(hist[i][j], i + 1)
  {
    var n := |hist| - 1;
    if i < n {
      StampAt(hist[..n], i, j);
      assert hist[..n][..i] == hist[..i] && hist[..n][..i + 1] == hist[..i + 1];
    } else {
      assert hist[..i + 1] == hist;
    }
  }

  lemma {:induction false} Located(hist: seq<Commit>, n: nat) returns (i: nat, j: nat)
    requires n < |Stamps(hist)|
    ensures i < |hist| && j < |hist[i]| && n == Place(hist, i, j)
  {
    var k := |hist| - 1;
    if n < |Stamps(hist[..k])| {
      i, j := Located(hist[..k], n);
      assert hist[..k][..i] == hist[..i];
    } else {
      i, j := k, n - |Stamps(hist[..k])|;
    }
  }

  /** The run keeps the order of the history. */
  lemma PlaceOrder(hist: seq<Commit>, i: nat, j: nat, p: nat, q: nat)
    requires i < |hist| && j < |hist[i]| && p < |hist| && q < |hist[p]|
    ensures Earlier(i, j, p, q) <==> Place(hist, i, j) < Place(hist, p, q)
  {
    if i < p {
      EndsBy(hist, i, j, p);
    } else if p < i {
      EndsBy(hist, p, q, i);
    }
  }

  lemma EndsBy(hist: seq<Commit>, i: nat, j: nat, p: nat)
    requires i < p < |hist| && j < |hist[i]|
    ensures Place(hist, i, j) < |Stamps(hist[..p])|
  {
    StampAt(hist[..p], i, j);
    assert hist[..p][..i] == hist[..i];
  }

  // ---- the two readings agree ----

  lemma OnStamp(hist: seq<Commit>, key: Bytes, n: nat) returns (i: nat, j: nat)
    requires n < |Stamps(hist)| && Stamps(hist)[n].op.key == key
    ensures On(hist, key, i, j) && n == Place(hist, i, j)
  {
    i, j := Located(hist, n);
    StampAt(hist, i, j);
  }

  /** What the places of a key's writes say of one of them. */
  lemma PlacesOn(hist: seq<Commit>, key: Bytes, i: nat, j: nat)
    requires i < |hist| && j < |hist[i]|
    ensures Place(hist, i, j) < |Stamps(hist)| && Stamps(hist)[Place(hist, i, j)] == Stamped(hist[i][j], i + 1)
    ensures forall p: nat, q: nat :: On(hist, key, p, q) ==>
              && (Earlier(i, j, p, q) <==> Place(hist, i, j) < Place(hist, p, q))
              && (Earlier(p, q, i, j) <==> Place(hist, p, q) < Place(hist, i, j))
              && Place(hist, p, q) < |Stamps(hist)| && Stamps(hist)[Place(hist, p, q)] == Stamped(hist[p][q], p + 1)
  {
    hide Stamps, Place, Earlier;
    StampAt(hist, i, j);
    forall p: nat, q: nat | On(hist, key, p, q)
      ensures Earlier(i, j, p, q) <==> Place(hist, i, j) < Place(hist, p, q)
      ensures Earlier(p, q, i, j) <==> Place(hist, p, q) < Place(hist, i, j)
      ensures Place(hist, p, q) < |Stamps(hist)| && Stamps(hist)[Place(hist, p, q)] == Stamped(hist[p][q], p + 1)
    {
      StampAt(hist, p, q);
      PlaceOrder(hist, i, j, p, q);
      PlaceOrder(hist, p, q, i, j);
    }
  }

  lemma LastIsPlaced(hist: seq<Commit>, key: Bytes, i: nat, j: nat)
    requires On(hist, key, i, j)
    ensures LastAt(Stamps(hist), key, Place(hist, i, j)) <==> LastWrite(hist, key, i, j)
  {
    hide Stamps, Place, Earlier;
    var ws, at := Stamps(hist), Place(hist, i, j);
    PlacesOn(hist, key, i, j);
    if LastWrite(hist, key, i, j) {
      forall n: nat | at < n < |ws| ensures ws[n].op.key != key {
        if ws[n].op.key == key {
          var p, q := OnStamp(hist, key, n);
        }
      }
    }
  }

  lemma PreviousIsPlaced(hist: seq<Commit>, key: Bytes, p: nat, q: nat, i: nat, j: nat)
    requires On(hist, key, p, q) && On(hist, key, i, j)
    ensures Place(hist, i, j) < |Stamps(hist)|
    ensures LastAt(Stamps(hist)[..Place(hist, i, j)], key, Place(hist, p, q)) <==> Previous(hist, key, p, q, i, j)
  {
    hide Stamps, Place, Earlier;
    var ws, at, was := Stamps(hist), Place(hist, i, j), Place(hist, p, q);
    PlacesOn(hist, key, i, j);
    PlacesOn(hist, key, p, q);
    if Previous(hist, key, p, q, i, j) {
      forall n: nat | was < n < at ensures ws[n].op.key != key {
        if ws[n].op.key == key {
          var r, s := OnStamp(hist, key, n);
        }
      }
    }
    if LastAt(ws[..at], key, was) {
      forall r: nat, s: nat | On(hist, key, r, s) && Earlier(r, s, i, j) ensures !Earlier(p, q, r, s) {
        assert Place(hist, r, s) < at && ws[..at][Place(hist, r, s)].op.key == key;
      }
    }
  }

  lemma ChangeSettles(hist: seq<Commit>, key: Bytes, i: nat, j: nat)
    requires LastChange(hist, key, i, j)
    ensures SettledAt(Stamps(hist), key, Place(hist, i, j))
  {
    hide Stamps, Place, Earlier, Previous;
    var ws, at := Stamps(hist), Place(hist, i, j);
    PlacesOn(hist, key, i, j);
    forall n: nat | at < n < |ws| && ws[n].op.key == key ensures ws[n].op == ws[at].op {
      var p, q := OnStamp(hist, key, n);
    }
    forall n: nat | LastAt(ws[..at], key, n) ensures ws[n].op != ws[at].op {
      assert ws[..at][n] == ws[n];
      var p, q := OnStamp(hist, key, n);
      PreviousIsPlaced(hist, key, p, q, i, j);
    }
  }

  lemma SettlingChanges(hist: seq<Commit>, key: Bytes, n: nat) returns (i: nat, j: nat)
    requires SettledAt(Stamps(hist), key, n)
    ensures LastChange(hist, key, i, j) && n == Place(hist, i, j)
  {
    hide Stamps, Place, Earlier, LastAt;
    i, j := OnStamp(hist, key, n);
    var ws, at := Stamps(hist), n;
    PlacesOn(hist, key, i, j);
    forall p: nat, q: nat | Previous(hist, key, p, q, i, j) ensures hist[p][q] != hist[i][j] {
      PreviousIsPlaced(hist, key, p, q, i, j);
    }
  }

  lemma FoldBinds(hist: seq<Commit>, key: Bytes)
    ensures BindsLast(hist, key, Fold(hist))
  {
    hide Stamps, Place, Fold, Play, Earlier;
    var ws := Stamps(hist);
    FoldIsPlay(hist);
    LastWriteDecides(ws, key);
    if key in Fold(hist) {
      var n: nat :| LastAt(ws, key, n) && ws[n].op.Put?;
      var i, j := OnStamp(hist, key, n);
      LastIsPlaced(hist, key, i, j);
      StampAt(hist, i, j);
    }
    forall i: nat, j: nat | LastWrite(hist, key, i, j) && hist[i][j].Put?
      ensures key in Fold(hist) && Fold(hist)[key].value == hist[i][j].value
    {
      LastIsPlaced(hist, key, i, j);
      StampAt(hist, i, j);
    }
  }

  lemma FoldStamps(hist: seq<Commit>, key: Bytes)
    ensures StampsLast(hist, key, Fold(hist))
  {
    hide Stamps, Place, Fold, Play, SettledAt, Earlier, Previous;
    var ws := Stamps(hist);
    FoldIsPlay(hist);
    LastChangeStamps(ws, key);
    if key in Fold(hist) {
      var n: nat :| SettledAt(ws, key, n);
      var i, j := SettlingChanges(hist, key, n);
    }
    forall i: nat, j: nat | LastChange(hist, key, i, j)
      ensures key in Fold(hist) && Fold(hist)[key] == Entry(hist[i][j].value, i + 1)
    {
      ChangeSettles(hist, key, i, j);
      StampAt(hist, i, j);
    }
  }

  /** The fold of a history is what its writes leave: each key's last put, stamped with the commit that last
      changed the key's value. A put of the value already held is no change; a put after a delete is. */
  lemma FoldLeaves(hist: seq<Commit>)
    ensures Leaves(hist, Fold(hist))
  {
    hide BindsLast, StampsLast, Fold;
    forall key: Bytes ensures BindsLast(hist, key, Fold(hist)) && StampsLast(hist, key, Fold(hist)) {
      FoldBinds(hist, key);
      FoldStamps(hist, key);
    }
  }

  /** Nothing else is. */
  lemma OnlyFoldLeaves(hist: seq<Commit>, m: Map)
    requires Leaves(hist, m)
    ensures m == Fold(hist)
  {
    hide BindsLast, Fold, LastChange;
    forall key: Bytes
      ensures key in m <==> key in Fold(hist)
      ensures key in m ==> m[key] == Fold(hist)[key]
    {
      FoldStamps(hist, key);
      assert StampsLast(hist, key, m);
    }
  }
}
