/** A run of writes in commit order, and what it leaves a key holding, read off the positions of the run. */
module Writes {
  import opened Types

  /** One write and the index of the commit that carried it. */
  datatype Stamped = Stamped(op: Op, index: nat)

  /** The map a run of writes builds from nothing. */
  function Play(ws: seq<Stamped>): Map {
    if ws == [] then map[] else Apply(ws[|ws| - 1].op, Play(ws[..|ws| - 1]), ws[|ws| - 1].index)
  }

  /** The last write to `key` is the one at `j`. */
  ghost predicate LastAt(ws: seq<Stamped>, key: Bytes, j: nat) {
    && j < |ws| && ws[j].op.key == key
    && forall i :: j < i < |ws| ==> ws[i].op.key != key
  }

  /** The write at `j` gave `key` the value it still has: it put a value `key` did not hold, and every later
      write to `key` put that value again. */
  ghost predicate SettledAt(ws: seq<Stamped>, key: Bytes, j: nat) {
    && j < |ws| && ws[j].op.Put? && ws[j].op.key == key
    && (forall i :: j < i < |ws| && ws[i].op.key == key ==> ws[i].op == ws[j].op)
    && (forall p: nat :: LastAt(ws[..j], key, p) ==> ws[p].op != ws[j].op)
  }

  /** `key` is present exactly when its last write is a put, with that put's value. */
  lemma {:induction false} LastWriteDecides(ws: seq<Stamped>, key: Bytes)
    ensures key in Play(ws) <==> exists j: nat :: LastAt(ws, key, j) && ws[j].op.Put?
    ensures forall j: nat :: LastAt(ws, key, j) && ws[j].op.Put? ==>
              key in Play(ws) && Play(ws)[key].value == ws[j].op.value
  {
    if ws != [] {
      var n := |ws| - 1;
      LastWriteDecides(ws[..n], key);
      if ws[n].op.key == key {
        assert LastAt(ws, key, n);
      } else {
        assert forall j: nat :: LastAt(ws, key, j) <==> LastAt(ws[..n], key, j);
      }
    }
  }

  /** A run's last write settles its key exactly when it puts a value the key did not hold before it. */
  lemma NewValueSettles(ws: seq<Stamped>, key: Bytes)
    requires ws != [] && ws[|ws| - 1].op.key == key
    ensures var n := |ws| - 1;
            SettledAt(ws, key, n) <==> ws[n].op.Put? && Changes(ws[n].op, Play(ws[..n]))
  {
    var n := |ws| - 1;
    LastWriteDecides(ws[..n], key);
    if ws[n].op.Put? && !Changes(ws[n].op, Play(ws[..n])) {
      var p: nat :| LastAt(ws[..n], key, p) && ws[..n][p].op.Put?;
      assert ws[p].op == ws[n].op;
    }
  }

  /** What settling says of the write at `j` in terms of the run without its last write. */
  lemma SettledStep(ws: seq<Stamped>, key: Bytes, j: nat)
    requires ws != []
    ensures var n := |ws| - 1;
            SettledAt(ws, key, j) <==>
              || (j == n && ws[n].op.key == key && ws[n].op.Put? && Changes(ws[n].op, Play(ws[..n])))
              || (SettledAt(ws[..n], key, j) && (ws[n].op.key == key ==> ws[n].op == ws[j].op))
  {
    var n := |ws| - 1;
    if j < n {
      assert ws[..n][..j] == ws[..j];
    } else if j == n && ws[n].op.key == key {
      NewValueSettles(ws, key);
    }
  }

  /** A present key is settled by some write; its version is the index of the commit that carried it. */
  lemma {:induction false} LastChangeStamps(ws: seq<Stamped>, key: Bytes)
    ensures key in Play(ws) <==> exists j: nat :: SettledAt(ws, key, j)
    ensures forall j: nat :: SettledAt(ws, key, j) ==>
              j < |ws| && ws[j].op.Put? && key in Play(ws) && Play(ws)[key] == Entry(ws[j].op.value, ws[j].index)
  {
    if ws != [] {
      var n := |ws| - 1;
      var m := Play(ws[..n]);
      LastChangeStamps(ws[..n], key);
      hide SettledAt;
      forall j: nat ensures SettledAt(ws, key, j) <==>
          || (j == n && ws[n].op.key == key && ws[n].op.Put? && Changes(ws[n].op, m))
          || (SettledAt(ws[..n], key, j) && j < n && (ws[n].op.key == key ==> ws[n].op == ws[j].op))
      {
        SettledStep(ws, key, j);
      }
      if key in m {
        var j: nat :| SettledAt(ws[..n], key, j);
        assert ws[..n][j] == ws[j];
      }
    }
  }
}
