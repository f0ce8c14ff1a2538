/** The offline consistency checker: every recorded read against the recorded writes of its key. */
module Checker {
  import opened Types
  import opened Histories
  import opened Replay

  /** A recorded write: its commit index and the value it left visible (`None` for a delete). */
  datatype Write = Write(index: nat, stored: Option<Bytes>)

  datatype ReadRec = ReadRec(readIndex: nat, key: Bytes, value: Option<Bytes>)

  // ---- the write a read at `r` should see ----

  /** Entry `i` is the highest-indexed write at or below `r`; of equal indices, the last recorded. */
  ghost predicate IsLatest(log: seq<Write>, r: nat, i: nat) {
    && i < |log| && log[i].index <= r
    && forall j :: 0 <= j < |log| && log[j].index <= r ==>
      log[j].index < log[i].index || (log[j].index == log[i].index && j <= i)
  }

  ghost predicate NoneAt(log: seq<Write>, r: nat) {
    forall j :: 0 <= j < |log| ==> log[j].index > r
  }

  /** What a read at `r` should observe. */
  ghost predicate Expects(log: seq<Write>, r: nat, v: Option<Bytes>) {
    if NoneAt(log, r) then v == None else exists i: nat :: IsLatest(log, r, i) && v == log[i].stored
  }

  // ---- the sorted log ----

  /** Where the entries with index at or below `r` end, in a sorted log. */
  function PartitionPoint(log: seq<Write>, r: nat): (n: nat)
    ensures n <= |log|
    ensures forall i :: 0 <= i < n ==> log[i].index <= r
    ensures n < |log| ==> log[n].index > r
  {
    if log == [] || log[0].index > r then 0 else 1 + PartitionPoint(log[1..], r)
  }

  /** Insert after every entry of the same or lower index: what a stable sort does with the next entry. */
  function InsertStable(log: seq<Write>, w: Write): seq<Write> {
    var n := PartitionPoint(log, w.index);
    log[..n] + [w] + log[n..]
  }

  function SortStable(log: seq<Write>): seq<Write> {
    if log == [] then [] else InsertStable(SortStable(log[..|log| - 1]), log[|log| - 1])
  }

  ghost predicate Sorted(log: seq<Write>) {
    forall i, j :: 0 <= i < j < |log| ==> log[i].index <= log[j].index
  }

  /** The expectation the checker computes from a sorted log. */
  function Lookup(log: seq<Write>, r: nat): Option<Bytes> {
    var n := PartitionPoint(log, r);
    if n == 0 then None else log[n - 1].stored
  }

  lemma {:induction false} SortIsSorted(log: seq<Write>)
    ensures Sorted(SortStable(log)) && multiset(SortStable(log)) == multiset(log)
  {
    if log != [] {
      var n := |log| - 1;
      SortIsSorted(log[..n]);
      var s, w := SortStable(log[..n]), log[n];
      InsertSorted(s, w);
      InsertMultiset(s, w);
      assert log == log[..n] + [w];
    }
  }

  lemma InsertSorted(s: seq<Write>, w: Write)
    requires Sorted(s)
    ensures Sorted(InsertStable(s, w))
  {
    hide PartitionPoint;
    var n, s' := PartitionPoint(s, w.index), InsertStable(s, w);
    forall i, j | 0 <= i < j < |s'| ensures s'[i].index <= s'[j].index {
      assert i < n ==> s'[i] == s[i];
      assert i > n ==> s'[i] == s[i - 1];
      assert j < n ==> s'[j] == s[j];
      assert j > n ==> s'[j] == s[j - 1];
      if i == n && n < |s| {
        assert s[n].index <= s[j - 1].index;
      }
    }
  }

  lemma InsertMultiset(s: seq<Write>, w: Write)
    ensures multiset(InsertStable(s, w)) == multiset(s) + multiset{w}
  {
    hide PartitionPoint;
    var n := PartitionPoint(s, w.index);
    assert s == s[..n] + s[n..];
  }

  lemma PartitionIs(s: seq<Write>, r: nat, n: nat)
    requires Sorted(s) && n <= |s|
    requires forall i :: 0 <= i < n ==> s[i].index <= r
    requires n < |s| ==> s[n].index > r
    ensures PartitionPoint(s, r) == n
  {
    hide PartitionPoint;
  }

  lemma PartitionOrder(s: seq<Write>, r: nat, r': nat)
    requires Sorted(s) && r <= r'
    ensures PartitionPoint(s, r) <= PartitionPoint(s, r')
  {
    hide PartitionPoint;
  }

  /** The sorted log's answer at `r`, with the index it comes from. */
  ghost predicate Agrees(log: seq<Write>, s: seq<Write>, r: nat) {
    var m := PartitionPoint(s, r);
    if m == 0 then NoneAt(log, r)
    else exists i: nat :: i < |log| && IsLatest(log, r, i) && log[i] == s[m - 1]
  }

  lemma NewLatest(log: seq<Write>, r: nat, w: Write)
    requires w.index <= r
    ensures NoneAt(log, r) ==> IsLatest(log + [w], r, |log|)
    ensures forall i: nat :: IsLatest(log, r, i) ==>
      IsLatest(log + [w], r, if log[i].index > w.index then i else |log|)
  {
  }

  lemma OldLatest(log: seq<Write>, r: nat, w: Write)
    requires w.index > r
    ensures NoneAt(log, r) ==> NoneAt(log + [w], r)
    ensures forall i: nat :: IsLatest(log, r, i) ==> IsLatest(log + [w], r, i)
  {
    forall i: nat | IsLatest(log, r, i) ensures IsLatest(log + [w], r, i) {
      assert (log + [w])[i] == log[i];
    }
  }

  /** A stable sort answers every read with the latest write, in whatever order writes were recorded. */
  lemma {:induction false} SortAgrees(log: seq<Write>, r: nat)
    ensures Agrees(log, SortStable(log), r)
  {
    hide PartitionPoint, InsertStable, IsLatest, NoneAt;
    if log == [] {
      EmptyAgrees(r);
    } else {
      var n := |log| - 1;
      var init, w := log[..n], log[n];
      assert log == init + [w];
      SortAgrees(init, r);
      SortIsSorted(init);
      if w.index > r {
        InsertPast(init, SortStable(init), w, r);
      } else {
        InsertWithin(init, SortStable(init), w, r);
      }
    }
  }

  lemma EmptyAgrees(r: nat)
    ensures Agrees([], [], r)
  {
  }

  /** An entry past `r` changes nothing at `r`. */
  lemma InsertPast(log: seq<Write>, s: seq<Write>, w: Write, r: nat)
    requires Agrees(log, s, r) && Sorted(s) && w.index > r
    ensures Agrees(log + [w], InsertStable(s, w), r)
  {
    hide PartitionPoint, IsLatest, NoneAt;
    var n, m, s' := PartitionPoint(s, w.index), PartitionPoint(s, r), InsertStable(s, w);
    InsertSorted(s, w);
    PartitionOrder(s, r, w.index);
    assert m < n ==> s'[m] == s[m];
    PartitionIs(s', r, m);
    OldLatest(log, r, w);
    if m > 0 {
      var i: nat :| i < |log| && IsLatest(log, r, i) && log[i] == s[m - 1];
      assert (log + [w])[i] == s'[m - 1];
    }
  }

  lemma PartitionAfter(s: seq<Write>, w: Write, r: nat)
    requires Sorted(s) && w.index <= r
    ensures PartitionPoint(InsertStable(s, w), r) == PartitionPoint(s, r) + 1
    ensures var m := PartitionPoint(s, r);
      InsertStable(s, w)[m] == if m > 0 && s[m - 1].index > w.index then s[m - 1] else w
  {
    hide PartitionPoint;
    var n, m, s' := PartitionPoint(s, w.index), PartitionPoint(s, r), InsertStable(s, w);
    InsertSorted(s, w);
    PartitionOrder(s, w.index, r);
    forall i | 0 <= i < m + 1 ensures s'[i].index <= r {
      assert i < n ==> s'[i] == s[i];
      assert i > n ==> s'[i] == s[i - 1];
    }
    assert m + 1 < |s'| ==> s'[m + 1] == s[m];
    PartitionIs(s', r, m + 1);
    assert m > n ==> s'[m] == s[m - 1] && s[m - 1].index >= s[n].index > w.index;
    assert m == n ==> s'[m] == w;
  }

  /** An entry at or below `r` becomes the latest unless a higher-indexed one stands. */
  lemma InsertWithin(log: seq<Write>, s: seq<Write>, w: Write, r: nat)
    requires Agrees(log, s, r) && Sorted(s) && w.index <= r
    ensures Agrees(log + [w], InsertStable(s, w), r)
  {
    hide PartitionPoint, IsLatest, NoneAt, InsertStable;
    var m, s', log' := PartitionPoint(s, r), InsertStable(s, w), log + [w];
    PartitionAfter(s, w, r);
    NewLatest(log, r, w);
    if m == 0 {
      assert IsLatest(log', r, |log|) && log'[|log|] == s'[m];
    } else {
      var i: nat :| i < |log| && IsLatest(log, r, i) && log[i] == s[m - 1];
      var x := if log[i].index > w.index then i else |log|;
      assert IsLatest(log', r, x) && log'[x] == s'[m];
    }
  }

  lemma OneLatest(log: seq<Write>, r: nat, i: nat)
    requires IsLatest(log, r, i)
    ensures forall j: nat :: IsLatest(log, r, j) ==> j == i
  {
  }

  lemma LatestIn(log: seq<Write>, r: nat)
    ensures forall i: nat :: IsLatest(log, r, i) ==> i < |log| && !NoneAt(log, r)
  {
  }

  /** Exactness: what the checker expects is the value of the latest write, whatever the recording order. */
  lemma LookupIsExpected(log: seq<Write>, r: nat, v: Option<Bytes>)
    ensures Lookup(SortStable(log), r) == v <==> Expects(log, r, v)
  {
    hide PartitionPoint, SortStable, IsLatest;
    SortAgrees(log, r);
    LatestIn(log, r);
    var s := SortStable(log);
    var m := PartitionPoint(s, r);
    if m > 0 {
      var i: nat :| i < |log| && IsLatest(log, r, i) && log[i] == s[m - 1];
      OneLatest(log, r, i);
    }
  }

  // ---- what one more recorded write changes ----

  /** A write above `index` is already recorded at or below `r`. */
  ghost predicate Overtaken(log: seq<Write>, index: nat, r: nat) {
    exists i :: 0 <= i < |log| && index < log[i].index <= r
  }

  /**
   * A recorded write decides the reads at or above its index, up to where a higher-indexed write stands;
   * every other read is expected to see what it was before, in whatever order writes are recorded.
   */
  lemma RecordedWriteDecides(log: seq<Write>, w: Write, r: nat, v: Option<Bytes>)
    ensures Expects(log + [w], r, v) <==>
      if r < w.index || Overtaken(log, w.index, r) then Expects(log, r, v) else v == w.stored
  {
    hide Lookup, SortStable, IsLatest, NoneAt;
    var log', before := log + [w], Lookup(SortStable(log), r);
    LatestIn(log, r);
    LatestIn(log', r);
    LookupIsExpected(log, r, before);
    LookupIsExpected(log, r, v);
    LookupIsExpected(log', r, v);
    LookupIsExpected(log', r, before);
    LookupIsExpected(log', r, w.stored);
    if r < w.index {
      OldLatest(log, r, w);
      if !NoneAt(log, r) {
        var i: nat :| i < |log| && IsLatest(log, r, i) && before == log[i].stored;
        assert IsLatest(log', r, i) && log'[i] == log[i];
      }
    } else {
      NewLatest(log, r, w);
      OvertakenIs(log, w.index, r);
      if NoneAt(log, r) {
        assert IsLatest(log', r, |log|) && log'[|log|] == w;
      } else {
        var i: nat :| i < |log| && IsLatest(log, r, i) && before == log[i].stored;
        var x := if log[i].index > w.index then i else |log|;
        assert IsLatest(log', r, x) && log'[x] == if x == i then log[i] else w;
      }
    }
  }

  /** Whether a write is overtaken shows in the latest one. */
  lemma OvertakenIs(log: seq<Write>, index: nat, r: nat)
    requires index <= r
    ensures NoneAt(log, r) ==> !Overtaken(log, index, r)
    ensures forall i: nat :: IsLatest(log, r, i) ==> (Overtaken(log, index, r) <==> log[i].index > index)
  {
  }

  // ---- the checker ----

  datatype Violation = Violation(read: ReadRec, expected: Option<Bytes>)

  function LogOf(writes: map<Bytes, seq<Write>>, key: Bytes): seq<Write> {
    if key in writes then writes[key] else []
  }

  /** The reads the checker flags, each with what it expected. */
  function Flagged(writes: map<Bytes, seq<Write>>, observed: seq<ReadRec>): seq<Violation> {
    if observed == [] then []
    else
      var r := observed[|observed| - 1];
      var expected := Lookup(SortStable(LogOf(writes, r.key)), r.readIndex);
      Flagged(writes, observed[..|observed| - 1]) + if r.value == expected then [] else [Violation(r, expected)]
  }

  /** A read is flagged if and only if it did not see the latest write at or below its snapshot. */
  lemma {:induction false} FlaggedExactly(writes: map<Bytes, seq<Write>>, observed: seq<ReadRec>, r: ReadRec)
    requires r in observed
    ensures (exists e :: Violation(r, e) in Flagged(writes, observed)) <==>
      !Expects(LogOf(writes, r.key), r.readIndex, r.value)
  {
    hide Lookup, SortStable, Expects, LogOf;
    var n := |observed| - 1;
    var last := observed[n];
    var log := LogOf(writes, r.key);
    LookupIsExpected(log, r.readIndex, r.value);
    var expected := Lookup(SortStable(log), r.readIndex);
    if r in observed[..n] {
      FlaggedExactly(writes, observed[..n], r);
    } else {
      NotFlagged(writes, observed[..n], r);
      assert last == r;
    }
    if !Expects(log, r.readIndex, r.value) && r !in observed[..n] {
      assert Violation(r, expected) in Flagged(writes, observed);
    }
  }

  lemma {:induction false} NotFlagged(writes: map<Bytes, seq<Write>>, observed: seq<ReadRec>, r: ReadRec)
    requires r !in observed
    ensures forall e :: Violation(r, e) !in Flagged(writes, observed)
  {
    hide Lookup, SortStable, LogOf;
    if observed != [] {
      NotFlagged(writes, observed[..|observed| - 1], r);
    }
  }

  class Model {
    var writes: map<Bytes, seq<Write>>
    var observed: seq<ReadRec>

    constructor ()
      ensures writes == map[] && observed == []
    {
      writes, observed := map[], [];
    }

    /**
     * Reads of `key` at or above `index`, up to a higher-indexed write, are now expected to see `value`;
     * no other expectation moves.
     */
    method RecordWrite(index: nat, key: Bytes, value: Option<Bytes>)
      modifies this`writes
      ensures writes == old(writes)[key := LogOf(old(writes), key) + [Write(index, value)]]
      ensures forall k, r, v {:trigger Expects(LogOf(writes, k), r, v)} ::
        Expects(LogOf(writes, k), r, v) <==>
          if k == key && index <= r && !Overtaken(LogOf(old(writes), k), index, r) then v == value
          else Expects(LogOf(old(writes), k), r, v)
    {
      hide Expects, Overtaken;
      forall r, v {
        RecordedWriteDecides(LogOf(writes, key), Write(index, value), r, v);
      }
      writes := writes[key := LogOf(writes, key) + [Write(index, value)]];
    }

    /** The reads flagged are those flagged before, and this one exactly when it misses what it should see. */
    method RecordRead(readIndex: nat, key: Bytes, value: Option<Bytes>)
      modifies this`observed
      ensures observed == old(observed) + [ReadRec(readIndex, key, value)]
      ensures if Expects(LogOf(writes, key), readIndex, value)
        then Flagged(writes, observed) == old(Flagged(writes, observed))
        else exists e ::
          && Expects(LogOf(writes, key), readIndex, e)
          && Flagged(writes, observed)
             == old(Flagged(writes, observed)) + [Violation(ReadRec(readIndex, key, value), e)]
    {
      hide Expects, Lookup, SortStable;
      ghost var log := LogOf(writes, key);
      ghost var expected := Lookup(SortStable(log), readIndex);
      LookupIsExpected(log, readIndex, value);
      LookupIsExpected(log, readIndex, expected);
      observed := observed + [ReadRec(readIndex, key, value)];
      assert observed[..|observed| - 1] == old(observed);
    }

    /** Sort each key's log, then judge every read. The logs keep their entries, now in index order. */
    method Check() returns (violations: seq<Violation>, checked: nat)
      modifies this`writes
      ensures violations == Flagged(old(writes), observed) && checked == |observed|
      ensures writes.Keys == old(writes).Keys
      ensures forall k :: k in writes ==> writes[k] == SortStable(old(writes)[k])
    {
      hide SortStable, Lookup;
      writes := map k | k in writes :: SortStable(writes[k]);
      violations, checked := [], |observed|;
      SortNothing();
      for i := 0 to |observed|
        invariant violations == Flagged(old(writes), observed[..i])
      {
        var r := observed[i];
        var expected := Lookup(LogOf(writes, r.key), r.readIndex);
        assert observed[..i + 1][..i] == observed[..i];
        if r.value != expected {
          violations := violations + [Violation(r, expected)];
        }
      }
      assert observed[..|observed|] == observed;
    }
  }

  lemma SortNothing()
    ensures SortStable([]) == []
  {
  }

  // ---- a correct store is never flagged ----

  function OpStored(op: Op): Option<Bytes> { if op.Put? then Some(op.value) else None }

  predicate SingleOp(hist: seq<Commit>) {
    forall i :: 0 <= i < |hist| ==> |hist[i]| == 1
  }

  /** The value of `key` in a snapshot's map. */
  function ValueIn(m: Map, key: Bytes): Option<Bytes> { if key in m then Some(m[key].value) else None }

  /** `log` records exactly the commits of `hist` on `key`, each at its index, in any order. */
  ghost predicate Records(log: seq<Write>, hist: seq<Commit>, key: Bytes)
    requires SingleOp(hist)
  {
    && (forall i :: 0 <= i < |log| ==>
          1 <= log[i].index <= |hist| && hist[log[i].index - 1][0].key == key &&
          log[i].stored == OpStored(hist[log[i].index - 1][0]))
    && (forall n :: 0 <= n < |hist| && hist[n][0].key == key ==> exists i :: 0 <= i < |log| && log[i].index == n + 1)
    && (forall i, j :: 0 <= i < j < |log| ==> log[i].index != log[j].index)
  }

  /** The value left by the last commit on `key` among the first `r`. */
  function LastWrite(hist: seq<Commit>, r: nat, key: Bytes): Option<Bytes>
    requires r <= |hist| && SingleOp(hist)
  {
    if r == 0 then None
    else if hist[r - 1][0].key == key then OpStored(hist[r - 1][0])
    else LastWrite(hist, r - 1, key)
  }

  lemma ApplyOne(ops: seq<Op>, m: Map, index: nat, key: Bytes)
    requires |ops| == 1
    ensures ValueIn(ApplyOps(ops, m, index), key) == if ops[0].key == key then OpStored(ops[0]) else ValueIn(m, key)
  {
    assert ops[..0] == [];
    assert ApplyOps(ops, m, index) == Apply(ops[0], ApplyOps(ops[..0], m, index), index);
  }

  lemma {:induction false} SnapshotValue(hist: seq<Commit>, r: nat, key: Bytes)
    requires r <= |hist| && SingleOp(hist)
    ensures ValueIn(Fold(hist[..r]), key) == LastWrite(hist, r, key)
  {
    if r > 0 {
      hide ApplyOps;
      SnapshotValue(hist, r - 1, key);
      FoldNext(hist, r - 1);
      ApplyOne(hist[r - 1], Fold(hist[..r - 1]), r, key);
    }
  }

  lemma RecordedAt(log: seq<Write>, hist: seq<Commit>, n: nat, key: Bytes) returns (i: nat)
    requires SingleOp(hist) && Records(log, hist, key) && n < |hist| && hist[n][0].key == key
    ensures i < |log| && log[i].index == n + 1 && log[i].stored == OpStored(hist[n][0])
    ensures IsLatest(log, n + 1, i)
  {
    i :| 0 <= i < |log| && log[i].index == n + 1;
  }

  lemma NotRecordedAt(log: seq<Write>, hist: seq<Commit>, n: nat, key: Bytes)
    requires SingleOp(hist) && Records(log, hist, key) && n < |hist| && hist[n][0].key != key
    ensures forall i :: 0 <= i < |log| ==> log[i].index != n + 1
  {
  }

  lemma ExpectsLater(log: seq<Write>, r: nat, v: Option<Bytes>)
    requires Expects(log, r, v) && forall i :: 0 <= i < |log| ==> log[i].index != r + 1
    ensures Expects(log, r + 1, v)
  {
    if NoneAt(log, r) {
      assert NoneAt(log, r + 1);
    } else {
      var i: nat :| IsLatest(log, r, i) && v == log[i].stored;
      assert IsLatest(log, r + 1, i);
    }
  }

  lemma NothingAtZero(log: seq<Write>, hist: seq<Commit>, key: Bytes)
    requires SingleOp(hist) && Records(log, hist, key)
    ensures Expects(log, 0, None)
  {
    assert NoneAt(log, 0);
  }

  lemma ExpectsLatest(log: seq<Write>, r: nat, i: nat)
    requires IsLatest(log, r, i)
    ensures Expects(log, r, log[i].stored)
  {
  }

  /** The last commit on a key is the latest entry of any log that records the key's commits. */
  lemma {:induction false} LastWriteIsExpected(log: seq<Write>, hist: seq<Commit>, r: nat, key: Bytes)
    requires r <= |hist| && SingleOp(hist) && Records(log, hist, key)
    ensures Expects(log, r, LastWrite(hist, r, key))
  {
    hide Records, Expects, IsLatest;
    if r == 0 {
      NothingAtZero(log, hist, key);
    } else if hist[r - 1][0].key == key {
      var i := RecordedAt(log, hist, r - 1, key);
      ExpectsLatest(log, r, i);
    } else {
      LastWriteIsExpected(log, hist, r - 1, key);
      NotRecordedAt(log, hist, r - 1, key);
      ExpectsLater(log, r - 1, LastWrite(hist, r - 1, key));
    }
  }

  /**
   * On any single-op history with every commit recorded at its index, in whatever order, a read served
   * from a published snapshot is never flagged.
   */
  lemma SnapshotReadsPass(writes: map<Bytes, seq<Write>>, hist: seq<Commit>, observed: seq<ReadRec>, r: ReadRec)
    requires SingleOp(hist) && r in observed && r.readIndex <= |hist|
    requires Records(LogOf(writes, r.key), hist, r.key)
    requires r.value == ValueIn(SnapshotOf(hist[..r.readIndex]).data, r.key)
    ensures forall e :: Violation(r, e) !in Flagged(writes, observed)
  {
    hide Flagged, Expects, LogOf, Fold, Records;
    SnapshotValue(hist, r.readIndex, r.key);
    LastWriteIsExpected(LogOf(writes, r.key), hist, r.readIndex, r.key);
    FlaggedExactly(writes, observed, r);
  }
}
