/** The log handle: appends, roll-backs and rotations whose every file operation may fail. */
module WalLog {
  import opened Types
  import opened Codec
  import opened WalRecord
  import opened WalSegment

  /** A file after `b` is written at `at`; a gap past its end reads as zeros. */
  function WriteAt(file: Bytes, at: nat, b: Bytes): Bytes {
    var start := if at <= |file| then file[..at] else file + seq(at - |file|, _ => 0);
    start + b + (if at + |b| < |file| then file[at + |b|..] else [])
  }

  lemma WriteAtEnd(file: Bytes, b: Bytes)
    ensures WriteAt(file, |file|, b) == file + b
  {
    assert file[..|file|] == file;
  }

  datatype Outcome = Done | Failed | Unusable | InvalidInput

  /** What the file operations of an append do: how many bytes reach the file, whether the write and the sync
      report success, and whether the cut, the seek and the sync that undo a failure do. */
  datatype AppendFaults = AppendFaults(
    wrote: nat, written: bool, synced: bool, cut: bool, sought: bool, cutSynced: bool)

  /** What those of a rotation do: the sync of the old segment, the creation of the new one (a file of that
      name may be there when it fails), the header's bytes and sync, their removal, and the directory's sync. */
  datatype RotateFaults = RotateFaults(
    synced: bool, created: bool, taken: bool, wrote: nat, headed: bool, removed: bool, cleaned: bool, dirSynced: bool)

  predicate Appends(io: AppendFaults, len: nat) { io.wrote >= len && io.written && io.synced }

  predicate Rotates(io: RotateFaults) { io.synced && io.created && Heads(io) && io.dirSynced }

  predicate Heads(io: RotateFaults) { io.wrote >= HEADER_LEN && io.headed }

  /** A newer segment is left, or may be, beside the current one. */
  predicate LeavesNewer(io: RotateFaults) {
    && io.synced
    && (if !io.created then io.taken else if Heads(io) then !io.dirSynced else !io.removed || !io.cleaned)
  }

  class Wal {
    /** Every segment file, by number. */
    var files: map<nat, Bytes>
    var segSeq: nat
    var segBytes: nat
    const maxSegBytes: nat
    var poisoned: bool
    /** Whether the current handle appends wherever the file ends, or writes at its own position. */
    var appends: bool
    var pos: nat
    /** The records successfully appended to the current segment. */
    ghost var recs: seq<Record>

    /**
     * Either the log is poisoned, or the current segment is the highest-numbered one, is byte for byte
     * the header and the frames of its successful records, and the next write lands at its end.
     */
    ghost predicate Valid()
      reads this
    {
      poisoned ||
      (&& segSeq in files && (forall n :: n in files ==> n <= segSeq)
       && AllFramable(recs) && files[segSeq] == Segment(recs)
       && segBytes == |files[segSeq]|
       && (appends || pos == segBytes))
    }

    /** Open a handle on a clean last segment, in append mode. */
    constructor (existing: map<nat, Bytes>, last: nat, held: seq<Record>, max: nat)
      requires last in existing && (forall n :: n in existing ==> n <= last)
      requires AllFramable(held) && existing[last] == Segment(held)
      ensures Valid() && !poisoned && files == existing && segSeq == last && recs == held
      ensures maxSegBytes == Max(max, 45)
    {
      hide Segment, AllFramable;
      files, segSeq, segBytes, maxSegBytes := existing, last, |existing[last]|, Max(max, HEADER_LEN + 33);
      poisoned, appends, pos, recs := false, true, 0, held;
    }

    /** Where the next write lands. */
    function End(): nat
      requires segSeq in files
      reads this
    {
      if appends then |files[segSeq]| else pos
    }

    /** `write_all`: some prefix of `b` reaches the file, and it may fail even if all of it did. */
    method WriteAll(b: Bytes, io: AppendFaults) returns (ok: bool)
      requires segSeq in files
      modifies this`files, this`pos
      ensures ok <==> io.wrote >= |b| && io.written
      ensures var n := Min(io.wrote, |b|);
              && files == old(files)[segSeq := WriteAt(old(files)[segSeq], old(End()), b[..n])]
              && pos == old(End()) + n
    {
      var n := Min(io.wrote, |b|);
      var at := End();
      files, pos := files[segSeq := WriteAt(files[segSeq], at, b[..n])], at + n;
      ok := io.written && n == |b|;
    }

    /** Undo a failed append by cutting the segment back, or poison the log. */
    method RollBack(io: AppendFaults)
      requires segSeq in files && segBytes <= |files[segSeq]|
      modifies this`files, this`pos, this`poisoned
      ensures poisoned <==> old(poisoned) || !(io.cut && io.sought && io.cutSynced)
      ensures files == if io.cut then old(files)[segSeq := old(files)[segSeq][..segBytes]] else old(files)
      ensures pos == if io.cut && io.sought then segBytes else old(pos)
    {
      var ok := io.cut;
      if ok {
        files := files[segSeq := files[segSeq][..segBytes]];
        if io.sought {
          pos := segBytes;
        }
        ok := io.sought && io.cutSynced;
      }
      if !ok {
        poisoned := true;
      }
    }

    /** Start a fresh segment, leaving the current one in use unless the new one is durable. It is refused
        only by a failed operation, a poisoned log, or the last number a segment can have. */
    method RotateSegment(io: RotateFaults) returns (r: Outcome)
      requires Valid()
      modifies this
      ensures Valid()
      ensures old(poisoned) <==> r == Unusable
      ensures r == Unusable ==> unchanged(this)
      ensures r == Done <==> !old(poisoned) && old(segSeq) + 1 < U32_LIMIT && Rotates(io)
      ensures r == Done ==>
        !poisoned && segSeq == old(segSeq) + 1 && segSeq !in old(files) && recs == [] &&
        files == old(files)[segSeq := Header()]
      ensures poisoned <==> old(poisoned) || (old(segSeq) + 1 < U32_LIMIT && LeavesNewer(io))
      ensures r != Done ==> segSeq == old(segSeq)
      ensures r != Done && !poisoned ==> unchanged(this)
      ensures r != InvalidInput
    {
      hide Segment, Frames, Header, AllFramable, WriteAt;
      if poisoned {
        return Unusable;
      }
      if !io.synced || segSeq + 1 >= U32_LIMIT {
        return Failed;
      }
      var next := segSeq + 1;
      if !io.created {
        if io.taken {
          poisoned := true;
        }
        return Failed;
      }
      ghost var before := files;
      files := files[next := Header()[..Min(io.wrote, HEADER_LEN)]];
      if io.wrote < HEADER_LEN || !io.headed {
        if io.removed {
          files := files - {next};
          assert files == before;
        }
        if !io.removed || !io.cleaned {
          poisoned := true;
        }
        return Failed;
      }
      if !io.dirSynced {
        poisoned := true;
        return Failed;
      }
      segSeq, segBytes, appends, pos, recs := next, HEADER_LEN, false, HEADER_LEN, [];
      EmptyIsHeader();
      r := Done;
    }

    static lemma EmptyIsHeader()
      ensures AllFramable([]) && Segment([]) == Header() && Header()[..HEADER_LEN] == Header()
    {
      hide Header;
      assert Header() + [] == Header();
    }

    /** Encode a group, stopping at the first record the framing cannot hold. */
    static method EncodeGroup(group: seq<Record>) returns (buf: Option<Bytes>)
      requires forall i :: 0 <= i < |group| ==> group[i].term < U64_LIMIT && group[i].index < U64_LIMIT
      ensures buf.Some? <==> forall i :: 0 <= i < |group| ==> CheckOps(group[i].ops)
      ensures buf.Some? ==> AllFramable(group) && buf.value == Frames(group)
    {
      hide CheckOps, Frame, Frames;
      var b: Bytes := [];
      var i := 0;
      FramesNil();
      while i < |group|
        invariant i <= |group| && AllFramable(group[..i]) && b == Frames(group[..i])
        invariant forall j :: 0 <= j < i ==> CheckOps(group[j].ops)
      {
        if !CheckOps(group[i].ops) {
          return None;
        }
        Around(group, i);
        FramesSnoc(group, i);
        b := b + Frame(group[i]);
        i := i + 1;
      }
      assert group[..i] == group;
      buf := Some(b);
    }

    static lemma FramesNil()
      ensures Frames([]) == []
    {
    }

    static lemma FramesSnoc(group: seq<Record>, i: nat)
      requires i < |group| && AllFramable(group[..i]) && Framable(group[i])
      ensures AllFramable(group[..i + 1]) && Frames(group[..i + 1]) == Frames(group[..i]) + Frame(group[i])
    {
      hide Frame, Framable;
      Around(group, i);
      FrameOne(group[i]);
      FramesConcat(group[..i], [group[i]]);
    }

    /** The group would overflow a segment that already holds records. */
    ghost predicate Overflows(group: seq<Record>)
      requires AllFramable(group)
      reads this
    {
      segBytes + |Frames(group)| > maxSegBytes && segBytes > HEADER_LEN
    }

    /** The append goes to a fresh segment. */
    ghost predicate Moves(group: seq<Record>, rotation: RotateFaults)
      reads this
    {
      !poisoned && group != [] && AllFramable(group) && Overflows(group) && segSeq + 1 < U32_LIMIT && Rotates(rotation)
    }

    /** Nothing stands in the append's way. */
    ghost predicate Takes(group: seq<Record>, rotation: RotateFaults, io: AppendFaults)
      reads this
    {
      && !poisoned && AllFramable(group)
      && (group != [] ==> (Overflows(group) ==> Moves(group, rotation)) && Appends(io, |Frames(group)|))
    }

    /**
     * Append a group. It succeeds exactly when no operation it needs fails, and then adds exactly its frames;
     * failure adds nothing, or poisons the log. Either first moves to a fresh segment exactly when the group
     * would overflow one that holds records and the rotation succeeds.
     */
    method AppendMany(group: seq<Record>, rotation: RotateFaults, io: AppendFaults) returns (r: Outcome)
      requires Valid()
      requires forall i :: 0 <= i < |group| ==> group[i].term < U64_LIMIT && group[i].index < U64_LIMIT
      modifies this
      ensures Valid()
      ensures old(poisoned) <==> r == Unusable
      ensures r == InvalidInput <==> !old(poisoned) && exists i :: 0 <= i < |group| && !CheckOps(group[i].ops)
      ensures r == Unusable || r == InvalidInput ==> unchanged(this)
      ensures r == Done <==> old(Takes(group, rotation, io))
      ensures segSeq == if old(Moves(group, rotation)) then old(segSeq) + 1 else old(segSeq)
      ensures r == Done && segSeq == old(segSeq) ==>
        !poisoned && AllFramable(group) && recs == old(recs) + group &&
        files == old(files)[segSeq := old(files)[segSeq] + Frames(group)]
      ensures r == Done && segSeq != old(segSeq) ==>
        !poisoned && AllFramable(group) && recs == group &&
        segSeq !in old(files) && files == old(files)[segSeq := Segment(group)]
      ensures r == Failed && !poisoned && segSeq == old(segSeq) ==> files == old(files) && recs == old(recs)
      ensures r == Failed && !poisoned && segSeq != old(segSeq) ==>
        files == old(files)[segSeq := Header()] && recs == []
    {
      hide CheckOps, Segment, Frames, Header, AllFramable, WriteAt, Rotates, Appends, LeavesNewer;
      if poisoned {
        return Unusable;
      }
      if group == [] {
        FramesNil();
        EmptyGroup(files[segSeq], recs);
        assert files == files[segSeq := files[segSeq]];
        return Done;
      }
      var buf := EncodeGroup(group);
      if buf.None? {
        NotFramable(group);
        return InvalidInput;
      }
      if segBytes + |buf.value| > maxSegBytes && segBytes > HEADER_LEN {
        r := RotateSegment(rotation);
        if r != Done {
          return;
        }
        EmptyIsHeader();
      }
      r := WriteGroup(group, buf.value, io);
      if segSeq != old(segSeq) {
        FreshSegment(group);
      }
    }

    static lemma NotFramable(group: seq<Record>)
      requires exists i :: 0 <= i < |group| && !CheckOps(group[i].ops)
      ensures !AllFramable(group)
    {
    }

    static lemma EmptyGroup(b: Bytes, held: seq<Record>)
      ensures b + [] == b && held + [] == held && AllFramable([])
    {
    }

    static lemma FreshSegment(group: seq<Record>)
      requires AllFramable(group)
      ensures Segment(group) == Header() + Frames(group) && [] + group == group
    {
      hide Header, Frames, Framable;
    }

    /** Write, then sync; on any failure roll back. */
    method WriteGroup(group: seq<Record>, buf: Bytes, io: AppendFaults) returns (r: Outcome)
      requires Valid() && !poisoned && AllFramable(group) && buf == Frames(group)
      modifies this
      ensures Valid() && segSeq == old(segSeq)
      ensures r == if Appends(io, |buf|) then Done else Failed
      ensures poisoned <==> r == Failed && !(io.cut && io.sought && io.cutSynced)
      ensures r == Done ==>
        !poisoned && recs == old(recs) + group &&
        files == old(files)[segSeq := old(files)[segSeq] + buf]
      ensures r == Failed && !poisoned ==> files == old(files) && recs == old(recs)
    {
      hide CheckOps, Segment, Frames, Header, AllFramable, WriteAt;
      ghost var file := files[segSeq];
      ghost var n := Min(io.wrote, |buf|);
      var ok := WriteAll(buf, io);
      WriteAtEnd(file, buf[..n]);
      if !ok || !io.synced {
        assert (file + buf[..n])[..|file|] == file;
        RollBack(io);
        assert old(files)[segSeq := file] == old(files);
        return Failed;
      }
      assert buf[..n] == buf;
      SegmentGrows(recs, group);
      segBytes, recs := segBytes + |buf|, recs + group;
      r := Done;
    }

    static lemma SegmentGrows(held: seq<Record>, group: seq<Record>)
      requires AllFramable(held) && AllFramable(group)
      ensures AllFramable(held + group) && Segment(held + group) == Segment(held) + Frames(group)
    {
      hide Frames, Framable, Header;
      FramesConcat(held, group);
      Reassociate(Header(), Frames(held), Frames(group));
    }

    predicate Doomed(n: nat, bound: nat)
      reads this
    {
      n in files && n < bound && n != segSeq
    }

    /**
     * Delete the segments below `bound`, oldest first, never the current one; `stuck` is one that cannot be
     * removed. An interrupted call has removed exactly the segments below that one, so it never leaves a hole.
     * The directory is synced if anything was removed.
     */
    method RemoveSegmentsBefore(bound: nat, stuck: Option<nat>, dirSynced: bool) returns (ok: bool, cut: nat)
      modifies this`files
      ensures var stops := stuck.Some? && old(Doomed(stuck.value, bound));
              && cut == (if stops then stuck.value else bound)
              && (ok <==> !stops && (dirSynced || forall n: nat :: !old(Doomed(n, bound))))
      ensures files == map n | n in old(files) && (n >= cut || n == segSeq) :: old(files)[n]
    {
      cut := 0;
      var removed := false;
      while cut < bound
        invariant cut <= bound
        invariant stuck.Some? && old(Doomed(stuck.value, bound)) ==> cut <= stuck.value
        invariant removed <==> exists n: nat :: n < cut && old(Doomed(n, bound))
        invariant files == map n | n in old(files) && (n >= cut || n == segSeq) :: old(files)[n]
      {
        if cut in files && cut != segSeq {
          assert old(Doomed(cut, bound));
          if stuck == Some(cut) {
            return false, cut;
          }
          files := files - {cut};
          removed := true;
        }
        cut := cut + 1;
      }
      ok := !removed || dirSynced;
    }
  }
}
