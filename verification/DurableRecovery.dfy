/** A crash at any moment leaves a directory that recovery opens, and recovery itself may crash at any moment. */
module DurableRecovery {
  import opened Types
  import opened Codec
  import opened WalRecord
  import opened WalSegment
  import opened Histories
  import opened Replay
  import opened DurableStore
  import opened DurableSafety
  import opened DurableInvariant
  import opened DurableSteps

  // ---- crashes ----

  lemma TipSettles(s: Seg, recs: seq<Record>, extra: seq<Record>, n: nat)
    requires Tip(s, recs, extra) && n <= |s.pending|
    ensures Tip(SettledLast(s, n), recs, extra)
  {
    hide AllFramable, Segment, Frames, Header;
    var b := s.bytes + s.pending[..n];
    assert b + [] == b && b <= View(s);
  }

  /** The segments a crash leaves of those still linked. */
  lemma SettledOk(d: Disk, b: Book, c: Survival, held: seq<seq<Record>>)
    requires DiskInv(d, b) && CanSurvive(d, c)
    requires held == if d.unsure && !c.newest then b.held[..|b.held| - 1] else b.held
    ensures SegsOk(SettledSegs(d, c), held, GroupRecords(b.hist, b.inflight))
    ensures Holds(Flat(held), b.hist, b.floor)
    ensures SettledSegs(d, c) != [] ==> Last(SettledSegs(d, c)).pending == []
  {
    hide Flat, Holds, Fits, CkptsOk, LimboOk, Ordered, Whole, Tip, AllFramable, View, Header, SetLast, CanFrame;
    var extra := GroupRecords(b.hist, b.inflight);
    var l := |d.segs| - 1;
    FitsHist(d, b);
    GroupFramable(b.hist, b.inflight);
    if d.segs != [] {
      if d.unsure && !c.newest {
        FlatDropEmpty(b.held);
        if l > 0 {
          SegsOkFront(d.segs, b.held, extra, extra);
          WholeSettled(d.segs[l - 1], b.held[l - 1]);
        }
      } else {
        var s := SettledLast(d.segs[l], c.bytes);
        TipSettles(d.segs[l], b.held[l], extra, c.bytes);
        SegsOkSetLast(d.segs, b.held, extra, s, extra);
        SetLastLength(d.segs, s);
      }
    }
  }

  lemma WholeSettled(s: Seg, recs: seq<Record>)
    requires Whole(s, recs)
    ensures s.pending == []
  {
  }

  /** Unlinked segments that come back are whole, and hold nothing past `floor`. */
  lemma {:induction false} ChosenWhole(limbo: seq<Seg>, held: seq<seq<Record>>, floor: nat, keep: seq<bool>)
    requires LimboOk(limbo, held, floor) && |keep| == |limbo|
    ensures LimboOk(Chosen(limbo, keep), Chosen(held, keep), floor)
  {
    hide Whole, AtMost;
    if limbo != [] {
      forall i | 0 <= i < |limbo[1..]| ensures Whole(limbo[1..][i], held[1..][i]) && AtMost(held[1..][i], floor) {
        assert Whole(limbo[i + 1], held[i + 1]);
      }
      ChosenWhole(limbo[1..], held[1..], floor, keep[1..]);
      assert Whole(limbo[0], held[0]);
      if keep[0] {
        LimboFirst(limbo[0], held[0], Chosen(limbo[1..], keep[1..]), Chosen(held[1..], keep[1..]), floor);
      } else {
        assert Chosen(limbo, keep) == Chosen(limbo[1..], keep[1..]);
        assert Chosen(held, keep) == Chosen(held[1..], keep[1..]);
      }
    }
  }

  lemma LimboFirst(s: Seg, recs: seq<Record>, limbo: seq<Seg>, held: seq<seq<Record>>, floor: nat)
    requires LimboOk(limbo, held, floor) && Whole(s, recs) && AtMost(recs, floor)
    ensures LimboOk([s] + limbo, [recs] + held, floor)
  {
    hide Whole, AtMost;
    forall i | 0 <= i < |[s] + limbo|
      ensures Whole(([s] + limbo)[i], ([recs] + held)[i]) && AtMost(([recs] + held)[i], floor)
    {
      if i > 0 { assert Whole(limbo[i - 1], held[i - 1]); }
    }
  }

  lemma {:induction false} ChosenFrom<T>(xs: seq<T>, keep: seq<bool>, k: nat) returns (i: nat)
    requires |xs| == |keep| && k < |Chosen(xs, keep)|
    ensures i < |xs| && Chosen(xs, keep)[k] == xs[i]
  {
    if keep[0] && k == 0 {
      i := 0;
    } else {
      i := ChosenFrom(xs[1..], keep[1..], if keep[0] then k - 1 else k);
      i := i + 1;
    }
  }

  lemma {:induction false} ChosenSorted(limbo: seq<Seg>, keep: seq<bool>)
    requires Sorted(limbo) && |limbo| == |keep|
    ensures Sorted(Chosen(limbo, keep))
  {
    if limbo != [] {
      ChosenSorted(limbo[1..], keep[1..]);
      var rest := Chosen(limbo[1..], keep[1..]);
      forall k | 0 <= k < |rest| ensures limbo[0].num < rest[k].num {
        var i := ChosenFrom(limbo[1..], keep[1..], k);
      }
    }
  }

  lemma BackOrdered(limbo: seq<Seg>, segs: seq<Seg>, keep: seq<bool>)
    requires Ordered(limbo, segs) && |limbo| == |keep|
    ensures Ordered([], Chosen(limbo, keep) + segs)
  {
    hide Chosen;
    var back := Chosen(limbo, keep);
    ChosenSorted(limbo, keep);
    forall k, j | 0 <= k < |back| && 0 <= j < |segs| ensures back[k].num < segs[j].num {
      var i := ChosenFrom(limbo, keep, k);
    }
  }

  lemma OrderedSettled(d: Disk, c: Survival)
    requires Ordered(d.limbo, d.segs) && CanSurvive(d, c)
    ensures Ordered(d.limbo, SettledSegs(d, c))
  {
  }

  lemma SegsOkAfter(back: seq<Seg>, backHeld: seq<seq<Record>>, floor: nat,
                    segs: seq<Seg>, held: seq<seq<Record>>, extra: seq<Record>)
    requires LimboOk(back, backHeld, floor) && SegsOk(segs, held, extra) && AllFramable(extra)
    requires segs != [] ==> Last(segs).pending == []
    ensures SegsOk(back + segs, backHeld + held, extra)
    ensures back + segs != [] ==> Last(back + segs).pending == []
  {
    hide Tip, AtMost, AllFramable, Segment, Frames;
    var all, allHeld := back + segs, backHeld + held;
    forall i | 0 <= i < |all| - 1 ensures Whole(all[i], allHeld[i]) {
      if i < |back| {
        assert Whole(back[i], backHeld[i]);
      } else {
        assert Whole(segs[i - |back|], held[i - |back|]);
      }
    }
    if segs == [] && back != [] {
      assert Whole(back[|back| - 1], backHeld[|back| - 1]);
      TipOfFrames(back[|back| - 1], backHeld[|back| - 1], extra);
    }
  }

  lemma {:induction false} FlatAtMost(limbo: seq<Seg>, held: seq<seq<Record>>, floor: nat)
    requires LimboOk(limbo, held, floor)
    ensures AtMost(Flat(held), floor)
  {
    if held != [] {
      forall i | 0 <= i < |limbo[1..]| ensures Whole(limbo[1..][i], held[1..][i]) && AtMost(held[1..][i], floor) {
        assert Whole(limbo[i + 1], held[i + 1]);
      }
      FlatAtMost(limbo[1..], held[1..], floor);
      assert Whole(limbo[0], held[0]);
    }
  }

  lemma HoldsAfter(first: seq<Record>, rest: seq<Record>, hist: seq<Commit>, floor: nat)
    requires AtMost(first, floor) && Holds(rest, hist, floor)
    ensures Holds(first + rest, hist, floor)
  {
  }

  lemma CrashKeeps(d: Disk, b: Book, c: Survival, b': Book)
    requires DiskInv(d, b) && CanSurvive(d, c)
    requires |b.limboHeld| == |c.back|
    requires b' == b.(held := Chosen(b.limboHeld, c.back) +
                              (if d.unsure && !c.newest then b.held[..|b.held| - 1] else b.held),
                       limboHeld := [], soft := 0)
    ensures DiskInv(AfterCrash(d, c), b') && AtRest(AfterCrash(d, c))
  {
    hide Flat, Holds, Fits, CkptsOk, LimboOk, Ordered, SegsOk, AllFramable, SettledSegs, Chosen;
    LimboLengths(d, b);
    var held := if d.unsure && !c.newest then b.held[..|b.held| - 1] else b.held;
    var back, backHeld := Chosen(d.limbo, c.back), Chosen(b.limboHeld, c.back);
    FitsHist(d, b);
    GroupFramable(b.hist, b.inflight);
    SettledOk(d, b, c, held);
    ChosenWhole(d.limbo, b.limboHeld, b.floor, c.back);
    SegsOkAfter(back, backHeld, b.floor, SettledSegs(d, c), held, GroupRecords(b.hist, b.inflight));
    OrderedSettled(d, c);
    BackOrdered(d.limbo, SettledSegs(d, c), c.back);
    FlatConcat(backHeld, held);
    FlatAtMost(back, backHeld, b.floor);
    HoldsAfter(Flat(backHeld), Flat(held), b.hist, b.floor);
    CkptsFewer(d.dats, d.prevs, b.hist, b.floor, c.dat, c.prev);
    LimboNone(b.floor);
  }

  lemma LimboNone(floor: nat)
    ensures LimboOk([], [], floor)
  {
  }

  lemma DamageDisk(d: Disk, b: Book)
    requires DiskInv(d, b) && d.dats == {d.dat} && d.prevs == {d.prev} && d.prev.Intact?
    ensures DiskInv(d.(dat := Damaged, dats := {Damaged}), b)
  {
    hide Flat, Holds, Fits, LimboOk, Ordered, SegsOk, Good;
    assert PrevOk(d.prev, b.hist, b.floor);
  }

  /** Damage to the latest checkpoint, whether the store is down, being opened or up. */
  lemma DamageKeeps(s: Sys)
    requires Inv(s) && EnabledWorld(s, DamageLatest)
    ensures Inv(PerformWorld(s, DamageLatest))
  {
    hide DiskInv, PlaceOk, Covered, SnapshotOf, StageOk, FirstOk, SoftOk, Good, Served;
    var d, b, m := s.disk, s.book, s.mode;
    var d' := PerformWorld(s, DamageLatest).disk;
    InvDisk(s);
    DamageDisk(d, b);
    DiskLengths(d, b);
    SoftSame(d, b, d');
    if m.Up? {
      DamageUp(s);
    } else if m.Opening? {
      StageSame(d, b, d', m.stage);
    }
  }

  lemma DamageUp(s: Sys)
    requires Inv(s) && s.mode.Up? && EnabledWorld(s, DamageLatest)
    ensures Inv(PerformWorld(s, DamageLatest))
  {
    hide DiskInv, PlaceOk, Covered, SnapshotOf, SoftOk, Good, Served;
    var d, b, m := s.disk, s.book, s.mode;
    var d' := PerformWorld(s, DamageLatest).disk;
    InvDisk(s);
    DamageDisk(d, b);
    DiskLengths(d, b);
    SoftSame(d, b, d');
    PlaceSame(d, b, m, d', b, m);
  }

  lemma StageSame(d: Disk, b: Book, d': Disk, stage: OpenStage)
    requires d'.segs == d.segs && |b.held| == |d.segs|
    ensures StageOk(d, b, stage) ==> StageOk(d', b, stage)
    ensures forall first :: FirstOk(d, b, first) ==> FirstOk(d', b, first)
  {
    hide Repairable, HeaderOr, Whole, Framable, View, Covered;
  }

  lemma SoftSame(d: Disk, b: Book, d': Disk)
    requires d'.segs == d.segs && d'.unsure == d.unsure
    ensures SoftOk(d, b) ==> SoftOk(d', b)
  {
  }

  lemma LimboLengths(d: Disk, b: Book)
    requires DiskInv(d, b)
    ensures |b.limboHeld| == |d.limbo| && |b.held| == |d.segs| && (d.unsure ==> d.segs != [])
  {
  }

  lemma CutKeeps(s: Sys, c: Survival)
    requires Inv(s) && EnabledWorld(s, Crash(c))
    ensures Inv(PerformWorld(s, Crash(c)))
  {
    hide UpInv, OpenInv, DiskInv, AfterCrash, Chosen;
    InvDisk(s);
    LimboLengths(s.disk, s.book);
    CrashKeeps(s.disk, s.book, c, PerformWorld(s, Crash(c)).book);
  }

  lemma KillKeeps(s: Sys)
    requires Inv(s)
    ensures Inv(s.(mode := Down, book := s.book.(soft := 0)))
  {
    hide UpInv, OpenInv, DiskInv;
    InvDisk(s);
    SameDisk(s.disk, s.book, s.book.(soft := 0));
    NoLimbo(s);
  }

  lemma WorldKeeps(s: Sys, t: Step)
    requires Inv(s) && EnabledWorld(s, t)
    ensures Inv(PerformWorld(s, t))
  {
    hide Inv, AfterCrash, Chosen;
    match t {
      case Crash(c) => CutKeeps(s, c);
      case Kill => KillKeeps(s);
      case DamageLatest => DamageKeeps(s);
    }
  }

  /** Only a directory that never had a segment is without one. */
  lemma NoLimbo(s: Sys)
    requires Inv(s)
    ensures s.disk.segs == [] ==> s.disk.limbo == []
  {
    hide DiskInv, PhaseOk, PlaceOk, StageOk, FirstOk, RetInv, SnapshotOf;
  }

  // ---- recovery: reading ----

  lemma {:induction false} LogHas(nums: seq<nat>, held: seq<seq<Record>>, i: nat, x: nat) returns (p: nat)
    requires |nums| == |held| && i < |held| && x < |held[i]|
    ensures p < |Log(nums, held)| && Log(nums, held)[p] == Tagged(nums[i], held[i][x])
    decreases i
  {
    if i == 0 {
      p := x;
    } else {
      p := LogHas(nums[1..], held[1..], i - 1, x);
      p := |held[0]| + p;
    }
  }

  lemma {:induction false} LogTag(nums: seq<nat>, held: seq<seq<Record>>, p: nat) returns (i: nat)
    requires |nums| == |held| && p < |Log(nums, held)|
    ensures i < |nums| && Log(nums, held)[p].num == nums[i]
    decreases |nums|
  {
    if p < |held[0]| {
      i := 0;
    } else {
      i := LogTag(nums[1..], held[1..], p - |held[0]|);
      i := i + 1;
    }
  }

  predicate Increasing(nums: seq<nat>) {
    forall i, j :: 0 <= i < j < |nums| ==> nums[i] < nums[j]
  }

  lemma {:induction false} LogTagsSorted(nums: seq<nat>, held: seq<seq<Record>>, p: nat, q: nat)
    requires |nums| == |held| && Increasing(nums) && p <= q < |Log(nums, held)|
    ensures Log(nums, held)[p].num <= Log(nums, held)[q].num
    decreases |nums|
  {
    if q < |held[0]| {
    } else if p < |held[0]| {
      var i := LogTag(nums[1..], held[1..], q - |held[0]|);
    } else {
      LogTagsSorted(nums[1..], held[1..], p - |held[0]|, q - |held[0]|);
    }
  }

  /** Every segment below the one recovery applied its first record from is covered by the checkpoint. */
  lemma FirstCovers(segs: seq<Seg>, held: seq<seq<Record>>, hist: seq<Commit>, base: nat)
    requires |held| == |segs| && Sorted(segs) && Holds(Flat(held), hist, base)
    requires |Log(Nums(Files(segs)), held)| >= |hist| - base
    ensures match FirstUncovered(Log(Nums(Files(segs)), held), hist, base)
      case None => base == |hist|
      case Some(f) => Covered(segs, held, f, base) && segs != [] && f <= Last(segs).num
  {
    hide Flat, Log;
    var nums := Nums(Files(segs));
    var log := Log(nums, held);
    LogIsFlat(nums, held);
    if base < |hist| {
      var j := |log| - (|hist| - base);
      var f := log[j].num;
      var at := LogTag(nums, held, j);
      forall i | 0 <= i < |segs| && segs[i].num < f ensures AtMost(held[i], base) {
        forall x | 0 <= x < |held[i]| ensures held[i][x].index <= base {
          var p := LogHas(nums, held, i, x);
          if j <= p {
            LogTagsSorted(nums, held, j, p);
          }
        }
      }
    }
  }

  /** What recovery found becomes history; what it did not find is still only a byte prefix in flight. */
  lemma TipAdopts(s: Seg, recs: seq<Record>, extra: seq<Record>, k: nat)
    requires Tip(s, recs, extra) && s.pending == [] && TipReads(s.bytes, recs, extra, k)
    ensures AllFramable(recs + extra[..k]) && AllFramable(extra[k..])
    ensures Tip(s, recs + extra[..k], extra[k..]) && Repairable(s.bytes, recs + extra[..k])
  {
    hide Framable, ScanSegment, Frames, Header;
    var b := s.bytes;
    FramesConcat(recs, extra[..k]);
    assert extra == extra[..k] + extra[k..];
    FramesConcat(extra[..k], extra[k..]);
    Reassociate(Header(), Frames(recs), Frames(extra[..k]));
    Reassociate(Segment(recs), Frames(extra[..k]), Frames(extra[k..]));
    assert View(s) == b;
    var whole := recs + extra[..k];
    if b == Segment(whole) {
    } else if ScanSegment(b).tail.at == 0 {
      assert b[..0] == [];
      assert whole == recs && extra[k..] == extra;
    } else {
      assert Segment(whole) == b[..ScanSegment(b).tail.at];
    }
  }

  lemma GroupSplit(hist: seq<Commit>, group: seq<Commit>, k: nat)
    requires k <= |group|
    ensures GroupRecords(hist, group)[..k] == GroupRecords(hist, group[..k])
    ensures GroupRecords(hist, group)[k..] == GroupRecords(hist + group[..k], group[k..])
    ensures hist + group[..k] + group[k..] == hist + group
  {
  }

  /** Reading the directory changes nothing about it. */
  lemma SeenKeeps(d: Disk, b: Book)
    requires DiskInv(d, b)
    ensures DiskInv(Seen(d), b) && Settled(Seen(d)) && |Seen(d).segs| == |d.segs|
    ensures Nums(Files(Seen(d).segs)) == Nums(Files(d.segs))
    ensures d.segs != [] ==> Last(Seen(d).segs) == SettledLast(Last(d.segs), |Last(d.segs).pending|)
    ensures Settled(d) ==> Seen(d) == d
  {
    hide DiskInv, Tip, Fits, Header, View;
    if d.segs != [] {
      var l := Last(d.segs);
      var l' := SettledLast(l, |l.pending|);
      DiskTip(d, b);
      UnsureTip(d, b);
      SettledView(l);
      TipSettles(l, b.held[|d.segs| - 1], GroupRecords(b.hist, b.inflight), |l.pending|);
      SetLastKeeps(d, b, l', b);
      SetLastLength(d.segs, l');
      if l.pending == [] {
        assert l' == l;
        SetLastSame(d.segs);
      }
    }
  }

  lemma SettledView(l: Seg)
    ensures SettledLast(l, |l.pending|).bytes == View(l) == View(SettledLast(l, |l.pending|))
    ensures l.pending == [] ==> SettledLast(l, 0) == l
  {
  }

  /** A segment whose name is not durable yet holds no record. */
  lemma UnsureHolds(d: Disk, b: Book, k: nat)
    requires DiskInv(d, b) && Settled(d) && Salvages(d, b, k) && d.unsure
    ensures k == 0
  {
    hide Fits, Flat, Holds, CkptsOk, LimboOk, Ordered, SegsOk, Frames, Header, ScanSegment, Framable;
    var b0, extra := Last(d.segs).bytes, GroupRecords(b.hist, b.inflight);
    DiskLengths(d, b);
    assert View(Last(d.segs)) == b0;
    HeaderReads(b0, extra);
    assert |[] + extra[..k]| == k;
  }

  /** What a scan adopts of a settled newest segment. */
  lemma FoundDisk(d: Disk, b: Book, k: nat)
    requires DiskInv(d, b) && Settled(d) && Salvages(d, b, k) && k <= |b.inflight|
    ensures DiskInv(d, Found(b, k, true))
  {
    hide Flat, Holds, Fits, CkptsOk, LimboOk, Ordered, Tip, TipReads, AllFramable, Whole, SegsOk, SetLast, View, Header,
         ExtendLast;
    var b1, extra := b.(soft := k), GroupRecords(b.hist, b.inflight);
    GroupSplit(b.hist, b.inflight, k);
    if d.segs == [] {
      assert b.inflight[k..] == b.inflight && Softs(b1) == [];
      NoFound(d, b);
    } else {
      var l := |d.segs| - 1;
      DiskTip(d, b);
      UnsureTip(d, b);
      if d.unsure {
        UnsureHolds(d, b, k);
      }
      TipAdopts(d.segs[l], b.held[l], extra, k);
      SameDisk(d, b, b1);
      SetLastSame(d.segs);
      FirmDisk(d, b1, d.segs[l], b.inflight[k..]);
      assert d.(segs := SetLast(d.segs, Last(d.segs))) == d;
    }
  }

  lemma NoFound(d: Disk, b: Book)
    requires DiskInv(d, b) && d.segs == []
    ensures DiskInv(d, Found(b, 0, true))
  {
    hide Flat, Holds, Fits, CkptsOk, LimboOk, Ordered;
    assert b.inflight[..0] == [] && b.inflight[0..] == b.inflight && b.hist + [] == b.hist;
    assert Found(b, 0, true) == b.(soft := 0);
  }

  /** What the newest segment reads as once a scan found `k` of the commits in flight. */
  lemma FoundReads(d: Disk, b: Book, k: nat, settled: bool)
    requires DiskInv(d, b) && d.segs != [] && k <= |b.inflight| && DiskInv(Seen(d), b) && Salvages(Seen(d), b, k)
    requires Last(Seen(d).segs) == SettledLast(Last(d.segs), |Last(d.segs).pending|) && |Seen(d).segs| == |d.segs|
    ensures var b' := Found(b, k, settled);
      && |b'.held| == |d.segs| && AllFramable(b'.held[|d.segs| - 1] + SoftRecords(b'))
      && Repairable(View(Last(d.segs)), b'.held[|d.segs| - 1] + SoftRecords(b'))
  {
    hide Tip, TipReads, Framable, Repairable, DiskInv, Seen, View, Found, GroupRecords, Salvages, SoftRecords;
    DiskLengths(d, b);
    SettledView(Last(d.segs));
    SalvagedTip(Seen(d), b, k);
    TipAdopts(Last(Seen(d).segs), b.held[|d.segs| - 1], GroupRecords(b.hist, b.inflight), k);
    FoundLast(b, k, settled);
  }

  lemma SalvagedTip(d: Disk, b: Book, k: nat)
    requires DiskInv(d, b) && Salvages(d, b, k) && d.segs != []
    ensures |b.held| == |d.segs|
    ensures Tip(Last(d.segs), b.held[|d.segs| - 1], GroupRecords(b.hist, b.inflight))
    ensures TipReads(Last(d.segs).bytes, b.held[|d.segs| - 1], GroupRecords(b.hist, b.inflight), k)
  {
    hide Tip, TipReads, DiskInv;
    DiskLengths(d, b);
  }

  lemma FoundLast(b: Book, k: nat, settled: bool)
    requires b.held != [] && k <= |b.inflight|
    ensures var b', l := Found(b, k, settled), |b.held| - 1;
      && |b'.held| == |b.held|
      && b'.held[l] + SoftRecords(b') == b.held[l] + GroupRecords(b.hist, b.inflight)[..k]
  {
    hide ExtendLast;
    var b', l := Found(b, k, settled), |b.held| - 1;
    var found := GroupRecords(b.hist, b.inflight[..k]);
    GroupSplit(b.hist, b.inflight, k);
    if settled {
      LastHeld(b.held, found);
      NoSofts(b');
      assert b.held[l] + found + [] == b.held[l] + found;
    }
  }

  lemma RetAtRest(d: Disk, b: Book)
    requires Load(d.dat, d.prev).Loaded? && b.ret == Load(d.dat, d.prev).snap.index
    requires b.floor <= b.ret <= |b.hist|
    ensures RetInv(SyncDir(d), b, d.dat.Damaged?)
  {
  }

  /** Covering the records found covers the durable ones among them. */
  lemma CoveredFewer(segs: seq<Seg>, segs': seq<Seg>, held: seq<seq<Record>>, recs: seq<Record>, boundary: nat, n: nat)
    requires |held| == |segs| == |segs'| == |ExtendLast(held, recs)| && Nums(Files(segs)) == Nums(Files(segs'))
    requires Covered(segs, ExtendLast(held, recs), boundary, n)
    ensures Covered(segs', held, boundary, n) && Covered(segs', ExtendLast(held, recs), boundary, n)
  {
    hide AtMost;
    var held' := ExtendLast(held, recs);
    forall i | 0 <= i < |segs| ensures segs'[i].num == segs[i].num {
      assert Nums(Files(segs))[i] == Nums(Files(segs'))[i];
    }
    forall i | 0 <= i < |segs'| && segs'[i].num < boundary ensures AtMost(held[i], n) {
      assert AtMost(held'[i], n);
      AtMostPart(held[i], recs, n);
      assert held'[i] == held[i] || held'[i] == held[i] + recs;
    }
  }

  lemma AtMostPart(a: seq<Record>, b: seq<Record>, n: nat)
    ensures AtMost(a + b, n) ==> AtMost(a, n)
  {
    assert forall i :: 0 <= i < |a| ==> (a + b)[i] == a[i];
  }

  lemma FoundFirst(d: Disk, b: Book, k: nat, settled: bool, base: nat, b': Book)
    requires DiskInv(d, b) && DiskInv(Seen(d), b) && Nums(Files(Seen(d).segs)) == Nums(Files(d.segs))
    requires |Seen(d).segs| == |d.segs| && k <= |b.inflight| && Salvages(Seen(d), b, k)
    requires b.floor <= base <= |b.hist| && |HeldWith(b, k)| == |d.segs|
    requires |Log(Nums(Files(Seen(d).segs)), HeldWith(b, k))| >= |b.hist| + k - base
    requires b' == Found(b, k, settled).(ret := base) && |b'.held| == |d.segs|
    ensures FirstOk(d, b',
      FirstUncovered(Log(Nums(Files(Seen(d).segs)), HeldWith(b, k)), b.hist + b.inflight[..k], base))
  {
    hide Salvages, Log, Holds, Flat, Covered, DiskInv, Seen, Files, Nums, ExtendLast;
    var h, d' := b.hist + b.inflight[..k], Seen(d);
    SalvagedHolds(d', b, k);
    HoldsLater(Flat(HeldWith(b, k)), h, b.floor, base);
    DiskSorted(d', b);
    FirstCovers(d'.segs, HeldWith(b, k), h, base);
    match FirstUncovered(Log(Nums(Files(d'.segs)), HeldWith(b, k)), h, base) {
      case None =>
      case Some(f) =>
        DiskLengths(d, b);
        LastNum(d);
        CoveredFewer(d'.segs, d.segs, b.held, GroupRecords(b.hist, b.inflight[..k]), f, base);
    }
  }

  lemma LastNum(d: Disk)
    ensures |Seen(d).segs| == |d.segs| && (d.segs != [] ==> Last(Seen(d).segs).num == Last(d.segs).num)
  {
  }

  lemma ScanKeeps(s: Sys)
    requires s.mode.Down? && Inv(s) && Recover(Seen(s.disk)).Recovered?
    ensures Inv(DoScan(s))
  {
    hide DiskInv, Salvages, Log, Holds, Fold, Flat, Load, FirstUncovered, HeldWith, Files, Recover, Covered, Seen,
         FirstOk, Repairable, Framable, View, Nums, RetInv, Found, Firm, Settled, Softs, SoftOk, StageOk, SoftRecords;
    var d, b := s.disk, s.book;
    SeenKeeps(d, b);
    var d' := Seen(d);
    var k := FindSalvage(d', b);
    RecoverSucceeds(d', b, k);
    SalvageBound(d', b, k);
    SeenFiles(d);
    var s' := DoScan(s);
    var b', base := s'.book, Load(d.dat, d.prev).snap;
    assert Salvaged(s) == k;
    assert b' == Found(b, k, Settled(d)).(ret := base.index);
    FoundBook(d, b, k, b');
    GoodLower(base, b.hist, b.floor, b.floor);
    DiskLengths(d, b');
    FoundFirst(d, b, k, Settled(d), base.index, b');
    RetAtRest(d, b');
    if d.segs != [] {
      FoundReads(d, b, k, Settled(d));
    }
    StageScanned(d, Found(b, k, Settled(d)), b');
  }

  lemma StageScanned(d: Disk, b: Book, b': Book)
    requires b' == b.(ret := b'.ret) && |b'.held| == |d.segs|
    requires d.segs != [] ==>
      && AllFramable(b.held[|d.segs| - 1] + SoftRecords(b))
      && Repairable(View(Last(d.segs)), b.held[|d.segs| - 1] + SoftRecords(b))
    ensures StageOk(d, b', OpenStage.Scanned)
  {
    hide Repairable, Framable, View;
    assert SoftRecords(b') == SoftRecords(b);
  }

  lemma SeenFiles(d: Disk)
    ensures Seen(d).dat == d.dat && Seen(d).prev == d.prev && Seen(d).unsure == d.unsure
  {
  }

  /** The book after a scan. */
  lemma FoundBook(d: Disk, b: Book, k: nat, b': Book)
    requires DiskInv(d, b) && DiskInv(Seen(d), b) && k <= |b.inflight| && Salvages(Seen(d), b, k) && Settled(Seen(d))
    requires Settled(d) ==> Seen(d) == d
    requires b' == Found(b, k, Settled(d)).(ret := b'.ret)
    ensures DiskInv(d, b') && SoftOk(d, b') && Served(b') == b.hist + b.inflight[..k]
    ensures b'.floor == b.floor && |b'.hist| >= |b.hist|
  {
    hide DiskInv, Salvages, Seen, ExtendLast;
    SeenFiles(d);
    if Settled(d) {
      FoundDisk(d, b, k);
      SameDisk(d, Found(b, k, true), b');
      ServedFirm(b.(soft := k), b.inflight[k..]);
    } else {
      SameDisk(d, b, b');
      if d.unsure {
        UnsureHolds(Seen(d), b, k);
      }
    }
  }

  lemma SalvageBound(d: Disk, b: Book, k: nat)
    requires DiskInv(d, b) && Salvages(d, b, k)
    ensures k <= |b.inflight|
  {
    hide DiskInv, TipReads, Tip;
  }

  lemma DiskSorted(d: Disk, b: Book)
    requires DiskInv(d, b)
    ensures Sorted(d.segs)
  {
  }

  // ---- recovery: repairing the newest segment ----

  /** An opening step that touches only the newest segment's bytes. */
  lemma OpenStep(d: Disk, b: Book, m: Mode, s: Seg, b': Book, stage: OpenStage)
    requires m.Opening? && d.segs != [] && s.num == Last(d.segs).num && |b.held| == |d.segs| && SameBook(b, b')
    requires b'.soft == b.soft <= |b'.inflight| && (b'.soft > 0 ==> s.pending != [])
    requires Tip(s, b.held[|d.segs| - 1], GroupRecords(b.hist, b'.inflight)) && (d.unsure ==> View(s) <= Header())
    requires StageOk(d.(segs := SetLast(d.segs, s)), b', stage) && Fits(b'.hist + b'.inflight) && OpenInv(d, b, m)
    ensures OpenInv(d.(segs := SetLast(d.segs, s)), b', m.(stage := stage))
  {
    hide DiskInv, Tip, Fits, Covered, SnapshotOf, SetLast, StageOk, View, Header, Softs;
    SetLastLength(d.segs, s);
    SetLastKeeps(d, b, s, b');
    match m.first {
      case Some(f) => CoveredSetLast(d.segs, b.held, s, f, b.ret);
      case None =>
    }
  }

  lemma TipOfHeaderOr(s: Seg, recs: seq<Record>, extra: seq<Record>)
    requires AllFramable(recs) && AllFramable(extra) && HeaderOr(s.bytes, recs) && s.pending == []
    ensures Tip(s, recs, extra)
  {
    hide AllFramable, Segment, Frames, Header;
    assert View(s) == s.bytes;
  }

  /** Cutting inside the durable bytes happens only where nothing is soft. */
  lemma TipOfCut(l: Seg, recs: seq<Record>, soft: seq<Record>, extra: seq<Record>, at: nat)
    requires Tip(l, recs, extra) && AllFramable(soft) && AllFramable(recs + soft) && (soft != [] ==> l.pending != [])
    requires at <= |View(l)| && HeaderOr(View(l)[..at], recs + soft) && at < |l.bytes|
    ensures soft == [] && HeaderOr(l.bytes[..at], recs)
    ensures var l' := Seg(l.num, l.bytes[..at], View(l)[at..]); View(l') == View(l) && Tip(l', recs, extra)
  {
    hide Framable, Frames, Header;
    assert View(l)[..at] == l.bytes[..at];
    FramesPrefix(recs, soft, []);
    assert recs + soft == recs;
    assert View(Seg(l.num, l.bytes[..at], View(l)[at..])) == View(l);
  }

  lemma SoftCount(b: Book)
    requires b.soft <= |b.inflight|
    ensures |SoftRecords(b)| == b.soft
  {
  }

  lemma CutTailKeeps(d: Disk, b: Book, m: Mode)
    requires m.Opening? && OpenInv(d, b, m) && m.stage.Scanned? && Tear(d).Some?
    ensures OpenInv(d.(segs := CutLast(d.segs, Tear(d).value)), b, m.(stage := Cut(Tear(d).value)))
  {
    hide DiskInv, Framable, Segment, Frames, Header, Covered, Fits, Tip, SetLast, ScanSegment, HeaderOr, View, Softs;
    DiskTip(d, b);
    UnsureTip(d, b);
    var at, l, recs := Tear(d).value, Last(d.segs), b.held[|d.segs| - 1];
    FitsSoft(b);
    NoSofts(b);
    if at < |l.bytes| {
      SoftCount(b);
      TipOfCut(l, recs, SoftRecords(b), GroupRecords(b.hist, b.inflight), at);
      var l' := Seg(l.num, l.bytes[..at], View(l)[at..]);
      SetLastLength(d.segs, l');
      OpenStep(d, b, m, l', b, Cut(at));
    } else {
      SetLastSame(d.segs);
      assert d.(segs := SetLast(d.segs, l)) == d;
      OpenStep(d, b, m, l, b, Cut(at));
    }
  }

  /** An opening step that syncs the newest segment. */
  lemma OpenFirm(d: Disk, b: Book, m: Mode, s: Seg, stage: OpenStage)
    requires m.Opening? && OpenInv(d, b, m) && d.segs != [] && s.num == Last(d.segs).num && |b.held| == |d.segs|
    requires Fits(Served(b) + []) && (d.unsure ==> View(s) <= Header())
    requires Tip(s, b.held[|d.segs| - 1] + SoftRecords(b), GroupRecords(Served(b), []))
    requires |Firm(b, []).held| == |d.segs| && StageOk(d.(segs := SetLast(d.segs, s)), Firm(b, []), stage)
    ensures OpenInv(d.(segs := SetLast(d.segs, s)), Firm(b, []), m.(stage := stage))
  {
    hide DiskInv, Tip, Fits, Covered, SnapshotOf, SetLast, StageOk, View, Header, Softs, ExtendLast;
    NoSofts(b);
    FirmDisk(d, b, s, []);
    ServedFirm(b, []);
    SetLastLength(d.segs, s);
    match m.first {
      case Some(f) =>
        CoveredSetLast(d.segs, b.held, s, f, b.ret);
        CoveredExtend(SetLast(d.segs, s), b.held, SoftRecords(b), f, b.ret);
      case None =>
    }
  }

  lemma SyncCutKeeps(d: Disk, b: Book, m: Mode)
    requires m.Opening? && OpenInv(d, b, m) && d.segs != [] && m.stage.Cut? && m.stage.at <= |View(Last(d.segs))|
    ensures OpenInv(d.(segs := TrimLast(d.segs, m.stage.at)), Firm(b, []), m.(stage := Repaired))
  {
    hide DiskInv, AllFramable, Segment, Frames, Header, Covered, Fits, Tip, SetLast, View, Softs, ExtendLast, Firm,
         HeaderOr;
    DiskTip(d, b);
    UnsureTip(d, b);
    var l, recs := Last(d.segs), b.held[|d.segs| - 1];
    var l' := Seg(l.num, View(l)[..m.stage.at], []);
    FitsSoft(b);
    NoGroup(Served(b));
    TipOfHeaderOr(l', recs + SoftRecords(b), GroupRecords(Served(b), []));
    PlainView(l');
    SetLastLength(d.segs, l');
    FirmLast(b, []);
    assert recs + SoftRecords(b) + [] == recs + SoftRecords(b);
    OpenFirm(d, b, m, l', Repaired);
  }

  lemma PlainView(l: Seg)
    ensures l.pending == [] ==> View(l) == l.bytes
  {
  }

  /** A tail that needs no repair is not synced either: what it holds is served as it is. */
  lemma KeepTailKeeps(d: Disk, b: Book, m: Mode)
    requires m.Opening? && OpenInv(d, b, m) && d.segs != [] && m.stage.Scanned? && Tear(d).None?
    ensures OpenInv(d, b.(inflight := Softs(b)), m.(stage := Repaired))
  {
    hide DiskInv, AllFramable, Segment, Frames, Header, Covered, Fits, Tip, SetLast, View, Softs, ScanSegment;
    DiskTip(d, b);
    UnsureTip(d, b);
    var l, recs, b' := Last(d.segs), b.held[|d.segs| - 1], b.(inflight := Softs(b));
    FitsSoft(b);
    SoftsSame(b, b');
    SoftCount(b);
    SegmentOfBoth(l, recs, SoftRecords(b), GroupRecords(b.hist, b.inflight));
    TipOf(l, recs, GroupRecords(b.hist, b.inflight), SoftRecords(b));
    SetLastSame(d.segs);
    assert d.(segs := SetLast(d.segs, l)) == d;
    OpenStep(d, b, m, l, b', Repaired);
  }

  lemma SegmentOfBoth(l: Seg, recs: seq<Record>, soft: seq<Record>, extra: seq<Record>)
    requires Tip(l, recs, extra) && AllFramable(soft)
    ensures AllFramable(recs) && AllFramable(recs + soft) && Segment(recs + soft) == Segment(recs) + Frames(soft)
  {
    hide Framable, Segment, Frames;
    FramesPrefix(recs, soft, []);
  }

  lemma NotYetHeaded(b: Bytes, recs: seq<Record>)
    requires AllFramable(recs) && HeaderOr(b, recs) && b == []
    ensures recs == []
  {
    hide Frames, Header;
  }

  lemma WriteHeaderKeeps(d: Disk, b: Book, m: Mode, n: nat)
    requires m.Opening? && OpenInv(d, b, m) && m.stage.Repaired? && d.segs != []
    requires View(Last(d.segs)) == [] && n <= HEADER_LEN
    ensures OpenInv(d.(segs := WriteLast(d.segs, Header()[..n])), b, m.(stage := HeaderWritten))
  {
    hide DiskInv, AllFramable, Segment, Frames, Header, Covered, Fits, Tip, SetLast, HeaderOr, CanFrame;
    DiskTip(d, b);
    var l := Last(d.segs);
    var l' := Seg(l.num, l.bytes, l.pending + Header()[..n]);
    NotYetHeaded(View(l), b.held[|d.segs| - 1] + SoftRecords(b));
    FitsHist(d, b);
    GroupFramable(b.hist, b.inflight);
    assert l.bytes == [] && l.pending == [];
    assert View(l') == Header()[..n];
    TipOfHeader(l', GroupRecords(b.hist, b.inflight));
    SetLastLength(d.segs, l');
    OpenStep(d, b, m, l', b, HeaderWritten);
  }

  lemma SyncHeaderKeeps(d: Disk, b: Book, m: Mode)
    requires m.Opening? && OpenInv(d, b, m) && m.stage.HeaderWritten? && d.segs != []
    requires Last(d.segs).pending == Header()
    ensures OpenInv(d.(segs := SyncLast(d.segs)), b, m.(stage := Complete))
  {
    hide DiskInv, AllFramable, Segment, Frames, Header, Covered, Fits, Tip, SetLast, CanFrame;
    DiskTip(d, b);
    var l := Last(d.segs);
    var l' := Seg(l.num, View(l), []);
    assert View(l) == Header() && View(l') == Header();
    FitsHist(d, b);
    GroupFramable(b.hist, b.inflight);
    EmptySegment();
    NoSofts(b);
    TipOfHeader(l', GroupRecords(b.hist, b.inflight));
    SetLastLength(d.segs, l');
    OpenStep(d, b, m, l', b, Complete);
  }

  lemma CreateDisk(d: Disk, b: Book)
    requires DiskInv(d, b) && d.segs == [] && d.limbo == []
    ensures DiskInv(d.(segs := [Seg(1, [], [])], unsure := true), b.(held := [[]], inflight := []))
  {
    hide Fits, Flat, Holds, CkptsOk, LimboOk, AllFramable, Tip, Header;
    FitsHist(d, b);
    NoGroup(b.hist);
    assert b.held == [] && b.held + [[]] == [[]];
    FlatAddEmpty(b.held);
    TipOfHeader(Seg(1, [], []), GroupRecords(b.hist, []));
  }

  lemma CreateKeeps(d: Disk, b: Book, m: Mode)
    requires m.Opening? && OpenInv(d, b, m) && m.stage.Scanned? && d.segs == []
    ensures OpenInv(d.(segs := [Seg(1, [], [])], unsure := true), b.(held := [[]], inflight := []),
                    m.(stage := Repaired))
  {
    hide DiskInv, Segment, Frames, Header, Covered, Fits, Tip;
    CreateDisk(d, b);
    DiskLengths(d, b);
    EmptySegment();
    NoSofts(b);
    NoSofts(b.(held := [[]], inflight := []));
  }

  lemma SyncOpenKeeps(d: Disk, b: Book, m: Mode, m': Mode)
    requires m.Opening? && OpenInv(d, b, m) && d.segs != []
    requires m.stage.Complete? || (m.stage.Repaired? && View(Last(d.segs)) != [])
    requires var cur := Last(d.segs).num;
      m' == Up(m.snap, cur, m.first.GetOr(cur), m.damaged, false, Quiet, Still, Resting)
    ensures UpInv(SyncDir(d), b.(limboHeld := []), m')
  {
    hide DiskInv, AllFramable, Segment, Frames, Header, Covered, Fits, Tip, Flat, Holds, Softs, View, Whole;
    var b' := b.(limboHeld := []);
    DiskTip(d, b);
    CkptMembers(d, b);
    SyncDirKeeps(d, b);
    SoftsSame(b, b');
    OpenPlace(d, b, m, b', m');
    LogHolds(d, b);
    LogWithinHistory(d.segs, b.held, b.hist, b.floor, Last(d.segs).num);
  }

  /** Once open, the newest segment ends with what is served. */
  lemma OpenPlace(d: Disk, b: Book, m: Mode, b': Book, m': Mode)
    requires m.Opening? && OpenInv(d, b, m) && d.segs != [] && |b.held| == |d.segs|
    requires m.stage.Complete? || (m.stage.Repaired? && View(Last(d.segs)) != [])
    requires b' == b.(limboHeld := [])
    requires m'.Up? && m'.cur == Last(d.segs).num && !m'.poisoned && m'.append.Quiet? && m'.rotation.Still?
    ensures PlaceOk(SyncDir(d), b', m')
  {
    hide DiskInv, Framable, Segment, Frames, Header, Covered, Fits, Tip, Flat, Holds;
    DiskTip(d, b);
    FitsSoft(b);
    NoSofts(b);
    SegmentOfBoth(Last(d.segs), b.held[|d.segs| - 1], SoftRecords(b), GroupRecords(b.hist, b.inflight));
    NoFrames();
    var recs := b.held[|d.segs| - 1];
    assert recs + [] == recs && Segment(recs) + [] == Segment(recs);
  }

  lemma OpenKeeps(s: Sys, t: Step)
    requires Inv(s) && EnabledOpen(s, t)
    ensures Inv(PerformOpen(s, t))
  {
    hide UpInv, OpenInv, DiskInv, WriteLast, SyncLast, TrimLast, CutLast, Header, SyncDir, Tear, Recover, DoScan,
         Firm, Softs,
         View, Seen;
    var d, b, m := s.disk, s.book, s.mode;
    match t {
      case Scan => ScanKeeps(s);
      case Create => CreateKeeps(d, b, m);
      case CutTail => CutTailKeeps(d, b, m);
      case SyncCut => SyncCutKeeps(d, b, m);
      case KeepTail => KeepTailKeeps(d, b, m);
      case WriteHeader(n) => WriteHeaderKeeps(d, b, m, n);
      case SyncHeader => SyncHeaderKeeps(d, b, m);
      case SyncOpen => SyncOpenKeeps(d, b, m, PerformOpen(s, t).mode);
    }
  }

  // ---- every step ----

  lemma StepKeeps(s: Sys, t: Step)
    requires Inv(s) && Enabled(s, t) && !Demotes(s, t)
    ensures Inv(Perform(s, t))
  {
    hide Inv, EnabledOpen, EnabledCommit, EnabledRotate, EnabledCkpt, EnabledWorld,
         PerformOpen, PerformCommit, PerformRotate, PerformCkpt, PerformWorld;
    if EnabledOpen(s, t) {
      OpenKeeps(s, t);
    } else if EnabledCommit(s, t) {
      CommitKeeps(s, t);
    } else if EnabledRotate(s, t) {
      RotateKeeps(s, t);
    } else if EnabledCkpt(s, t) {
      CkptKeeps(s, t);
    } else {
      WorldKeeps(s, t);
    }
  }
}
