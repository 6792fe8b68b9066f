/// What the local batch scheduler guarantees, proved about `AigsRun` (which
/// `BatchProcess` of BatchAigsEffectApp.cpp is proved to compute): states
/// are balanced on every path, every writer gets the matte of its own frame,
/// and a clean run writes every frame of every stream.
module AigsProperties {
  import opened Scheduling
  import opened Engine
  import opened EventLog
  import opened AigsBatch

  /// The calls of cycles `c..`: the `k`-th is the run on the batch of cycle
  /// `c + k`, and there is at most one per cycle that has a batch.
  ghost predicate RunsFrom(lens: seq<nat>, c: nat, evs: seq<Event>)
  {
    && (evs == [] || c + |evs| <= MaxLen(lens))
    && forall k :: 0 <= k < |evs| ==> evs[k] == Run(Handles(Batch(lens, c + k)))
  }

  /// The cycles only ever call `NvVFX_Run`, each time on the batch of the
  /// cycle.
  lemma {:induction false} CyclesRun(src: seq<Source>, ref: Dim, f: Faults, c: nat)
    ensures RunsFrom(Lens(src), c, AigsCycles(src, ref, f, c).events)
    decreases MaxLen(Lens(src)) - c
  {
    if CyclePass(src, ref, f, c).Halt? {
      CyclesRunHalt(src, ref, f, c);
    } else {
      CyclesRun(src, ref, f, c + 1);
      CyclesRunNext(src, ref, f, c);
    }
  }

  lemma {:induction false} CyclesRunHalt(src: seq<Source>, ref: Dim, f: Faults, c: nat)
    requires CyclePass(src, ref, f, c).Halt?
    ensures RunsFrom(Lens(src), c, AigsCycles(src, ref, f, c).events)
  {
    var p := CyclePass(src, ref, f, c);
    CyclesHalt(src, ref, f, c);
    assert AigsCycles(src, ref, f, c).events == p.events;
    if p.events != [] {
      assert p.events == [Run(Handles(Batch(Lens(src), c)))] && c < MaxLen(Lens(src));
    }
  }

  lemma {:induction false} CyclesRunNext(src: seq<Source>, ref: Dim, f: Faults, c: nat)
    requires CyclePass(src, ref, f, c).Next?
    requires RunsFrom(Lens(src), c + 1, AigsCycles(src, ref, f, c + 1).events)
    ensures RunsFrom(Lens(src), c, AigsCycles(src, ref, f, c).events)
  {
    CyclesNext(src, ref, f, c);
    RunsFromCons(Lens(src), c, AigsCycles(src, ref, f, c + 1).events);
  }

  /// The run of cycle `c` in front of the runs of the cycles after it.
  lemma {:induction false} RunsFromCons(lens: seq<nat>, c: nat, rest: seq<Event>)
    requires c < MaxLen(lens) && RunsFrom(lens, c + 1, rest)
    ensures RunsFrom(lens, c, [Run(Handles(Batch(lens, c)))] + rest)
  {
    var evs := [Run(Handles(Batch(lens, c)))] + rest;
    forall k | 0 <= k < |evs| ensures evs[k] == Run(Handles(Batch(lens, c + k))) {
      if k > 0 {
        assert evs[k] == rest[k - 1];
      }
    }
  }

  /// Every write of the cycles from `c` on carries the matte of the writer's
  /// own frame `j`, for a cycle `j` in which that stream had a frame.
  ghost predicate OwnMattes(src: seq<Source>, c: nat, ws: seq<Write>)
  {
    forall k :: 0 <= k < |ws| ==>
      ws[k].image.Matte? && ws[k].image.stream == ws[k].writer
      && ws[k].writer < |src| && c <= ws[k].image.index < |src[ws[k].writer].frames|
  }

  lemma {:induction false} CyclesOwnMattes(src: seq<Source>, ref: Dim, f: Faults, c: nat)
    ensures OwnMattes(src, c, AigsCycles(src, ref, f, c).writes)
    decreases MaxLen(Lens(src)) - c
  {
    if CyclePass(src, ref, f, c).Next? {
      CyclesOwnMattes(src, ref, f, c + 1);
      OwnMattesNext(src, ref, f, c);
    }
  }

  lemma {:induction false} OwnMattesNext(src: seq<Source>, ref: Dim, f: Faults, c: nat)
    requires CyclePass(src, ref, f, c).Next?
    requires OwnMattes(src, c + 1, AigsCycles(src, ref, f, c + 1).writes)
    ensures OwnMattes(src, c, AigsCycles(src, ref, f, c).writes)
  {
    CyclesNext(src, ref, f, c);
    OwnMattesAppend(src, c, AigsCycles(src, ref, f, c + 1).writes);
  }

  /// The writes of cycle `c` followed by those of later cycles.
  lemma {:induction false} OwnMattesAppend(src: seq<Source>, c: nat, rest: seq<Write>)
    requires OwnMattes(src, c + 1, rest)
    ensures OwnMattes(src, c, BatchWrites(Batch(Lens(src), c), c) + rest)
  {
    var b := Batch(Lens(src), c);
    var ws := BatchWrites(b, c) + rest;
    forall k | 0 <= k < |ws|
      ensures ws[k].image.Matte? && ws[k].image.stream == ws[k].writer
      ensures ws[k].writer < |src| && c <= ws[k].image.index < |src[ws[k].writer].frames|
    {
      if k < |b| {
        assert ws[k] == Write(b[k], Matte(b[k], c));
      } else {
        assert ws[k] == rest[k - |b|];
      }
    }
  }

  /// Unlike the Triton client, the local batch writes the output slot that
  /// belongs to the writer, so no writer ever receives another stream's
  /// matte or a matte of a frame its stream does not have.
  lemma {:induction false} WritesOwnMatte(src: seq<Source>, f: Faults, k: nat)
    requires k < |AigsRun(src, f).writes|
    ensures var w := AigsRun(src, f).writes[k];
      w.writer < |src| && w.image.Matte? && w.image.stream == w.writer && w.image.index < |src[w.writer].frames|
  {
    if |src| > 0 && |src[0].frames| > 0 {
      CyclesOwnMattes(src, src[0].frames[0], f, 0);
    }
  }

  /// `0..n-1` holds every index below `n` once.
  lemma {:induction false} UptoCount(n: nat, i: nat)
    ensures Count(Upto(n), i) == if i < n then 1 else 0
  {
    if n > 0 {
      assert Upto(n)[..n - 1] == Upto(n - 1);
      UptoCount(n - 1, i);
    }
  }

  /// A sequence of runs holds no allocation or release.
  lemma {:induction false} RunsOnly(src: seq<Source>, c: nat, evs: seq<Event>, i: nat)
    requires RunsFrom(Lens(src), c, evs)
    ensures Count(evs, Alloc(H(i))) == 0 && Count(evs, Dealloc(H(i))) == 0
  {
    CountAbsent(evs, Alloc(H(i)));
    CountAbsent(evs, Dealloc(H(i)));
  }

  /// On every path, failed or not, each stream's state is allocated at most
  /// once and released exactly as often as it was allocated: the `bail`
  /// loop releases every state pushed into `arrayOfStates`.
  lemma {:induction false} StatesBalanced(src: seq<Source>, f: Faults, i: nat)
    ensures Count(AigsRun(src, f).events, Alloc(H(i))) == Count(AigsRun(src, f).events, Dealloc(H(i)))
    ensures Count(AigsRun(src, f).events, Alloc(H(i))) <= 1
  {
    var evs := AigsRun(src, f).events;
    if evs != [] {
      var k := Allocated(f, |src|);
      var cyc := Cycled(src, f).events;
      assert evs == [Configure(|src|, ModelBatch(|src|))] + (Allocs(Upto(k)) + cyc + Deallocs(Upto(k)));
      BalancedServed(src, f, k, cyc, i);
      CountAppend([Configure(|src|, ModelBatch(|src|))], Allocs(Upto(k)) + cyc + Deallocs(Upto(k)), Alloc(H(i)));
      CountAppend([Configure(|src|, ModelBatch(|src|))], Allocs(Upto(k)) + cyc + Deallocs(Upto(k)), Dealloc(H(i)));
      CountOne(Configure(|src|, ModelBatch(|src|)), Alloc(H(i)));
      CountOne(Configure(|src|, ModelBatch(|src|)), Dealloc(H(i)));
    }
  }

  lemma {:induction false} BalancedServed(src: seq<Source>, f: Faults, k: nat, cyc: seq<Event>, i: nat)
    requires |src| > 0 && |src[0].frames| > 0 && k == Allocated(f, |src|) && cyc == Cycled(src, f).events
    ensures Count(Allocs(Upto(k)) + cyc + Deallocs(Upto(k)), Alloc(H(i))) == (if i < k then 1 else 0)
    ensures Count(Allocs(Upto(k)) + cyc + Deallocs(Upto(k)), Dealloc(H(i))) == (if i < k then 1 else 0)
  {
    if FirstAllocFailure(f, |src|).None? && !f.mallocFails {
      CyclesRun(src, src[0].frames[0], f, 0);
      RunsOnly(src, 0, cyc, i);
    } else {
      CountAbsent(cyc, Alloc(H(i)));
      CountAbsent(cyc, Dealloc(H(i)));
    }
    UptoCount(k, i);
    AllocsCount(Upto(k), i);
    DeallocsCount(Upto(k), i);
    CountAppend(Allocs(Upto(k)), cyc, Alloc(H(i)));
    CountAppend(Allocs(Upto(k)), cyc, Dealloc(H(i)));
    CountAppend(Allocs(Upto(k)) + cyc, Deallocs(Upto(k)), Alloc(H(i)));
    CountAppend(Allocs(Upto(k)) + cyc, Deallocs(Upto(k)), Dealloc(H(i)));
  }

  /// Once the effect is set up, the first call configures it for all the
  /// streams, with a model batch of 8 for several streams and 1 for one.
  lemma {:induction false} ConfiguresFirst(src: seq<Source>, f: Faults)
    requires OpenFault(src).None? && |src| > 0 && |src[0].frames| > 0 && f.setup == Success
    ensures |AigsRun(src, f).events| > 0
    ensures AigsRun(src, f).events[0] == Configure(|src|, if |src| > 1 then 8 else 1)
  {
  }

  /// No batch is larger than the number of streams, and none holds a state
  /// twice.
  lemma {:induction false} RunsFitBuffers(src: seq<Source>, f: Faults, k: nat)
    requires k < |AigsRun(src, f).events| && AigsRun(src, f).events[k].Run?
    ensures var st := AigsRun(src, f).events[k].states;
      |st| <= |src| && forall a, b :: 0 <= a < b < |st| ==> st[a] != st[b]
  {
    RunInCycles(src, f, k);
    CyclesRun(src, src[0].frames[0], f, 0);
    BatchHandlesFit(Lens(src), k - 1 - |src|);
  }

  /// A run among the calls of `BatchProcess` is one of the calls of its
  /// cycles, which come after the configuration and the allocations.
  lemma {:induction false} RunInCycles(src: seq<Source>, f: Faults, k: nat)
    requires k < |AigsRun(src, f).events| && AigsRun(src, f).events[k].Run?
    ensures |src| > 0 && |src[0].frames| > 0
    ensures var cyc := AigsCycles(src, src[0].frames[0], f, 0).events;
      1 + |src| <= k < 1 + |src| + |cyc| && AigsRun(src, f).events[k] == cyc[k - 1 - |src|]
  {
    ServedEvents(src, f);
    var kk := Allocated(f, |src|);
    RunInside(Configure(|src|, ModelBatch(|src|)), Allocs(Upto(kk)), Cycled(src, f).events, Deallocs(Upto(kk)), k);
    CycledEvents(src, f);
  }

  /// The calls of a `BatchProcess` that gets past the setup: the
  /// configuration, the allocations, what comes between them and `bail`,
  /// and the releases.
  lemma {:induction false} ServedEvents(src: seq<Source>, f: Faults)
    requires AigsRun(src, f).events != []
    ensures |src| > 0 && |src[0].frames| > 0
    ensures var kk := Allocated(f, |src|);
      AigsRun(src, f).events == [Configure(|src|, ModelBatch(|src|))] + (Allocs(Upto(kk)) + Cycled(src, f).events + Deallocs(Upto(kk)))
  {
  }

  /// Calls between allocation and `bail` come from the cycles, after every
  /// allocation succeeded.
  lemma {:induction false} CycledEvents(src: seq<Source>, f: Faults)
    requires |src| > 0 && |src[0].frames| > 0 && Cycled(src, f).events != []
    ensures Allocated(f, |src|) == |src|
    ensures Cycled(src, f) == AigsCycles(src, src[0].frames[0], f, 0)
  {
  }

  /// A run among a configuration, allocations, runs and releases is one of
  /// the runs.
  lemma {:induction false} RunInside(head: Event, pre: seq<Event>, mid: seq<Event>, post: seq<Event>, k: nat)
    requires !head.Run?
    requires k < |[head] + (pre + mid + post)| && ([head] + (pre + mid + post))[k].Run?
    requires forall i :: 0 <= i < |pre| ==> !pre[i].Run?
    requires forall i :: 0 <= i < |post| ==> !post[i].Run?
    ensures 1 + |pre| <= k < 1 + |pre| + |mid| && ([head] + (pre + mid + post))[k] == mid[k - 1 - |pre|]
  {
  }

  /// The states of a cycle's batch: no more than there are streams, and no
  /// state twice.
  lemma {:induction false} BatchHandlesFit(lens: seq<nat>, c: nat)
    ensures var st := Handles(Batch(lens, c));
      |st| <= |lens| && forall a, b :: 0 <= a < b < |st| ==> st[a] != st[b]
  {
    BatchDistinct(lens, c);
  }

  /// The calls of a clean run's cycles from `c` on: one run per cycle up to
  /// the longest stream.
  function CleanRuns(lens: seq<nat>, c: nat): (r: seq<Event>)
    decreases MaxLen(lens) - c
  {
    if MaxLen(lens) <= c then [] else [Run(Handles(Batch(lens, c)))] + CleanRuns(lens, c + 1)
  }

  /// The writes of a clean run's cycles from `c` on.
  function CleanWrites(lens: seq<nat>, c: nat): (r: seq<Write>)
    decreases MaxLen(lens) - c
  {
    if MaxLen(lens) <= c then [] else BatchWrites(Batch(lens, c), c) + CleanWrites(lens, c + 1)
  }

  /// With no failure and frames of one size the cycles succeed.
  lemma {:induction false} CleanCycles(src: seq<Source>, ref: Dim, f: Faults, c: nat)
    requires SameSize(src, ref) && f.run == {}
    ensures AigsCycles(src, ref, f, c) == Outcome(Success, CleanRuns(Lens(src), c), CleanWrites(Lens(src), c))
    decreases MaxLen(Lens(src)) - c
  {
    if MaxLen(Lens(src)) <= c {
      CleanCyclesEnd(src, ref, f, c);
    } else {
      CleanCycles(src, ref, f, c + 1);
      CleanCyclesNext(src, ref, f, c);
    }
  }

  lemma {:induction false} NoMismatch(src: seq<Source>, ref: Dim, c: nat)
    requires SameSize(src, ref)
    ensures FirstMismatch(src, ref, c, |src|).None?
  {
  }

  lemma {:induction false} CleanCyclesEnd(src: seq<Source>, ref: Dim, f: Faults, c: nat)
    requires SameSize(src, ref) && MaxLen(Lens(src)) <= c
    ensures AigsCycles(src, ref, f, c) == Outcome(Success, CleanRuns(Lens(src), c), CleanWrites(Lens(src), c))
  {
    NoMismatch(src, ref, c);
    BatchEmptyIff(Lens(src), c);
  }

  lemma {:induction false} CleanCyclesNext(src: seq<Source>, ref: Dim, f: Faults, c: nat)
    requires SameSize(src, ref) && f.run == {} && MaxLen(Lens(src)) > c
    requires AigsCycles(src, ref, f, c + 1) == Outcome(Success, CleanRuns(Lens(src), c + 1), CleanWrites(Lens(src), c + 1))
    ensures AigsCycles(src, ref, f, c) == Outcome(Success, CleanRuns(Lens(src), c), CleanWrites(Lens(src), c))
  {
    NoMismatch(src, ref, c);
    BatchEmptyIff(Lens(src), c);
    CyclesNext(src, ref, f, c);
  }

  /// A clean run's writes from cycle `c` on hold stream `s`'s matte of
  /// frame `j` exactly when `c <= j` and the stream has frame `j`.
  lemma {:induction false} CleanWritesHold(lens: seq<nat>, c: nat, s: nat, j: nat)
    ensures Write(s, Matte(s, j)) in CleanWrites(lens, c) <==> s < |lens| && c <= j < lens[s]
    decreases MaxLen(lens) - c
  {
    if MaxLen(lens) > c {
      CleanWritesHold(lens, c + 1, s, j);
      BatchWritesHold(Batch(lens, c), c, s, j);
    }
  }

  lemma {:induction false} BatchWritesHold(b: seq<nat>, c: nat, s: nat, j: nat)
    ensures Write(s, Matte(s, j)) in BatchWrites(b, c) <==> s in b && j == c
  {
    if s in b && j == c {
      var k :| 0 <= k < |b| && b[k] == s;
      assert BatchWrites(b, c)[k] == Write(s, Matte(s, j));
    }
  }

  /// A clean run succeeds, makes one run per cycle up to the longest
  /// stream, and writes the matte of every frame of every stream to that
  /// stream's writer, and nothing else.
  lemma {:induction false} CleanRun(src: seq<Source>, f: Faults, s: nat, j: nat)
    requires Clean(src, f) && !f.mallocFails
    ensures AigsRun(src, f).status == Success
    ensures RunCount(AigsRun(src, f).events) == MaxLen(Lens(src))
    ensures Write(s, Matte(s, j)) in AigsRun(src, f).writes <==> s < |src| && j < |src[s].frames|
  {
    var lens := Lens(src);
    assert FirstAllocFailure(f, |src|).None?;
    CleanCycles(src, src[0].frames[0], f, 0);
    CleanWritesHold(lens, 0, s, j);
    CleanRunCount(src, f);
  }

  lemma {:induction false} CleanRunCount(src: seq<Source>, f: Faults)
    requires Clean(src, f) && !f.mallocFails
    requires AigsCycles(src, src[0].frames[0], f, 0).events == CleanRuns(Lens(src), 0)
    ensures RunCount(AigsRun(src, f).events) == MaxLen(Lens(src))
  {
    var n := |src|;
    var lens := Lens(src);
    assert FirstAllocFailure(f, n).None?;
    var setup := [Configure(n, ModelBatch(n))];
    assert AigsRun(src, f).events == setup + (Allocs(Upto(n)) + CleanRuns(lens, 0) + Deallocs(Upto(n)));
    CleanRunsCount(lens, 0);
    NoRuns(setup, Null);
    NoRuns(Allocs(Upto(n)), Null);
    DeallocsCount(Upto(n), 0);
    RunsAppend(Allocs(Upto(n)), CleanRuns(lens, 0), Null);
    RunsAppend(Allocs(Upto(n)) + CleanRuns(lens, 0), Deallocs(Upto(n)), Null);
    RunsAppend(setup, Allocs(Upto(n)) + CleanRuns(lens, 0) + Deallocs(Upto(n)), Null);
  }

  /// A clean run's cycles from `c` on are all runs, one per remaining cycle.
  lemma {:induction false} CleanRunsCount(lens: seq<nat>, c: nat)
    requires c <= MaxLen(lens)
    ensures RunCount(CleanRuns(lens, c)) == MaxLen(lens) - c
  {
    CleanRunsLength(lens, c);
    AllRunsCount(CleanRuns(lens, c));
  }

  lemma {:induction false} CleanRunsLength(lens: seq<nat>, c: nat)
    requires c <= MaxLen(lens)
    ensures |CleanRuns(lens, c)| == MaxLen(lens) - c
    ensures forall k :: 0 <= k < |CleanRuns(lens, c)| ==> CleanRuns(lens, c)[k].Run?
    decreases MaxLen(lens) - c
  {
    if MaxLen(lens) > c {
      CleanRunsLength(lens, c + 1);
      var r := CleanRuns(lens, c + 1);
      var s := [Run(Handles(Batch(lens, c)))] + r;
      assert CleanRuns(lens, c) == s;
      forall k | 0 <= k < |s| ensures s[k].Run? {
        if k > 0 { assert s[k] == r[k - 1]; }
      }
    }
  }

  lemma {:induction false} AllRunsCount(s: seq<Event>)
    requires forall k :: 0 <= k < |s| ==> s[k].Run?
    ensures RunCount(s) == |s|
  {
    if s != [] {
      assert forall k :: 0 <= k < |s| - 1 ==> s[..|s| - 1][k] == s[k];
      AllRunsCount(s[..|s| - 1]);
    }
  }

  /// A frame of the wrong size ends the run with `ErrMismatch` before the
  /// batch of its cycle runs; the states are still all released.
  lemma {:induction false} MismatchStops(src: seq<Source>, f: Faults, c: nat)
    requires OpenFault(src).None? && |src| > 0 && |src[0].frames| > 0 && f.setup == Success
    requires FirstAllocFailure(f, |src|).None? && !f.mallocFails
    requires FirstMismatch(src, src[0].frames[0], c, |src|).Some?
    requires forall c' :: 0 <= c' < c ==> CyclePass(src, src[0].frames[0], f, c').Next?
    ensures AigsRun(src, f).status == ErrMismatch
  {
    MismatchFrom(src, src[0].frames[0], f, 0, c);
  }

  lemma {:induction false} MismatchFrom(src: seq<Source>, ref: Dim, f: Faults, c0: nat, c: nat)
    requires c0 <= c && FirstMismatch(src, ref, c, |src|).Some?
    requires forall c' :: c0 <= c' < c ==> CyclePass(src, ref, f, c').Next?
    ensures AigsCycles(src, ref, f, c0).status == ErrMismatch
    decreases c - c0
  {
    if c0 == c {
      MismatchHere(src, ref, f, c);
    } else {
      MismatchFrom(src, ref, f, c0 + 1, c);
      MismatchBack(src, ref, f, c0, c0 + 1);
    }
  }

  /// The cycle that finds a frame of the wrong size stops with `ErrMismatch`.
  lemma {:induction false} MismatchHere(src: seq<Source>, ref: Dim, f: Faults, c: nat)
    requires FirstMismatch(src, ref, c, |src|).Some?
    ensures AigsCycles(src, ref, f, c).status == ErrMismatch
  {
  }

  /// A cycle that goes on leaves a mismatch of the cycles after it as the
  /// status.
  lemma {:induction false} MismatchBack(src: seq<Source>, ref: Dim, f: Faults, c: nat, next: nat)
    requires next == c + 1 && CyclePass(src, ref, f, c).Next?
    requires AigsCycles(src, ref, f, next).status == ErrMismatch
    ensures AigsCycles(src, ref, f, c).status == ErrMismatch
  {
    CyclesNext(src, ref, f, c);
  }
}
