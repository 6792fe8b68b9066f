/// What the Triton scheduler guarantees about the SDK calls it makes and the
/// frames it writes, proved about `TritonRun` (which `BatchProcess` is proved
/// to compute).
module TritonProperties {
  import opened CStrings
  import opened Scheduling
  import opened Engine
  import opened TritonBatch
  import opened EventLog

  /// A stream ends in one cycle only, and is listed once when it does.
  lemma {:induction false} EndingCount(lens: seq<nat>, c: nat, m: nat, i: nat)
    requires m <= |lens|
    ensures Count(Ending(lens, c, m), i) == if i < m && lens[i] == c + 1 then 1 else 0
  {
    if m > 0 {
      EndingCount(lens, c, m - 1, i);
      if lens[m - 1] == c + 1 {
        assert Ending(lens, c, m) == Ending(lens, c, m - 1) + [m - 1];
        CountAppend(Ending(lens, c, m - 1), [m - 1], i);
        CountOne(m - 1, i);
      } else {
        assert Ending(lens, c, m) == Ending(lens, c, m - 1) + [];
        assert Ending(lens, c, m - 1) + [] == Ending(lens, c, m - 1);
      }
    }
  }

  /// A batch lists each live stream once.
  lemma {:induction false} ActiveCount(lens: seq<nat>, c: nat, m: nat, i: nat)
    requires m <= |lens|
    ensures Count(Active(lens, c, m), i) == if i < m && c < lens[i] then 1 else 0
  {
    var k := 0;
    while k < m
      invariant k <= m
      invariant Count(Active(lens, c, k), i) == if i < k && c < lens[i] then 1 else 0
    {
      ActiveCountNext(lens, c, k, i);
      k := k + 1;
    }
  }

  lemma {:induction false} ActiveCountNext(lens: seq<nat>, c: nat, k: nat, i: nat)
    requires k < |lens|
    requires Count(Active(lens, c, k), i) == if i < k && c < lens[i] then 1 else 0
    ensures Count(Active(lens, c, k + 1), i) == if i < k + 1 && c < lens[i] then 1 else 0
  {
    if c < lens[k] {
      assert Active(lens, c, k + 1) == Active(lens, c, k) + [k];
      CountAppend(Active(lens, c, k), [k], i);
      CountOne(k, i);
    } else {
      assert Active(lens, c, k + 1) == Active(lens, c, k) + [];
      assert Active(lens, c, k) + [] == Active(lens, c, k);
    }
  }

  /// No stream is live once the longest one has ended.
  lemma {:induction false} NothingEnds(lens: seq<nat>, c: nat, m: nat)
    requires MaxLen(lens) <= c && m <= |lens|
    ensures Ending(lens, c, m) == []
  {
    if m > 0 {
      NothingEnds(lens, c, m - 1);
      assert lens[m - 1] <= MaxLen(lens);
    }
  }

  // ---------------------------------------------------------------------
  // A run on which nothing fails.

  /// The calls of cycle `c` of a clean run: the releases of the streams that
  /// end in it, then the run on its batch.
  function Segment(lens: seq<nat>, c: nat): seq<Event>
  {
    Deallocs(Ending(lens, c, |lens|)) + [Run(Handles(Batch(lens, c)))]
  }

  /// The calls of cycles `c..` of a clean run.
  function CleanEvents(lens: seq<nat>, c: nat): seq<Event>
    decreases MaxLen(lens) - c
  {
    if MaxLen(lens) <= c then [] else Segment(lens, c) + CleanEvents(lens, c + 1)
  }

  /// The calls of cycles `0..c-1`.
  function CyclesBefore(lens: seq<nat>, c: nat): seq<Event>
  {
    if c == 0 then [] else CyclesBefore(lens, c - 1) + Segment(lens, c - 1)
  }

  lemma {:induction false} NoCycleFault(src: seq<Source>, ref: Dim, f: Faults, c: nat)
    requires SameSize(src, ref) && f.release == {}
    ensures FirstCycleFault(src, ref, f, c, |src|).None?
  {
  }

  /// With no failures, the cycles from `c` on succeed and make exactly the
  /// calls of `CleanEvents`.
  lemma {:induction false} CleanCycles(src: seq<Source>, ref: Dim, f: Faults, c: nat, dst: seq<Image>)
    requires |dst| == |src| && SameSize(src, ref) && f.release == {} && f.run == {}
    ensures Cycles(src, ref, f, c, dst).status == Success
    ensures Cycles(src, ref, f, c, dst).events == CleanEvents(Lens(src), c)
    decreases MaxLen(Lens(src)) - c
  {
    if MaxLen(Lens(src)) <= c {
      CleanCyclesEnd(src, ref, f, c, dst);
    } else {
      var dst' := AfterRun(dst, Batch(Lens(src), c), c);
      CleanCycles(src, ref, f, c + 1, dst');
      CleanCyclesNext(src, ref, f, c, dst);
    }
  }

  lemma {:induction false} CleanCyclesEnd(src: seq<Source>, ref: Dim, f: Faults, c: nat, dst: seq<Image>)
    requires |dst| == |src| && SameSize(src, ref) && f.release == {} && f.run == {}
    requires MaxLen(Lens(src)) <= c
    ensures Cycles(src, ref, f, c, dst).status == Success
    ensures Cycles(src, ref, f, c, dst).events == CleanEvents(Lens(src), c)
  {
    var lens := Lens(src);
    NoCycleFault(src, ref, f, c);
    BatchEmptyIff(lens, c);
    NothingEnds(lens, c, |lens|);
    StopOnEmpty(src, ref, f, c, dst);
    CyclesStop(src, ref, f, c, dst);
    assert Deallocs([]) == [];
  }

  lemma {:induction false} CleanCyclesNext(src: seq<Source>, ref: Dim, f: Faults, c: nat, dst: seq<Image>)
    requires |dst| == |src| && SameSize(src, ref) && f.release == {} && f.run == {}
    requires c < MaxLen(Lens(src))
    requires var dst' := AfterRun(dst, Batch(Lens(src), c), c);
      |dst'| == |src|
      && Cycles(src, ref, f, c + 1, dst').status == Success
      && Cycles(src, ref, f, c + 1, dst').events == CleanEvents(Lens(src), c + 1)
    ensures Cycles(src, ref, f, c, dst).status == Success
    ensures Cycles(src, ref, f, c, dst).events == CleanEvents(Lens(src), c)
  {
    var lens := Lens(src);
    NoCycleFault(src, ref, f, c);
    BatchEmptyIff(lens, c);
    GoesOn(src, ref, f, c, dst);
    CyclesContinue(src, ref, f, c, dst);
  }

  /// A clean run: the states of all streams with a frame are allocated, then
  /// every cycle releases the streams ending in it and runs its batch, and
  /// the run succeeds.
  lemma {:induction false} CleanRun(src: seq<Source>, f: Faults)
    requires Clean(src, f)
    ensures TritonRun(src, f).status == Success
    ensures TritonRun(src, f).events == Allocs(Batch(Lens(src), 0)) + CleanEvents(Lens(src), 0)
  {
    assert FirstAllocFault(Lens(src), f, |src|).None?;
    CleanCycles(src, src[0].frames[0], f, 0, seq(|src|, _ => Blank));
  }

  /// A run whose inputs open and whose allocations succeed allocates the
  /// states of the batch of cycle 0 and then goes through the cycles.
  lemma {:induction false} CleanStart(src: seq<Source>, f: Faults)
    requires Clean(src, f)
    ensures var r := Cycles(src, src[0].frames[0], f, 0, seq(|src|, _ => Blank));
      TritonRun(src, f) == Outcome(r.status, Allocs(Batch(Lens(src), 0)) + r.events, r.writes)
  {
    assert FirstAllocFault(Lens(src), f, |src|).None?;
  }

  /// What one cycle of a clean run does to stream `i`: one run holding its
  /// state if it is in the batch, one release if it ends there, and no
  /// allocation.
  lemma {:induction false} SegmentCounts(lens: seq<nat>, c: nat, i: nat)
    requires i < |lens|
    ensures RunsWith(Segment(lens, c), H(i)) == if c < lens[i] then 1 else 0
    ensures RunCount(Segment(lens, c)) == 1
    ensures Count(Segment(lens, c), Dealloc(H(i))) == if lens[i] == c + 1 then 1 else 0
    ensures forall h :: Count(Segment(lens, c), Alloc(h)) == 0
  {
    var d := Deallocs(Ending(lens, c, |lens|));
    var r := [Run(Handles(Batch(lens, c)))];
    DeallocsCount(Ending(lens, c, |lens|), i);
    EndingCount(lens, c, |lens|, i);
    HandlesHold(Batch(lens, c), i);
    assert r[..0] == [];
    RunsAppend(d, r, H(i));
    CountAppend(d, r, Dealloc(H(i)));
    CountOne(Run(Handles(Batch(lens, c))), Dealloc(H(i)));
    forall h ensures Count(Segment(lens, c), Alloc(h)) == 0 {
      CountAppend(d, r, Alloc(h));
      CountOne(Run(Handles(Batch(lens, c))), Alloc(h));
    }
  }

  lemma {:induction false} CleanEventsStep(lens: seq<nat>, c: nat)
    requires c < MaxLen(lens)
    ensures CleanEvents(lens, c) == Segment(lens, c) + CleanEvents(lens, c + 1)
  {
  }

  /// Cycles from the end of the longest stream on make no calls.
  lemma {:induction false} NoCleanEvents(lens: seq<nat>, c: nat)
    requires MaxLen(lens) <= c
    ensures CleanEvents(lens, c) == []
    ensures RunsWith(CleanEvents(lens, c), H(0)) == 0 && RunCount(CleanEvents(lens, c)) == 0
  {
  }

  /// One cycle of a clean run in terms of the cycles after it: the run holds
  /// stream `i` if the stream still has a frame, the stream is released if it
  /// ends here, and nothing is allocated.
  lemma {:induction false} CleanEventsNext(lens: seq<nat>, c: nat, i: nat)
    requires i < |lens| && c < MaxLen(lens)
    ensures RunsWith(CleanEvents(lens, c), H(i)) == (if c < lens[i] then 1 else 0) + RunsWith(CleanEvents(lens, c + 1), H(i))
    ensures RunCount(CleanEvents(lens, c)) == 1 + RunCount(CleanEvents(lens, c + 1))
    ensures Count(CleanEvents(lens, c), Dealloc(H(i)))
            == (if lens[i] == c + 1 then 1 else 0) + Count(CleanEvents(lens, c + 1), Dealloc(H(i)))
  {
    CleanEventsStep(lens, c);
    SegmentCounts(lens, c, i);
    RunsAppend(Segment(lens, c), CleanEvents(lens, c + 1), H(i));
    CountAppend(Segment(lens, c), CleanEvents(lens, c + 1), Dealloc(H(i)));
  }

  lemma {:induction false} CleanAllocNext(lens: seq<nat>, c: nat, h: Handle)
    requires 0 < |lens| && c < MaxLen(lens)
    ensures Count(CleanEvents(lens, c), Alloc(h)) == Count(CleanEvents(lens, c + 1), Alloc(h))
  {
    CleanEventsStep(lens, c);
    SegmentCounts(lens, c, 0);
    CountAppend(Segment(lens, c), CleanEvents(lens, c + 1), Alloc(h));
  }

  lemma {:induction false} RunsWithNext(lens: seq<nat>, c: nat, i: nat)
    requires i < |lens| && c < MaxLen(lens)
    requires RunsWith(CleanEvents(lens, c + 1), H(i)) == if c + 1 < lens[i] then lens[i] - (c + 1) else 0
    ensures RunsWith(CleanEvents(lens, c), H(i)) == if c < lens[i] then lens[i] - c else 0
  {
    CleanEventsNext(lens, c, i);
  }

  lemma {:induction false} RunsWithEnd(lens: seq<nat>, c: nat, i: nat)
    requires i < |lens| && MaxLen(lens) <= c
    ensures RunsWith(CleanEvents(lens, c), H(i)) == if c < lens[i] then lens[i] - c else 0
  {
    assert lens[i] <= MaxLen(lens);
    NoCleanEvents(lens, c);
  }

  /// Stream `i` is in the batch of every one of its cycles from `c` on.
  lemma {:induction false} CleanRunsWith(lens: seq<nat>, c: nat, i: nat)
    requires i < |lens|
    ensures RunsWith(CleanEvents(lens, c), H(i)) == if c < lens[i] then lens[i] - c else 0
    decreases MaxLen(lens) - c
  {
    if c < MaxLen(lens) {
      CleanRunsWith(lens, c + 1, i);
      RunsWithNext(lens, c, i);
    } else {
      RunsWithEnd(lens, c, i);
    }
  }

  /// One run per cycle up to the end of the longest stream.
  lemma {:induction false} CleanRunCount(lens: seq<nat>, c: nat)
    requires c <= MaxLen(lens)
    ensures RunCount(CleanEvents(lens, c)) == MaxLen(lens) - c
    decreases MaxLen(lens) - c
  {
    if c < MaxLen(lens) {
      CleanRunCount(lens, c + 1);
      CleanEventsNext(lens, c, 0);
    } else {
      NoCleanEvents(lens, c);
    }
  }

  lemma {:induction false} DeallocsNext(lens: seq<nat>, c: nat, i: nat)
    requires i < |lens| && c < MaxLen(lens)
    requires Count(CleanEvents(lens, c + 1), Dealloc(H(i))) == if c + 1 < lens[i] then 1 else 0
    ensures Count(CleanEvents(lens, c), Dealloc(H(i))) == if c < lens[i] then 1 else 0
  {
    CleanEventsNext(lens, c, i);
  }

  lemma {:induction false} DeallocsEnd(lens: seq<nat>, c: nat, i: nat)
    requires i < |lens| && MaxLen(lens) <= c
    ensures Count(CleanEvents(lens, c), Dealloc(H(i))) == if c < lens[i] then 1 else 0
  {
    assert lens[i] <= MaxLen(lens);
    NoCleanEvents(lens, c);
  }

  /// A stream still live in cycle `c` is released once from `c` on.
  lemma {:induction false} CleanDeallocs(lens: seq<nat>, c: nat, i: nat)
    requires i < |lens|
    ensures Count(CleanEvents(lens, c), Dealloc(H(i))) == if c < lens[i] then 1 else 0
    decreases MaxLen(lens) - c
  {
    if c < MaxLen(lens) {
      CleanDeallocs(lens, c + 1, i);
      DeallocsNext(lens, c, i);
    } else {
      DeallocsEnd(lens, c, i);
    }
  }

  lemma {:induction false} NoAllocNext(lens: seq<nat>, c: nat, h: Handle)
    requires c < MaxLen(lens)
    requires Count(CleanEvents(lens, c + 1), Alloc(h)) == 0
    ensures Count(CleanEvents(lens, c), Alloc(h)) == 0
  {
    assert 0 < |lens|;
    CleanAllocNext(lens, c, h);
  }

  /// The cycles of a clean run allocate nothing.
  lemma {:induction false} CleanHasNoAlloc(lens: seq<nat>, c: nat, h: Handle)
    ensures Count(CleanEvents(lens, c), Alloc(h)) == 0
    decreases MaxLen(lens) - c
  {
    if c < MaxLen(lens) {
      CleanHasNoAlloc(lens, c + 1, h);
      NoAllocNext(lens, c, h);
    } else {
      NoCleanEvents(lens, c);
    }
  }

  /// A stream with `L` frames is in exactly `L` runs; a clean run makes one
  /// run per cycle up to the longest stream.
  lemma {:induction false} StreamInLenRuns(src: seq<Source>, f: Faults, i: nat)
    requires Clean(src, f) && i < |src|
    ensures RunsWith(TritonRun(src, f).events, H(i)) == |src[i].frames|
    ensures RunCount(TritonRun(src, f).events) == MaxLen(Lens(src))
  {
    CleanRun(src, f);
    CleanRunsTotal(Lens(src), i);
  }

  lemma {:induction false} CleanRunsTotal(lens: seq<nat>, i: nat)
    requires i < |lens|
    ensures RunsWith(Allocs(Batch(lens, 0)) + CleanEvents(lens, 0), H(i)) == lens[i]
    ensures RunCount(Allocs(Batch(lens, 0)) + CleanEvents(lens, 0)) == MaxLen(lens)
  {
    CleanRunsWith(lens, 0, i);
    CleanRunCount(lens, 0);
    NoRuns(Allocs(Batch(lens, 0)), H(i));
    RunsAppend(Allocs(Batch(lens, 0)), CleanEvents(lens, 0), H(i));
  }

  /// Every state allocated is released exactly once; streams without a
  /// frame get neither.
  lemma {:induction false} AllocReleaseOnce(src: seq<Source>, f: Faults, i: nat)
    requires Clean(src, f) && i < |src|
    ensures Count(TritonRun(src, f).events, Alloc(H(i))) == if 0 < |src[i].frames| then 1 else 0
    ensures Count(TritonRun(src, f).events, Dealloc(H(i))) == if 0 < |src[i].frames| then 1 else 0
  {
    CleanRun(src, f);
    CleanAllocTotal(Lens(src), i);
    CleanDeallocTotal(Lens(src), i);
  }

  lemma {:induction false} CleanAllocTotal(lens: seq<nat>, i: nat)
    requires i < |lens|
    ensures Count(Allocs(Batch(lens, 0)) + CleanEvents(lens, 0), Alloc(H(i))) == if 0 < lens[i] then 1 else 0
  {
    CountAppend(Allocs(Batch(lens, 0)), CleanEvents(lens, 0), Alloc(H(i)));
    AllocsCount(Batch(lens, 0), i);
    ActiveCount(lens, 0, |lens|, i);
    CleanHasNoAlloc(lens, 0, H(i));
  }

  lemma {:induction false} CleanDeallocTotal(lens: seq<nat>, i: nat)
    requires i < |lens|
    ensures Count(Allocs(Batch(lens, 0)) + CleanEvents(lens, 0), Dealloc(H(i))) == if 0 < lens[i] then 1 else 0
  {
    CountAppend(Allocs(Batch(lens, 0)), CleanEvents(lens, 0), Dealloc(H(i)));
    AllocsCount(Batch(lens, 0), i);
    CleanDeallocs(lens, 0, i);
  }

  /// The calls of a clean run split at any cycle.
  lemma {:induction false} CleanSplit(lens: seq<nat>, c: nat)
    requires c <= MaxLen(lens)
    ensures CleanEvents(lens, 0) == CyclesBefore(lens, c) + CleanEvents(lens, c)
  {
    EmptyPrefix(CyclesBefore(lens, 0), CleanEvents(lens, 0));
    var k := 0;
    while k < c
      invariant k <= c
      invariant CleanEvents(lens, 0) == CyclesBefore(lens, k) + CleanEvents(lens, k)
    {
      SplitNext(lens, k);
      k := k + 1;
    }
  }

  lemma {:induction false} EmptyPrefix<T>(e: seq<T>, s: seq<T>)
    requires e == []
    ensures e + s == s
  {
  }

  lemma {:induction false} SplitNext(lens: seq<nat>, c: nat)
    requires c < MaxLen(lens)
    requires CleanEvents(lens, 0) == CyclesBefore(lens, c) + CleanEvents(lens, c)
    ensures CleanEvents(lens, 0) == CyclesBefore(lens, c + 1) + CleanEvents(lens, c + 1)
  {
    CleanEventsStep(lens, c);
    assert CyclesBefore(lens, c + 1) == CyclesBefore(lens, c) + Segment(lens, c);
    AppendAssoc(CyclesBefore(lens, c), Segment(lens, c), CleanEvents(lens, c + 1));
  }

  /// Stream `i`'s state is released in cycle `c`, the cycle of its last
  /// frame, before that cycle's run, which still uses it; no earlier cycle
  /// releases it and no later run uses it.
  lemma {:induction false} ReleaseBeforeLastRun(lens: seq<nat>, i: nat, c: nat)
    requires i < |lens| && lens[i] == c + 1
    ensures CleanEvents(lens, 0)
            == CyclesBefore(lens, c) + (Deallocs(Ending(lens, c, |lens|)) + [Run(Handles(Batch(lens, c)))])
               + CleanEvents(lens, c + 1)
    ensures Count(CyclesBefore(lens, c), Dealloc(H(i))) == 0
    ensures Dealloc(H(i)) in Deallocs(Ending(lens, c, |lens|))
    ensures H(i) in Handles(Batch(lens, c))
    ensures RunsWith(CleanEvents(lens, c + 1), H(i)) == 0
  {
    SplitAtLast(lens, i, c);
    NotReleasedBefore(lens, i, c);
    ReleasedAtLast(lens, i, c);
    HandlesHold(Batch(lens, c), i);
    CleanRunsWith(lens, c + 1, i);
  }

  lemma {:induction false} SplitAtLast(lens: seq<nat>, i: nat, c: nat)
    requires i < |lens| && lens[i] == c + 1
    ensures CleanEvents(lens, 0)
            == CyclesBefore(lens, c) + (Deallocs(Ending(lens, c, |lens|)) + [Run(Handles(Batch(lens, c)))])
               + CleanEvents(lens, c + 1)
  {
    assert lens[i] <= MaxLen(lens);
    CleanSplit(lens, c);
    CleanEventsStep(lens, c);
    AppendAssoc(CyclesBefore(lens, c), Segment(lens, c), CleanEvents(lens, c + 1));
  }

  lemma {:induction false} NotReleasedBefore(lens: seq<nat>, i: nat, c: nat)
    requires i < |lens| && lens[i] == c + 1
    ensures Count(CyclesBefore(lens, c), Dealloc(H(i))) == 0
  {
    assert lens[i] <= MaxLen(lens);
    CleanSplit(lens, c);
    CleanDeallocs(lens, 0, i);
    CleanDeallocs(lens, c, i);
    CountAppend(CyclesBefore(lens, c), CleanEvents(lens, c), Dealloc(H(i)));
  }

  lemma {:induction false} ReleasedAtLast(lens: seq<nat>, i: nat, c: nat)
    requires i < |lens| && lens[i] == c + 1
    ensures Dealloc(H(i)) in Deallocs(Ending(lens, c, |lens|))
  {
    var e := Ending(lens, c, |lens|);
    EndingCount(lens, c, |lens|, i);
    DeallocsCount(e, i);
    CountPositive(Deallocs(e), Dealloc(H(i)));
  }

  // ---------------------------------------------------------------------
  // A frame of the wrong size.

  /// Cycle `c` neither stops nor ends the run: no stream is faulty, the
  /// batch is not empty and its `NvVFX_Run` succeeds.
  predicate CycleGoesOn(src: seq<Source>, ref: Dim, f: Faults, c: nat)
  {
    && FirstCycleFault(src, ref, f, c, |src|).None?
    && Batch(Lens(src), c) != [] && c !in f.run
  }

  /// If every cycle before `c` goes on, no release fails in cycle `c` and
  /// stream `i`'s frame `c` has the wrong size, the run ends with
  /// `ErrMismatch` in cycle `c`: after the calls of the clean cycles before
  /// it, that cycle only releases the streams ending in it up to the first
  /// faulty stream `j <= i`.
  lemma {:induction false} TritonMismatchStops(src: seq<Source>, f: Faults, c: nat, i: nat)
    requires OpenFault(src).None? && |src| > 0 && |src[0].frames| > 0 && f.setup == Success
    requires FirstAllocFault(Lens(src), f, |src|).None?
    requires forall c' :: 0 <= c' < c ==> CycleGoesOn(src, src[0].frames[0], f, c')
    requires forall j :: 0 <= j < |src| ==> !(|src[j].frames| == c + 1 && j in f.release)
    requires i < |src| && c < |src[i].frames| && src[i].frames[c] != src[0].frames[0]
    ensures var j := FirstCycleFault(src, src[0].frames[0], f, c, |src|);
      && TritonRun(src, f).status == ErrMismatch
      && j.Some? && j.value <= i
      && TritonRun(src, f).events
         == Allocs(Batch(Lens(src), 0)) + (CyclesBefore(Lens(src), c) + Deallocs(Ending(Lens(src), c, j.value + 1)))
  {
    var j := MismatchOutcome(src, f, c, i);
  }

  /// Such a run makes one `NvVFX_Run` for each cycle before `c` and none
  /// in it.  The bail of line 394 leads to line 417, which closes captures
  /// and writers but releases no state, so every stream still live after
  /// cycle `c` keeps its state.
  lemma {:induction false} TritonMismatchLeaks(src: seq<Source>, f: Faults, c: nat, i: nat)
    requires OpenFault(src).None? && |src| > 0 && |src[0].frames| > 0 && f.setup == Success
    requires FirstAllocFault(Lens(src), f, |src|).None?
    requires forall c' :: 0 <= c' < c ==> CycleGoesOn(src, src[0].frames[0], f, c')
    requires forall j :: 0 <= j < |src| ==> !(|src[j].frames| == c + 1 && j in f.release)
    requires i < |src| && c < |src[i].frames| && src[i].frames[c] != src[0].frames[0]
    ensures RunCount(TritonRun(src, f).events) == c
    ensures forall s :: 0 <= s < |src| && c + 1 < |src[s].frames| ==> Count(TritonRun(src, f).events, Dealloc(H(s))) == 0
  {
    var j := MismatchOutcome(src, f, c, i);
    assert Lens(src)[i] <= MaxLen(Lens(src));
    MismatchEvents(Lens(src), c, j);
  }

  /// The status and the calls of such a run.
  lemma {:induction false} MismatchOutcome(src: seq<Source>, f: Faults, c: nat, i: nat) returns (j: nat)
    requires OpenFault(src).None? && |src| > 0 && |src[0].frames| > 0 && f.setup == Success
    requires FirstAllocFault(Lens(src), f, |src|).None?
    requires forall c' :: 0 <= c' < c ==> CycleGoesOn(src, src[0].frames[0], f, c')
    requires forall j :: 0 <= j < |src| ==> !(|src[j].frames| == c + 1 && j in f.release)
    requires i < |src| && c < |src[i].frames| && src[i].frames[c] != src[0].frames[0]
    ensures FirstCycleFault(src, src[0].frames[0], f, c, |src|) == Some(j) && j <= i
    ensures TritonRun(src, f).status == ErrMismatch
    ensures TritonRun(src, f).events
            == Allocs(Batch(Lens(src), 0)) + (CyclesBefore(Lens(src), c) + Deallocs(Ending(Lens(src), c, j + 1)))
  {
    var ref, lens := src[0].frames[0], Lens(src);
    var blank := seq(|src|, _ => Blank);
    var d := CleanPrefix(src, ref, f, c, blank);
    j := MismatchCycle(src, ref, f, c, d, i);
    var r := Cycles(src, ref, f, 0, blank);
    assert r.status == ErrMismatch;
    assert r.events == CyclesBefore(lens, c) + Deallocs(Ending(lens, c, j + 1));
    AllocatedStart(src, f, blank, r);
  }

  /// The cycles before `c`, all of which go on, make the calls of clean
  /// cycles.
  lemma {:induction false} CleanPrefix(src: seq<Source>, ref: Dim, f: Faults, c: nat, blank: seq<Image>) returns (d: seq<Image>)
    requires |blank| == |src| && forall c' :: 0 <= c' < c ==> CycleGoesOn(src, ref, f, c')
    ensures |d| == |src|
    ensures Cycles(src, ref, f, 0, blank).status == Cycles(src, ref, f, c, d).status
    ensures Cycles(src, ref, f, 0, blank).events == CyclesBefore(Lens(src), c) + Cycles(src, ref, f, c, d).events
  {
    var lens := Lens(src);
    d := blank;
    EmptyPrefix(CyclesBefore(lens, 0), Cycles(src, ref, f, 0, d).events);
    var k := 0;
    while k < c
      invariant k <= c && |d| == |src|
      invariant Cycles(src, ref, f, 0, blank).status == Cycles(src, ref, f, k, d).status
      invariant Cycles(src, ref, f, 0, blank).events == CyclesBefore(lens, k) + Cycles(src, ref, f, k, d).events
    {
      var d' := AfterRun(d, Batch(lens, k), k);
      GoesOnStep(src, ref, f, k, d, k + 1, d');
      AppendAssoc(CyclesBefore(lens, k), Segment(lens, k), Cycles(src, ref, f, k + 1, d').events);
      k, d := k + 1, d';
    }
  }

  /// A cycle that goes on makes the calls of a clean cycle.
  lemma {:induction false} GoesOnStep(src: seq<Source>, ref: Dim, f: Faults, c: nat, dst: seq<Image>, next: nat, dst': seq<Image>)
    requires |dst| == |src| && CycleGoesOn(src, ref, f, c) && next == c + 1
    requires dst' == AfterRun(dst, Batch(Lens(src), c), c)
    ensures |dst'| == |src|
    ensures Cycles(src, ref, f, c, dst).status == Cycles(src, ref, f, next, dst').status
    ensures Cycles(src, ref, f, c, dst).events == Segment(Lens(src), c) + Cycles(src, ref, f, next, dst').events
    ensures CyclesBefore(Lens(src), next) == CyclesBefore(Lens(src), c) + Segment(Lens(src), c)
  {
    GoesOn(src, ref, f, c, dst);
    CyclesContinue(src, ref, f, c, dst);
  }

  /// The cycle with the wrong-sized frame stops with `ErrMismatch` after
  /// releasing the streams ending in it up to the first faulty one.
  lemma {:induction false} MismatchCycle(src: seq<Source>, ref: Dim, f: Faults, c: nat, dst: seq<Image>, i: nat) returns (j: nat)
    requires |dst| == |src|
    requires forall j :: 0 <= j < |src| ==> !(|src[j].frames| == c + 1 && j in f.release)
    requires i < |src| && c < |src[i].frames| && src[i].frames[c] != ref
    ensures FirstCycleFault(src, ref, f, c, |src|) == Some(j) && j <= i
    ensures Cycles(src, ref, f, c, dst) == Outcome(ErrMismatch, Deallocs(Ending(Lens(src), c, j + 1)), [])
  {
    assert CycleFaulty(src, ref, f, c, i);
    j := FirstCycleFault(src, ref, f, c, |src|).value;
    StopOnFault(src, ref, f, c, dst, j);
    CyclesStop(src, ref, f, c, dst);
  }

  /// The calls of a run stopped in cycle `c`: one run for each cycle
  /// before it, and no release of a stream live after it.
  lemma {:induction false} MismatchEvents(lens: seq<nat>, c: nat, j: nat)
    requires j < |lens| && c <= MaxLen(lens)
    ensures var evs := Allocs(Batch(lens, 0)) + (CyclesBefore(lens, c) + Deallocs(Ending(lens, c, j + 1)));
      && RunCount(evs) == c
      && forall s :: 0 <= s < |lens| && c + 1 < lens[s] ==> Count(evs, Dealloc(H(s))) == 0
  {
    MismatchRuns(lens, c, j);
    forall s | 0 <= s < |lens| && c + 1 < lens[s]
      ensures Count(Allocs(Batch(lens, 0)) + (CyclesBefore(lens, c) + Deallocs(Ending(lens, c, j + 1))), Dealloc(H(s))) == 0
    {
      MismatchLeaks(lens, c, j, s);
    }
  }

  /// The clean cycles before `c` and the releases of cycle `c` leave a
  /// stream live after `c` unreleased.
  lemma {:induction false} MismatchLeaks(lens: seq<nat>, c: nat, j: nat, s: nat)
    requires j < |lens| && s < |lens| && c + 1 < lens[s]
    ensures Count(Allocs(Batch(lens, 0)) + (CyclesBefore(lens, c) + Deallocs(Ending(lens, c, j + 1))), Dealloc(H(s))) == 0
  {
    var a, b, e := Allocs(Batch(lens, 0)), CyclesBefore(lens, c), Deallocs(Ending(lens, c, j + 1));
    LiveNotReleasedBefore(lens, c, s);
    NotEnding(lens, c, j, s);
    AllocsCount(Batch(lens, 0), s);
    CountNone(a, b, e, Dealloc(H(s)));
  }

  /// Cycle `c` releases no stream that is still live after it.
  lemma {:induction false} NotEnding(lens: seq<nat>, c: nat, j: nat, s: nat)
    requires j < |lens| && s < |lens| && c + 1 < lens[s]
    ensures Count(Deallocs(Ending(lens, c, j + 1)), Dealloc(H(s))) == 0
  {
    EndingCount(lens, c, j + 1, s);
    DeallocsCount(Ending(lens, c, j + 1), s);
  }

  lemma {:induction false} CountNone<T>(a: seq<T>, b: seq<T>, e: seq<T>, x: T)
    requires Count(a, x) == 0 && Count(b, x) == 0 && Count(e, x) == 0
    ensures Count(a + (b + e), x) == 0
  {
    CountAppend(b, e, x);
    CountAppend(a, b + e, x);
  }

  /// No clean cycle before `c` releases a stream still live in cycle `c`.
  lemma {:induction false} LiveNotReleasedBefore(lens: seq<nat>, c: nat, s: nat)
    requires s < |lens| && c < lens[s]
    ensures Count(CyclesBefore(lens, c), Dealloc(H(s))) == 0
  {
    assert lens[s] <= MaxLen(lens);
    CleanSplit(lens, c);
    CleanDeallocs(lens, 0, s);
    CleanDeallocs(lens, c, s);
    CountAppend(CyclesBefore(lens, c), CleanEvents(lens, c), Dealloc(H(s)));
  }

  /// One run for each clean cycle before `c`, none in cycle `c`.
  lemma {:induction false} MismatchRuns(lens: seq<nat>, c: nat, j: nat)
    requires j < |lens| && c <= MaxLen(lens)
    ensures RunCount(Allocs(Batch(lens, 0)) + (CyclesBefore(lens, c) + Deallocs(Ending(lens, c, j + 1)))) == c
  {
    var a, b, e := Allocs(Batch(lens, 0)), CyclesBefore(lens, c), Deallocs(Ending(lens, c, j + 1));
    CleanSplit(lens, c);
    CleanRunCount(lens, 0);
    CleanRunCount(lens, c);
    RunsAppend(b, CleanEvents(lens, c), H(0));
    DeallocsCount(Ending(lens, c, j + 1), 0);
    RunsAppend(b, e, H(0));
    NoRuns(a, H(0));
    RunsAppend(a, b + e, H(0));
  }

  // ---------------------------------------------------------------------
  // Which matte each writer receives.

  /// The output buffer holds nothing newer than cycle `c`: every slot is
  /// blank or a matte of an earlier cycle.
  predicate Older(dst: seq<Image>, c: nat)
  {
    forall k :: 0 <= k < |dst| ==> !dst[k].Frame? && (dst[k].Matte? ==> dst[k].index < c)
  }

  /// A cycle that goes on had no fault, a non-empty batch and a successful
  /// run, and its outcome is the one `GoesOn` describes.
  lemma {:induction false} ContinueForm(src: seq<Source>, ref: Dim, f: Faults, c: nat, dst: seq<Image>)
    requires |dst| == |src| && CycleStep(src, ref, f, c, dst).Continue?
    ensures FirstCycleFault(src, ref, f, c, |src|).None? && Batch(Lens(src), c) != [] && c !in f.run
    ensures var b := Batch(Lens(src), c);
      var dst' := AfterRun(dst, b, c);
      CycleStep(src, ref, f, c, dst).dst == dst' && CycleStep(src, ref, f, c, dst).writes == CycleWrites(dst', b)
  {
  }

  /// Each cycle that goes on leaves only mattes of cycles up to its own.
  lemma {:induction false} CycleKeepsOlder(src: seq<Source>, ref: Dim, f: Faults, c: nat, dst: seq<Image>)
    requires |dst| == |src| && Older(dst, c) && CycleStep(src, ref, f, c, dst).Continue?
    ensures Older(CycleStep(src, ref, f, c, dst).dst, c + 1)
  {
    ContinueForm(src, ref, f, c, dst);
  }

  /// The output buffer starts blank.
  lemma {:induction false} BlankIsOlder(n: nat)
    ensures Older(seq(n, _ => Blank), 0)
  {
  }

  /// In a cycle that goes on, the writer of live stream `s` receives the
  /// matte of its own frame `c` exactly when no stream below `s` has ended:
  /// the writes read output slot `s`, but the run filled the slots in batch
  /// order.
  lemma {:induction false} Routing(src: seq<Source>, ref: Dim, f: Faults, c: nat, dst: seq<Image>, s: nat)
    requires |dst| == |src| && Older(dst, c) && CycleStep(src, ref, f, c, dst).Continue?
    requires s in Batch(Lens(src), c)
    ensures Write(s, Matte(s, c)) in CycleStep(src, ref, f, c, dst).writes
            <==> forall j :: 0 <= j <= s ==> c < Lens(src)[j]
  {
    ContinueForm(src, ref, f, c, dst);
    var lens := Lens(src);
    var b := Batch(lens, c);
    OwnSlot(lens, c, |lens|, s);
    if forall j :: 0 <= j <= s ==> c < lens[j] {
      OwnMatteWritten(lens, c, dst, s);
    }
    if Write(s, Matte(s, c)) in CycleWrites(AfterRun(dst, b, c), b) {
      OwnMatteFromOwnSlot(lens, c, dst, s);
    }
  }

  lemma {:induction false} OwnMatteWritten(lens: seq<nat>, c: nat, dst: seq<Image>, s: nat)
    requires |dst| == |lens| && s < |Batch(lens, c)| && Batch(lens, c)[s] == s
    ensures var b := Batch(lens, c); Write(s, Matte(s, c)) in CycleWrites(AfterRun(dst, b, c), b)
  {
    var b := Batch(lens, c);
    var ws := CycleWrites(AfterRun(dst, b, c), b);
    assert ws[s] == Write(s, Matte(s, c));
  }

  lemma {:induction false} OwnMatteFromOwnSlot(lens: seq<nat>, c: nat, dst: seq<Image>, s: nat)
    requires |dst| == |lens| && Older(dst, c)
    requires var b := Batch(lens, c); Write(s, Matte(s, c)) in CycleWrites(AfterRun(dst, b, c), b)
    ensures s < |Batch(lens, c)| && Batch(lens, c)[s] == s
  {
    var b := Batch(lens, c);
    var dst' := AfterRun(dst, b, c);
    var ws := CycleWrites(dst', b);
    var k :| 0 <= k < |ws| && ws[k] == Write(s, Matte(s, c));
    assert b[k] == s && dst'[s] == Matte(s, c);
  }

  /// Each cycle writes one frame to the writer of every stream in its batch.
  lemma {:induction false} OneWritePerStream(src: seq<Source>, ref: Dim, f: Faults, c: nat, dst: seq<Image>)
    requires |dst| == |src| && CycleStep(src, ref, f, c, dst).Continue?
    ensures var b := Batch(Lens(src), c);
      var ws := CycleStep(src, ref, f, c, dst).writes;
      |ws| == |b| && forall k :: 0 <= k < |ws| ==> ws[k].writer == b[k]
  {
    ContinueForm(src, ref, f, c, dst);
  }

  // ---------------------------------------------------------------------
  // Runs on small inputs.

  /// A stream of one frame and one of two, on an SDK that never fails.
  function TwoStreams(d: Dim): seq<Source>
  {
    [Source(true, [d], true), Source(true, [d, d], true)]
  }

  function NoFaults(): Faults
  {
    Faults(Success, {}, {}, {}, false)
  }

  lemma {:induction false} TwoStreamsShape(d: Dim)
    ensures Lens(TwoStreams(d)) == [1, 2]
    ensures Batch([1, 2], 0) == [0, 1] && Batch([1, 2], 1) == [1] && Batch([1, 2], 2) == []
    ensures Ending([1, 2], 0, 2) == [0] && Ending([1, 2], 1, 2) == [1] && Ending([1, 2], 2, 2) == []
  {
    assert Lens(TwoStreams(d)) == [1, 2];
    var lens: seq<nat> := [1, 2];
    assert Active(lens, 0, 2) == [0, 1];
    assert Active(lens, 1, 1) == [];
    assert Active(lens, 2, 1) == [];
    assert Ending(lens, 0, 1) == [0];
    assert Ending(lens, 1, 1) == [];
    assert Ending(lens, 2, 1) == [];
  }

  /// Every frame of both streams has the size of the first.
  lemma {:induction false} TwoStreamsSameSize(d: Dim)
    ensures SameSize(TwoStreams(d), d)
  {
    var src := TwoStreams(d);
    forall i, k | 0 <= i < |src| && 0 <= k < |src[i].frames| ensures src[i].frames[k] == d {
      if i == 1 { assert k == 0 || k == 1; }
    }
  }

  lemma {:induction false} TwoStreamsNoFault(d: Dim, c: nat)
    ensures FirstCycleFault(TwoStreams(d), d, NoFaults(), c, |TwoStreams(d)|).None?
  {
    TwoStreamsSameSize(d);
    NoCycleFault(TwoStreams(d), d, NoFaults(), c);
  }

  /// A cycle whose batch and releases are known, with no fault and a run
  /// that succeeds.
  lemma {:induction false} StepIs(src: seq<Source>, ref: Dim, f: Faults, c: nat, dst: seq<Image>, b: seq<nat>, e: seq<nat>)
    requires |dst| == |src| && FirstCycleFault(src, ref, f, c, |src|).None? && c !in f.run
    requires Batch(Lens(src), c) == b && b != [] && Ending(Lens(src), c, |src|) == e
    ensures forall k :: 0 <= k < |b| ==> b[k] < |dst|
    ensures CycleStep(src, ref, f, c, dst)
            == Continue(Deallocs(e) + [Run(Handles(b))], CycleWrites(AfterRun(dst, b, c), b), AfterRun(dst, b, c))
  {
    GoesOn(src, ref, f, c, dst);
  }

  lemma {:induction false} FirstRunOutputs()
    ensures AfterRun([Blank, Blank], [0, 1], 0) == [Matte(0, 0), Matte(1, 0)]
    ensures CycleWrites([Matte(0, 0), Matte(1, 0)], [0, 1]) == [Write(0, Matte(0, 0)), Write(1, Matte(1, 0))]
  {
  }

  lemma {:induction false} SecondRunOutputs()
    ensures AfterRun([Matte(0, 0), Matte(1, 0)], [1], 1) == [Matte(1, 1), Matte(1, 0)]
    ensures CycleWrites([Matte(1, 1), Matte(1, 0)], [1]) == [Write(1, Matte(1, 0))]
  {
  }

  lemma {:induction false} DeallocRun(e: seq<nat>, b: seq<nat>)
    requires |e| == 1 && 0 < |b| <= 2
    ensures Deallocs(e) + [Run(Handles(b))]
            == [Dealloc(H(e[0])), Run(if |b| == 1 then [H(b[0])] else [H(b[0]), H(b[1])])]
  {
    assert Deallocs(e) == [Dealloc(H(e[0]))];
    if |b| == 1 {
      assert Handles(b) == [H(b[0])];
    } else {
      assert Handles(b) == [H(b[0]), H(b[1])];
    }
  }

  lemma {:induction false} TwoStreamsCycle0(d: Dim)
    ensures CycleStep(TwoStreams(d), d, NoFaults(), 0, [Blank, Blank])
            == Continue([Dealloc(H(0)), Run([H(0), H(1)])], [Write(0, Matte(0, 0)), Write(1, Matte(1, 0))],
                        [Matte(0, 0), Matte(1, 0)])
  {
    TwoStreamsShape(d);
    TwoStreamsNoFault(d, 0);
    StepIs(TwoStreams(d), d, NoFaults(), 0, [Blank, Blank], [0, 1], [0]);
    DeallocRun([0], [0, 1]);
    FirstRunOutputs();
  }

  lemma {:induction false} TwoStreamsCycle1(d: Dim)
    ensures CycleStep(TwoStreams(d), d, NoFaults(), 1, [Matte(0, 0), Matte(1, 0)])
            == Continue([Dealloc(H(1)), Run([H(1)])], [Write(1, Matte(1, 0))], [Matte(1, 1), Matte(1, 0)])
  {
    TwoStreamsShape(d);
    TwoStreamsNoFault(d, 1);
    StepIs(TwoStreams(d), d, NoFaults(), 1, [Matte(0, 0), Matte(1, 0)], [1], [1]);
    DeallocRun([1], [1]);
    SecondRunOutputs();
  }

  /// In the second cycle stream 1's writer gets the matte of its first frame
  /// again, while the matte of its second frame sits in slot 0.  (A clean run
  /// starts with cycle 0 on a blank buffer: `CleanStart`.)
  lemma {:induction false} StaleRoutingExample(d: Dim)
    ensures var s := CycleStep(TwoStreams(d), d, NoFaults(), 0, [Blank, Blank]);
      s.Continue? && s.writes == [Write(0, Matte(0, 0)), Write(1, Matte(1, 0))] && s.dst == [Matte(0, 0), Matte(1, 0)]
    ensures var s := CycleStep(TwoStreams(d), d, NoFaults(), 1, [Matte(0, 0), Matte(1, 0)]);
      s.Continue? && s.writes == [Write(1, Matte(1, 0))] && s.dst == [Matte(1, 1), Matte(1, 0)]
  {
    TwoStreamsCycle0(d);
    TwoStreamsCycle1(d);
  }

  /// A frame-size mismatch bails before any release: both states leak.
  lemma {:induction false} MismatchLeaksExample(d: Dim, e: Dim)
    requires d != e
    ensures var src := [Source(true, [d, d], true), Source(true, [e, e], true)];
      TritonRun(src, Faults(Success, {}, {}, {}, false)) == Outcome(ErrMismatch, [Alloc(H(0)), Alloc(H(1))], [])
  {
    var src := [Source(true, [d, d], true), Source(true, [e, e], true)];
    var f := Faults(Success, {}, {}, {}, false);
    var lens := Lens(src);
    assert lens == [2, 2];
    assert Batch(lens, 0) == [0, 1] by { assert Active(lens, 0, 2) == [0, 1]; }
    assert Ending(lens, 0, 2) == [] by { assert Ending(lens, 0, 1) == []; }
    assert FirstCycleFault(src, d, f, 0, 2) == Some(1) by { assert FirstCycleFault(src, d, f, 0, 1).None?; }
    assert seq(2, _ => Blank) == [Blank, Blank];
    CyclesStop(src, d, f, 0, [Blank, Blank]);
  }

  /// A failed release ends the run before its last inference, and the run
  /// still reports success.
  lemma {:induction false} ReleaseFailureExample(d: Dim)
    ensures TritonRun([Source(true, [d], true)], Faults(Success, {}, {0}, {}, false))
            == Outcome(Success, [Alloc(H(0)), Dealloc(H(0))], [])
  {
    var src := [Source(true, [d], true)];
    var f := Faults(Success, {}, {0}, {}, false);
    OneStreamShape(d);
    OneStreamStarts(d, f);
    ReleaseFailureCycle(d);
    StopWith(src, d, f, 0, [Blank], Success, [Dealloc(H(0))]);
    AllocatedStart(src, f, [Blank], Outcome(Success, [Dealloc(H(0))], []));
    assert Allocs([0]) == [Alloc(H(0))];
  }

  /// A run whose inputs open, whose first frame reads, whose setup succeeds
  /// and whose first allocations all succeed is the first allocations
  /// followed by its cycles on blank buffers.
  lemma {:induction false} AllocatedStart(src: seq<Source>, f: Faults, blank: seq<Image>, r: Outcome)
    requires OpenFault(src).None? && |src| > 0 && |src[0].frames| > 0 && f.setup == Success
    requires FirstAllocFault(Lens(src), f, |src|).None?
    requires |blank| == |src| && forall i :: 0 <= i < |blank| ==> blank[i] == Blank
    requires Cycles(src, src[0].frames[0], f, 0, blank) == r
    ensures TritonRun(src, f) == Outcome(r.status, Allocs(Batch(Lens(src), 0)) + r.events, r.writes)
  {
    assert seq(|src|, _ => Blank) == blank;
  }

  lemma {:induction false} OneStreamStarts(d: Dim, f: Faults)
    requires f.alloc == {}
    ensures OpenFault([Source(true, [d], true)]).None?
    ensures FirstAllocFault([1], f, 1).None?
  {
    assert FirstAllocFault([1], f, 0).None?;
  }

  lemma {:induction false} OneStreamShape(d: Dim)
    ensures Lens([Source(true, [d], true)]) == [1]
    ensures Batch([1], 0) == [0] && Ending([1], 0, 1) == [0]
  {
    assert Active([1], 0, 1) == [0];
  }

  lemma {:induction false} ReleaseFailureCycle(d: Dim)
    ensures CycleStep([Source(true, [d], true)], d, Faults(Success, {}, {0}, {}, false), 0, [Blank])
            == Stop(Success, [Dealloc(H(0))])
  {
    OneStreamShape(d);
    assert FirstCycleFault([Source(true, [d], true)], d, Faults(Success, {}, {0}, {}, false), 0, 1) == Some(0);
    assert Deallocs([0]) == [Dealloc(H(0))];
  }

  /// A cycle that stops ends the cycles.
  lemma {:induction false} StopWith(src: seq<Source>, ref: Dim, f: Faults, c: nat, dst: seq<Image>, st: Status, e: seq<Event>)
    requires |dst| == |src| && CycleStep(src, ref, f, c, dst) == Stop(st, e)
    ensures Cycles(src, ref, f, c, dst) == Outcome(st, e, [])
  {
    CyclesStop(src, ref, f, c, dst);
  }

  /// A failed state allocation ends the run with success and no calls
  /// recorded.
  lemma {:induction false} AllocFailureExample(d: Dim)
    ensures TritonRun([Source(true, [d], true)], Faults(Success, {0}, {}, {}, false)) == Outcome(Success, [], [])
  {
    var lens := Lens([Source(true, [d], true)]);
    assert lens == [1];
    assert FirstAllocFault(lens, Faults(Success, {0}, {}, {}, false), 1) == Some(0);
    assert Active(lens, 0, 0) == [];
  }
}
