/// Which streams take part in each batch.  Both batch applications advance
/// every live stream by one frame per cycle, so in cycle `c` the batch holds,
/// in ascending order, exactly the streams with more than `c` frames.
module Scheduling {

  predicate Increasing(s: seq<nat>)
  {
    forall a, b :: 0 <= a < b < |s| ==> s[a] < s[b]
  }

  /// Streams below `m` that still have a frame in cycle `c`, ascending.
  function Active(lens: seq<nat>, c: nat, m: nat): (r: seq<nat>)
    requires m <= |lens|
    ensures |r| <= m
  {
    if m == 0 then []
    else Active(lens, c, m - 1) + (if c < lens[m - 1] then [m - 1] else [])
  }

  /// `Active` misses no live stream and lists them in ascending order.
  lemma {:induction false} ActiveComplete(lens: seq<nat>, c: nat, m: nat)
    requires m <= |lens|
    ensures forall i :: 0 <= i < m && c < lens[i] ==> i in Active(lens, c, m)
    ensures Increasing(Active(lens, c, m))
  {
    if m > 0 {
      ActiveComplete(lens, c, m - 1);
      ActiveNext(lens, c, m - 1);
    }
  }

  /// One more stream considered keeps `Active` complete and ascending.
  lemma {:induction false} ActiveNext(lens: seq<nat>, c: nat, m: nat)
    requires m < |lens|
    requires forall i :: 0 <= i < m && c < lens[i] ==> i in Active(lens, c, m)
    requires Increasing(Active(lens, c, m))
    ensures forall i :: 0 <= i < m + 1 && c < lens[i] ==> i in Active(lens, c, m + 1)
    ensures Increasing(Active(lens, c, m + 1))
  {
    ActiveSound(lens, c, m);
    var r := Active(lens, c, m);
    var t := if c < lens[m] then [m] else [];
    assert Active(lens, c, m + 1) == r + t;
    forall i | 0 <= i < m + 1 && c < lens[i] ensures i in r + t {
      if i < m {
        assert i in r;
      } else {
        assert (r + t)[|r|] == i;
      }
    }
    forall a, b | 0 <= a < b < |r + t| ensures (r + t)[a] < (r + t)[b] {
      assert (r + t)[a] == r[a];
      if b < |r| { assert (r + t)[b] == r[b]; }
    }
  }

  /// Every entry of `Active` is a live stream below `m`.
  lemma {:induction false} ActiveSound(lens: seq<nat>, c: nat, m: nat)
    requires m <= |lens|
    ensures forall k :: 0 <= k < |Active(lens, c, m)| ==> Active(lens, c, m)[k] < m && c < lens[Active(lens, c, m)[k]]
  {
    if m > 0 {
      ActiveSound(lens, c, m - 1);
      var r := Active(lens, c, m - 1);
      var t := if c < lens[m - 1] then [m - 1] else [];
      assert Active(lens, c, m) == r + t;
      forall k | 0 <= k < |r + t| ensures (r + t)[k] < m && c < lens[(r + t)[k]] {
        if k < |r| { assert (r + t)[k] == r[k]; }
      }
    }
  }

  /// The batch of cycle `c`.
  function Batch(lens: seq<nat>, c: nat): (r: seq<nat>)
    ensures forall i: nat :: i in r <==> i < |lens| && c < lens[i]
    ensures forall k :: 0 <= k < |r| ==> r[k] < |lens| && c < lens[r[k]]
    ensures Increasing(r)
  {
    ActiveComplete(lens, c, |lens|);
    ActiveSound(lens, c, |lens|);
    Active(lens, c, |lens|)
  }

  /// Streams below `m` whose last frame is frame `c`, ascending.
  function Ending(lens: seq<nat>, c: nat, m: nat): (r: seq<nat>)
    requires m <= |lens|
    ensures |r| <= m
  {
    if m == 0 then []
    else Ending(lens, c, m - 1) + (if lens[m - 1] == c + 1 then [m - 1] else [])
  }

  /// `Ending` lists exactly the streams below `m` that end in cycle `c`, in
  /// ascending order.
  lemma {:induction false} EndingComplete(lens: seq<nat>, c: nat, m: nat)
    requires m <= |lens|
    ensures forall i :: 0 <= i < m && lens[i] == c + 1 ==> i in Ending(lens, c, m)
    ensures Increasing(Ending(lens, c, m))
  {
    var k := 0;
    while k < m
      invariant k <= m
      invariant forall i :: 0 <= i < k && lens[i] == c + 1 ==> i in Ending(lens, c, k)
      invariant Increasing(Ending(lens, c, k))
    {
      EndingNext(lens, c, k);
      k := k + 1;
    }
  }

  /// One more stream considered keeps `Ending` complete and ascending.
  lemma {:induction false} EndingNext(lens: seq<nat>, c: nat, m: nat)
    requires m < |lens|
    requires forall i :: 0 <= i < m && lens[i] == c + 1 ==> i in Ending(lens, c, m)
    requires Increasing(Ending(lens, c, m))
    ensures forall i :: 0 <= i < m + 1 && lens[i] == c + 1 ==> i in Ending(lens, c, m + 1)
    ensures Increasing(Ending(lens, c, m + 1))
  {
    EndingSound(lens, c, m);
    var r := Ending(lens, c, m);
    var t := if lens[m] == c + 1 then [m] else [];
    assert Ending(lens, c, m + 1) == r + t;
    forall i | 0 <= i < m + 1 && lens[i] == c + 1 ensures i in r + t {
      if i < m {
        assert i in r;
      } else {
        assert (r + t)[|r|] == i;
      }
    }
    forall a, b | 0 <= a < b < |r + t| ensures (r + t)[a] < (r + t)[b] {
      assert (r + t)[a] == r[a];
      if b < |r| { assert (r + t)[b] == r[b]; }
    }
  }

  lemma {:induction false} EndingSound(lens: seq<nat>, c: nat, m: nat)
    requires m <= |lens|
    ensures forall k :: 0 <= k < |Ending(lens, c, m)| ==> Ending(lens, c, m)[k] < m && lens[Ending(lens, c, m)[k]] == c + 1
  {
    if m > 0 {
      EndingSound(lens, c, m - 1);
      var r := Ending(lens, c, m - 1);
      var t := if lens[m - 1] == c + 1 then [m - 1] else [];
      assert Ending(lens, c, m) == r + t;
      forall k | 0 <= k < |r + t| ensures (r + t)[k] < m && lens[(r + t)[k]] == c + 1 {
        if k < |r| { assert (r + t)[k] == r[k]; }
      }
    }
  }

  /// The longest stream length: the number of cycles that run a batch.
  function MaxLen(lens: seq<nat>): (r: nat)
    ensures forall i :: 0 <= i < |lens| ==> lens[i] <= r
    ensures |lens| > 0 ==> exists i :: 0 <= i < |lens| && lens[i] == r
    ensures |lens| == 0 ==> r == 0
  {
    if lens == [] then 0
    else
      var m := MaxLen(lens[..|lens| - 1]);
      if lens[|lens| - 1] > m then lens[|lens| - 1]
      else
        assert forall i :: 0 <= i < |lens| - 1 ==> lens[..|lens| - 1][i] == lens[i];
        m
  }

  /// The batch is empty exactly from the cycle after the longest stream
  /// ends: that is where both loops stop.
  lemma {:induction false} BatchEmptyIff(lens: seq<nat>, c: nat)
    ensures Batch(lens, c) == [] <==> MaxLen(lens) <= c
  {
    if MaxLen(lens) > c {
      var i :| 0 <= i < |lens| && lens[i] == MaxLen(lens);
      assert i in Batch(lens, c);
    }
    if Batch(lens, c) != [] {
      assert Batch(lens, c)[0] in Batch(lens, c);
    }
  }

  /// A batch never holds a stream twice and never holds more streams than
  /// there are.
  lemma {:induction false} BatchDistinct(lens: seq<nat>, c: nat)
    ensures |Batch(lens, c)| <= |lens|
    ensures forall a, b :: 0 <= a < b < |Batch(lens, c)| ==> Batch(lens, c)[a] != Batch(lens, c)[b]
  {
  }

  /// A stream that has dropped out never comes back.
  lemma {:induction false} BatchShrinks(lens: seq<nat>, c1: nat, c2: nat, i: nat)
    requires c1 <= c2 && i in Batch(lens, c2)
    ensures i in Batch(lens, c1)
  {
  }

  /// Slot `s` of the batch holds stream `s` exactly when streams 0..s all
  /// still have a frame.
  lemma {:induction false} OwnSlot(lens: seq<nat>, c: nat, m: nat, s: nat)
    requires s < m <= |lens|
    ensures (s < |Active(lens, c, m)| && Active(lens, c, m)[s] == s)
            <==> forall j :: 0 <= j <= s ==> c < lens[j]
  {
    var r := Active(lens, c, m);
    if forall j :: 0 <= j <= s ==> c < lens[j] {
      PrefixOfActive(lens, c, m, s + 1);
    }
    if s < |r| && r[s] == s {
      ActiveComplete(lens, c, m);
      ActiveSound(lens, c, m);
      forall j | 0 <= j <= s ensures c < lens[j] {
        IncreasingFloor(r, j, s);
      }
    }
  }

  /// When streams 0..p-1 are all live, they fill the first p slots.
  lemma {:induction false} PrefixOfActive(lens: seq<nat>, c: nat, m: nat, p: nat)
    requires p <= m <= |lens|
    requires forall j :: 0 <= j < p ==> c < lens[j]
    ensures p <= |Active(lens, c, m)|
    ensures forall k :: 0 <= k < p ==> Active(lens, c, m)[k] == k
  {
    if m > p {
      PrefixOfActive(lens, c, m - 1, p);
      var r := Active(lens, c, m - 1);
      var t := if c < lens[m - 1] then [m - 1] else [];
      assert Active(lens, c, m) == r + t;
      forall k | 0 <= k < p ensures Active(lens, c, m)[k] == k {
        assert (r + t)[k] == r[k];
      }
    } else if p > 0 {
      PrefixOfActive(lens, c, m - 1, p - 1);
      var r := Active(lens, c, m - 1);
      assert |r| == p - 1;
      assert Active(lens, c, m) == r + [p - 1];
      forall k | 0 <= k < p ensures Active(lens, c, m)[k] == k {
        if k < p - 1 { assert (r + [p - 1])[k] == r[k]; }
      }
    }
  }

  /// In an increasing sequence of naturals whose entry at `s` is `s`, the
  /// entry at any earlier `k` is `k`.
  lemma {:induction false} IncreasingFloor(r: seq<nat>, k: nat, s: nat)
    requires Increasing(r) && k <= s < |r| && r[s] == s
    ensures r[k] == k
  {
    IncreasingAtLeast(r, k);
    IncreasingAtMost(r, k, s);
  }

  lemma {:induction false} IncreasingAtLeast(r: seq<nat>, k: nat)
    requires Increasing(r) && k < |r|
    ensures k <= r[k]
  {
    if k > 0 { IncreasingAtLeast(r, k - 1); }
  }

  lemma {:induction false} IncreasingAtMost(r: seq<nat>, k: nat, s: nat)
    requires Increasing(r) && k <= s < |r|
    ensures r[k] + (s - k) <= r[s]
    decreases s - k
  {
    if k < s { IncreasingAtMost(r, k + 1, s); }
  }

  /// The number of the first `cs` cycles whose batch contains stream `i`.
  function CyclesWith(lens: seq<nat>, i: nat, cs: nat): nat
  {
    if cs == 0 then 0
    else CyclesWith(lens, i, cs - 1) + (if i in Batch(lens, cs - 1) then 1 else 0)
  }

  /// Stream `i` takes part in exactly as many batches as it has frames.
  lemma {:induction false} EveryFrameOnce(lens: seq<nat>, i: nat, cs: nat)
    requires i < |lens|
    ensures CyclesWith(lens, i, cs) == if cs < lens[i] then cs else lens[i]
  {
    if cs > 0 { EveryFrameOnce(lens, i, cs - 1); }
  }

  /// Across all the cycles that run, every stream contributes all its frames.
  lemma {:induction false} StreamRunsLenTimes(lens: seq<nat>, i: nat)
    requires i < |lens|
    ensures CyclesWith(lens, i, MaxLen(lens)) == lens[i]
  {
    EveryFrameOnce(lens, i, MaxLen(lens));
  }

  /// Stream `i` ends in cycle `c` exactly when it is in the batch of `c` and
  /// not in the batch of `c + 1`.
  lemma {:induction false} EndingIsLastBatch(lens: seq<nat>, c: nat, i: nat)
    requires i < |lens|
    ensures i in Ending(lens, c, |lens|) <==> i in Batch(lens, c) && i !in Batch(lens, c + 1)
  {
    EndingComplete(lens, c, |lens|);
    EndingSound(lens, c, |lens|);
  }
}
