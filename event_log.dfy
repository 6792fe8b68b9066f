/// Measures of an SDK call log: how often a call occurs, how many runs there
/// are and how many of them hold a given state.
module EventLog {
  import opened Engine

  /// Occurrences of `x` in `s`.
  function Count<T(==)>(s: seq<T>, x: T): nat
  {
    if s == [] then 0 else Count(s[..|s| - 1], x) + (if s[|s| - 1] == x then 1 else 0)
  }

  lemma {:induction false} CountAppend<T>(a: seq<T>, b: seq<T>, x: T)
    ensures Count(a + b, x) == Count(a, x) + Count(b, x)
  {
    if b == [] {
      assert a + b == a;
    } else {
      assert (a + b)[..|a + b| - 1] == a + b[..|b| - 1];
      CountAppend(a, b[..|b| - 1], x);
    }
  }

  lemma {:induction false} CountAbsent<T>(s: seq<T>, x: T)
    requires x !in s
    ensures Count(s, x) == 0
  {
    if s != [] {
      assert forall k :: 0 <= k < |s| - 1 ==> s[..|s| - 1][k] == s[k];
      CountAbsent(s[..|s| - 1], x);
    }
  }

  lemma {:induction false} CountPositive<T>(s: seq<T>, x: T)
    requires Count(s, x) > 0
    ensures x in s
  {
    if s[|s| - 1] != x {
      CountPositive(s[..|s| - 1], x);
    }
  }

  /// The `NvVFX_Run` calls in `evs`.
  function RunCount(evs: seq<Event>): nat
  {
    if evs == [] then 0 else RunCount(evs[..|evs| - 1]) + (if evs[|evs| - 1].Run? then 1 else 0)
  }

  /// The `NvVFX_Run` calls in `evs` whose state array holds `h`.
  function RunsWith(evs: seq<Event>, h: Handle): nat
  {
    if evs == [] then 0
    else RunsWith(evs[..|evs| - 1], h) + (if evs[|evs| - 1].Run? && h in evs[|evs| - 1].states then 1 else 0)
  }

  lemma {:induction false} RunsAppend(a: seq<Event>, b: seq<Event>, h: Handle)
    ensures RunCount(a + b) == RunCount(a) + RunCount(b)
    ensures RunsWith(a + b, h) == RunsWith(a, h) + RunsWith(b, h)
  {
    if b == [] {
      assert a + b == a;
    } else {
      assert (a + b)[..|a + b| - 1] == a + b[..|b| - 1];
      RunsAppend(a, b[..|b| - 1], h);
    }
  }

  lemma {:induction false} NoRuns(evs: seq<Event>, h: Handle)
    requires forall k :: 0 <= k < |evs| ==> !evs[k].Run?
    ensures RunCount(evs) == 0 && RunsWith(evs, h) == 0
  {
    if evs != [] {
      NoRuns(evs[..|evs| - 1], h);
    }
  }

  lemma {:induction false} DeallocsCount(s: seq<nat>, i: nat)
    ensures Count(Deallocs(s), Dealloc(H(i))) == Count(s, i)
    ensures RunCount(Deallocs(s)) == 0 && RunsWith(Deallocs(s), H(i)) == 0
    ensures forall h :: Count(Deallocs(s), Alloc(h)) == 0
  {
    NoRuns(Deallocs(s), H(i));
    forall h ensures Count(Deallocs(s), Alloc(h)) == 0 {
      CountAbsent(Deallocs(s), Alloc(h));
    }
    if s != [] {
      var p := s[..|s| - 1];
      assert Deallocs(s) == Deallocs(p) + [Dealloc(H(s[|s| - 1]))];
      CountAppend(Deallocs(p), [Dealloc(H(s[|s| - 1]))], Dealloc(H(i)));
      DeallocsCount(p, i);
    }
  }

  lemma {:induction false} AllocsCount(s: seq<nat>, i: nat)
    ensures Count(Allocs(s), Alloc(H(i))) == Count(s, i)
    ensures Count(Allocs(s), Dealloc(H(i))) == 0
  {
    CountAbsent(Allocs(s), Dealloc(H(i)));
    if s != [] {
      var p := s[..|s| - 1];
      assert Allocs(s) == Allocs(p) + [Alloc(H(s[|s| - 1]))];
      CountAppend(Allocs(p), [Alloc(H(s[|s| - 1]))], Alloc(H(i)));
      AllocsCount(p, i);
    }
  }

  lemma {:induction false} CountOne<T>(y: T, x: T)
    ensures Count([y], x) == if y == x then 1 else 0
  {
    assert [y][..0] == [];
  }

  lemma {:induction false} HandlesHold(s: seq<nat>, i: nat)
    ensures H(i) in Handles(s) <==> i in s
  {
    if i in s {
      var k :| 0 <= k < |s| && s[k] == i;
      assert Handles(s)[k] == H(i);
    }
  }

}
