/** galsim.random.permute: a Knuth (Fisher-Yates) shuffle that applies one
    sequence of swaps to several parallel lists in place.

    The uniform deviate is an oracle: `draws[t]` is the value of
    int((i+1) * ud()) at the t-th step, where i = n-1-t, so it lies in
    [0, i+1]. The loop runs i = n-1 down to 2 (Python's range(n-1, 1, -1)). */
module Shuffle {
  import opened Common

  /** Exchange position i with position j. */
  datatype Swap = Swap(i: nat, j: nat)

  function SwapAt<T>(s: seq<T>, i: nat, j: nat): (r: seq<T>)
    requires i < |s| && j < |s|
    ensures |r| == |s|
    ensures r[i] == s[j] && r[j] == s[i]
    ensures forall p :: 0 <= p < |s| && p != i && p != j ==> r[p] == s[p]
  {
    s[i := s[j]][j := s[i]]
  }

  /** The clamp of the source: a draw of i+1 becomes i. */
  function Clamp(i: nat, raw: nat): (j: nat)
    requires raw <= i + 1
    ensures j <= i
    ensures raw <= i ==> j == raw
    ensures raw == i + 1 ==> j == i
  {
    if raw == i + 1 then i else raw
  }

  /** Number of loop steps for a first list of length n: i = n-1, ..., 2. */
  function NumSteps(n: nat): nat { if n <= 2 then 0 else n - 2 }

  /** Step t handles i = n-1-t, and its raw draw lies in [0, i+1]. */
  predicate ValidDraws(n: nat, draws: seq<nat>) {
    |draws| >= NumSteps(n) &&
    forall t :: 0 <= t < NumSteps(n) ==> draws[t] <= n - t
  }

  /** The swaps the loop performs, in order. */
  function Schedule(n: nat, draws: seq<nat>): (sw: seq<Swap>)
    requires ValidDraws(n, draws)
    ensures |sw| == NumSteps(n)
    ensures forall t :: 0 <= t < |sw| ==> sw[t].i == n - 1 - t
  {
    seq(NumSteps(n), t requires 0 <= t < NumSteps(n) => Swap(n - 1 - t, Clamp(n - 1 - t, draws[t])))
  }

  /** Every swap index lies below n. */
  predicate InRange(sw: seq<Swap>, n: nat) {
    forall t :: 0 <= t < |sw| ==> sw[t].i < n && sw[t].j < n
  }

  /** The sequence obtained by performing the swaps in order. */
  function ApplySwaps<T>(s: seq<T>, sw: seq<Swap>): (r: seq<T>)
    requires InRange(sw, |s|)
    ensures |r| == |s|
    decreases |sw|
  {
    if sw == [] then s else ApplySwaps(SwapAt(s, sw[0].i, sw[0].j), sw[1..])
  }

  /** The transposition of i and j, applied to an index. */
  function Transpose(i: nat, j: nat, q: nat): nat {
    if q == i then j else if q == j then i else q
  }

  /** The input index whose element ends at position p; it does not depend
      on the contents, which is what keeps parallel lists aligned. */
  function Src(sw: seq<Swap>, p: nat): nat
    decreases |sw|
  {
    if sw == [] then p else Transpose(sw[0].i, sw[0].j, Src(sw[1..], p))
  }

  // ---------------------------------------------------------------------------
  // Properties of the schedule

  /** Each step's index pair satisfies 2 <= i < n and 0 <= j <= i. */
  lemma ScheduleIndices(n: nat, draws: seq<nat>, t: nat)
    requires ValidDraws(n, draws) && t < NumSteps(n)
    ensures 2 <= Schedule(n, draws)[t].i < n
    ensures Schedule(n, draws)[t].j <= Schedule(n, draws)[t].i
    ensures Schedule(n, draws)[t].j == Clamp(n - 1 - t, draws[t])
  {
  }

  lemma ScheduleInRange(n: nat, draws: seq<nat>, m: nat)
    requires ValidDraws(n, draws) && n <= m
    ensures InRange(Schedule(n, draws), m)
  {
    var sw := Schedule(n, draws);
    forall t | 0 <= t < |sw| ensures sw[t].i < m && sw[t].j < m {
      ScheduleIndices(n, draws, t);
    }
  }

  // ---------------------------------------------------------------------------
  // Properties of ApplySwaps

  /** A prefix of an in-range schedule is in range for any longer list. */
  lemma InRangePrefix(sw: seq<Swap>, k: nat, n: nat, m: nat)
    requires InRange(sw, n) && k <= |sw| && n <= m
    ensures InRange(sw[..k], m)
  {
    forall t | 0 <= t < k ensures sw[..k][t].i < m && sw[..k][t].j < m {
      assert sw[..k][t] == sw[t];
    }
  }

  /** Position p of the result holds the input element at Src(sw, p). */
  lemma {:induction false} ApplySwapsAt<T>(s: seq<T>, sw: seq<Swap>, p: nat)
    requires InRange(sw, |s|) && p < |s|
    ensures |ApplySwaps(s, sw)| == |s|
    ensures Src(sw, p) < |s|
    ensures ApplySwaps(s, sw)[p] == s[Src(sw, p)]
    decreases |sw|
  {
    if sw != [] {
      var s1 := SwapAt(s, sw[0].i, sw[0].j);
      ApplySwapsAt(s1, sw[1..], p);
    }
  }

  /** One swap keeps the multiset of elements. */
  lemma SwapKeepsMultiset<T>(s: seq<T>, i: nat, j: nat)
    requires i < |s| && j < |s|
    ensures multiset(SwapAt(s, i, j)) == multiset(s)
  {
    var s1 := s[i := s[j]];
    var m0, m1 := multiset(s), multiset(s1);
    assert m1 == m0 - multiset{s[i]} + multiset{s[j]};
    assert s1[j] == s[j];
    assert multiset(SwapAt(s, i, j)) == m1 - multiset{s[j]} + multiset{s[i]};
    assert s[i] in m0;
  }

  /** Swapping keeps the multiset of elements: the result is a permutation. */
  lemma {:induction false} ApplySwapsPermutes<T>(s: seq<T>, sw: seq<Swap>)
    requires InRange(sw, |s|)
    ensures multiset(ApplySwaps(s, sw)) == multiset(s)
    decreases |sw|
  {
    if sw != [] {
      var i, j := sw[0].i, sw[0].j;
      var s1 := SwapAt(s, i, j);
      SwapKeepsMultiset(s, i, j);
      ApplySwapsPermutes(s1, sw[1..]);
    }
  }

  /** Performing one more swap at the end. */
  lemma {:induction false} ApplySwapsSnoc<T>(s: seq<T>, sw: seq<Swap>, w: Swap)
    requires InRange(sw + [w], |s|)
    ensures InRange(sw, |s|)
    ensures w.i < |s| && w.j < |s|
    ensures ApplySwaps(s, sw + [w]) == SwapAt(ApplySwaps(s, sw), w.i, w.j)
    decreases |sw|
  {
    assert InRange(sw, |s|) by {
      forall t | 0 <= t < |sw| ensures sw[t].i < |s| && sw[t].j < |s| {
        assert sw[t] == (sw + [w])[t];
      }
    }
    assert (sw + [w])[|sw|] == w;
    if sw == [] {
      assert [w][1..] == [];
    } else {
      var s1 := SwapAt(s, sw[0].i, sw[0].j);
      assert (sw + [w])[0] == sw[0];
      assert (sw + [w])[1..] == sw[1..] + [w];
      ApplySwapsSnoc(s1, sw[1..], w);
    }
  }

  /** Indices that no swap mentions are left alone. */
  lemma {:induction false} SrcOutside(sw: seq<Swap>, n: nat, p: nat)
    requires InRange(sw, n) && n <= p
    ensures Src(sw, p) == p
    decreases |sw|
  {
    if sw != [] {
      SrcOutside(sw[1..], n, p);
    }
  }

  /** Src is injective: distinct positions come from distinct inputs. */
  lemma {:induction false} SrcInjective(sw: seq<Swap>, p: nat, q: nat)
    requires p != q
    ensures Src(sw, p) != Src(sw, q)
    decreases |sw|
  {
    if sw != [] {
      SrcInjective(sw[1..], p, q);
    }
  }

  /** Src is onto [0, n): every input element ends up somewhere. */
  lemma {:induction false} SrcOnto(sw: seq<Swap>, n: nat, q: nat)
    requires InRange(sw, n) && q < n
    ensures exists p :: 0 <= p < n && Src(sw, p) == q
    decreases |sw|
  {
    if sw == [] {
      assert Src(sw, q) == q;
    } else {
      var i, j := sw[0].i, sw[0].j;
      var q1 := Transpose(i, j, q);
      assert InRange(sw[1..], n) by {
        forall t | 0 <= t < |sw[1..]| ensures sw[1..][t].i < n && sw[1..][t].j < n {
          assert sw[1..][t] == sw[t + 1];
        }
      }
      SrcOnto(sw[1..], n, q1);
      var p :| 0 <= p < n && Src(sw[1..], p) == q1;
      assert Src(sw, p) == Transpose(i, j, q1) == q;
    }
  }

  // ---------------------------------------------------------------------------
  // The shuffle on one list, as a function

  /** The list a shuffle with these draws produces, for a first list of length n. */
  function Shuffled<T>(s: seq<T>, n: nat, draws: seq<nat>): (r: seq<T>)
    requires ValidDraws(n, draws) && n <= |s|
  {
    ScheduleInRange(n, draws, |s|);
    ApplySwaps(s, Schedule(n, draws))
  }

  /** A shuffled list is a permutation of its input, of the same length. */
  lemma ShuffledIsPermutation<T>(s: seq<T>, n: nat, draws: seq<nat>)
    requires ValidDraws(n, draws) && n <= |s|
    ensures |Shuffled(s, n, draws)| == |s|
    ensures multiset(Shuffled(s, n, draws)) == multiset(s)
  {
    ScheduleInRange(n, draws, |s|);
    ApplySwapsPermutes(s, Schedule(n, draws));
  }

  /** Lists whose first list has at most two elements are left unchanged. */
  lemma ShortListsUnchanged<T>(s: seq<T>, n: nat, draws: seq<nat>)
    requires ValidDraws(n, draws) && n <= |s| && n <= 2
    ensures Shuffled(s, n, draws) == s
  {
    assert Schedule(n, draws) == [];
  }

  /** Positions at or beyond n are never touched. */
  lemma TailUntouched<T>(s: seq<T>, n: nat, draws: seq<nat>, p: nat)
    requires ValidDraws(n, draws) && n <= p < |s|
    ensures |Shuffled(s, n, draws)| == |s| && Shuffled(s, n, draws)[p] == s[p]
  {
    var sw := Schedule(n, draws);
    ScheduleInRange(n, draws, |s|);
    ScheduleInRange(n, draws, n);
    ApplySwapsAt(s, sw, p);
    SrcOutside(sw, n, p);
  }

  /** Alignment: for lists shuffled with the same draws, position p of each
      holds the element the input had at one common index q < n (or p itself
      beyond n), so the p-th tuple across the lists is an input tuple. */
  lemma Aligned<T>(a: seq<T>, b: seq<T>, n: nat, draws: seq<nat>, p: nat)
    requires ValidDraws(n, draws) && n <= |a| && n <= |b| && p < |a| && p < |b|
    ensures |Shuffled(a, n, draws)| == |a| && |Shuffled(b, n, draws)| == |b|
    ensures exists q :: 0 <= q < |a| && q < |b| &&
              Shuffled(a, n, draws)[p] == a[q] && Shuffled(b, n, draws)[p] == b[q]
  {
    var sw := Schedule(n, draws);
    ScheduleInRange(n, draws, |a|);
    ScheduleInRange(n, draws, |b|);
    ScheduleInRange(n, draws, n);
    ApplySwapsAt(a, sw, p);
    ApplySwapsAt(b, sw, p);
    var q := Src(sw, p);
    assert Shuffled(a, n, draws)[p] == a[q] && Shuffled(b, n, draws)[p] == b[q];
  }

  // ---------------------------------------------------------------------------
  // The shuffle in place, over several arrays

  predicate Distinct<T>(lists: seq<array<T>>) {
    forall k, m :: 0 <= k < m < |lists| ==> lists[k] != lists[m]
  }

  /** Every list is at least as long as the first one. */
  predicate LongEnough<T>(lists: seq<array<T>>)
    requires |lists| > 0
  {
    forall k :: 0 <= k < |lists| ==> lists[0].Length <= lists[k].Length
  }

  /** The index of the first list shorter than n (|lists| when there is none). */
  function FirstShort<T>(lists: seq<array<T>>, n: nat): (m: nat)
    ensures m <= |lists|
    ensures forall k :: 0 <= k < m ==> n <= lists[k].Length
    ensures m < |lists| ==> lists[m].Length < n
    decreases |lists|
  {
    if lists == [] then 0
    else if lists[0].Length < n then 0
    else 1 + FirstShort(lists[1..], n)
  }

  lemma {:induction false} FirstShortIs<T>(lists: seq<array<T>>, n: nat, k: nat)
    requires k < |lists| && lists[k].Length < n
    requires forall m :: 0 <= m < k ==> n <= lists[m].Length
    ensures FirstShort(lists, n) == k
    decreases k
  {
    if k > 0 {
      FirstShortIs(lists[1..], n, k - 1);
    }
  }

  /** One step of the loop: `lst[i], lst[j] = lst[j], lst[i]` for each list in
      turn, stopping at the first list too short for index i. Returns the index
      of that list, or |lists| when every list was swapped. */
  method SwapInEach<T>(lists: seq<array<T>>, i: nat, j: nat) returns (short: nat)
    requires Distinct(lists) && j <= i
    modifies set k | 0 <= k < |lists| :: lists[k]
    ensures short == FirstShort(lists, i + 1)
    ensures forall m :: 0 <= m < short ==> lists[m][..] == SwapAt(old(lists[m][..]), i, j)
    ensures forall m :: short <= m < |lists| ==> lists[m][..] == old(lists[m][..])
  {
    var k := 0;
    while k < |lists|
      invariant 0 <= k <= |lists|
      invariant forall m :: 0 <= m < k ==> i < lists[m].Length
      invariant forall m :: 0 <= m < k ==> lists[m][..] == SwapAt(old(lists[m][..]), i, j)
      invariant forall m :: k <= m < |lists| ==> lists[m][..] == old(lists[m][..])
    {
      var lst := lists[k];
      if lst.Length <= i {
        FirstShortIs(lists, i + 1, k);
        return k;
      }
      lst[i], lst[j] := lst[j], lst[i];
      k := k + 1;
    }
    FirstShortNone(lists, i + 1);
    return k;
  }

  lemma {:induction false} FirstShortNone<T>(lists: seq<array<T>>, n: nat)
    requires forall m :: 0 <= m < |lists| ==> n <= lists[m].Length
    ensures FirstShort(lists, n) == |lists|
    decreases |lists|
  {
    if lists != [] {
      FirstShortNone(lists[1..], n);
    }
  }

  /** One more step of the schedule on one list. */
  lemma StepList<T>(s0: seq<T>, cur: seq<T>, sched: seq<Swap>, t: nat)
    requires t < |sched| && InRange(sched[..t], |s0|) && sched[t].i < |s0| && sched[t].j < |s0|
    requires cur == ApplySwaps(s0, sched[..t])
    ensures InRange(sched[..t + 1], |s0|)
    ensures SwapAt(cur, sched[t].i, sched[t].j) == ApplySwaps(s0, sched[..t + 1])
  {
    var pre, w := sched[..t], sched[t];
    assert InRange(pre + [w], |s0|) by {
      forall u | 0 <= u < |pre + [w]|
        ensures (pre + [w])[u].i < |s0| && (pre + [w])[u].j < |s0|
      {
        if u < |pre| {
          assert (pre + [w])[u] == pre[u];
        }
      }
    }
    ApplySwapsSnoc(s0, pre, w);
    TakeSnoc(sched, t);
  }

  lemma TakeSnoc<T>(s: seq<T>, t: nat)
    requires t < |s|
    ensures s[..t + 1] == s[..t] + [s[t]]
  {
  }

  /** permute(rng, *lists). Raises TypeError with no lists. A list shorter
      than the first makes the first step raise IndexError; the lists before
      it have then already had that step's swap. Lists are distinct objects. */
  method Permute<T>(lists: seq<array<T>>, draws: seq<nat>) returns (r: Result<()>)
    requires Distinct(lists)
    requires |lists| > 0 ==> ValidDraws(lists[0].Length, draws)
    modifies set k | 0 <= k < |lists| :: lists[k]
    ensures |lists| == 0 ==> r == Err(NoLists)
    ensures r.Err? ==> r.error == NoLists || r.error == ListTooShort
    ensures |lists| > 0 ==> (r.Ok? <==> lists[0].Length <= 2 || LongEnough(lists))
    ensures r.Ok? ==> forall k :: 0 <= k < |lists| ==>
              if lists[0].Length <= lists[k].Length
              then lists[k][..] == Shuffled(old(lists[k][..]), lists[0].Length, draws)
              else lists[k][..] == old(lists[k][..])
    ensures r == Err(ListTooShort) ==>
              var n := lists[0].Length;
              n >= 3 && !LongEnough(lists) &&
              forall k :: 0 <= k < |lists| ==>
                lists[k][..] == if k < FirstShort(lists, n)
                                then SwapAt(old(lists[k][..]), n - 1, Clamp(n - 1, draws[0]))
                                else old(lists[k][..])
  {
    if |lists| == 0 {
      return Err(NoLists);
    }
    var short := SwapLoop(lists, draws, lists[0].Length);
    if short < |lists| {
      return Err(ListTooShort);
    }
    return Ok(());
  }

  /** The loop of permute over lists whose first has length n: i runs from
      n-1 down to 2, and each step swaps i and the clamped draw j in every
      list. Returns |lists| when the loop completes, or the index of the
      list that was too short for the first step, which raised there. */
  method SwapLoop<T>(lists: seq<array<T>>, draws: seq<nat>, n: nat) returns (short: nat)
    requires Distinct(lists) && |lists| > 0 && n == lists[0].Length && ValidDraws(n, draws)
    modifies set k | 0 <= k < |lists| :: lists[k]
    ensures short <= |lists|
    ensures short == |lists| <==> n <= 2 || LongEnough(lists)
    ensures short == |lists| ==> forall k :: 0 <= k < |lists| ==>
              if n <= lists[k].Length
              then lists[k][..] == Shuffled(old(lists[k][..]), n, draws)
              else lists[k][..] == old(lists[k][..])
    ensures short < |lists| ==>
              n >= 3 && short == FirstShort(lists, n) &&
              forall k :: 0 <= k < |lists| ==>
                lists[k][..] == if k < short then SwapAt(old(lists[k][..]), n - 1, Clamp(n - 1, draws[0]))
                                else old(lists[k][..])
  {
    ghost var sched := Schedule(n, draws);
    if n <= 2 {
      assert sched == [];
      return |lists|;
    }
    // The first step, i = n-1: the only one that can meet a short list.
    var j0 := Clamp(n - 1, draws[0]);
    var k := SwapInEach(lists, n - 1, j0);
    if k < |lists| {
      return k;
    }
    SwapRest(lists, draws, n);
    forall m | 0 <= m < |lists|
      ensures lists[m][..] == Shuffled(old(lists[m][..]), n, draws)
    {
      ScheduleInRange(n, draws, lists[m].Length);
      assert sched[0] == Swap(n - 1, j0);
    }
    return |lists|;
  }

  /** The steps i = n-2 down to 2 of the loop, on lists all long enough: each
      list ends as the rest of the schedule applied to it. */
  method SwapRest<T>(lists: seq<array<T>>, draws: seq<nat>, n: nat)
    requires Distinct(lists) && n >= 3 && ValidDraws(n, draws)
    requires forall m :: 0 <= m < |lists| ==> n <= lists[m].Length
    modifies set k | 0 <= k < |lists| :: lists[k]
    ensures forall m :: 0 <= m < |lists| ==>
              InRange(Schedule(n, draws)[1..], lists[m].Length) &&
              lists[m][..] == ApplySwaps(old(lists[m][..]), Schedule(n, draws)[1..])
  {
    ghost var rest := Schedule(n, draws)[1..];
    var i := n - 2;
    var u := 0;
    assert rest[..0] == [];
    while i > 1
      invariant 0 <= u <= |rest| && i == n - 2 - u
      invariant forall m :: 0 <= m < |lists| ==>
                  InRange(rest[..u], lists[m].Length) &&
                  lists[m][..] == ApplySwaps(old(lists[m][..]), rest[..u])
    {
      var j := Clamp(i, draws[u + 1]);
      assert rest[u] == Swap(i, j);
      label Step:
      var k := SwapInEach(lists, i, j);
      FirstShortNone(lists, i + 1);
      forall m | 0 <= m < |lists|
        ensures InRange(rest[..u + 1], lists[m].Length)
        ensures lists[m][..] == ApplySwaps(old(lists[m][..]), rest[..u + 1])
      {
        StepList(old(lists[m][..]), old@Step(lists[m][..]), rest, u);
      }
      i := i - 1;
      u := u + 1;
    }
    assert rest[..u] == rest;
  }

  // ---------------------------------------------------------------------------
  // The loop as written misses orders; the full Knuth shuffle does not

  /** As written the loop stops at i = 2, so the swap for i = 1 never
      happens: from [0, 1, 2] the only step swaps position 2 with j <= 2,
      and the order [1, 0, 2] is out of reach whatever the draws. */
  lemma AsWrittenMissesOrder(draws: seq<nat>)
    requires ValidDraws(3, draws)
    ensures Shuffled([0, 1, 2], 3, draws) != [1, 0, 2]
  {
    var sw := Schedule(3, draws);
    assert sw == [Swap(2, Clamp(2, draws[0]))];
    var j := sw[0].j;
    ScheduleInRange(3, draws, 3);
    assert sw[1..] == [];
    ApplySwapsAt([0, 1, 2], sw, 0);
    ApplySwapsAt([0, 1, 2], sw, 2);
    assert Src(sw, 2) == j && Src(sw, 0) == Transpose(2, j, 0);
    // Position 2 keeps 2 only if j == 2, and then position 0 keeps 0.
  }

  /** Number of steps of the full loop, range(n-1, 0, -1). */
  function NumFullSteps(n: nat): nat { if n == 0 then 0 else n - 1 }

  /** Step t of the full loop handles i = n-1-t; its raw draw lies in [0, i+1]. */
  predicate ValidFullDraws(n: nat, draws: seq<nat>) {
    |draws| >= NumFullSteps(n) &&
    forall t :: 0 <= t < NumFullSteps(n) ==> draws[t] <= n - t
  }

  /** The swaps of the full Knuth shuffle, i = n-1 down to 1. */
  function FullSchedule(n: nat, draws: seq<nat>): (sw: seq<Swap>)
    requires ValidFullDraws(n, draws)
    ensures |sw| == NumFullSteps(n)
    ensures forall t :: 0 <= t < |sw| ==> sw[t].i == n - 1 - t
  {
    seq(NumFullSteps(n), t requires 0 <= t < NumFullSteps(n) => Swap(n - 1 - t, Clamp(n - 1 - t, draws[t])))
  }

  lemma FullScheduleAt(n: nat, draws: seq<nat>, t: nat)
    requires ValidFullDraws(n, draws) && t < NumFullSteps(n)
    ensures FullSchedule(n, draws)[t] == Swap(n - 1 - t, Clamp(n - 1 - t, draws[t]))
  {
  }

  lemma FullScheduleInRange(n: nat, draws: seq<nat>, m: nat)
    requires ValidFullDraws(n, draws) && n <= m
    ensures InRange(FullSchedule(n, draws), m)
  {
  }

  /** The list the full shuffle produces. */
  function FullShuffled<T>(s: seq<T>, draws: seq<nat>): (r: seq<T>)
    requires ValidFullDraws(|s|, draws)
  {
    FullScheduleInRange(|s|, draws, |s|);
    ApplySwaps(s, FullSchedule(|s|, draws))
  }

  /** perm lists each index of [0, |perm|) exactly once. */
  predicate IsPerm(perm: seq<nat>) {
    (forall p :: 0 <= p < |perm| ==> perm[p] < |perm|) &&
    (forall p, q :: 0 <= p < q < |perm| ==> perm[p] != perm[q])
  }

  /** What remains to be done on [0, n-1) once step i = n-1 has swapped
      perm[n-1] into the last position. */
  function SubPerm(perm: seq<nat>): (sub: seq<nat>)
    requires IsPerm(perm) && |perm| >= 1
    ensures |sub| == |perm| - 1
    ensures forall p :: 0 <= p < |sub| ==> sub[p] == Transpose(|perm| - 1, perm[|perm| - 1], perm[p])
    ensures IsPerm(sub)
  {
    var n, j := |perm|, perm[|perm| - 1];
    seq(n - 1, p requires 0 <= p < n - 1 => Transpose(n - 1, j, perm[p]))
  }

  /** The draws under which the full shuffle produces the order perm. */
  function DrawsFor(perm: seq<nat>): (d: seq<nat>)
    requires IsPerm(perm)
    ensures |d| == NumFullSteps(|perm|)
    ensures forall t :: 0 <= t < |d| ==> d[t] <= |perm| - 1 - t
    decreases |perm|
  {
    if |perm| <= 1 then [] else [perm[|perm| - 1]] + DrawsFor(SubPerm(perm))
  }

  /** The full schedule for n with first draw j is the swap of n-1 with j,
      then the full schedule for n-1 on the remaining draws. */
  lemma FullScheduleCons(n: nat, j: nat, d: seq<nat>)
    requires n >= 2 && j <= n - 1 && ValidFullDraws(n - 1, d)
    ensures ValidFullDraws(n, [j] + d)
    ensures FullSchedule(n, [j] + d) == [Swap(n - 1, j)] + FullSchedule(n - 1, d)
  {
    var d0 := [j] + d;
    assert ValidFullDraws(n, d0) by {
      forall t | 0 <= t < NumFullSteps(n) ensures d0[t] <= n - t {
        if t > 0 {
          assert d0[t] == d[t - 1];
        }
      }
    }
    var sw, sw' := FullSchedule(n, d0), FullSchedule(n - 1, d);
    FullScheduleAt(n, d0, 0);
    forall t | 1 <= t < n - 1 ensures sw[t] == sw'[t - 1] {
      assert d0[t] == d[t - 1];
      FullScheduleAt(n, d0, t);
      FullScheduleAt(n - 1, d, t - 1);
    }
    assert sw == [Swap(n - 1, j)] + sw';
  }

  /** Under DrawsFor(perm), position p draws from input position perm[p]. */
  lemma {:induction false} DrawsForSrc(perm: seq<nat>, p: nat)
    requires IsPerm(perm) && p < |perm|
    ensures ValidFullDraws(|perm|, DrawsFor(perm))
    ensures Src(FullSchedule(|perm|, DrawsFor(perm)), p) == perm[p]
    decreases |perm|
  {
    var n := |perm|;
    if n == 1 {
      assert FullSchedule(n, DrawsFor(perm)) == [];
    } else {
      var sub := SubPerm(perm);
      assert DrawsFor(perm) == [perm[n - 1]] + DrawsFor(sub);
      FullScheduleCons(n, perm[n - 1], DrawsFor(sub));
      var rest := FullSchedule(n - 1, DrawsFor(sub));
      assert FullSchedule(n, DrawsFor(perm))[1..] == rest;
      if p == n - 1 {
        FullScheduleInRange(n - 1, DrawsFor(sub), n - 1);
        SrcOutside(rest, n - 1, n - 1);
      } else {
        DrawsForSrc(sub, p);
      }
    }
  }

  /** Every order of a list is reached by the full shuffle under some draws. */
  lemma FullShuffleReachesEveryOrder<T>(s: seq<T>, perm: seq<nat>, p: nat)
    requires IsPerm(perm) && |perm| == |s| && p < |s|
    ensures ValidFullDraws(|s|, DrawsFor(perm))
    ensures |FullShuffled(s, DrawsFor(perm))| == |s|
    ensures FullShuffled(s, DrawsFor(perm))[p] == s[perm[p]]
  {
    DrawsForSrc(perm, p);
    FullScheduleInRange(|s|, DrawsFor(perm), |s|);
    ApplySwapsAt(s, FullSchedule(|s|, DrawsFor(perm)), p);
  }

  /** The corrected loop on one list: i runs from n-1 down to 1. */
  method KnuthShuffle<T>(a: array<T>, draws: seq<nat>)
    requires ValidFullDraws(a.Length, draws)
    modifies a
    ensures a[..] == FullShuffled(old(a[..]), draws)
  {
    ghost var sched := FullSchedule(a.Length, draws);
    FullScheduleInRange(a.Length, draws, a.Length);
    var i := a.Length - 1;
    var u := 0;
    assert sched[..0] == [];
    while i > 0
      invariant 0 <= u <= |sched| && i == a.Length - 1 - u
      invariant InRange(sched[..u], a.Length)
      invariant a[..] == ApplySwaps(old(a[..]), sched[..u])
    {
      var j := Clamp(i, draws[u]);
      assert sched[u] == Swap(i, j);
      StepList(old(a[..]), a[..], sched, u);
      a[i], a[j] := a[j], a[i];
      i := i - 1;
      u := u + 1;
    }
    assert sched[..u] == sched;
  }
}
