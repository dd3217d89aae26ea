/** Best-fit placement of processes in blocks, and how far it is from the best possible one. */
module BestFit {

  // ---- the placement on values ----

  /** The first of the smallest blocks the process fits in, or -1 if it fits in none. */
  predicate IsBest(sizes: seq<int>, p: int, best: int) {
    if best == -1 then forall j :: 0 <= j < |sizes| ==> sizes[j] < p
    else
      && 0 <= best < |sizes| && sizes[best] >= p
      && (forall j :: 0 <= j < |sizes| && sizes[j] >= p ==> sizes[best] <= sizes[j])
      && (forall j :: 0 <= j < best && sizes[j] >= p ==> sizes[best] < sizes[j])
  }

  function Best(sizes: seq<int>, p: int): (best: int)
    ensures IsBest(sizes, p, best)
  {
    if sizes == [] then -1
    else
      var k := |sizes| - 1;
      var best := Best(sizes[..k], p);
      if sizes[k] >= p && (best == -1 || sizes[best] > sizes[k]) then k else best
  }

  lemma BestUnique(sizes: seq<int>, p: int, a: int, b: int)
    requires IsBest(sizes, p, a) && IsBest(sizes, p, b)
    ensures a == b
  {
    assert a != -1 && b != -1 ==> sizes[a] == sizes[b];
  }

  /** What is left of the blocks, and the block of each process or -1. */
  datatype Placement = Placement(sizes: seq<int>, allocation: seq<int>)

  function Place(s: Placement, p: int): Placement {
    var best := Best(s.sizes, p);
    Placement(if best == -1 then s.sizes else s.sizes[best := s.sizes[best] - p], s.allocation + [best])
  }

  function Run(blocks: seq<int>, ps: seq<int>): (s: Placement)
    ensures |s.sizes| == |blocks| && |s.allocation| == |ps|
  {
    if ps == [] then Placement(blocks, [])
    else Place(Run(blocks, ps[..|ps| - 1]), ps[|ps| - 1])
  }

  /** Every process has a block of the m, or none. */
  predicate Within(allocation: seq<int>, m: nat) {
    forall k :: 0 <= k < |allocation| ==> -1 <= allocation[k] < m
  }

  /** The total size of the processes in block j. */
  function Load(ps: seq<int>, allocation: seq<int>, j: int): int
    requires |ps| == |allocation|
  {
    if ps == [] then 0
    else
      var k := |ps| - 1;
      Load(ps[..k], allocation[..k], j) + if allocation[k] == j then ps[k] else 0
  }

  lemma LoadAppend(ps: seq<int>, allocation: seq<int>, p: int, b: int, j: int)
    requires |ps| == |allocation|
    ensures Load(ps + [p], allocation + [b], j) == Load(ps, allocation, j) + if b == j then p else 0
  {
    assert (ps + [p])[..|ps|] == ps && (allocation + [b])[..|ps|] == allocation;
  }

  /** The steps of a run: all processes but the last, then the last. */
  lemma RunStep(blocks: seq<int>, ps: seq<int>)
    requires ps != []
    ensures Run(blocks, ps) == Place(Run(blocks, ps[..|ps| - 1]), ps[|ps| - 1])
    ensures ps == ps[..|ps| - 1] + [ps[|ps| - 1]]
  {
    hide Best, Place, IsBest;
    var n := |ps| - 1;
    assert ps[..n] + [ps[n]] == ps;
  }

  /** Capacity is conserved: a block has lost exactly what was placed in it, and never more than it had. */
  lemma {:induction false} Conserved(blocks: seq<int>, ps: seq<int>)
    ensures var s := Run(blocks, ps);
      && Within(s.allocation, |blocks|)
      && (forall j :: 0 <= j < |blocks| ==> s.sizes[j] + Load(ps, s.allocation, j) == blocks[j])
      && ((forall j :: 0 <= j < |blocks| ==> blocks[j] >= 0) ==> forall j :: 0 <= j < |blocks| ==> s.sizes[j] >= 0)
  {
    if ps != [] {
      var before, p := Run(blocks, ps[..|ps| - 1]), ps[|ps| - 1];
      RunStep(blocks, ps);
      Conserved(blocks, ps[..|ps| - 1]);
      forall j | 0 <= j < |blocks|
        ensures Run(blocks, ps).sizes[j] + Load(ps, Run(blocks, ps).allocation, j) == blocks[j]
      {
        LoadAppend(ps[..|ps| - 1], before.allocation, p, Best(before.sizes, p), j);
      }
    }
  }

  /** A process without a block fits in no block, even at the end. */
  lemma {:induction false} Unplaced(blocks: seq<int>, ps: seq<int>, k: nat, j: nat)
    requires forall i :: 0 <= i < |ps| ==> ps[i] >= 0
    requires k < |ps| && j < |blocks| && Run(blocks, ps).allocation[k] == -1
    ensures Run(blocks, ps).sizes[j] < ps[k]
  {
    RunStep(blocks, ps);
    if k < |ps| - 1 {
      Unplaced(blocks, ps[..|ps| - 1], k, j);
    }
  }

  // ---- blocks of one size ----

  /** Of two blocks in use neither could have taken the load of the other. */
  predicate PairsOverflow(ps: seq<int>, allocation: seq<int>, capacity: int)
    requires |ps| == |allocation|
  {
    forall i, j :: i in allocation && j in allocation && 0 <= i < j ==>
      Load(ps, allocation, i) + Load(ps, allocation, j) > capacity
  }

  lemma {:induction false} UsedIsLoaded(ps: seq<int>, allocation: seq<int>, j: int)
    requires |ps| == |allocation| && forall i :: 0 <= i < |ps| ==> ps[i] > 0
    ensures Load(ps, allocation, j) >= 0
    ensures Load(ps, allocation, j) > 0 <==> j in allocation
  {
    if ps != [] {
      var k := |ps| - 1;
      UsedIsLoaded(ps[..k], allocation[..k], j);
      assert allocation == allocation[..k] + [allocation[k]];
    }
  }

  lemma {:induction false} AnyFit(blocks: seq<int>, ps: seq<int>, capacity: int)
    requires forall j :: 0 <= j < |blocks| ==> blocks[j] == capacity
    requires forall i :: 0 <= i < |ps| ==> ps[i] > 0
    ensures PairsOverflow(ps, Run(blocks, ps).allocation, capacity)
  {
    if ps != [] {
      var rest, p := ps[..|ps| - 1], ps[|ps| - 1];
      var before := Run(blocks, rest);
      var best := Best(before.sizes, p);
      RunStep(blocks, ps);
      AnyFit(blocks, rest, capacity);
      Conserved(blocks, rest);
      var after := before.allocation + [best];
      forall i, j | i in after && j in after && 0 <= i < j
        ensures Load(ps, after, i) + Load(ps, after, j) > capacity
      {
        LoadAppend(rest, before.allocation, p, best, i);
        LoadAppend(rest, before.allocation, p, best, j);
        UsedIsLoaded(rest, before.allocation, i);
        UsedIsLoaded(rest, before.allocation, j);
      }
    }
  }

  /** The total size of the placed processes. */
  function Placed(ps: seq<int>, allocation: seq<int>): int
    requires |ps| == |allocation|
  {
    if ps == [] then 0
    else
      var k := |ps| - 1;
      Placed(ps[..k], allocation[..k]) + if allocation[k] == -1 then 0 else ps[k]
  }

  /** The loads of the blocks in use among the first m. */
  function Loads(ps: seq<int>, allocation: seq<int>, m: nat): (ls: seq<int>)
    requires |ps| == |allocation|
    ensures |ls| == BlocksUsed(allocation, m)
  {
    if m == 0 then []
    else Loads(ps, allocation, m - 1) + if m - 1 in allocation then [Load(ps, allocation, m - 1)] else []
  }

  lemma LoadsStep(ps: seq<int>, allocation: seq<int>, m: nat)
    requires |ps| == |allocation| && m > 0
    ensures Loads(ps, allocation, m)
         == if m - 1 in allocation then Loads(ps, allocation, m - 1) + [Load(ps, allocation, m - 1)]
            else Loads(ps, allocation, m - 1)
  {
  }

  function BlocksUsed(allocation: seq<int>, m: nat): (n: nat)
    ensures n <= m
  {
    if m == 0 then 0 else BlocksUsed(allocation, m - 1) + if m - 1 in allocation then 1 else 0
  }

  function Total(ls: seq<int>): int {
    if ls == [] then 0 else Total(ls[..|ls| - 1]) + ls[|ls| - 1]
  }

  lemma TotalAppend(ls: seq<int>, l: int)
    ensures Total(ls + [l]) == Total(ls) + l
  {
    assert (ls + [l])[..|ls|] == ls;
  }

  /** Adding a process adds its size to the loads of the first m blocks, if it is in one of them. */
  lemma {:induction false} LoadsAppend(ps: seq<int>, allocation: seq<int>, p: int, b: int, m: nat)
    requires |ps| == |allocation| && p > 0 && forall i :: 0 <= i < |ps| ==> ps[i] > 0
    ensures Total(Loads(ps + [p], allocation + [b], m))
         == Total(Loads(ps, allocation, m)) + if 0 <= b < m then p else 0
  {
    if m > 0 {
      assert m - 1 in allocation + [b] <==> m - 1 in allocation || m - 1 == b;
      hide Load, Total, BlocksUsed;
      LoadsAppend(ps, allocation, p, b, m - 1);
      LoadAppend(ps, allocation, p, b, m - 1);
      UsedIsLoaded(ps, allocation, m - 1);
      TotalAppend(Loads(ps, allocation, m - 1), Load(ps, allocation, m - 1));
      TotalAppend(Loads(ps + [p], allocation + [b], m - 1), Load(ps + [p], allocation + [b], m - 1));
      LoadsStep(ps, allocation, m);
      LoadsStep(ps + [p], allocation + [b], m);
    }
  }

  /** The loads of the blocks in use make up all that was placed. */
  lemma {:induction false} LoadsArePlaced(ps: seq<int>, allocation: seq<int>, m: nat)
    requires |ps| == |allocation| && Within(allocation, m) && forall i :: 0 <= i < |ps| ==> ps[i] > 0
    ensures Total(Loads(ps, allocation, m)) == Placed(ps, allocation)
  {
    if ps == [] {
      NoLoads(m);
    } else {
      var k := |ps| - 1;
      LoadsArePlaced(ps[..k], allocation[..k], m);
      LoadsAppend(ps[..k], allocation[..k], ps[k], allocation[k], m);
      assert ps == ps[..k] + [ps[k]] && allocation == allocation[..k] + [allocation[k]];
    }
  }

  lemma {:induction false} NoLoads(m: nat)
    ensures Loads([], [], m) == []
  {
    if m > 0 {
      NoLoads(m - 1);
    }
  }

  /** Every load is the load of a block in use. */
  lemma {:induction false} LoadOfBlock(ps: seq<int>, allocation: seq<int>, m: nat, i: nat) returns (j: nat)
    requires |ps| == |allocation| && i < BlocksUsed(allocation, m)
    ensures j < m && j in allocation && Loads(ps, allocation, m)[i] == Load(ps, allocation, j)
    ensures i == BlocksUsed(allocation, j)
  {
    if i < BlocksUsed(allocation, m - 1) {
      j := LoadOfBlock(ps, allocation, m - 1, i);
    } else {
      j := m - 1;
    }
  }

  lemma {:induction false} UsedMonotone(allocation: seq<int>, i: nat, j: nat)
    requires i <= j
    ensures BlocksUsed(allocation, i) <= BlocksUsed(allocation, j)
    decreases j
  {
    if i < j {
      UsedMonotone(allocation, i, j - 1);
    }
  }

  /** Loads of which any two exceed the capacity are more than half of it on average. */
  lemma {:induction false} PairsAverage(ls: seq<int>, capacity: int)
    requires |ls| >= 2 && forall i, j :: 0 <= i < j < |ls| ==> ls[i] + ls[j] > capacity
    ensures 2 * Total(ls) > |ls| * capacity
  {
    var n := |ls|;
    assert Total(ls) == Total(ls[..n - 1]) + ls[n - 1];
    assert ls[..n - 1][..n - 2] == ls[..n - 2];
    assert Total(ls[..n - 1]) == Total(ls[..n - 2]) + ls[n - 2];
    assert ls[n - 2] + ls[n - 1] > capacity;
    if n == 2 {
      assert ls[..0] == [];
    } else if n == 3 {
      assert ls[..1][..0] == [] && Total(ls[..1]) == ls[0];
      assert ls[0] + ls[1] > capacity && ls[0] + ls[2] > capacity;
    } else {
      PairsAverage(ls[..n - 2], capacity);
      assert n * capacity == (n - 2) * capacity + 2 * capacity;
    }
  }

  lemma PairsOfLoads(ps: seq<int>, allocation: seq<int>, m: nat, capacity: int)
    requires |ps| == |allocation| && PairsOverflow(ps, allocation, capacity)
    ensures forall i, j :: 0 <= i < j < |Loads(ps, allocation, m)| ==>
              Loads(ps, allocation, m)[i] + Loads(ps, allocation, m)[j] > capacity
  {
    hide Load, Loads, BlocksUsed;
    var ls := Loads(ps, allocation, m);
    forall i, j | 0 <= i < j < |ls| ensures ls[i] + ls[j] > capacity {
      var a := LoadOfBlock(ps, allocation, m, i);
      var b := LoadOfBlock(ps, allocation, m, j);
      if b <= a {
        UsedMonotone(allocation, b, a);
      }
    }
  }

  /** The any-fit bound: two or more blocks in use are on average more than half full. */
  lemma PackingBound(blocks: seq<int>, ps: seq<int>, capacity: int)
    requires forall j :: 0 <= j < |blocks| ==> blocks[j] == capacity
    requires forall i :: 0 <= i < |ps| ==> ps[i] > 0
    ensures var s := Run(blocks, ps); var used := BlocksUsed(s.allocation, |blocks|);
      used >= 2 ==> used * capacity < 2 * Placed(ps, s.allocation)
  {
    var m, allocation := |blocks|, Run(blocks, ps).allocation;
    var used := BlocksUsed(allocation, m);
    hide Run, BlocksUsed, Placed, Load, Loads, Total, PairsOverflow;
    Conserved(blocks, ps);
    AnyFit(blocks, ps, capacity);
    LoadsArePlaced(ps, allocation, m);
    PairsOfLoads(ps, allocation, m, capacity);
    if used >= 2 {
      PairsAverage(Loads(ps, allocation, m), capacity);
    }
  }

  /** In numbers of blocks. */
  lemma BlocksBound(blocks: seq<int>, ps: seq<int>, capacity: nat)
    requires capacity > 0 && forall j :: 0 <= j < |blocks| ==> blocks[j] == capacity
    requires forall i :: 0 <= i < |ps| ==> ps[i] > 0
    ensures var s := Run(blocks, ps);
      BlocksUsed(s.allocation, |blocks|) <= 2 * Placed(ps, s.allocation) / capacity + 1
  {
    hide Run, BlocksUsed, Placed;
    var s := Run(blocks, ps);
    PackingBound(blocks, ps, capacity);
    var used, total := BlocksUsed(s.allocation, |blocks|), 2 * Placed(ps, s.allocation);
    PlacedNatural(ps, s.allocation);
    Quotient(if used >= 2 then used else 0, total, capacity);
  }

  lemma Quotient(n: nat, total: nat, capacity: nat)
    requires capacity > 0 && (n == 0 || n * capacity < total)
    ensures n <= total / capacity
  {
    var q := total / capacity;
    assert total < q * capacity + capacity;
    assert n * capacity < (q + 1) * capacity;
  }

  lemma {:induction false} PlacedNatural(ps: seq<int>, allocation: seq<int>)
    requires |ps| == |allocation| && forall i :: 0 <= i < |ps| ==> ps[i] > 0
    ensures Placed(ps, allocation) >= 0
  {
    if ps != [] {
      PlacedNatural(ps[..|ps| - 1], allocation[..|ps| - 1]);
    }
  }

  // ---- against any other placement ----

  lemma {:induction false} PlacedMore(ps: seq<int>, a: seq<int>, b: seq<int>)
    requires |ps| == |a| == |b| && forall i :: 0 <= i < |ps| ==> ps[i] > 0
    requires forall k :: 0 <= k < |ps| && a[k] != -1 ==> b[k] != -1
    ensures Placed(ps, a) <= Placed(ps, b)
  {
    if ps != [] {
      PlacedMore(ps[..|ps| - 1], a[..|ps| - 1], b[..|ps| - 1]);
    }
  }

  lemma {:induction false} TotalBounded(ls: seq<int>, capacity: int)
    requires forall i :: 0 <= i < |ls| ==> ls[i] <= capacity
    ensures Total(ls) <= |ls| * capacity
  {
    if ls != [] {
      TotalBounded(ls[..|ls| - 1], capacity);
      assert |ls| * capacity == (|ls| - 1) * capacity + capacity;
    }
  }

  /** A placement that overfills no block and places at least the same processes needs more than half
      of the blocks best fit uses. */
  lemma Competitive(blocks: seq<int>, ps: seq<int>, capacity: int, other: seq<int>)
    requires forall j :: 0 <= j < |blocks| ==> blocks[j] == capacity
    requires forall i :: 0 <= i < |ps| ==> ps[i] > 0
    requires |other| == |ps| && Within(other, |blocks|)
    requires forall j :: 0 <= j < |blocks| ==> Load(ps, other, j) <= capacity
    requires forall k :: 0 <= k < |ps| && Run(blocks, ps).allocation[k] != -1 ==> other[k] != -1
    ensures BlocksUsed(Run(blocks, ps).allocation, |blocks|) == 0
         || BlocksUsed(Run(blocks, ps).allocation, |blocks|) < 2 * BlocksUsed(other, |blocks|)
  {
    hide Run, BlocksUsed, Placed, Load, Loads, Total;
    var m, allocation := |blocks|, Run(blocks, ps).allocation;
    var used, theirs := BlocksUsed(allocation, m), BlocksUsed(other, m);
    PackingBound(blocks, ps, capacity);
    PlacedMore(ps, allocation, other);
    LoadsArePlaced(ps, other, m);
    var ls := Loads(ps, other, m);
    forall i | 0 <= i < |ls| ensures ls[i] <= capacity {
      var j := LoadOfBlock(ps, other, m, i);
    }
    TotalBounded(ls, capacity);
    if used >= 1 {
      var j := LoadOfBlock(ps, allocation, m, 0);
      var k :| 0 <= k < |ps| && allocation[k] == j;
      InUse(other, m, other[k]);
      UsedIsLoaded(ps, other, other[k]);
      if used >= 2 {
        Fewer(used, theirs, Placed(ps, allocation), Placed(ps, other), capacity);
      }
    }
  }

  lemma Fewer(used: nat, theirs: nat, placed: int, more: int, capacity: int)
    requires capacity > 0 && used * capacity < 2 * placed && placed <= more <= theirs * capacity
    ensures used < 2 * theirs
  {
    assert (2 * theirs - used) * capacity > 0;
  }

  lemma {:induction false} InUse(allocation: seq<int>, m: nat, j: int)
    requires 0 <= j < m && j in allocation
    ensures BlocksUsed(allocation, m) >= 1
  {
    if j < m - 1 {
      InUse(allocation, m - 1, j);
    }
  }

  // ---- in place ----

  /** How many of the processes lo to hi (excluded) are in block j. */
  function Count(allocation: seq<int>, j: int, lo: nat, hi: nat): nat {
    if allocation == [] then 0
    else
      var k := |allocation| - 1;
      Count(allocation[..k], j, lo, hi) + if lo <= k < hi && allocation[k] == j then 1 else 0
  }

  /** Every placed process is in exactly one of the three classes. */
  lemma {:induction false} ClassesAddUp(allocation: seq<int>, j: int, n: nat)
    requires |allocation| <= n
    ensures Count(allocation, j, 0, 250) + Count(allocation, j, 250, 300) + Count(allocation, j, 300, n)
         == Count(allocation, j, 0, n)
  {
    if allocation != [] {
      ClassesAddUp(allocation[..|allocation| - 1], j, n);
    }
  }

  /** The counter of every block. */
  ghost predicate Counts(counter: array<int>, allocation: seq<int>, lo: nat, hi: nat)
    reads counter
  {
    forall j :: 0 <= j < counter.Length ==> counter[j] == Count(allocation, j, lo, hi)
  }

  lemma CountAppend(allocation: seq<int>, b: int, j: int, lo: nat, hi: nat)
    ensures Count(allocation + [b], j, lo, hi)
         == Count(allocation, j, lo, hi) + if lo <= |allocation| < hi && b == j then 1 else 0
  {
    assert (allocation + [b])[..|allocation|] == allocation;
  }

  /** The first of the smallest blocks that process size fits in. */
  method Search(blockSize: array<int>, m: nat, p: int) returns (bestIdx: int)
    requires m <= blockSize.Length
    ensures bestIdx == Best(blockSize[..m], p)
  {
    bestIdx := -1;
    for j := 0 to m
      invariant IsBest(blockSize[..j], p, bestIdx)
    {
      if blockSize[j] >= p {
        if bestIdx == -1 {
          bestIdx := j;
        } else if blockSize[bestIdx] > blockSize[j] {
          bestIdx := j;
        }
      }
    }
    BestUnique(blockSize[..m], p, bestIdx, Best(blockSize[..m], p));
  }

  /** All four counters are right for the processes placed so far, out of n. */
  ghost predicate Tallied(small: array<int>, medium: array<int>, large: array<int>, all: array<int>,
                          allocation: seq<int>, n: nat)
    reads small, medium, large, all
  {
    && Counts(small, allocation, 0, 250) && Counts(medium, allocation, 250, 300)
    && Counts(large, allocation, 300, n) && Counts(all, allocation, 0, n)
  }

  /** Count process i, placed in block bestIdx, in one of the three classes and in all. */
  method Tally(small: array<int>, medium: array<int>, large: array<int>, all: array<int>, i: nat, bestIdx: nat,
               ghost before: seq<int>, ghost n: nat)
    requires small != medium && small != large && small != all && medium != large && medium != all && large != all
    requires small.Length == medium.Length == large.Length == all.Length && bestIdx < small.Length
    requires |before| == i < n && Tallied(small, medium, large, all, before, n)
    modifies small, medium, large, all
    ensures Tallied(small, medium, large, all, before + [bestIdx], n)
  {
    hide Count;
    forall j, lo: nat, hi: nat
      ensures Count(before + [bestIdx], j, lo, hi)
           == Count(before, j, lo, hi) + if lo <= i < hi && bestIdx == j then 1 else 0
    {
      CountAppend(before, bestIdx, j, lo, hi);
    }
    if i < 250 {
      small[bestIdx] := small[bestIdx] + 1;
    } else if i < 300 {
      medium[bestIdx] := medium[bestIdx] + 1;
    } else {
      large[bestIdx] := large[bestIdx] + 1;
    }
    all[bestIdx] := all[bestIdx] + 1;
  }

  /** A process without a block counts nowhere. */
  lemma Untallied(small: array<int>, medium: array<int>, large: array<int>, all: array<int>, before: seq<int>, n: nat)
    requires Tallied(small, medium, large, all, before, n)
    ensures Tallied(small, medium, large, all, before + [-1], n)
  {
    hide Count;
    forall j, lo: nat, hi: nat | 0 <= j
      ensures Count(before + [-1], j, lo, hi) == Count(before, j, lo, hi)
    {
      CountAppend(before, -1, j, lo, hi);
    }
  }

  /** Place process i of n. */
  method PlaceNext(blockSize: array<int>, m: nat, allocation: array<int>, i: nat, p: int,
                   small: array<int>, medium: array<int>, large: array<int>, all: array<int>)
    requires m <= blockSize.Length && i < allocation.Length && allocation[i] == -1
    requires small.Length == medium.Length == large.Length == all.Length == blockSize.Length
    requires Apart(blockSize, allocation, small, medium, large, all)
    requires Tallied(small, medium, large, all, allocation[..i], allocation.Length)
    modifies blockSize, allocation, small, medium, large, all
    ensures Placement(blockSize[..m], allocation[..i + 1])
         == Place(Placement(old(blockSize[..m]), old(allocation[..i])), p)
    ensures blockSize[m..] == old(blockSize[m..]) && allocation[i + 1..] == old(allocation[i + 1..])
    ensures Tallied(small, medium, large, all, allocation[..i + 1], allocation.Length)
  {
    hide Best, Tallied, IsBest;
    ghost var before := allocation[..i];
    var bestIdx := Search(blockSize, m, p);
    BestInRange(blockSize[..m], p);
    if bestIdx != -1 {
      allocation[i] := bestIdx;
      blockSize[bestIdx] := blockSize[bestIdx] - p;
      Tally(small, medium, large, all, i, bestIdx, before, allocation.Length);
    } else {
      Untallied(small, medium, large, all, before, allocation.Length);
    }
    assert allocation[..i + 1] == before + [bestIdx];
  }

  /** Six different lists. */
  predicate Apart(a: array<int>, b: array<int>, c: array<int>, d: array<int>, e: array<int>, f: array<int>) {
    && a != b && a != c && a != d && a != e && a != f
    && b != c && b != d && b != e && b != f
    && c != d && c != e && c != f && d != e && d != f && e != f
  }

  /** Place the first n processes in the first m blocks. */
  method PlaceAll(blockSize: array<int>, m: nat, processSize: seq<int>, n: nat)
    returns (allocation: array<int>, small: array<int>, medium: array<int>, large: array<int>, all: array<int>)
    requires m <= blockSize.Length && n <= |processSize|
    modifies blockSize
    ensures allocation.Length == n
    ensures small.Length == medium.Length == large.Length == all.Length == blockSize.Length
    ensures Placement(blockSize[..m], allocation[..]) == Run(old(blockSize[..m]), processSize[..n])
    ensures blockSize[m..] == old(blockSize[m..])
    ensures Tallied(small, medium, large, all, allocation[..], n)
  {
    hide Run, Place, Tallied;
    allocation := new int[n](_ => -1);
    small := new int[blockSize.Length](_ => 0);
    medium := new int[blockSize.Length](_ => 0);
    large := new int[blockSize.Length](_ => 0);
    all := new int[blockSize.Length](_ => 0);
    StartTally(small, medium, large, all, n);
    ghost var blocks := blockSize[..m];
    RunNothing(blocks);
    assert allocation[..0] == [] && processSize[..0] == [];
    for i := 0 to n
      invariant Placement(blockSize[..m], allocation[..i]) == Run(blocks, processSize[..i])
      invariant forall k :: 0 <= k < |allocation[i..]| ==> allocation[i..][k] == -1
      invariant blockSize[m..] == old(blockSize[m..])
      invariant Tallied(small, medium, large, all, allocation[..i], n)
    {
      assert allocation[i] == allocation[i..][0];
      ghost var rest := allocation[i..];
      RunNext(blocks, processSize, i);
      PlaceNext(blockSize, m, allocation, i, processSize[i], small, medium, large, all);
      assert allocation[i + 1..] == rest[1..];
    }
    assert allocation[..n] == allocation[..];
  }

  lemma BestInRange(sizes: seq<int>, p: int)
    ensures Best(sizes, p) == -1 || 0 <= Best(sizes, p) < |sizes|
  {
  }

  lemma RunNothing(blocks: seq<int>)
    ensures Run(blocks, []) == Placement(blocks, [])
  {
  }

  lemma RunNext(blocks: seq<int>, ps: seq<int>, i: nat)
    requires i < |ps|
    ensures Run(blocks, ps[..i + 1]) == Place(Run(blocks, ps[..i]), ps[i])
  {
    RunStep(blocks, ps[..i + 1]);
    assert ps[..i + 1][..i] == ps[..i];
  }

  lemma StartTally(small: array<int>, medium: array<int>, large: array<int>, all: array<int>, n: nat)
    requires forall j :: 0 <= j < small.Length ==> small[j] == 0
    requires forall j :: 0 <= j < medium.Length ==> medium[j] == 0
    requires forall j :: 0 <= j < large.Length ==> large[j] == 0
    requires forall j :: 0 <= j < all.Length ==> all[j] == 0
    ensures Tallied(small, medium, large, all, [], n)
  {
  }
}
