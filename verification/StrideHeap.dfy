/**
 The stride queue of proc.c: an array heap of processes, slots 1 to 64, least stride_count at
 the root.  The loops keep a hole that moves along one path; these functions are what they
 compute, and the lemmas say when that is a heap again.
 */
module StrideHeap {

  const NPROC: nat := 64
  const SLOTS: nat := NPROC + 1

  // No process in a slot.
  const NONE: int := -1

  // Slots 1 .. size hold processes, the rest are empty; slot 0 is never used.
  ghost predicate Queue(q: seq<int>, size: nat, count: seq<int>) {
    && |q| == SLOTS && |count| == NPROC && size <= NPROC && q[0] == NONE
    && (forall k :: 1 <= k <= size ==> 0 <= q[k] < NPROC)
    && (forall k :: size < k < SLOTS ==> q[k] == NONE)
  }

  // Every process counts no less than its parent.
  ghost predicate Heap(q: seq<int>, size: nat, count: seq<int>)
    requires Queue(q, size, count)
  {
    forall k :: 2 <= k <= size ==> count[q[k / 2]] <= count[q[k]]
  }

  // A heap but for slot h: nothing is said of what it holds, only that its children count no
  // less than its parent.
  ghost predicate HoleHeap(q: seq<int>, size: nat, count: seq<int>, h: nat)
    requires Queue(q, size, count)
  {
    && (forall k :: 2 <= k <= size && k != h && k / 2 != h ==> count[q[k / 2]] <= count[q[k]])
    && (forall k :: 4 <= k <= size && k / 2 == h ==> count[q[k / 4]] <= count[q[k]])
  }

  // p may sit in slot h under its parent.
  ghost predicate AboveOk(q: seq<int>, size: nat, count: seq<int>, h: nat, p: int)
    requires Queue(q, size, count) && 1 <= h <= size && 0 <= p < NPROC
  {
    h > 1 ==> count[q[h / 2]] <= count[p]
  }

  // p fits below what is in slot h's children.
  ghost predicate BelowOk(q: seq<int>, size: nat, count: seq<int>, h: nat, p: int)
    requires Queue(q, size, count) && 1 <= h <= size && 0 <= p < NPROC
  {
    && (2 * h <= size ==> count[p] <= count[q[2 * h]])
    && (2 * h + 1 <= size ==> count[p] <= count[q[2 * h + 1]])
  }

  lemma FillHole(q: seq<int>, size: nat, count: seq<int>, h: nat, p: int)
    requires Queue(q, size, count) && 1 <= h <= size && 0 <= p < NPROC
    requires HoleHeap(q, size, count, h) && AboveOk(q, size, count, h, p) && BelowOk(q, size, count, h, p)
    ensures Queue(q[h := p], size, count) && Heap(q[h := p], size, count)
  {
    forall k | 2 <= k <= size ensures count[q[h := p][k / 2]] <= count[q[h := p][k]] {
      assert k / 2 == h ==> k == 2 * h || k == 2 * h + 1;
    }
  }

  lemma OnlyThen(q: seq<int>, size: nat, count: seq<int>, h: nat, p: int)
    requires Queue(q, size, count) && 1 <= h <= size && 0 <= p < NPROC
    requires Queue(q[h := p], size, count) && Heap(q[h := p], size, count)
    ensures BelowOk(q, size, count, h, p)
  {
    var r := q[h := p];
    assert 2 * h <= size ==> count[r[2 * h / 2]] <= count[r[2 * h]];
    assert 2 * h + 1 <= size ==> count[r[(2 * h + 1) / 2]] <= count[r[2 * h + 1]];
  }

  // ---------------------------------------------------------------- stride_queue_heapify_down

  function Smaller(q: seq<int>, count: seq<int>, i: nat): (c: nat)
    requires |q| == SLOTS && |count| == NPROC && 2 * i + 1 < SLOTS
    requires 0 <= q[2 * i] < NPROC && 0 <= q[2 * i + 1] < NPROC
  {
    if count[q[2 * i]] < count[q[2 * i + 1]] then 2 * i else 2 * i + 1
  }

  // The queue once p, taken from slot i, has sunk.
  function Sunk(q: seq<int>, size: nat, count: seq<int>, i: nat, p: int): (r: seq<int>)
    requires Queue(q, size, count) && 1 <= i <= size && 0 <= p < NPROC
    ensures Queue(r, size, count)
    decreases SLOTS - i
  {
    if 2 * i >= NPROC then q[i := p]
    else if q[2 * i] != NONE && q[2 * i + 1] != NONE then
      var c := Smaller(q, count, i);
      if count[q[c]] < count[p] then Sunk(q[i := q[c]], size, count, c, p) else q[i := p]
    else if q[2 * i] != NONE then
      if count[q[2 * i]] < count[p] then q[i := q[2 * i]][2 * i := p] else q[i := p]
    else q[i := p]
  }

  // Moving the smaller child up moves the hole down to it.
  lemma HoleDown(q: seq<int>, size: nat, count: seq<int>, h: nat, c: nat, p: int)
    requires Queue(q, size, count) && 1 <= h && 2 * h <= c <= 2 * h + 1 && c <= size && 0 <= p < NPROC
    requires HoleHeap(q, size, count, h) && count[q[c]] < count[p]
    requires 2 * h + 1 <= size ==> count[q[c]] <= count[q[2 * h]] && count[q[c]] <= count[q[2 * h + 1]]
    ensures Queue(q[h := q[c]], size, count)
    ensures HoleHeap(q[h := q[c]], size, count, c) && AboveOk(q[h := q[c]], size, count, c, p)
  {
    var r := q[h := q[c]];
    forall k | 2 <= k <= size && k != c && k / 2 != c ensures count[r[k / 2]] <= count[r[k]] {
      if k == h {
        assert c / 2 == h && c / 4 == h / 2;
      }
    }
    forall k | 4 <= k <= size && k / 2 == c ensures count[r[k / 4]] <= count[r[k]] {
      assert k / 4 == h;
      assert count[q[k / 2]] <= count[q[k]];
    }
  }

  // Slot i is on the left edge of the tree, and from there down to slot 32 the left child counts
  // less than the right one and less than p.
  predicate LeftEdge(q: seq<int>, count: seq<int>, i: nat, p: int)
    requires |q| == SLOTS && |count| == NPROC && 0 <= p < NPROC && (forall k :: 1 <= k < SLOTS ==> 0 <= q[k] < NPROC)
    decreases SLOTS - i
  {
    i == NPROC / 2 ||
    (i in {1, 2, 4, 8, 16} && count[q[2 * i]] < count[q[2 * i + 1]] && count[q[2 * i]] < count[p] && LeftEdge(q, count, 2 * i, p))
  }

  // Slots above do not matter.
  lemma {:induction false} LeftEdgeBelow(q: seq<int>, count: seq<int>, i: nat, p: int, k: nat, v: int)
    requires |q| == SLOTS && |count| == NPROC && 0 <= p < NPROC && (forall k :: 1 <= k < SLOTS ==> 0 <= q[k] < NPROC)
    requires 1 <= k < 2 * i && k < SLOTS && 0 <= v < NPROC
    ensures LeftEdge(q[k := v], count, i, p) <==> LeftEdge(q, count, i, p)
    decreases SLOTS - i
  {
    if i in {1, 2, 4, 8, 16} {
      LeftEdgeBelow(q, count, 2 * i, p, k, v);
    }
  }

  /**
   p, in slot i of a full queue, would sink down the left edge to slot 32 and there it counts
   more than the process in slot 64, the one child that the loop never looks at.
   */
  predicate Overlooked(q: seq<int>, size: nat, count: seq<int>, i: nat, p: int)
    requires |q| == SLOTS && |count| == NPROC && 0 <= p < NPROC
    requires size == NPROC ==> forall k :: 1 <= k < SLOTS ==> 0 <= q[k] < NPROC
  {
    size == NPROC && LeftEdge(q, count, i, p) && count[q[NPROC]] < count[p]
  }

  // Where the loop stops at once.
  lemma OverlookedEnd(q: seq<int>, size: nat, count: seq<int>, i: nat, p: int)
    requires Queue(q, size, count) && 1 <= i <= size && 0 <= p < NPROC && 2 * i >= NPROC
    ensures Overlooked(q, size, count, i, p) <==> size == NPROC && i == NPROC / 2 && count[q[NPROC]] < count[p]
  {
  }

  // Where it goes on to child c, or stays because no child counts less.
  lemma OverlookedStep(q: seq<int>, size: nat, count: seq<int>, i: nat, p: int)
    requires Queue(q, size, count) && 1 <= i <= size && 0 <= p < NPROC && 2 * i < NPROC && 2 * i + 1 <= size
    ensures var c := Smaller(q, count, i);
      && Queue(q[i := q[c]], size, count)
      && (count[q[c]] < count[p] ==> (Overlooked(q, size, count, i, p) <==> Overlooked(q[i := q[c]], size, count, c, p)))
      && (count[q[c]] >= count[p] ==> !Overlooked(q, size, count, i, p))
  {
    var c := Smaller(q, count, i);
    if size == NPROC {
      LeftEdgeBelow(q, count, c, p, i, q[c]);
      if c == 2 * i {
        assert LeftEdge(q, count, c, p) ==> i in {1, 2, 4, 8, 16};
      } else {
        assert !LeftEdge(q, count, c, p);
      }
    }
  }

  /**
   Sinking restores the heap exactly when no process is overlooked in slot 64.  With at most 63
   processes none is.
   */
  lemma {:induction false} SunkHeap(q: seq<int>, size: nat, count: seq<int>, i: nat, p: int)
    requires Queue(q, size, count) && 1 <= i <= size && 0 <= p < NPROC
    requires HoleHeap(q, size, count, i) && AboveOk(q, size, count, i, p)
    ensures Heap(Sunk(q, size, count, i, p), size, count) <==> !Overlooked(q, size, count, i, p)
    decreases SLOTS - i
  {
    hide HoleHeap, Heap, LeftEdge;
    if 2 * i >= NPROC {
      OverlookedEnd(q, size, count, i, p);
      if i == NPROC / 2 && size == NPROC && count[p] > count[q[NPROC]] {
        if Heap(q[i := p], size, count) {
          OnlyThen(q, size, count, i, p);
        }
      } else {
        FillHole(q, size, count, i, p);
      }
    } else if q[2 * i] != NONE && q[2 * i + 1] != NONE {
      OverlookedStep(q, size, count, i, p);
      var c := Smaller(q, count, i);
      if count[q[c]] < count[p] {
        HoleDown(q, size, count, i, c, p);
        SunkHeap(q[i := q[c]], size, count, c, p);
      } else {
        FillHole(q, size, count, i, p);
      }
    } else if q[2 * i] != NONE {
      if count[q[2 * i]] < count[p] {
        HoleDown(q, size, count, i, 2 * i, p);
        FillHole(q[i := q[2 * i]], size, count, 2 * i, p);
      } else {
        FillHole(q, size, count, i, p);
      }
    } else {
      FillHole(q, size, count, i, p);
    }
  }

  // Moving slot k to slot h and putting p in its place, or putting p in slot h.
  lemma MovedSame(q: seq<int>, h: nat, k: nat, p: int)
    requires h < |q| && k < |q| && h != k
    ensures multiset(q[h := q[k]][k := p]) == multiset(q[h := p])
  {
  }

  // Sinking keeps the same processes.
  lemma {:induction false} SunkSame(q: seq<int>, size: nat, count: seq<int>, i: nat, p: int)
    requires Queue(q, size, count) && 1 <= i <= size && 0 <= p < NPROC
    ensures multiset(Sunk(q, size, count, i, p)) == multiset(q[i := p])
    decreases SLOTS - i
  {
    if 2 * i < NPROC && q[2 * i] != NONE {
      var c := if q[2 * i + 1] != NONE then Smaller(q, count, i) else 2 * i;
      if count[q[c]] < count[p] {
        var r := q[i := q[c]];
        MovedSame(q, i, c, p);
        if q[2 * i + 1] != NONE {
          SunkSame(r, size, count, c, p);
        }
      }
    }
  }

  // ---------------------------------------------------------------- raising a count

  // No process is queued twice.
  ghost predicate Distinct(q: seq<int>) {
    forall p :: 0 <= p < NPROC ==> multiset(q)[p] <= 1
  }

  lemma Twice(q: seq<int>, j: nat, k: nat)
    requires j < k < |q|
    ensures q[j] == q[k] ==> multiset(q)[q[j]] >= 2
  {
    assert q == q[..k] + [q[k]] + q[k + 1..];
    assert q[j] in q[..k];
  }

  lemma OneSlot(q: seq<int>, j: nat, k: nat)
    requires Distinct(q) && j < k < |q| && 0 <= q[j] < NPROC
    ensures q[j] != q[k]
  {
    Twice(q, j, k);
  }

  // Raising the count of the process in slot i leaves a heap but for that slot.
  lemma RaiseHole(q: seq<int>, size: nat, count: seq<int>, i: nat, more: nat)
    requires Queue(q, size, count) && Heap(q, size, count) && Distinct(q) && 1 <= i <= size
    ensures var raised := count[q[i] := count[q[i]] + more];
      && Queue(q, size, raised) && HoleHeap(q, size, raised, i) && AboveOk(q, size, raised, i, q[i])
  {
    var raised := count[q[i] := count[q[i]] + more];
    forall k | 1 <= k <= size && k != i ensures raised[q[k]] == count[q[k]] {
      if k < i { OneSlot(q, k, i); } else { OneSlot(q, i, k); }
    }
    forall k | 4 <= k <= size && k / 2 == i ensures raised[q[k / 4]] <= raised[q[k]] {
      assert count[q[k / 2 / 2]] <= count[q[k / 2]] <= count[q[k]];
    }
  }

  // ---------------------------------------------------------------- stride_queue_push

  // The ancestors of slot h, each moved down to its child on the path, and p at the root.
  function Pushed(q: seq<int>, h: nat, p: int): (r: seq<int>)
    requires |q| == SLOTS && 1 <= h < SLOTS
    ensures |r| == SLOTS
    decreases h
  {
    if h == 1 then q[1 := p] else Pushed(q[h := q[h / 2]], h / 2, p)
  }

  lemma HoleUp(q: seq<int>, size: nat, count: seq<int>, h: nat)
    requires Queue(q, size, count) && 2 <= h <= size && HoleHeap(q, size, count, h)
    ensures Queue(q[h := q[h / 2]], size, count) && HoleHeap(q[h := q[h / 2]], size, count, h / 2)
  {
    var r := q[h := q[h / 2]];
    forall k | 2 <= k <= size && k != h / 2 && k / 2 != h / 2 ensures count[r[k / 2]] <= count[r[k]] {
      if k / 2 == h {
        assert k / 4 == h / 2;
      }
    }
    forall k | 4 <= k <= size && k / 2 == h / 2 ensures count[r[k / 4]] <= count[r[k]] {
      assert k / 4 == h / 2 / 2;
      assert count[q[h / 2 / 2]] <= count[q[h / 2]];
    }
  }

  ghost predicate Least(q: seq<int>, size: nat, count: seq<int>, p: int)
    requires Queue(q, size, count) && 0 <= p < NPROC
  {
    forall k :: 1 <= k <= size ==> count[p] <= count[q[k]]
  }

  lemma {:induction false} PushedHeap(q: seq<int>, size: nat, count: seq<int>, h: nat, p: int)
    requires Queue(q, size, count) && 1 <= h <= size && 0 <= p < NPROC
    requires HoleHeap(q, size, count, h) && Least(q, size, count, p)
    ensures Queue(Pushed(q, h, p), size, count) && Heap(Pushed(q, h, p), size, count)
    ensures Pushed(q, h, p)[1] == p
    decreases h
  {
    if h == 1 {
      FillHole(q, size, count, h, p);
    } else {
      HoleUp(q, size, count, h);
      PushedHeap(q[h := q[h / 2]], size, count, h / 2, p);
    }
  }

  lemma {:induction false} PushedSame(q: seq<int>, h: nat, p: int)
    requires |q| == SLOTS && 1 <= h < SLOTS
    ensures multiset(Pushed(q, h, p)) == multiset(q[h := p])
    decreases h
  {
    if h > 1 {
      var r := q[h := q[h / 2]];
      PushedSame(r, h / 2, p);
      MovedSame(q, h, h / 2, p);
    }
  }

  lemma {:induction false} RootLeast(q: seq<int>, size: nat, count: seq<int>, k: nat)
    requires Queue(q, size, count) && Heap(q, size, count) && 1 <= k <= size
    ensures count[q[1]] <= count[q[k]]
  {
    if k > 1 {
      RootLeast(q, size, count, k / 2);
    }
  }

  // ---------------------------------------------------------------- sixty-four processes

  // Process k - 1 in slot k.
  function FullQueue(): (q: seq<int>) {
    seq(SLOTS, k => k - 1)
  }

  // With shares of 12 each: no charge yet down the left edge of the tree, one elsewhere.
  function LeftLow(): (count: seq<int>) {
    seq(NPROC, p => if p in {0, 1, 3, 7, 15, 31, 63} then 0 else 8333)
  }

  lemma FullHeap()
    ensures Queue(FullQueue(), NPROC, LeftLow()) && Heap(FullQueue(), NPROC, LeftLow())
  {
    var q, count := FullQueue(), LeftLow();
    forall k | 2 <= k <= NPROC ensures count[q[k / 2]] <= count[q[k]] {
      assert q[k] == k - 1 && q[k / 2] == k / 2 - 1;
    }
  }

  // Charged once, the process at the root sinks to slot 32 and stays above slot 64.
  lemma FullBreaks()
    ensures var q := FullQueue(); var count := LeftLow()[0 := 8333];
      && Queue(q, NPROC, count) && q[1] == 0 && HoleHeap(q, NPROC, count, 1)
      && !Heap(Sunk(q, NPROC, count, 1, 0), NPROC, count)
  {
    var q, count := FullQueue(), LeftLow()[0 := 8333];
    FullHeap();
    assert forall k :: 2 <= k <= NPROC ==> count[q[k]] == LeftLow()[q[k]];
    assert LeftEdge(q, count, 32, 0);
    assert LeftEdge(q, count, 16, 0);
    assert LeftEdge(q, count, 8, 0);
    assert LeftEdge(q, count, 4, 0);
    assert LeftEdge(q, count, 2, 0);
    SunkHeap(q, NPROC, count, 1, 0);
  }
}
