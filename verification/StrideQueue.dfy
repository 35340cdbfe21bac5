/** The stride scheduler's code, in place on the arrays of the process table. */
module StrideQueue {
  import opened StrideHeap
  import opened StrideFair

  const NSTRIDE: int := 100000
  const MIN_CPU_SHARE: int := 1
  const MAX_CPU_SHARE: int := 800

  function Sum(s: seq<int>): (r: int) {
    if s == [] then 0 else Sum(s[..|s| - 1]) + s[|s| - 1]
  }

  lemma {:induction false} SumUpdate(s: seq<int>, p: nat, v: int)
    requires p < |s|
    ensures Sum(s[p := v]) == Sum(s) - s[p] + v
  {
    var n := |s| - 1;
    if p == n {
      assert s[p := v][..n] == s[..n];
    } else {
      assert s[p := v][..n] == s[..n][p := v];
      SumUpdate(s[..n], p, v);
    }
  }

  // The first RUNNABLE process on the way down from slot i, always to the child with the smaller
  // count; one past the last slot if there is none.
  function Walk(s: Sched, runnable: seq<bool>, i: nat): (r: nat)
    requires Queue(s.q, s.size, s.count) && |runnable| == NPROC && i >= 1
    ensures i <= s.size ==> 1 <= r <= s.size + 1
    ensures r <= s.size ==> r >= 1 && runnable[s.q[r]]
    decreases SLOTS - i
  {
    if i > s.size || runnable[s.q[i]] then i
    else if 2 * i + 1 <= s.size then
      Walk(s, runnable, if s.count[s.q[2 * i]] < s.count[s.q[2 * i + 1]] then 2 * i else 2 * i + 1)
    else if 2 * i <= s.size then Walk(s, runnable, 2 * i)
    else s.size + 1
  }

  lemma WalkStep(s: Sched, runnable: seq<bool>, i: nat)
    requires Queue(s.q, s.size, s.count) && |runnable| == NPROC && 1 <= i <= s.size && !runnable[s.q[i]]
    ensures 2 * i + 1 <= s.size && s.count[s.q[2 * i]] < s.count[s.q[2 * i + 1]] ==> Walk(s, runnable, i) == Walk(s, runnable, 2 * i)
    ensures 2 * i + 1 <= s.size && s.count[s.q[2 * i]] >= s.count[s.q[2 * i + 1]] ==> Walk(s, runnable, i) == Walk(s, runnable, 2 * i + 1)
    ensures 2 * i == s.size ==> Walk(s, runnable, i) == Walk(s, runnable, 2 * i)
    ensures 2 * i > s.size ==> Walk(s, runnable, i) == Walk(s, runnable, s.size + 1) == s.size + 1
  {
  }

  // Of the children of slot h, the one in slot c counts no more than the other, and less if it is the left one.
  ghost predicate Better(s: Sched, h: nat, c: nat)
    requires Queue(s.q, s.size, s.count) && 1 <= h && 2 * h <= c <= 2 * h + 1 && c <= s.size
  {
    if c == 2 * h then 2 * h + 1 <= s.size ==> s.count[s.q[2 * h]] < s.count[s.q[2 * h + 1]]
    else s.count[s.q[2 * h + 1]] <= s.count[s.q[2 * h]]
  }

  // On the way up from slot w to slot i each process is the better child of one that cannot run.
  ghost predicate Leads(s: Sched, runnable: seq<bool>, i: nat, w: nat)
    requires Queue(s.q, s.size, s.count) && |runnable| == NPROC && 1 <= i && w <= s.size
    decreases w
  {
    w == i || (i < w && !runnable[s.q[w / 2]] && Better(s, w / 2, w) && Leads(s, runnable, i, w / 2))
  }

  lemma BetterStep(s: Sched, runnable: seq<bool>, h: nat, w: nat)
    requires Queue(s.q, s.size, s.count) && |runnable| == NPROC && 1 <= h && 2 * h <= w <= 2 * h + 1 && w <= s.size
    requires !runnable[s.q[h]] && Better(s, h, w)
    ensures Walk(s, runnable, h) == Walk(s, runnable, w)
  {
    hide Walk, Queue;
    WalkStep(s, runnable, h);
  }

  lemma {:induction false} LeadsWalk(s: Sched, runnable: seq<bool>, i: nat, w: nat)
    requires Queue(s.q, s.size, s.count) && |runnable| == NPROC && 1 <= i && w <= s.size && Leads(s, runnable, i, w)
    ensures Walk(s, runnable, i) == Walk(s, runnable, w)
    decreases w
  {
    hide Walk;
    if w > i {
      var h := w / 2;
      LeadsWalk(s, runnable, i, h);
      BetterStep(s, runnable, h, w);
    }
  }

  lemma {:induction false} LeadsOn(s: Sched, runnable: seq<bool>, i: nat, c: nat, w: nat)
    requires Queue(s.q, s.size, s.count) && |runnable| == NPROC && 1 <= i == c / 2 && c <= s.size && w <= s.size
    requires !runnable[s.q[i]] && Better(s, i, c) && Leads(s, runnable, c, w)
    ensures Leads(s, runnable, i, w)
    decreases w
  {
    if w > c {
      LeadsOn(s, runnable, i, c, w / 2);
    }
  }

  // Where the walk from slot i ends: at a process that can run, or below a leaf.
  lemma {:induction false} WalkLeads(s: Sched, runnable: seq<bool>, i: nat) returns (w: nat)
    requires Queue(s.q, s.size, s.count) && |runnable| == NPROC && 1 <= i <= s.size
    ensures 1 <= w <= s.size && Leads(s, runnable, i, w)
    ensures if runnable[s.q[w]] then Walk(s, runnable, i) == w else 2 * w > s.size && Walk(s, runnable, i) > s.size
    decreases SLOTS - i
  {
    w := i;
    if !runnable[s.q[i]] && 2 * i <= s.size {
      var c := if 2 * i + 1 <= s.size && s.count[s.q[2 * i]] >= s.count[s.q[2 * i + 1]] then 2 * i + 1 else 2 * i;
      WalkStep(s, runnable, i);
      w := WalkLeads(s, runnable, c);
      LeadsOn(s, runnable, i, c, w);
    }
  }

  // The walk finds the process in slot w exactly when that can run, and each on the way to it is the
  // better child of one that cannot.
  lemma WalkIff(s: Sched, runnable: seq<bool>, w: nat)
    requires Queue(s.q, s.size, s.count) && |runnable| == NPROC && 1 <= w <= s.size
    ensures Walk(s, runnable, 1) == w <==> runnable[s.q[w]] && Leads(s, runnable, 1, w)
  {
    if runnable[s.q[w]] && Leads(s, runnable, 1, w) {
      LeadsWalk(s, runnable, 1, w);
    }
    if Walk(s, runnable, 1) == w {
      var v := WalkLeads(s, runnable, 1);
    }
  }

  // It finds nobody exactly when it comes to a leaf that cannot run either.
  lemma WalkNone(s: Sched, runnable: seq<bool>)
    requires Queue(s.q, s.size, s.count) && |runnable| == NPROC && s.size > 0
    ensures Walk(s, runnable, 1) > s.size <==>
      exists w :: 1 <= w <= s.size < 2 * w && !runnable[s.q[w]] && Leads(s, runnable, 1, w)
  {
    var v := WalkLeads(s, runnable, 1);
    if w :| 1 <= w <= s.size < 2 * w && !runnable[s.q[w]] && Leads(s, runnable, 1, w) {
      LeadsWalk(s, runnable, 1, w);
    }
  }

  /**
   The queue is a heap of distinct processes, exactly those with a share; strides are what
   their shares give; and what is promised in all is within the limit.
   */
  ghost predicate Consistent(s: Sched, stride: seq<int>, share: seq<int>, sum: int) {
    && Ok(s) && Strides(stride) && |share| == NPROC
    && (forall p :: 0 <= p < NPROC ==> (share[p] != 0 <==> p in s.q))
    && (forall p :: 0 <= p < NPROC ==> share[p] == 0 || (MIN_CPU_SHARE <= share[p] && stride[p] == NSTRIDE / share[p]))
    && sum == Sum(share) <= MAX_CPU_SHARE
  }

  lemma ChargedConsistent(s: Sched, stride: seq<int>, share: seq<int>, sum: int, i: nat)
    requires Consistent(s, stride, share, sum) && 1 <= i <= s.size
    ensures Consistent(Charged(s, stride, i), stride, share, sum) <==> !Stuck(s, stride, i)
  {
    ChargedOk(s, stride, i);
    forall o | 0 <= o < NPROC ensures o in Charged(s, stride, i).q <==> o in s.q {
      InSame(Charged(s, stride, i).q, s.q, o);
    }
  }

  // Distinct slots hold as many processes as there are slots.
  lemma {:induction false} Members(q: seq<int>, size: nat, count: seq<int>, n: nat) returns (ps: set<int>)
    requires Queue(q, size, count) && Distinct(q) && n <= size
    ensures |ps| == n && forall p :: p in ps <==> exists k :: 1 <= k <= n && q[k] == p
  {
    if n == 0 {
      ps := {};
    } else {
      ps := Members(q, size, count, n - 1);
      forall k | 1 <= k < n ensures q[k] != q[n] {
        OneSlot(q, k, n);
      }
      ps := ps + {q[n]};
    }
  }

  lemma {:induction false} AtMost(ps: set<int>, n: nat)
    requires forall p :: p in ps ==> 0 <= p < n
    ensures |ps| <= n
  {
    if n > 0 {
      AtMost(ps - {n - 1}, n - 1);
    } else {
      assert forall p :: p !in ps;
    }
  }

  // There is a free slot for every process outside the queue.
  lemma RoomLeft(s: Sched, p: int)
    requires Ok(s) && 0 <= p < NPROC && p !in s.q
    ensures s.size < NPROC
  {
    hide Heap, Distinct;
    var ps := Members(s.q, s.size, s.count, s.size);
    AtMost(ps + {p}, NPROC);
  }

  lemma JoinedMembers(s: Sched, p: int, o: int)
    requires Ok(s) && s.size < NPROC && 0 <= p < NPROC && p !in s.q && 0 <= o < NPROC
    ensures Ok(Joined(s, p)) && (o in Joined(s, p).q <==> o == p || o in s.q)
  {
    JoinedOk(s, p);
    hide Joined, Ok;
    assert o in Joined(s, p).q <==> o in multiset(Joined(s, p).q);
    assert o in s.q <==> o in multiset(s.q);
  }

  // Granting a share: a newcomer joins, a member stays where it is.
  lemma GrantedConsistent(s: Sched, stride: seq<int>, share: seq<int>, sum: int, p: nat, required: int)
    requires Consistent(s, stride, share, sum) && p < NPROC && MIN_CPU_SHARE <= required <= MAX_CPU_SHARE
    requires sum - share[p] + required <= MAX_CPU_SHARE
    ensures share[p] == 0 ==> s.size < NPROC
    ensures Consistent(if share[p] == 0 then Joined(s, p) else s,
                       stride[p := NSTRIDE / required], share[p := required], sum - share[p] + required)
  {
    hide Heap, Distinct, Pushed, Sum;
    SumUpdate(share, p, required);
    if share[p] == 0 {
      RoomLeft(s, p);
      hide Joined, Ok;
      forall o | 0 <= o < NPROC ensures Ok(Joined(s, p)) && (o in Joined(s, p).q <==> o == p || o in s.q) {
        JoinedMembers(s, p, o);
      }
      assert Ok(Joined(s, p)) by { JoinedMembers(s, p, 0); }
    }
  }

  // The even part of a share for a process and its n threads, rounded towards zero.
  function Each(required: int, n: nat): (r: int)
    ensures required >= 0 ==> (n + 1) * r <= required < (n + 1) * r + (n + 1)
    ensures required < 0 ==> r <= 0
  {
    if n == 0 then required
    else if required < 0 then -(-required / (n + 1))
    else required / (n + 1)
  }

  // The shares once the threads in the slots below t have theirs.
  function Shared(share: seq<int>, threads: seq<bool>, each: int, t: nat): (r: seq<int>)
    requires |threads| == |share|
  {
    seq(|share|, o requires 0 <= o < |share| => if o < t && threads[o] then each else share[o])
  }

  ghost predicate TooMuch(share: seq<int>, threads: seq<bool>, each: int, n: nat)
    requires |threads| == |share|
  {
    exists t: nat :: t <= n && Sum(Shared(share, threads, each, t)) > MAX_CPU_SHARE
  }

  lemma SharedFrom(share: seq<int>, threads: seq<bool>, each: int)
    requires |threads| == |share|
    ensures Shared(share, threads, each, 0) == share
  {
    assert Shared(share, threads, each, 0) == share;
  }

  lemma SharedNone(share: seq<int>, threads: seq<bool>, each: int)
    requires |threads| == |share| && Sum(share) <= MAX_CPU_SHARE
    ensures Shared(share, threads, each, 0) == share && !TooMuch(share, threads, each, 0)
  {
    hide Sum;
    SharedFrom(share, threads, each);
  }

  lemma SharedMore(share: seq<int>, threads: seq<bool>, each: int, t: nat)
    requires |threads| == |share| && t < |share|
    ensures var r := Shared(share, threads, each, t);
      Shared(share, threads, each, t + 1) == if threads[t] then r[t := each] else r
  {
    var r := Shared(share, threads, each, t);
    assert Shared(share, threads, each, t + 1) == if threads[t] then r[t := each] else r;
  }

  lemma {:induction false} SharedGrows(share: seq<int>, threads: seq<bool>, each: int, t: nat, n: nat)
    requires |threads| == |share| && t <= n <= |share|
    requires forall o :: 0 <= o < |share| && threads[o] ==> share[o] <= each
    ensures Sum(Shared(share, threads, each, t)) <= Sum(Shared(share, threads, each, n))
  {
    if t < n {
      SharedGrows(share, threads, each, t, n - 1);
      SharedMore(share, threads, each, n - 1);
      SumUpdate(Shared(share, threads, each, n - 1), n - 1, each);
    }
  }

  /**
   Unless a thread already has more than its part, only the promises once all are served matter.
   */
  lemma TooMuchIff(share: seq<int>, threads: seq<bool>, each: int)
    requires |threads| == |share| && forall o :: 0 <= o < |share| && threads[o] ==> share[o] <= each
    ensures TooMuch(share, threads, each, |share|) <==> Sum(Shared(share, threads, each, |share|)) > MAX_CPU_SHARE
  {
    if TooMuch(share, threads, each, |share|) {
      var t: nat :| t <= |share| && Sum(Shared(share, threads, each, t)) > MAX_CPU_SHARE;
      SharedGrows(share, threads, each, t, |share|);
    }
  }

  lemma {:induction false} SumZero(s: seq<int>)
    requires forall k :: 0 <= k < |s| ==> s[k] == 0
    ensures Sum(s) == 0
  {
    if s != [] {
      SumZero(s[..|s| - 1]);
    }
  }

  // A table in which only process 2 has a share.
  function OneQueued(): (s: Sched) {
    Sched(seq(SLOTS, j => if j == 1 then 2 else NONE), 1, seq(NPROC, p => 0))
  }

  lemma OneConsistent(stride: seq<int>, share: seq<int>)
    requires |stride| == NPROC && |share| == NPROC && Sum(share) == 300
    requires forall p :: 0 <= p < NPROC ==> stride[p] == (if p == 2 then 333 else 0) && share[p] == if p == 2 then 300 else 0
    ensures Consistent(OneQueued(), stride, share, 300)
  {
    hide Sum;
    var q := OneQueued().q;
    forall p | 0 <= p < NPROC ensures multiset(q)[p] <= 1 {
      OnceAtMost(q, p);
    }
    assert q[1] == 2;
  }

  /**
   A process with one thread asks for 80 percent while another has 30: its own half is granted,
   and its thread's half is one too many.
   */
  lemma OneTooMany() returns (s: Sched, stride: seq<int>, share: seq<int>, threads: seq<bool>)
    ensures Consistent(s, stride, share, 300) && |threads| == NPROC && share[0] == share[1] == 0
    ensures Each(800, 1) == 400 && Sum(share) - share[0] + 400 <= MAX_CPU_SHARE
    ensures TooMuch(share[0 := 400], threads, 400, NPROC)
  {
    var none := seq(NPROC, p => 0);
    SumZero(none);
    share, threads := none[2 := 300], seq(NPROC, p => p == 1);
    SumUpdate(none, 2, 300);
    SumUpdate(share, 0, 400);
    var base := share[0 := 400];
    SumUpdate(base, 1, 400);
    SharedPair(base, threads);
    s, stride := OneQueued(), none[2 := 333];
    OneConsistent(stride, share);
  }

  lemma SharedPair(base: seq<int>, threads: seq<bool>)
    requires |base| == |threads| == NPROC && (forall o :: 0 <= o < NPROC ==> (threads[o] <==> o == 1))
    requires Sum(base[1 := 400]) > MAX_CPU_SHARE
    ensures TooMuch(base, threads, 400, NPROC)
  {
    assert Shared(base, threads, 400, NPROC) == base[1 := 400];
  }

  // The next thread is served exactly when that does not promise too much.
  lemma SharedStep(base: seq<int>, threads: seq<bool>, each: int, t: nat, share: seq<int>)
    requires |threads| == |base| && t < |base| && share == Shared(base, threads, each, t)
    requires !TooMuch(base, threads, each, t)
    ensures Shared(base, threads, each, t + 1) == if threads[t] then share[t := each] else share
    ensures TooMuch(base, threads, each, t + 1) <==> threads[t] && Sum(share) - share[t] + each > MAX_CPU_SHARE
    ensures TooMuch(base, threads, each, t + 1) ==> TooMuch(base, threads, each, |base|)
  {
    hide Sum;
    SharedMore(base, threads, each, t);
    SumUpdate(share, t, each);
  }

  // A process outside the queue finds a free slot.
  lemma GrantedRoom(s: Sched, stride: seq<int>, share: seq<int>, sum: int, p: nat)
    requires Consistent(s, stride, share, sum) && p < NPROC
    ensures share[p] == 0 ==> s.size < NPROC
  {
    if share[p] == 0 {
      RoomLeft(s, p);
    }
  }

  lemma SunkLast(q: seq<int>, size: nat, count: seq<int>, j: nat, p: int)
    requires Queue(q, size, count) && 1 <= j <= size && 0 <= p < NPROC && (2 * j >= NPROC || 2 * j > size)
    ensures Sunk(q, size, count, j, p) == q[j := p]
  {
  }

  // One turn of the sinking loop, with c the child it looks at.
  lemma SunkNext(q: seq<int>, size: nat, count: seq<int>, j: nat, p: int, c: nat)
    requires Queue(q, size, count) && 1 <= j <= size && 0 <= p < NPROC && 2 * j < NPROC
    requires 2 * j <= c <= 2 * j + 1 && c <= size && (2 * j + 1 <= size ==> c == Smaller(q, count, j))
    ensures count[q[c]] < count[p] ==> Queue(q[j := q[c]], size, count)
    ensures Sunk(q, size, count, j, p) == if count[q[c]] < count[p] then Sunk(q[j := q[c]], size, count, c, p) else q[j := p]
  {
  }

  class Table {
    const queue: array<int>     // stride_queue: process indices, NONE where empty
    const count: array<int>     // stride_count of each process
    const stride: array<int>
    const share: array<int>     // cpu_share; 0 for a process outside the queue
    const original: array<int>  // original_cpu_share: the share before threads were made
    var size: nat
    var sum: int                // sum_cpu_share

    ghost predicate Arrays()
      reads this
    {
      && queue.Length == SLOTS && count.Length == NPROC && stride.Length == NPROC && share.Length == NPROC
      && original.Length == NPROC && original != queue && original != count && original != stride && original != share
      && queue != count && queue != stride && queue != share && count != stride && count != share && stride != share
    }

    ghost function State(): (s: Sched)
      reads this, queue, count
    {
      Sched(queue[..], size, count[..])
    }

    ghost predicate Valid()
      reads this, queue, count, stride, share
    {
      Arrays() && Consistent(State(), stride[..], share[..], sum)
    }

    method HeapifyDown(i: nat)
      requires Arrays() && Queue(queue[..], size, count[..]) && 1 <= i <= size
      modifies queue
      ensures queue[..] == Sunk(old(queue[..]), size, count[..], i, old(queue[i]))
    {
      hide Sunk;
      var p := queue[i];
      var j := i;
      ghost var goal := Sunk(queue[..], size, count[..], i, p);
      while 2 * j < NPROC && j <= size
        invariant 1 <= j <= size && Queue(queue[..], size, count[..])
        invariant Sunk(queue[..], size, count[..], j, p) == goal
        decreases SLOTS - j
      {
        ghost var was, h := queue[..], j;
        if queue[2 * j] != NONE && queue[2 * j + 1] != NONE {
          j := if count[queue[2 * j]] < count[queue[2 * j + 1]] then 2 * j else 2 * j + 1;
          assert j / 2 == h;
          SunkNext(was, size, count[..], h, p, j);
          if count[queue[j]] < count[p] {
            queue[j / 2] := queue[j];
            assert queue[..] == was[h := was[j]];
          } else {
            j := j / 2;
            assert queue[..][j := p] == goal;
            break;
          }
        } else if queue[2 * j] != NONE {
          j := 2 * j;
          assert j / 2 == h;
          SunkNext(was, size, count[..], h, p, j);
          if count[queue[j]] < count[p] {
            queue[j / 2] := queue[j];
            assert queue[..] == was[h := was[j]];
            SunkLast(queue[..], size, count[..], j, p);
          } else {
            j := j / 2;
          }
          assert queue[..][j := p] == goal;
          break;
        } else {
          SunkLast(queue[..], size, count[..], j, p);
          break;
        }
      }
      if 2 * j >= NPROC {
        SunkLast(queue[..], size, count[..], j, p);
      }
      queue[j] := p;
    }

    method Push(p: nat)
      requires Arrays() && Queue(queue[..], size, count[..]) && size < NPROC && p < NPROC
      modifies queue, count, this`size
      ensures State() == Joined(old(State()), p)
    {
      if queue[1] != NONE {
        count[p] := count[queue[1]];
      }
      size := size + 1;
      var h := size;
      ghost var goal := Pushed(queue[..], h, p);
      while h != 1
        invariant 1 <= h <= size && Pushed(queue[..], h, p) == goal
        invariant size == old(size) + 1 && count[..] == Joined(old(State()), p).count
      {
        ghost var was := queue[..];
        queue[h] := queue[h / 2];
        assert queue[..] == was[h := was[h / 2]];
        h := h / 2;
      }
      queue[h] := p;
    }

    // The loop that walks down the smaller children.
    method Descend(runnable: seq<bool>) returns (idx: nat)
      requires Arrays() && Queue(queue[..], size, count[..]) && |runnable| == NPROC
      ensures idx >= 1 && idx <= size <==> Walk(State(), runnable, 1) <= size
      ensures idx <= size ==> idx == Walk(State(), runnable, 1)
    {
      ghost var s := State();
      idx := 1;
      while idx <= size && !runnable[queue[idx]]
        invariant 1 <= idx && Walk(s, runnable, idx) == Walk(s, runnable, 1)
        decreases SLOTS - idx
      {
        WalkStep(s, runnable, idx);
        var left, right := idx * 2, idx * 2 + 1;
        if right <= size {
          idx := if count[queue[left]] < count[queue[right]] then left else right;
        } else if left > size {
          idx := size + 1;
        } else {
          idx := left;
        }
      }
    }

    // The fallback: the first runnable process in the array.
    method Scan(runnable: seq<bool>) returns (idx: nat)
      requires Arrays() && Queue(queue[..], size, count[..]) && |runnable| == NPROC
      ensures 1 <= idx <= size + 1 && forall k :: 1 <= k < idx ==> !runnable[queue[k]]
      ensures idx <= size ==> runnable[queue[idx]]
    {
      idx := 1;
      while idx <= size && !runnable[queue[idx]]
        invariant 1 <= idx <= size + 1 && forall k :: 1 <= k < idx ==> !runnable[queue[k]]
      {
        idx := idx + 1;
      }
    }

    /**
     Choose a slot to run.  Some slot is chosen exactly when some queued process is runnable.  If
     the walk down the smaller children meets a runnable process, that process is charged one
     stride and sinks; otherwise the first runnable one in the array is chosen and not charged.
     */
    method FindIdx(runnable: seq<bool>) returns (idx: nat)
      requires Valid() && |runnable| == NPROC
      modifies queue, count
      ensures var w := Walk(old(State()), runnable, 1);
        && (w <= size ==> idx == w && State() == Charged(old(State()), stride[..], w))
        && (w > size ==> State() == old(State()) && 1 <= idx <= size + 1 && forall k :: 1 <= k < idx ==> !runnable[queue[k]])
        && (Valid() <==> w > size || !Stuck(old(State()), stride[..], w))
      ensures idx <= size ==> 1 <= idx && runnable[old(queue[idx])]
      ensures idx > size ==> forall k :: 1 <= k <= size ==> !runnable[old(queue[k])]
    {
      idx := Descend(runnable);
      if idx <= size {
        Charge(idx);
      } else {
        idx := Scan(runnable);
      }
    }

    // Add one stride to the count of the process in slot i and let it sink.
    method Charge(i: nat)
      requires Valid() && 1 <= i <= size
      modifies queue, count
      ensures State() == Charged(old(State()), stride[..], i)
      ensures Valid() <==> !Stuck(old(State()), stride[..], i)
    {
      hide Heap, Distinct, Sunk, Sum;
      var p := queue[i];
      ghost var s := State();
      count[p] := count[p] + stride[p];
      assert Queue(queue[..], size, count[..]);
      HeapifyDown(i);
      assert State() == Charged(s, stride[..], i);
      ChargedConsistent(s, stride[..], share[..], sum, i);
    }

    /**
     One process or thread gets a share.  It is refused when the share is out of range or the
     promises would add up to more than the limit; otherwise it has that share, and it is in the
     queue exactly once.
     */
    method Grant(p: nat, required: int, first: int) returns (r: int)
      requires Valid() && p < NPROC
      modifies this, queue, count, stride, share, original
      ensures Valid() && (old(share[p]) == 0 ==> old(size) < NPROC)
      ensures r == 0 <==> MIN_CPU_SHARE <= required <= MAX_CPU_SHARE && old(sum - share[p]) + required <= MAX_CPU_SHARE
      ensures r == 0 || (r == -1 && State() == old(State()) && share[..] == old(share[..]))
      ensures r == 0 ==> share[..] == old(share[..])[p := required]
      ensures original[..] == if r == 0 then old(original[..])[p := first] else old(original[..])
      ensures r == 0 ==> State() == if old(share[p]) == 0 then Joined(old(State()), p) else old(State())
    {
      GrantedRoom(State(), stride[..], share[..], sum, p);
      if !(MIN_CPU_SHARE <= required <= MAX_CPU_SHARE) {
        return -1;
      }
      var already := share[p];
      var desired := sum - already + required;
      if desired > MAX_CPU_SHARE {
        return -1;
      }
      GrantedConsistent(State(), stride[..], share[..], sum, p, required);
      sum := desired;
      share[p] := required;
      original[p] := first;
      stride[p] := NSTRIDE / required;
      if already == 0 {
        Push(p);
      }
      assert share[..] == old(share[..])[p := required] && stride[..] == old(stride[..])[p := NSTRIDE / required];
      r := 0;
    }

    lemma SumKept()
      requires Valid()
      ensures sum == Sum(share[..]) <= MAX_CPU_SHARE
    {
    }

    /**
     Process p, with n threads in the slots marked in `threads`, asks for a share: it is divided
     evenly, p gets its part or the call fails, and then each thread gets the same.  The machine
     panics exactly when, with p and the threads up to some slot served, more is promised than
     the limit.
     */
    method SetCpuShare(p: nat, n: nat, threads: seq<bool>, required: int) returns (r: int, panicked: bool)
      requires Valid() && p < NPROC && |threads| == NPROC && !threads[p]
      modifies this, queue, count, stride, share, original
      ensures Valid() && (r == 0 || r == -1)
      ensures var each := Each(required, n);
        && (r == 0 <==> MIN_CPU_SHARE <= each <= MAX_CPU_SHARE && old(sum - share[p]) + each <= MAX_CPU_SHARE)
        && (r == -1 ==> !panicked && State() == old(State()) && share[..] == old(share[..]) && original[..] == old(original[..]))
        && (r == 0 && n == 0 ==>
             !panicked && share[..] == old(share[..])[p := each] && original[..] == old(original[..])[p := each])
        && (r == 0 && n > 0 ==>
             && (panicked <==> TooMuch(old(share[..])[p := each], threads, each, NPROC))
             && (!panicked ==> share[..] == Shared(old(share[..])[p := each], threads, each, NPROC))
             && (!panicked ==> original[..] == Shared(old(original[..])[p := each], threads, each, NPROC)))
    {
      hide Sum, Shared, TooMuch, Consistent, Joined;
      panicked := false;
      var each := Each(required, n);
      r := Grant(p, each, each);
      if r == 0 && n > 0 {
        ghost var base, origin := share[..], original[..];
        SumKept();
        SharedFrom(origin, threads, each);
        SharedNone(base, threads, each);
        var t := 0;
        while t < NPROC && !panicked
          invariant 0 <= t <= NPROC && Valid()
          invariant original[p] == each && (!panicked ==> original[..] == Shared(origin, threads, each, t))
          invariant panicked ==> TooMuch(base, threads, each, NPROC)
          invariant !panicked ==> share[..] == Shared(base, threads, each, t) && !TooMuch(base, threads, each, t)
          decreases NPROC - t, !panicked
        {
          SharedStep(base, threads, each, t, share[..]);
          SharedMore(origin, threads, each, t);
          SumKept();
          if threads[t] {
            var bad := Grant(t, each, original[p]);
            panicked := bad != 0;
          }
          t := t + 1;
        }
      }
    }
  }

  // When every queued process is runnable, the root is chosen.
  lemma AllRunnable(s: Sched, runnable: seq<bool>)
    requires Queue(s.q, s.size, s.count) && |runnable| == NPROC && s.size >= 1
    requires forall k :: 1 <= k <= s.size ==> runnable[s.q[k]]
    ensures Walk(s, runnable, 1) == 1
  {
  }

  /**
   The slot chosen still holds the process that was charged exactly when the slot is one from
   which nothing sinks, or the new count exceeds neither child's; otherwise the scheduler runs
   another process than the one it charged.
   */
  lemma DispatchedIff(s: Sched, stride: seq<int>, i: nat)
    requires Queue(s.q, s.size, s.count) && Distinct(s.q) && |stride| == NPROC && 1 <= i <= s.size
    ensures var r := Charged(s, stride, i); var p := s.q[i];
      r.q[i] == p <==>
      || 2 * i >= NPROC
      || ((2 * i <= s.size ==> r.count[p] <= r.count[s.q[2 * i]]) &&
          (2 * i + 1 <= s.size ==> r.count[p] <= r.count[s.q[2 * i + 1]]))
  {
    if 2 * i <= s.size { OneSlot(s.q, i, 2 * i); }
    if 2 * i + 1 <= s.size { OneSlot(s.q, i, 2 * i + 1); }
    SunkStays(s.q, s.size, Charged(s, stride, i).count, i, s.q[i]);
  }

  // Two processes level: the first is charged, and the second is run.
  lemma AnotherRuns()
    ensures var s := TwoQueued(5); Ok(s) && s.q[1] == 0 && Charged(s, TwoStrides(), 1).q[1] == 1
  {
    var s := TwoQueued(5);
    TwoOk(5);
    var count := Charged(s, TwoStrides(), 1).count;
    assert count[0] == 1200 && count[1] == 1000;
    assert s.q[2] == 1 && s.q[3] == NONE;
  }

  lemma {:induction false} SumOf(s: seq<int>, v: int)
    requires forall k :: 0 <= k < |s| ==> s[k] == v
    ensures Sum(s) == |s| * v
  {
    if s != [] {
      SumOf(s[..|s| - 1], v);
    }
  }

  // Sixty-four processes with shares of 12: selection charges the root, and leaves no heap.
  lemma FullTable() returns (s: Sched, stride: seq<int>, share: seq<int>)
    ensures Consistent(s, stride, share, 768) && s.size == NPROC && !Ok(Charged(s, stride, 1))
  {
    s := Sched(FullQueue(), NPROC, LeftLow());
    stride, share := seq(NPROC, p => 8333), seq(NPROC, p => 12);
    hide Sum, Sunk, Heap, HoleHeap, Distinct, FullQueue, LeftLow;
    SumOf(share, 12);
    FullHeap();
    FullMembers();
    FullBreaks();
    assert s.count[0 := s.count[0] + 8333] == LeftLow()[0 := 8333];
  }

  lemma FullMembers()
    ensures Distinct(FullQueue()) && forall p :: 0 <= p < NPROC ==> p in FullQueue()
  {
    var q := FullQueue();
    forall p | 0 <= p < NPROC ensures multiset(q)[p] <= 1 && p in q {
      OnceAtMost(q, p);
      assert q[p + 1] == p;
    }
  }

  // What is in slot i once p has sunk from there.
  lemma SunkStays(q: seq<int>, size: nat, count: seq<int>, i: nat, p: int)
    requires Queue(q, size, count) && 1 <= i <= size && 0 <= p < NPROC
    requires (2 * i <= size ==> q[2 * i] != p) && (2 * i + 1 <= size ==> q[2 * i + 1] != p)
    ensures Sunk(q, size, count, i, p)[i] == p <==>
      || 2 * i >= NPROC
      || ((2 * i <= size ==> count[p] <= count[q[2 * i]]) && (2 * i + 1 <= size ==> count[p] <= count[q[2 * i + 1]]))
  {
    if 2 * i < NPROC && 2 * i + 1 <= size {
      var c := Smaller(q, count, i);
      if count[q[c]] < count[p] {
        SunkAbove(q[i := q[c]], size, count, c, p, i);
      }
    }
  }

  // Sinking leaves the slots before the hole alone.
  lemma {:induction false} SunkAbove(q: seq<int>, size: nat, count: seq<int>, i: nat, p: int, k: nat)
    requires Queue(q, size, count) && k < i <= size && 0 <= p < NPROC
    ensures Sunk(q, size, count, i, p)[k] == q[k]
    decreases SLOTS - i
  {
    if 2 * i < NPROC && q[2 * i] != NONE && q[2 * i + 1] != NONE {
      var c := Smaller(q, count, i);
      if count[q[c]] < count[p] {
        SunkAbove(q[i := q[c]], size, count, c, p, k);
      }
    }
  }
}
