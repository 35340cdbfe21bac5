/** Proportional share: what a run of selections does to the counts of the queued processes. */
module StrideFair {
  import opened StrideHeap

  datatype Sched = Sched(q: seq<int>, size: nat, count: seq<int>)

  ghost predicate Ok(s: Sched) {
    Queue(s.q, s.size, s.count) && Heap(s.q, s.size, s.count) && Distinct(s.q)
  }

  ghost predicate Queued(s: Sched, p: int) {
    0 <= p < NPROC && p in s.q
  }

  ghost predicate Strides(stride: seq<int>) {
    |stride| == NPROC && forall p :: 0 <= p < NPROC ==> stride[p] >= 0
  }

  // Charge the process in slot i one stride and let it sink.
  function Charged(s: Sched, stride: seq<int>, i: nat): (r: Sched)
    requires Queue(s.q, s.size, s.count) && |stride| == NPROC && 1 <= i <= s.size
  {
    var p := s.q[i];
    var count := s.count[p := s.count[p] + stride[p]];
    Sched(Sunk(s.q, s.size, count, i, p), s.size, count)
  }

  lemma SameDistinct(q: seq<int>, r: seq<int>)
    requires Distinct(q) && multiset(r) == multiset(q)
    ensures Distinct(r)
  {
  }

  // Sinking the process that was in the hole anyway.
  lemma SunkOk(q: seq<int>, size: nat, count: seq<int>, i: nat)
    requires Queue(q, size, count) && Distinct(q) && 1 <= i <= size
    requires HoleHeap(q, size, count, i) && AboveOk(q, size, count, i, q[i])
    ensures var r := Sunk(q, size, count, i, q[i]);
      && Queue(r, size, count) && Distinct(r) && multiset(r) == multiset(q)
      && (Heap(r, size, count) <==> !Overlooked(q, size, count, i, q[i]))
  {
    hide HoleHeap, Heap, Distinct, Overlooked;
    var r := Sunk(q, size, count, i, q[i]);
    SunkHeap(q, size, count, i, q[i]);
    SunkSame(q, size, count, i, q[i]);
    assert q[i := q[i]] == q;
    SameDistinct(q, r);
  }

  // The process in slot i, once charged, would come to rest above a smaller one in slot 64.
  ghost predicate Stuck(s: Sched, stride: seq<int>, i: nat)
    requires Queue(s.q, s.size, s.count) && |stride| == NPROC && 1 <= i <= s.size
  {
    var p := s.q[i];
    Overlooked(s.q, s.size, s.count[p := s.count[p] + stride[p]], i, p)
  }

  // Charging a process keeps the processes, and leaves a heap unless the process gets stuck; with
  // at most 63 queued it never does.
  lemma ChargedOk(s: Sched, stride: seq<int>, i: nat)
    requires Ok(s) && Strides(stride) && 1 <= i <= s.size
    ensures Ok(Charged(s, stride, i)) <==> !Stuck(s, stride, i)
    ensures multiset(Charged(s, stride, i).q) == multiset(s.q)
  {
    hide HoleHeap, Heap, Distinct, Overlooked, Sunk;
    var p := s.q[i];
    RaiseHole(s.q, s.size, s.count, i, stride[p]);
    SunkOk(s.q, s.size, s.count[p := s.count[p] + stride[p]], i);
  }

  // No process is more than its own stride ahead of any other.
  ghost predicate Fair(s: Sched, stride: seq<int>)
    requires Queue(s.q, s.size, s.count) && |stride| == NPROC
  {
    forall p, r :: Queued(s, p) && Queued(s, r) ==> s.count[p] <= s.count[r] + stride[p]
  }

  lemma RootIsLeast(s: Sched, p: int)
    requires Ok(s) && Queued(s, p)
    ensures s.size > 0 && s.count[s.q[1]] <= s.count[p]
  {
    var k :| 0 <= k < |s.q| && s.q[k] == p;
    RootLeast(s.q, s.size, s.count, k);
  }

  lemma InSame(q: seq<int>, r: seq<int>, p: int)
    requires multiset(q) == multiset(r)
    ensures p in q <==> p in r
  {
    assert p in q <==> p in multiset(q);
    assert p in r <==> p in multiset(r);
  }

  // What charging does to the counts and the members.
  lemma ChargedCounts(s: Sched, stride: seq<int>, i: nat, o: int)
    requires Ok(s) && Strides(stride) && 1 <= i <= s.size && !Stuck(s, stride, i) && 0 <= o < NPROC
    ensures var r := Charged(s, stride, i);
      && Ok(r) && (Queued(r, o) <==> Queued(s, o)) && r.size == s.size
      && r.count[o] == s.count[o] + if s.q[i] == o then stride[o] else 0
  {
    ChargedOk(s, stride, i);
    InSame(s.q, Charged(s, stride, i).q, o);
    hide Sunk;
  }

  /**
   Charging the process in slot i keeps everybody within a stride of everybody exactly when no
   process counts less than that one: when it is the root, or level with it.
   */
  lemma ChargedFairIff(s: Sched, stride: seq<int>, i: nat)
    requires Ok(s) && Strides(stride) && 1 <= i <= s.size && !Stuck(s, stride, i) && Fair(s, stride)
    ensures Ok(Charged(s, stride, i))
    ensures Fair(Charged(s, stride, i), stride) <==> s.count[s.q[i]] <= s.count[s.q[1]]
  {
    var r := Charged(s, stride, i);
    var p, root := s.q[i], s.q[1];
    assert Queued(s, p) && Queued(s, root);
    ChargedCounts(s, stride, i, p);
    ChargedCounts(s, stride, i, root);
    hide Charged;
    if s.count[p] <= s.count[root] {
      forall a, o | Queued(r, a) && Queued(r, o) ensures r.count[a] <= r.count[o] + stride[a] {
        ChargedCounts(s, stride, i, a);
        ChargedCounts(s, stride, i, o);
        RootIsLeast(s, o);
      }
    }
  }

  // ---------------------------------------------------------------- runs

  // Each state charges the root of the one before: all queued processes are runnable.
  ghost predicate Run(ss: seq<Sched>, stride: seq<int>) {
    && (forall k :: 0 <= k < |ss| ==> |ss[k].q| == SLOTS)
    && |ss| > 0 && Strides(stride) && Ok(ss[0]) && 1 <= ss[0].size < NPROC
    && forall k :: 0 <= k < |ss| - 1 ==>
         && Queue(ss[k].q, ss[k].size, ss[k].count) && 1 <= ss[k].size
         && ss[k + 1] == Charged(ss[k], stride, 1)
  }

  lemma {:induction false} RunKeeps(ss: seq<Sched>, stride: seq<int>, n: nat)
    requires Run(ss, stride) && n < |ss|
    ensures Ok(ss[n]) && ss[n].size == ss[0].size && multiset(ss[n].q) == multiset(ss[0].q)
  {
    hide Heap, Distinct, Sunk;
    if n > 0 {
      RunKeeps(ss, stride, n - 1);
      ChargedOk(ss[n - 1], stride, 1);
    }
  }

  lemma RunQueued(ss: seq<Sched>, stride: seq<int>, n: nat, p: int)
    requires Run(ss, stride) && n < |ss|
    ensures Queued(ss[n], p) <==> Queued(ss[0], p)
  {
    RunKeeps(ss, stride, n);
    InSame(ss[0].q, ss[n].q, p);
  }

  // How often p was charged in the first n selections.
  function Charges(ss: seq<Sched>, p: int, n: nat): (k: nat)
    requires n <= |ss| && forall j :: 0 <= j < |ss| ==> |ss[j].q| == SLOTS
  {
    if n == 0 then 0 else Charges(ss, p, n - 1) + (if ss[n - 1].q[1] == p then 1 else 0)
  }

  lemma RunCharge(ss: seq<Sched>, stride: seq<int>, p: int, n: nat)
    requires Run(ss, stride) && n + 1 < |ss| && 0 <= p < NPROC
    ensures |ss[n].count| == NPROC && |ss[n + 1].count| == NPROC
    ensures ss[n + 1].count[p] == ss[n].count[p] + if ss[n].q[1] == p then stride[p] else 0
  {
    RunKeeps(ss, stride, n);
    ChargedCounts(ss[n], stride, 1, p);
    hide Charged;
  }

  // A count is its start plus one stride per charge.
  lemma {:induction false} CountsAdd(ss: seq<Sched>, stride: seq<int>, p: int, n: nat)
    requires Run(ss, stride) && n < |ss| && 0 <= p < NPROC
    ensures |ss[n].count| == NPROC && |ss[0].count| == NPROC
    ensures ss[n].count[p] == ss[0].count[p] + Charges(ss, p, n) * stride[p]
  {
    hide Charged;
    if n > 0 {
      CountsAdd(ss, stride, p, n - 1);
      RunCharge(ss, stride, p, n - 1);
      OneMore(Charges(ss, p, n - 1), stride[p]);
    }
  }

  lemma OneMore(k: nat, d: int)
    ensures (k + 1) * d == k * d + d
  {
  }

  // A process that has been charged since the run began is within its stride of all others,
  // wherever it started.
  lemma {:induction false} ChargedLead(ss: seq<Sched>, stride: seq<int>, p: int, r: int, n: nat)
    requires Run(ss, stride) && n < |ss| && Queued(ss[0], p) && Queued(ss[0], r) && Charges(ss, p, n) > 0
    ensures |ss[n].count| == NPROC && ss[n].count[p] <= ss[n].count[r] + stride[p]
  {
    hide Charged;
    RunCharge(ss, stride, p, n - 1);
    RunCharge(ss, stride, r, n - 1);
    RunKeeps(ss, stride, n - 1);
    RunQueued(ss, stride, n - 1, r);
    RootIsLeast(ss[n - 1], r);
    if ss[n - 1].q[1] != p {
      ChargedLead(ss, stride, p, r, n - 1);
    }
  }

  /**
   Proportional share, from any queue.  Over any number of selections a process that is charged at
   all gets no more than one stride beyond what another gets, once the lead that the other had at
   the start is made up.
   */
  lemma ShareFromAnywhere(ss: seq<Sched>, stride: seq<int>, p: int, r: int, n: nat)
    requires Run(ss, stride) && n < |ss| && Queued(ss[0], p) && Queued(ss[0], r) && Charges(ss, p, n) > 0
    ensures Charges(ss, p, n) * stride[p] <= Charges(ss, r, n) * stride[r] + (ss[0].count[r] - ss[0].count[p]) + stride[p]
  {
    ChargedLead(ss, stride, p, r, n);
    CountsAdd(ss, stride, p, n);
    CountsAdd(ss, stride, r, n);
  }

  /**
   Proportional share, from a fair queue.  The charges of any two queued processes, each weighed by
   its stride, differ by no more than the two strides.
   */
  lemma ProportionalShare(ss: seq<Sched>, stride: seq<int>, p: int, r: int, n: nat)
    requires Run(ss, stride) && Fair(ss[0], stride) && n < |ss| && Queued(ss[0], p) && Queued(ss[0], r)
    ensures -(stride[p] + stride[r])
         <= Charges(ss, p, n) * stride[p] - Charges(ss, r, n) * stride[r]
         <= stride[p] + stride[r]
  {
    NoLead(ss, stride, p, r, n);
    NoLead(ss, stride, r, p, n);
  }

  lemma NoLead(ss: seq<Sched>, stride: seq<int>, p: int, r: int, n: nat)
    requires Run(ss, stride) && Fair(ss[0], stride) && n < |ss| && Queued(ss[0], p) && Queued(ss[0], r)
    ensures Charges(ss, p, n) * stride[p] <= Charges(ss, r, n) * stride[r] + stride[p] + stride[r]
  {
    hide Charges, Charged, Heap, Distinct;
    NotNegative(Charges(ss, r, n), stride[r]);
    assert ss[0].count[r] <= ss[0].count[p] + stride[r];
    if Charges(ss, p, n) > 0 {
      ShareFromAnywhere(ss, stride, p, r, n);
    }
  }

  lemma NotNegative(k: nat, d: int)
    requires d >= 0
    ensures k * d >= 0
  {
  }

  // ---------------------------------------------------------------- who is dispatched

  // How often p was dispatched in the first n selections: what is at the root once the process
  // that was charged has sunk.
  function Dispatches(ss: seq<Sched>, p: int, n: nat): (k: nat)
    requires n < |ss| && forall j :: 0 <= j < |ss| ==> |ss[j].q| == SLOTS
  {
    if n == 0 then 0 else Dispatches(ss, p, n - 1) + (if ss[n].q[1] == p then 1 else 0)
  }

  // Whoever is dispatched is charged next.
  lemma {:induction false} DispatchesAre(ss: seq<Sched>, p: int, n: nat)
    requires n < |ss| && forall j :: 0 <= j < |ss| ==> |ss[j].q| == SLOTS
    ensures Dispatches(ss, p, n) == Charges(ss[1..], p, n)
  {
    if n > 0 {
      DispatchesAre(ss, p, n - 1);
    }
  }

  // A run can go on, and may be looked at from its second state.
  lemma RunMore(ss: seq<Sched>, stride: seq<int>) returns (tt: seq<Sched>)
    requires Run(ss, stride)
    ensures |tt| == |ss| + 1 && tt[..|ss|] == ss && Run(tt, stride)
  {
    hide Charged, Ok;
    var n := |ss| - 1;
    RunReady(ss, stride, n);
    tt := ss + [Charged(ss[n], stride, 1)];
    forall k | 0 <= k < n
      ensures Queue(tt[k].q, tt[k].size, tt[k].count) && 1 <= tt[k].size && tt[k + 1] == Charged(tt[k], stride, 1)
    {
      assert tt[k] == ss[k] && tt[k + 1] == ss[k + 1];
    }
  }

  lemma RunReady(ss: seq<Sched>, stride: seq<int>, n: nat)
    requires Run(ss, stride) && n < |ss|
    ensures Ok(ss[n]) && Queue(ss[n].q, ss[n].size, ss[n].count) && 1 <= ss[n].size < NPROC
    ensures |Charged(ss[n], stride, 1).q| == SLOTS
  {
    RunKeeps(ss, stride, n);
  }

  lemma RunRest(ss: seq<Sched>, stride: seq<int>)
    requires Run(ss, stride) && |ss| > 1
    ensures Run(ss[1..], stride) && forall p :: Queued(ss[1], p) <==> Queued(ss[0], p)
  {
    RunReady(ss, stride, 1);
    forall p ensures Queued(ss[1], p) <==> Queued(ss[0], p) {
      RunQueued(ss, stride, 1, p);
    }
    hide Charged, Ok, Queued;
    var tt := ss[1..];
    forall k | 0 <= k < |tt| - 1
      ensures Queue(tt[k].q, tt[k].size, tt[k].count) && 1 <= tt[k].size && tt[k + 1] == Charged(tt[k], stride, 1)
    {
      assert tt[k] == ss[k + 1] && tt[k + 1] == ss[k + 1 + 1];
    }
  }

  /**
   Proportional share of the processor.  With every queued process runnable, the numbers of times
   two of them are dispatched, each weighed by its stride, differ by no more than the two strides.
   */
  lemma DispatchShare(ss: seq<Sched>, stride: seq<int>, p: int, r: int, n: nat)
    requires Run(ss, stride) && Fair(ss[0], stride) && n < |ss| && Queued(ss[0], p) && Queued(ss[0], r)
    ensures -(stride[p] + stride[r])
         <= Dispatches(ss, p, n) * stride[p] - Dispatches(ss, r, n) * stride[r]
         <= stride[p] + stride[r]
  {
    hide Charged, Dispatches, Charges, Ok, Queue;
    var tt := RunMore(ss, stride);
    RunRest(tt, stride);
    assert tt[0] == ss[0];
    NextFair(tt, stride);
    ProportionalShare(tt[1..], stride, p, r, n);
    DispatchesSame(ss, tt, p, n);
    DispatchesSame(ss, tt, r, n);
    DispatchesAre(tt, p, n);
    DispatchesAre(tt, r, n);
  }

  lemma NextFair(ss: seq<Sched>, stride: seq<int>)
    requires Run(ss, stride) && |ss| > 1 && Fair(ss[0], stride)
    ensures Fair(ss[1], stride)
  {
    SelectFair(ss[0], stride);
    hide Charged, Fair;
  }

  lemma {:induction false} DispatchesSame(ss: seq<Sched>, tt: seq<Sched>, p: int, n: nat)
    requires n < |ss| <= |tt| && tt[..|ss|] == ss && forall j :: 0 <= j < |tt| ==> |tt[j].q| == SLOTS
    ensures (forall j :: 0 <= j < |ss| ==> |ss[j].q| == SLOTS) && Dispatches(ss, p, n) == Dispatches(tt, p, n)
  {
    assert forall j :: 0 <= j < |ss| ==> ss[j] == tt[j];
    if n > 0 {
      DispatchesSame(ss, tt, p, n - 1);
    }
  }

  // ---------------------------------------------------------------- a queue that is not fair

  /**
   Giving a queued process another share keeps a fair queue fair exactly when the process is
   within its new stride of the root.
   */
  lemma ShareChangeIff(s: Sched, stride: seq<int>, p: int, d: int)
    requires Ok(s) && Strides(stride) && Fair(s, stride) && Queued(s, p) && d >= 0
    ensures Fair(s, stride[p := d]) <==> s.count[p] <= s.count[s.q[1]] + d
  {
    RootIsLeast(s, p);
    assert Queued(s, s.q[1]);
    forall r | Queued(s, r) ensures s.count[s.q[1]] <= s.count[r] {
      RootIsLeast(s, r);
    }
  }

  // ---------------------------------------------------------------- joining the queue

  // A new process starts level with the root, or with its own count if it is alone.
  function Joined(s: Sched, p: int): (r: Sched)
    requires Queue(s.q, s.size, s.count) && s.size < NPROC && 0 <= p < NPROC
  {
    var count := if s.size > 0 then s.count[p := s.count[s.q[1]]] else s.count;
    Sched(Pushed(s.q, s.size + 1, p), s.size + 1, count)
  }

  lemma JoinedOk(s: Sched, p: int)
    requires Ok(s) && s.size < NPROC && 0 <= p < NPROC && p !in s.q
    ensures Ok(Joined(s, p)) && Joined(s, p).q[1] == p
    ensures multiset(Joined(s, p).q) == multiset(s.q) - multiset{NONE} + multiset{p}
    ensures forall o :: 0 <= o < NPROC && o != p ==> Joined(s, p).count[o] == s.count[o]
    ensures var c := Joined(s, p).count[p];
      if s.size == 0 then c == s.count[p]
      else (exists o :: Queued(s, o) && c == s.count[o]) && forall o :: Queued(s, o) ==> c <= s.count[o]
  {
    if s.size > 0 {
      assert Queued(s, s.q[1]);
      forall o | Queued(s, o) ensures s.count[s.q[1]] <= s.count[o] {
        RootIsLeast(s, o);
      }
    }
    hide Heap, Pushed;
    var r := Joined(s, p);
    var h := s.size + 1;
    var q := s.q[h := p];
    PushedHole(s.q, h, p);
    JoinedLeast(s, p);
    PushedHeap(q, h, r.count, h, p);
    PushedSame(q, h, p);
    assert q[h := p] == q;
    DistinctPlus(s.q, h, p, r.q);
  }

  // The newcomer, in the first free slot, counts no more than anyone.
  lemma JoinedLeast(s: Sched, p: int)
    requires Ok(s) && s.size < NPROC && 0 <= p < NPROC && p !in s.q
    ensures var q := s.q[s.size + 1 := p]; var count := Joined(s, p).count;
      && Queue(q, s.size + 1, count) && HoleHeap(q, s.size + 1, count, s.size + 1)
      && forall k :: 1 <= k <= s.size + 1 ==> count[p] <= count[q[k]]
  {
    hide Pushed, Distinct;
    var h := s.size + 1;
    var q, count := s.q[h := p], Joined(s, p).count;
    assert forall k :: 1 <= k <= s.size ==> q[k] == s.q[k] && count[s.q[k]] == s.count[s.q[k]];
    forall k | 1 <= k <= h ensures count[p] <= count[q[k]] {
      if k < h { RootLeast(s.q, s.size, s.count, k); }
    }
  }

  // A process that is not queued takes an empty slot.
  lemma DistinctPlus(q: seq<int>, h: nat, p: int, r: seq<int>)
    requires Distinct(q) && h < |q| && q[h] == NONE && p !in q && multiset(r) == multiset(q[h := p])
    ensures Distinct(r) && multiset(r) == multiset(q) - multiset{NONE} + multiset{p}
  {
    assert multiset(q)[p] == 0;
  }

  // What is in the hole when the loop starts does not matter.
  lemma PushedHole(q: seq<int>, h: nat, p: int)
    requires |q| == SLOTS && 1 <= h < SLOTS
    ensures Pushed(q[h := p], h, p) == Pushed(q, h, p)
  {
    assert q[h := p][h := q[h / 2]] == q[h := q[h / 2]];
  }

  // Joining puts nobody ahead of anybody.
  lemma JoinedFair(s: Sched, stride: seq<int>, p: int)
    requires Ok(s) && Strides(stride) && Fair(s, stride) && s.size < NPROC && 0 <= p < NPROC && p !in s.q
    ensures Ok(Joined(s, p)) && Fair(Joined(s, p), stride)
  {
    var r := Joined(s, p);
    JoinedOk(s, p);
    forall a | Queued(r, a) ensures a == p || Queued(s, a) {
      assert a in multiset(r.q);
      assert a != p ==> a in multiset(s.q);
    }
    forall a, b | Queued(r, a) && Queued(r, b) ensures r.count[a] <= r.count[b] + stride[a] {
      if b != p { RootIsLeast(s, b); }
      if a != p { RootIsLeast(s, a); }
      if a != p && b == p {
        assert Queued(s, s.q[1]);
      }
    }
  }

  // ---------------------------------------------------------------- every queue that joins and selections make

  datatype Event = Select | Join(p: int)

  // From the empty queue, processes join and the root is charged, in any order.
  ghost predicate Grown(ss: seq<Sched>, events: seq<Event>, stride: seq<int>) {
    && |ss| == |events| + 1 && Strides(stride) && Ok(ss[0]) && ss[0].size == 0
    && forall k :: 0 <= k < |events| ==> Step(ss[k], events[k], stride, ss[k + 1])
  }

  ghost predicate Step(s: Sched, e: Event, stride: seq<int>, r: Sched) {
    && Queue(s.q, s.size, s.count) && |stride| == NPROC && s.size < NPROC
    && match e
       case Select => 1 <= s.size && r == Charged(s, stride, 1)
       case Join(p) => 0 <= p < NPROC && p !in s.q && r == Joined(s, p)
  }

  lemma StepFair(s: Sched, e: Event, stride: seq<int>, r: Sched)
    requires Ok(s) && Strides(stride) && Fair(s, stride) && Step(s, e, stride, r)
    ensures Ok(r) && Fair(r, stride)
  {
    hide Charged, Joined, Ok, Fair;
    match e
    case Select => SelectFair(s, stride);
    case Join(p) => JoinedFair(s, stride, p);
  }

  lemma SelectFair(s: Sched, stride: seq<int>)
    requires Ok(s) && Strides(stride) && 1 <= s.size < NPROC && Fair(s, stride)
    ensures Ok(Charged(s, stride, 1)) && Fair(Charged(s, stride, 1), stride)
  {
    ChargedFairIff(s, stride, 1);
    hide Charged, Fair;
  }

  // All of them are fair heaps.
  lemma {:induction false} GrownFair(ss: seq<Sched>, events: seq<Event>, stride: seq<int>, n: nat)
    requires Grown(ss, events, stride) && n < |ss|
    ensures Ok(ss[n]) && Fair(ss[n], stride)
  {
    hide Charged, Joined;
    if n > 0 {
      GrownFair(ss, events, stride, n - 1);
      StepFair(ss[n - 1], events[n - 1], stride, ss[n]);
    } else {
      EmptyFair(ss[0], stride);
    }
  }

  lemma EmptyFair(s: Sched, stride: seq<int>)
    requires Ok(s) && Strides(stride) && s.size == 0
    ensures Fair(s, stride)
  {
    assert forall k :: 0 <= k < SLOTS ==> s.q[k] == NONE;
  }

  // ---------------------------------------------------------------- a run that is not fair

  // Processes 0 and 1, the second a thousand ahead, after k charges to the first.
  function TwoQueued(k: nat): (s: Sched) {
    Sched(seq(SLOTS, j => if j == 1 then 0 else if j == 2 then 1 else NONE), 2,
          seq(NPROC, p => if p == 0 then 200 * k else if p == 1 then 1000 else 0))
  }

  function TwoStrides(): (d: seq<int>) { seq(NPROC, p => if p == 0 then 200 else if p == 1 then 333 else 0) }

  lemma TwoStep(k: nat)
    requires k < 5
    ensures Queue(TwoQueued(k).q, 2, TwoQueued(k).count) && Charged(TwoQueued(k), TwoStrides(), 1) == TwoQueued(k + 1)
  {
    var s := TwoQueued(k);
    var count := s.count[0 := s.count[0] + 200];
    assert count == TwoQueued(k + 1).count;
    assert s.q[1 := 0] == s.q;
  }

  /**
   Two processes join, the second is charged once with a stride of 1000, and then it is given a
   share with stride 333.  The other is charged five times alone: a difference of 1000, with
   strides 200 and 333.
   */
  lemma UnfairStart() returns (hs: seq<Sched>, before: seq<int>, ss: seq<Sched>, stride: seq<int>)
    ensures |ss| == 6 && Grown(hs, [Join(0), Join(1), Select], before) && stride == before[1 := 333] && ss[0] == hs[3]
    ensures Run(ss, stride) && Queued(ss[0], 0) && Queued(ss[0], 1) && !Fair(ss[0], stride)
    ensures Charges(ss, 0, 5) * stride[0] - Charges(ss, 1, 5) * stride[1] > stride[0] + stride[1]
  {
    hs, before := TwoJoin();
    stride := TwoStrides();
    ss := seq(6, k requires 0 <= k => TwoQueued(k));
    TwoRun(ss);
    OneAlone(ss, 0, 1, 5);
    assert TwoQueued(0).q[1] == 0 && TwoQueued(0).q[2] == 1;
    assert Queued(TwoQueued(0), 0) && Queued(TwoQueued(0), 1);
  }

  lemma TwoRun(ss: seq<Sched>)
    requires |ss| == 6 && forall k :: 0 <= k < 6 ==> ss[k] == TwoQueued(k)
    ensures Run(ss, TwoStrides())
  {
    hide Charged, Ok;
    TwoOk(0);
    forall k | 0 <= k < 5
      ensures Queue(ss[k].q, ss[k].size, ss[k].count) && ss[k + 1] == Charged(ss[k], TwoStrides(), 1)
    {
      TwoStep(k);
    }
  }

  // A process that is at the root throughout is charged every time, and nobody else ever.
  lemma {:induction false} OneAlone(ss: seq<Sched>, p: int, r: int, n: nat)
    requires n <= |ss| && p != r
    requires forall k :: 0 <= k < |ss| ==> |ss[k].q| == SLOTS && ss[k].q[1] == p
    ensures Charges(ss, p, n) == n && Charges(ss, r, n) == 0
  {
    if n > 0 {
      OneAlone(ss, p, r, n - 1);
    }
  }

  lemma TwoOk(k: nat)
    requires k <= 5
    ensures Ok(TwoQueued(k))
  {
    var q := TwoQueued(k).q;
    forall p | 0 <= p < NPROC ensures multiset(q)[p] <= 1 {
      OnceAtMost(q, p);
    }
  }

  lemma OnceAtMost(q: seq<int>, p: int)
    requires forall j, k :: 0 <= j < k < |q| && q[j] == p ==> q[k] != p
    ensures multiset(q)[p] <= 1
  {
    if |q| > 0 {
      var n := |q| - 1;
      assert q == q[..n] + [q[n]];
      if q[n] == p {
        assert p !in q[..n];
        assert multiset(q[..n])[p] == 0;
      } else {
        OnceAtMost(q[..n], p);
      }
    }
  }

  function NobodyQueued(): (s: Sched) {
    Sched(seq(SLOTS, j => NONE), 0, seq(NPROC, p => 0))
  }

  lemma NobodyOk()
    ensures Ok(NobodyQueued())
  {
    var q := NobodyQueued().q;
    forall p | 0 <= p < NPROC ensures multiset(q)[p] <= 1 {
      OnceAtMost(q, p);
    }
  }

  // How the queue comes about.
  lemma TwoJoin() returns (hs: seq<Sched>, before: seq<int>)
    ensures Grown(hs, [Join(0), Join(1), Select], before) && before[1 := 333] == TwoStrides() && hs[3] == TwoQueued(0)
  {
    before := TwoStrides()[1 := 1000];
    NobodyOk();
    var h0 := NobodyQueued();
    var h1 := Sched(h0.q[1 := 0], 1, h0.count);
    var h2 := Sched(h0.q[1 := 1][2 := 0], 2, h0.count);
    assert Step(h0, Join(0), before, h1);
    TwoSecond(h0, h1, h2, before);
    TwoCharged(h2, before);
    var events := [Join(0), Join(1), Select];
    hs := [h0, h1, h2, TwoQueued(0)];
    hide Step, Ok;
    assert before[1 := 333] == TwoStrides();
  }

  lemma TwoSecond(h0: Sched, h1: Sched, h2: Sched, before: seq<int>)
    requires h0 == NobodyQueued() && h1 == Sched(h0.q[1 := 0], 1, h0.count) && h2 == Sched(h0.q[1 := 1][2 := 0], 2, h0.count)
    requires |before| == NPROC
    ensures Step(h1, Join(1), before, h2)
  {
    assert h1.count[1 := h1.count[0]] == h0.count;
    assert Pushed(h1.q, 2, 1) == h1.q[2 := 0][1 := 1] == h2.q;
  }

  lemma TwoCharged(h2: Sched, before: seq<int>)
    requires h2 == Sched(NobodyQueued().q[1 := 1][2 := 0], 2, NobodyQueued().count) && before == TwoStrides()[1 := 1000]
    ensures Step(h2, Select, before, TwoQueued(0))
  {
    var r := TwoQueued(0);
    var count := h2.count[1 := 1000];
    assert count == r.count;
    assert h2.q[1] == 1 && h2.q[2] == 0 && h2.q[3] == NONE;
    assert Sunk(h2.q, 2, count, 1, 1) == h2.q[1 := 0][2 := 1] == r.q;
  }
}
