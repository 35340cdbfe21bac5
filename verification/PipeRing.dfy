/**
 Pipes: pipewrite and piperead by any number of processes, one turn of a loop at a time.
 A step that needs the pipe's lock happens while the process has it; going to sleep releases
 the lock, and whoever is woken takes it again before going on.
 */
module PipeRing {

  const PIPESIZE: nat := 512
  const WRAP: nat := 0x1_0000_0000      // counters are 32 bits wide

  /**
   Where a process is.  A writer carries the bytes it was asked to write, how many bytes had
   been stored when it was called, and where those it has written went; a reader carries the
   bytes it has so far.
   */
  datatype Pc =
    | Idle
    | WTake(addr: seq<int>, start: nat, at: seq<nat>)     // wants the lock
    | WLoop(addr: seq<int>, start: nat, at: seq<nat>)     // has it
    | WAsleep(addr: seq<int>, start: nat, at: seq<nat>)   // asleep on nwrite
    | RTake(n: nat)
    | RTest(n: nat)
    | RAsleep(n: nat)                                     // asleep on nread
    | RCopy(n: nat, got: seq<int>)

  datatype Lock = Free | By(p: nat)

  // A byte that was put into the pipe, and who put it there.
  datatype Cell = Cell(writer: nat, byte: int)

  /**
   `data`, `nread`, `nwrite`, `readopen`, `writeopen` and `lock` are the pipe; `stored` and
   `delivered` record all bytes ever put in and taken out.
   */
  datatype St = St(pc: seq<Pc>, killed: set<nat>, lock: Lock, ring: Ring, readopen: bool, writeopen: bool)
  datatype Ring = Ring(data: seq<int>, nread: nat, nwrite: nat, stored: seq<Cell>, delivered: seq<int>)

  datatype Action =
    | CallWrite(p: nat, addr: seq<int>) | CallRead(p: nat, n: nat)
    | Take(p: nat)
    // pipewrite: store a byte; sleep or give up on a full pipe; return
    | Store(p: nat) | WriteSleeps(p: nat) | GiveUp(p: nat) | WriteDone(p: nat)
    // piperead: sleep or give up on an empty pipe; copy out a byte; return
    | ReadSleeps(p: nat) | ReadDies(p: nat) | StartCopy(p: nat) | Copy(p: nat) | ReadDone(p: nat)
    | Kill(p: nat) | CloseRead | CloseWrite

  // The tests the code makes, on counters that wrap.
  predicate Full(r: Ring) { r.nwrite == (r.nread + PIPESIZE) % WRAP }
  predicate Empty(r: Ring) { r.nread == r.nwrite }

  predicate InLock(c: Pc) { c.WLoop? || c.RTest? || c.RCopy? }
  predicate WantsLock(c: Pc) { c.WTake? || c.RTake? }

  predicate Actor(a: Action) { !a.CloseRead? && !a.CloseWrite? }

  ghost predicate Enabled(s: St, a: Action) {
    if Actor(a) then a.p < |s.pc| && Ready(s, a, s.pc[a.p]) else s.lock.Free?
  }

  // Where the process must be for each action, and what the code tests.
  ghost predicate Ready(s: St, a: Action, c: Pc) {
    match a
    case CallWrite(_, _) => c.Idle?
    case CallRead(_, _) => c.Idle?
    case Take(_) => WantsLock(c) && s.lock.Free?
    case Store(_) => c.WLoop? && |c.at| < |c.addr| && !Full(s.ring)
    case WriteSleeps(p) => c.WLoop? && |c.at| < |c.addr| && Full(s.ring) && s.readopen && p !in s.killed
    case GiveUp(p) => c.WLoop? && |c.at| < |c.addr| && Full(s.ring) && (!s.readopen || p in s.killed)
    case WriteDone(_) => c.WLoop? && |c.at| >= |c.addr|
    case ReadSleeps(p) => c.RTest? && Empty(s.ring) && s.writeopen && p !in s.killed
    case ReadDies(p) => c.RTest? && Empty(s.ring) && s.writeopen && p in s.killed
    case StartCopy(_) => c.RTest? && !(Empty(s.ring) && s.writeopen)
    case Copy(_) => c.RCopy? && |c.got| < c.n && !Empty(s.ring)
    case ReadDone(_) => c.RCopy? && (|c.got| >= c.n || Empty(s.ring))
    case _ => true
  }

  function Stored(r: Ring, p: nat, b: int): (r': Ring)
    requires |r.data| == PIPESIZE
  {
    r.(data := r.data[r.nwrite % PIPESIZE := b], nwrite := (r.nwrite + 1) % WRAP, stored := r.stored + [Cell(p, b)])
  }

  function Next1(r: Ring): (b: int)
    requires |r.data| == PIPESIZE
  {
    r.data[r.nread % PIPESIZE]
  }

  function Taken(r: Ring): (r': Ring)
    requires |r.data| == PIPESIZE
  {
    r.(nread := (r.nread + 1) % WRAP, delivered := r.delivered + [Next1(r)])
  }

  function RingAfter(s: St, a: Action): (r: Ring)
    requires |s.ring.data| == PIPESIZE
  {
    if a.Store? && a.p < |s.pc| && s.pc[a.p].WLoop? && |s.pc[a.p].at| < |s.pc[a.p].addr|
    then Stored(s.ring, a.p, s.pc[a.p].addr[|s.pc[a.p].at|])
    else if a.Copy? then Taken(s.ring)
    else s.ring
  }

  // Where the action takes the process that does it.
  function Goes(c: Pc, a: Action, r: Ring): (d: Pc)
    requires |r.data| == PIPESIZE
  {
    match a
    case CallWrite(_, addr) => WTake(addr, |r.stored|, [])
    case CallRead(_, n) => RTake(n)
    case Take(_) => if c.WTake? then WLoop(c.addr, c.start, c.at) else if c.RTake? then RTest(c.n) else c
    case Store(_) => if c.WLoop? then WLoop(c.addr, c.start, c.at + [|r.stored|]) else c
    case WriteSleeps(_) => if c.WLoop? then WAsleep(c.addr, c.start, c.at) else c
    case ReadSleeps(_) => if c.RTest? then RAsleep(c.n) else c
    case StartCopy(_) => if c.RTest? then RCopy(c.n, []) else c
    case Copy(_) => if c.RCopy? then RCopy(c.n, c.got + [Next1(r)]) else c
    case Kill(_) => Awake(c)
    case _ => Idle
  }

  function Awake(c: Pc): (d: Pc) {
    if c.WAsleep? then WTake(c.addr, c.start, c.at) else if c.RAsleep? then RTake(c.n) else c
  }

  predicate WakesReaders(a: Action) { a.WriteSleeps? || a.WriteDone? || a.CloseWrite? }
  predicate WakesWriters(a: Action) { a.ReadDone? || a.CloseRead? }

  // Who runs wakeup on a channel wakes all that sleep there.
  function Woken(c: Pc, a: Action): (d: Pc) {
    if (c.RAsleep? && WakesReaders(a)) || (c.WAsleep? && WakesWriters(a)) then Awake(c) else c
  }

  predicate Drops(a: Action) {
    a.WriteSleeps? || a.GiveUp? || a.WriteDone? || a.ReadSleeps? || a.ReadDies? || a.ReadDone?
  }

  ghost predicate Next(s: St, a: Action, t: St) {
    && Enabled(s, a) && |s.ring.data| == PIPESIZE
    && |t.pc| == |s.pc|
    && (forall q :: 0 <= q < |s.pc| ==>
          t.pc[q] == if Actor(a) && a.p == q then Goes(s.pc[q], a, s.ring) else Woken(s.pc[q], a))
    && t.killed == (if a.Kill? then s.killed + {a.p} else s.killed)
    && t.lock == (if a.Take? then By(a.p) else if Drops(a) then Free else s.lock)
    && t.ring == RingAfter(s, a)
    && t.readopen == (s.readopen && !a.CloseRead?)
    && t.writeopen == (s.writeopen && !a.CloseWrite?)
  }

  // ---------------------------------------------------------------- the ring

  ghost predicate RingOk(r: Ring) {
    && |r.data| == PIPESIZE
    && |r.delivered| <= |r.stored| <= |r.delivered| + PIPESIZE
    && r.nwrite == |r.stored| % WRAP && r.nread == |r.delivered| % WRAP
    && (forall k :: 0 <= k < |r.delivered| ==> r.delivered[k] == r.stored[k].byte)
    && (forall k :: |r.delivered| <= k < |r.stored| ==> r.data[k % PIPESIZE] == r.stored[k].byte)
  }

  lemma WrapSlot(n: nat)
    ensures (n % WRAP) % PIPESIZE == n % PIPESIZE
    ensures (n % WRAP + 1) % WRAP == (n + 1) % WRAP
  {
    var q := n / WRAP;
    assert n == q * WRAP + n % WRAP;
    assert q * WRAP == (q * (WRAP / PIPESIZE)) * PIPESIZE;
  }

  // Although the counters wrap, the two tests are exact.
  lemma TestsExact(r: Ring)
    requires RingOk(r)
    ensures Full(r) <==> |r.stored| == |r.delivered| + PIPESIZE
    ensures Empty(r) <==> |r.stored| == |r.delivered|
  {
  }

  // Within a window of PIPESIZE, places differ.
  lemma Apart(j: nat, k: nat)
    requires j < k < j + PIPESIZE
    ensures j % PIPESIZE != k % PIPESIZE
  {
  }

  lemma StoredOk(r: Ring, p: nat, b: int)
    requires RingOk(r) && !Full(r)
    ensures RingOk(Stored(r, p, b))
  {
    var n := |r.stored|;
    WrapSlot(n);
    TestsExact(r);
    forall k | |r.delivered| <= k < n ensures k % PIPESIZE != n % PIPESIZE {
      Apart(k, n);
    }
  }

  lemma TakenOk(r: Ring)
    requires RingOk(r) && !Empty(r)
    ensures RingOk(Taken(r)) && Next1(r) == r.stored[|r.delivered|].byte
  {
    WrapSlot(|r.delivered|);
    TestsExact(r);
  }

  lemma RingKept(s: St, a: Action, t: St)
    requires RingOk(s.ring) && Next(s, a, t)
    ensures RingOk(t.ring) && s.ring.stored <= t.ring.stored && s.ring.delivered <= t.ring.delivered
  {
    if a.Store? {
      StoredOk(s.ring, a.p, s.pc[a.p].addr[|s.pc[a.p].at|]);
    } else if a.Copy? {
      TakenOk(s.ring);
    }
  }

  // ---------------------------------------------------------------- processes

  ghost predicate LockOk(s: St) {
    && (s.lock.By? ==> s.lock.p < |s.pc|)
    && forall p :: 0 <= p < |s.pc| ==> (InLock(s.pc[p]) <==> s.lock == By(p))
  }

  predicate Writing(c: Pc) { c.WTake? || c.WLoop? || c.WAsleep? }

  /**
   What process p was asked to write and has written is in the pipe's history in order, and
   since it was called nothing else of its own went in.
   */
  ghost predicate Wrote(addr: seq<int>, start: nat, at: seq<nat>, p: nat, stored: seq<Cell>) {
    && |at| <= |addr| && start <= |stored|
    && (forall j :: 0 <= j < |at| ==> start <= at[j] < |stored| && stored[at[j]] == Cell(p, addr[j]))
    && (forall j, k :: 0 <= j < k < |at| ==> at[j] < at[k])
    && (forall k :: start <= k < |stored| && stored[k].writer == p ==> k in at)
  }

  ghost predicate WroteOk(s: St) {
    forall p :: 0 <= p < |s.pc| && Writing(s.pc[p]) ==> Wrote(s.pc[p].addr, s.pc[p].start, s.pc[p].at, p, s.ring.stored)
  }

  // A reader that is copying has the bytes last delivered.
  ghost predicate Got(n: nat, got: seq<int>, delivered: seq<int>) {
    |got| <= n && |got| <= |delivered| && got == delivered[|delivered| - |got|..]
  }

  ghost predicate GotOk(s: St) {
    forall p :: 0 <= p < |s.pc| && s.pc[p].RCopy? ==>
      Got(s.pc[p].n, s.pc[p].got, s.ring.delivered) && (s.pc[p].got == [] ==> !Empty(s.ring) || !s.writeopen)
  }

  // A writer sleeps on a full pipe, unless a reader is about to wake it.
  ghost predicate WritersOk(s: St) {
    forall p :: 0 <= p < |s.pc| && s.pc[p].WAsleep? ==>
      (Full(s.ring) && s.readopen) || (s.lock.By? && s.lock.p < |s.pc| && s.pc[s.lock.p].RCopy?)
  }

  // A reader sleeps on an empty pipe that may still be written, unless a writer is about to wake it.
  ghost predicate ReadersOk(s: St) {
    forall p :: 0 <= p < |s.pc| && s.pc[p].RAsleep? ==>
      (Empty(s.ring) && s.writeopen) || (s.lock.By? && s.lock.p < |s.pc| && s.pc[s.lock.p].WLoop?)
  }

  ghost predicate Inv(s: St) {
    RingOk(s.ring) && LockOk(s) && WroteOk(s) && GotOk(s) && WritersOk(s)
  }

  ghost predicate Init(s: St) {
    && s.lock == Free && s.readopen && s.writeopen && s.killed == {}
    && |s.ring.data| == PIPESIZE && s.ring == Ring(s.ring.data, 0, 0, [], [])
    && forall p :: 0 <= p < |s.pc| ==> s.pc[p] == Idle
  }

  lemma LockKept(s: St, a: Action, t: St)
    requires LockOk(s) && Next(s, a, t)
    ensures LockOk(t)
  {
  }

  lemma WroteMore(addr: seq<int>, start: nat, at: seq<nat>, p: nat, stored: seq<Cell>, c: Cell)
    requires Wrote(addr, start, at, p, stored)
    ensures c.writer != p ==> Wrote(addr, start, at, p, stored + [c])
    ensures |at| < |addr| && c == Cell(p, addr[|at|]) ==> Wrote(addr, start, at + [|stored|], p, stored + [c])
  {
    if |at| < |addr| && c == Cell(p, addr[|at|]) {
      var at' := at + [|stored|];
      forall k | start <= k < |stored| + 1 && (stored + [c])[k].writer == p ensures k in at' {
        if k < |stored| {
          var j :| 0 <= j < |at| && at[j] == k;
          assert at'[j] == k;
        } else {
          assert at'[|at|] == k;
        }
      }
    }
  }

  lemma WroteNone(addr: seq<int>, p: nat, stored: seq<Cell>)
    ensures Wrote(addr, |stored|, [], p, stored)
  {
  }

  lemma WroteKept(s: St, a: Action, t: St)
    requires WroteOk(s) && Next(s, a, t)
    ensures WroteOk(t)
  {
    hide Wrote;
    forall p | 0 <= p < |t.pc| && Writing(t.pc[p]) ensures Wrote(t.pc[p].addr, t.pc[p].start, t.pc[p].at, p, t.ring.stored) {
      if a.CallWrite? {
        WroteNone(a.addr, p, s.ring.stored);
      } else if a.Store? && Writing(s.pc[p]) {
        var c := s.pc[a.p];
        WroteMore(s.pc[p].addr, s.pc[p].start, s.pc[p].at, p, s.ring.stored, Cell(a.p, c.addr[|c.at|]));
      }
    }
  }

  lemma GotMore(n: nat, got: seq<int>, delivered: seq<int>, b: int)
    requires Got(n, got, delivered) && |got| < n
    ensures Got(n, got + [b], delivered + [b])
  {
  }

  lemma GotKept(s: St, a: Action, t: St)
    requires RingOk(s.ring) && LockOk(s) && GotOk(s) && Next(s, a, t)
    ensures GotOk(t)
  {
    if a.Copy? {
      GotMore(s.pc[a.p].n, s.pc[a.p].got, s.ring.delivered, Next1(s.ring));
    }
    hide Got, RingOk;
  }

  lemma WritersKept(s: St, a: Action, t: St)
    requires LockOk(s) && WritersOk(s) && Next(s, a, t)
    ensures WritersOk(t)
  {
  }

  // The writer leaves without waking anyone while a reader sleeps.
  ghost predicate Abandons(s: St, a: Action) {
    a.GiveUp? && exists p :: 0 <= p < |s.pc| && s.pc[p].RAsleep?
  }

  lemma ReadersKept(s: St, a: Action, t: St)
    requires RingOk(s.ring) && LockOk(s) && ReadersOk(s) && Next(s, a, t) && !Abandons(s, a)
    ensures ReadersOk(t)
  {
  }

  lemma StepKeeps(s: St, a: Action, t: St)
    requires Inv(s) && Next(s, a, t)
    ensures Inv(t)
  {
    RingKept(s, a, t);
    LockKept(s, a, t);
    WroteKept(s, a, t);
    GotKept(s, a, t);
    WritersKept(s, a, t);
  }

  // ---------------------------------------------------------------- along every run

  ghost predicate Run(ss: seq<St>, steps: seq<Action>) {
    && |ss| == |steps| + 1 && Init(ss[0])
    && forall i :: 0 <= i < |steps| ==> Next(ss[i], steps[i], ss[i + 1])
  }

  lemma {:induction false} RunKeeps(ss: seq<St>, steps: seq<Action>, i: nat)
    requires Run(ss, steps) && i < |ss|
    ensures Inv(ss[i])
  {
    if i > 0 {
      RunKeeps(ss, steps, i - 1);
      StepKeeps(ss[i - 1], steps[i - 1], ss[i]);
    }
  }

  function Bytes(cells: seq<Cell>): (r: seq<int>)
    ensures |r| == |cells| && forall k :: 0 <= k < |r| ==> r[k] == cells[k].byte
  {
    seq(|cells|, k requires 0 <= k < |cells| => cells[k].byte)
  }

  // Bytes come out in the order they went in, none lost, none made up, none twice; the wrapped
  // counters stay at most PIPESIZE apart.
  lemma Fifo(ss: seq<St>, steps: seq<Action>, i: nat)
    requires Run(ss, steps) && i < |ss|
    ensures var r := ss[i].ring; r.delivered <= Bytes(r.stored) && (r.nwrite - r.nread) % WRAP == |r.stored| - |r.delivered| <= PIPESIZE
  {
    RunKeeps(ss, steps, i);
    var r := ss[i].ring;
    assert forall k :: 0 <= k < |r.delivered| ==> r.delivered[k] == Bytes(r.stored)[k];
    Difference(|r.stored|, |r.delivered|);
  }

  lemma Difference(n: nat, m: nat)
    requires m <= n < m + WRAP
    ensures (n % WRAP - m % WRAP) % WRAP == n - m
  {
  }

  // A write that is under way, wherever it has slept, has put in its bytes so far and in order.
  lemma WritesInOrder(ss: seq<St>, steps: seq<Action>, i: nat, p: nat)
    requires Run(ss, steps) && i < |ss| && p < |ss[i].pc| && Writing(ss[i].pc[p])
    ensures var c := ss[i].pc[p]; Wrote(c.addr, c.start, c.at, p, ss[i].ring.stored)
  {
    RunKeeps(ss, steps, i);
  }

  // A read gets a stretch of what was stored, and nothing only from a pipe that is empty for good.
  lemma ReadsStretch(ss: seq<St>, steps: seq<Action>, i: nat, p: nat)
    requires Run(ss, steps) && i < |ss| && p < |ss[i].pc| && ss[i].pc[p].RCopy?
    ensures var c, r := ss[i].pc[p], ss[i].ring;
      |c.got| <= |r.delivered| <= |r.stored| && c.got == Bytes(r.stored)[|r.delivered| - |c.got|..|r.delivered|]
    ensures var c := ss[i].pc[p]; Enabled(ss[i], ReadDone(p)) && c.n > 0 && c.got == [] ==> Empty(ss[i].ring) && !ss[i].writeopen
  {
    RunKeeps(ss, steps, i);
    var c, r := ss[i].pc[p], ss[i].ring;
    assert forall k :: 0 <= k < |c.got| ==> c.got[k] == r.delivered[|r.delivered| - |c.got| + k];
  }

  // Once the lock is free, a writer still asleep has a full pipe and readers.
  lemma WritersAwake(ss: seq<St>, steps: seq<Action>, i: nat, p: nat)
    requires Run(ss, steps) && i < |ss| && p < |ss[i].pc| && ss[i].pc[p].WAsleep? && ss[i].lock.Free?
    ensures Full(ss[i].ring) && ss[i].readopen
  {
    RunKeeps(ss, steps, i);
  }

  // A reader is asleep although there are bytes to read, or no more will come.
  ghost predicate Stranded(s: St) {
    s.lock.Free? && !(Empty(s.ring) && s.writeopen) && exists p :: 0 <= p < |s.pc| && s.pc[p].RAsleep?
  }

  lemma {:induction false} ReadersWait(ss: seq<St>, steps: seq<Action>, i: nat)
    requires Run(ss, steps) && i < |ss| && forall j :: 0 <= j < i ==> !Abandons(ss[j], steps[j])
    ensures ReadersOk(ss[i])
  {
    if i > 0 {
      ReadersWait(ss, steps, i - 1);
      RunKeeps(ss, steps, i - 1);
      ReadersKept(ss[i - 1], steps[i - 1], ss[i]);
    }
  }

  // A killed writer that leaves a full pipe wakes no reader.
  lemma AbandonStrands(s: St, a: Action, t: St)
    requires RingOk(s.ring) && Next(s, a, t) && Abandons(s, a)
    ensures Stranded(t)
  {
    TestsExact(s.ring);
    var p :| 0 <= p < |s.pc| && s.pc[p].RAsleep?;
    assert t.pc[p].RAsleep?;
  }

  // pipewrite returns without a wakeup from a full pipe; that, and nothing else, strands readers.
  lemma StrandedIff(ss: seq<St>, steps: seq<Action>)
    requires Run(ss, steps)
    ensures (exists i :: 0 <= i < |ss| && Stranded(ss[i])) <==> (exists i :: 0 <= i < |steps| && Abandons(ss[i], steps[i]))
  {
    if i :| 0 <= i < |steps| && Abandons(ss[i], steps[i]) {
      RunKeeps(ss, steps, i);
      AbandonStrands(ss[i], steps[i], ss[i + 1]);
    } else {
      forall i | 0 <= i < |ss| ensures !Stranded(ss[i]) {
        ReadersWait(ss, steps, i);
      }
    }
  }
}
