/** Whole calls of pipewrite and piperead, from the call to its return, in any run of the pipe. */
module PipeCalls {
  import opened PipeRing

  lemma RunStep(ss: seq<St>, steps: seq<Action>, i: nat)
    requires Run(ss, steps) && i < |steps|
    ensures |ss| == |steps| + 1 && Inv(ss[i]) && RingOk(ss[i].ring) && Next(ss[i], steps[i], ss[i + 1]) && |ss[i + 1].pc| == |ss[i].pc|
  {
    RunKeeps(ss, steps, i);
  }

  // ---------------------------------------------------------------- the call a process is in

  predicate Calls(a: Action, p: nat) { (a.CallWrite? || a.CallRead?) && a.p == p }

  predicate Returns(a: Action, p: nat) { (a.WriteDone? || a.GiveUp? || a.ReadDone? || a.ReadDies?) && a.p == p }

  // The call that step j makes has not returned before step i.
  ghost predicate During(steps: seq<Action>, j: nat, i: nat, p: nat) {
    && j < i <= |steps| && Calls(steps[j], p)
    && forall k :: j < k < i ==> !Calls(steps[k], p) && !Returns(steps[k], p)
  }

  predicate Reading(c: Pc) { c.RTake? || c.RTest? || c.RAsleep? || c.RCopy? }

  // What a process is doing is what it was called for.
  ghost predicate Asked(a: Action, s: St, c: Pc) {
    && (Writing(c) ==> a.CallWrite? && a.addr == c.addr && |s.ring.stored| == c.start)
    && (Reading(c) ==> a.CallRead? && a.n == c.n)
  }

  lemma StillAsked(a: Action, s0: St, s: St, b: Action, t: St, p: nat)
    requires Next(s, b, t) && p < |s.pc| && s.pc[p] != Idle && t.pc[p] != Idle && Asked(a, s0, s.pc[p])
    ensures !Calls(b, p) && !Returns(b, p) && Asked(a, s0, t.pc[p])
  {
    if Actor(b) && b.p == p {
      assert t.pc[p] == Goes(s.pc[p], b, s.ring);
    } else {
      assert t.pc[p] == Woken(s.pc[p], b);
    }
  }

  lemma {:induction false} CallOf(ss: seq<St>, steps: seq<Action>, i: nat, p: nat) returns (j: nat)
    requires Run(ss, steps) && i < |ss| && p < |ss[i].pc| && ss[i].pc[p] != Idle
    ensures During(steps, j, i, p) && Asked(steps[j], ss[j], ss[i].pc[p])
  {
    assert i > 0;
    var s, a := ss[i - 1], steps[i - 1];
    assert Next(s, a, ss[i]);
    if s.pc[p] == Idle {
      j := i - 1;
    } else {
      j := CallOf(ss, steps, i - 1, p);
      StillAsked(steps[j], ss[j], s, a, ss[i], p);
    }
  }

  // ---------------------------------------------------------------- writing

  // The bytes that process p put in, from place `start` on and in order.
  function Mine(cells: seq<Cell>, start: nat, p: nat): (r: seq<int>) {
    if |cells| <= start then []
    else var n := |cells| - 1; Mine(cells[..n], start, p) + if cells[n].writer == p then [cells[n].byte] else []
  }

  lemma {:induction false} MineIs(addr: seq<int>, start: nat, at: seq<nat>, p: nat, stored: seq<Cell>)
    requires Wrote(addr, start, at, p, stored)
    ensures Mine(stored, start, p) == addr[..|at|]
    decreases |stored|
  {
    hide Wrote;
    WroteBounds(addr, start, at, p, stored);
    if start < |stored| {
      var n, m := |stored| - 1, |at|;
      if stored[n].writer == p {
        LastOne(addr, start, at, p, stored);
        MineIs(addr, start, at[..m - 1], p, stored[..n]);
        assert addr[..m] == addr[..m - 1] + [addr[m - 1]];
      } else {
        WroteLess(addr, start, at, p, stored);
        MineIs(addr, start, at, p, stored[..n]);
      }
    }
  }

  lemma WroteBounds(addr: seq<int>, start: nat, at: seq<nat>, p: nat, stored: seq<Cell>)
    requires Wrote(addr, start, at, p, stored)
    ensures |at| <= |addr| && start <= |stored| && (start == |stored| ==> at == [])
  {
    if at != [] {
      assert start <= at[0] < |stored|;
    }
  }

  // The last cell is the process's own, and so the last it wrote.
  lemma LastOne(addr: seq<int>, start: nat, at: seq<nat>, p: nat, stored: seq<Cell>)
    requires Wrote(addr, start, at, p, stored) && start < |stored| && stored[|stored| - 1].writer == p
    ensures 0 < |at| <= |addr| && stored[|stored| - 1].byte == addr[|at| - 1] && Wrote(addr, start, at[..|at| - 1], p, stored[..|stored| - 1])
  {
    var n, m := |stored| - 1, |at|;
    var j :| 0 <= j < m && at[j] == n;
    Last(at, j, n);
    assert stored[at[m - 1]] == Cell(p, addr[m - 1]);
    var less, left := stored[..n], at[..m - 1];
    forall k | start <= k < n && less[k].writer == p ensures k in left {
      OtherThanLast(at, k);
    }
    assert forall l :: 0 <= l < m - 1 ==> left[l] == at[l] && at[l] < at[m - 1];
  }

  lemma OtherThanLast(at: seq<nat>, k: nat)
    requires k in at && at != [] && k != at[|at| - 1]
    ensures k in at[..|at| - 1]
  {
    var l :| 0 <= l < |at| && at[l] == k;
    assert at[..|at| - 1][l] == k;
  }

  lemma Last(at: seq<nat>, j: nat, n: nat)
    requires j < |at| && at[j] == n && (forall i, k :: 0 <= i < k < |at| ==> at[i] < at[k]) && forall k :: 0 <= k < |at| ==> at[k] <= n
    ensures j == |at| - 1
  {
    assert at[|at| - 1] <= n;
  }

  lemma WroteLess(addr: seq<int>, start: nat, at: seq<nat>, p: nat, stored: seq<Cell>)
    requires Wrote(addr, start, at, p, stored) && start < |stored| && stored[|stored| - 1].writer != p
    ensures Wrote(addr, start, at, p, stored[..|stored| - 1])
  {
    var n := |stored| - 1;
    forall k | start <= k < n && stored[..n][k].writer == p ensures k in at {
      assert stored[k].writer == p;
    }
  }

  lemma Onward<T>(a: seq<T>, b: seq<T>, c: seq<T>)
    requires a <= b <= c
    ensures a <= c
  {
  }

  lemma StepGrows(ss: seq<St>, steps: seq<Action>, i: nat)
    requires Run(ss, steps) && i < |steps|
    ensures |ss| == |steps| + 1 && ss[i].ring.stored <= ss[i + 1].ring.stored && ss[i].ring.delivered <= ss[i + 1].ring.delivered
  {
    hide *;
    RunStep(ss, steps, i);
    RingKept(ss[i], steps[i], ss[i + 1]);
  }

  lemma {:induction false} StoredGrows(ss: seq<St>, steps: seq<Action>, j: nat, i: nat)
    requires Run(ss, steps) && |ss| == |steps| + 1 && j <= i < |ss|
    ensures ss[j].ring.stored <= ss[i].ring.stored && ss[j].ring.delivered <= ss[i].ring.delivered
    decreases i
  {
    hide *;
    if j < i {
      StepGrows(ss, steps, i - 1);
      StoredGrows(ss, steps, j, i - 1);
      Onward(ss[j].ring.stored, ss[i - 1].ring.stored, ss[i].ring.stored);
      Onward(ss[j].ring.delivered, ss[i - 1].ring.delivered, ss[i].ring.delivered);
    }
  }

  /**
   pipewrite returns.  What the process put into the pipe since the call is, in order, all it was
   asked to write; or, if it gives up, only the first part of it, and then the pipe is full and
   nobody can read from it any more or the process was killed.
   */
  lemma WriteReturns(ss: seq<St>, steps: seq<Action>, i: nat, p: nat) returns (j: nat)
    requires Run(ss, steps) && i < |steps| && (steps[i] == WriteDone(p) || steps[i] == GiveUp(p))
    ensures During(steps, j, i, p) && steps[j].CallWrite? && ss[j].ring.stored <= ss[i].ring.stored
    ensures steps[i] == WriteDone(p) ==> Mine(ss[i].ring.stored, |ss[j].ring.stored|, p) == steps[j].addr
    ensures steps[i] == GiveUp(p) ==>
      && Mine(ss[i].ring.stored, |ss[j].ring.stored|, p) < steps[j].addr
      && |ss[i].ring.stored| == |ss[i].ring.delivered| + PIPESIZE && (!ss[i].readopen || p in ss[i].killed)
  {
    var s := ss[i];
    assert Next(s, steps[i], ss[i + 1]);
    j := CallOf(ss, steps, i, p);
    var c := s.pc[p];
    StoredGrows(ss, steps, j, i);
    WritesInOrder(ss, steps, i, p);
    MineIs(c.addr, c.start, c.at, p, s.ring.stored);
    RunKeeps(ss, steps, i);
    TestsExact(s.ring);
    assert steps[i] == WriteDone(p) ==> c.addr[..|c.at|] == c.addr;
  }

  // ---------------------------------------------------------------- reading

  // From step k on the process has copied out of the pipe, and nobody else touched it.
  ghost predicate Copies(ss: seq<St>, steps: seq<Action>, k: nat, i: nat, p: nat)
    requires Run(ss, steps)
  {
    && k < i < |ss| && steps[k] == StartCopy(p) && p < |ss[k].pc| && ss[k].pc[p].RTest? && p < |ss[i].pc| && ss[i].pc[p].RCopy?
    && ss[i].pc[p].n == ss[k].pc[p].n && ss[i].ring.stored == ss[k].ring.stored
    && ss[i].ring.delivered == ss[k].ring.delivered + ss[i].pc[p].got
    && forall l :: k < l < i ==> !Calls(steps[l], p) && !Returns(steps[l], p)
  }

  // The pipe's lock keeps the others off.
  lemma OnlyMe(s: St, a: Action, t: St, p: nat) returns (more: seq<int>)
    requires Inv(s) && Next(s, a, t) && p < |s.pc| && s.pc[p].RCopy? && t.pc[p].RCopy?
    ensures !Calls(a, p) && !Returns(a, p) && t.pc[p].n == s.pc[p].n && t.ring.stored == s.ring.stored
    ensures t.pc[p].got == s.pc[p].got + more && t.ring.delivered == s.ring.delivered + more
  {
    more := if a.Copy? then [Next1(s.ring)] else [];
    if a.Store? || a.Copy? {
      assert InLock(s.pc[a.p]) && InLock(s.pc[p]);
    }
    if Actor(a) && a.p == p {
      assert t.pc[p] == Goes(s.pc[p], a, s.ring);
    } else {
      assert t.pc[p] == Woken(s.pc[p], a);
    }
    assert t.pc[p].got == s.pc[p].got + more && t.ring.delivered == s.ring.delivered + more;
  }

  lemma CopyStarts(s: St, a: Action, t: St, p: nat)
    requires Next(s, a, t) && p < |s.pc| && !s.pc[p].RCopy? && t.pc[p].RCopy?
    ensures a == StartCopy(p) && s.pc[p].RTest? && t.pc[p] == RCopy(s.pc[p].n, []) && t.ring == s.ring
  {
    var c, d := s.pc[p], t.pc[p];
    assert d == Goes(c, a, s.ring) || d == Woken(c, a);
  }

  lemma CopiesFirst(ss: seq<St>, steps: seq<Action>, k: nat, p: nat)
    requires Run(ss, steps) && |ss| == |steps| + 1 && k < |steps| && steps[k] == StartCopy(p) && p < |ss[k].pc| && p < |ss[k + 1].pc|
    requires ss[k].pc[p].RTest? && ss[k + 1].pc[p] == RCopy(ss[k].pc[p].n, []) && ss[k + 1].ring == ss[k].ring
    ensures Copies(ss, steps, k, k + 1, p)
  {
    hide Run;
    assert ss[k].ring.delivered + [] == ss[k].ring.delivered;
  }

  lemma CopiesMore(ss: seq<St>, steps: seq<Action>, k: nat, i: nat, p: nat, more: seq<int>)
    requires Run(ss, steps) && |ss| == |steps| + 1 && i + 1 < |ss| && Copies(ss, steps, k, i, p)
    requires p < |ss[i + 1].pc| && ss[i + 1].pc[p].RCopy? && !Calls(steps[i], p) && !Returns(steps[i], p)
    requires ss[i + 1].pc[p].n == ss[i].pc[p].n && ss[i + 1].ring.stored == ss[i].ring.stored
    requires ss[i + 1].pc[p].got == ss[i].pc[p].got + more && ss[i + 1].ring.delivered == ss[i].ring.delivered + more
    ensures Copies(ss, steps, k, i + 1, p)
  {
    hide Run;
    assert ss[i + 1].ring.delivered == ss[k].ring.delivered + (ss[i].pc[p].got + more);
  }

  lemma {:induction false} CopyOf(ss: seq<St>, steps: seq<Action>, i: nat, p: nat) returns (k: nat)
    requires Run(ss, steps) && i < |ss| && p < |ss[i].pc| && ss[i].pc[p].RCopy?
    ensures Copies(ss, steps, k, i, p)
  {
    assert |ss| == |steps| + 1 && i > 0;
    hide *;
    RunStep(ss, steps, i - 1);
    var s, a, t := ss[i - 1], steps[i - 1], ss[i];
    if s.pc[p].RCopy? {
      k := CopyOf(ss, steps, i - 1, p);
      var more := OnlyMe(s, a, t, p);
      CopiesMore(ss, steps, k, i - 1, p, more);
    } else {
      k := i - 1;
      CopyStarts(s, a, t, p);
      CopiesFirst(ss, steps, k, p);
    }
  }

  /**
   piperead returns.  Of what was in the pipe when the reader found it fit to read, it has the
   oldest n bytes, or all of them if there are fewer; nobody else took or put any meanwhile.
   There was something, or there never will be.
   */
  lemma ReadReturns(ss: seq<St>, steps: seq<Action>, i: nat, p: nat) returns (j: nat, k: nat)
    requires Run(ss, steps) && i < |steps| && steps[i] == ReadDone(p)
    ensures During(steps, j, i, p) && steps[j].CallRead? && j < k < i && steps[k] == StartCopy(p)
    ensures p < |ss[i].pc| && ss[i].pc[p].RCopy?
    ensures var r, got, n := ss[k].ring, ss[i].pc[p].got, steps[j].n;
      && |r.delivered| <= |r.stored|
      && |got| == (if n < |r.stored| - |r.delivered| then n else |r.stored| - |r.delivered|)
      && got == Bytes(r.stored)[|r.delivered|..|r.delivered| + |got|]
      && ss[i].ring.stored == r.stored && ss[i].ring.delivered == r.delivered + got
      && (|r.stored| > |r.delivered| || !ss[k].writeopen)
  {
    var s := ss[i];
    assert Next(s, steps[i], ss[i + 1]);
    k := CopyOf(ss, steps, i, p);
    assert Next(ss[k], steps[k], ss[k + 1]);
    j := CallOf(ss, steps, k, p);
    RunKeeps(ss, steps, i);
    RunKeeps(ss, steps, k);
    TestsExact(s.ring);
    TestsExact(ss[k].ring);
    CopyLength(ss[k].ring, s.ring, s.pc[p]);
  }

  lemma CopyLength(r: Ring, t: Ring, c: Pc)
    requires RingOk(r) && RingOk(t) && c.RCopy? && |c.got| <= c.n && (|c.got| >= c.n || |t.stored| == |t.delivered|)
    requires t.stored == r.stored && t.delivered == r.delivered + c.got
    ensures |c.got| == if c.n < |r.stored| - |r.delivered| then c.n else |r.stored| - |r.delivered|
    ensures c.got == Bytes(r.stored)[|r.delivered|..|r.delivered| + |c.got|]
  {
    forall l | 0 <= l < |c.got| ensures c.got[l] == Bytes(r.stored)[|r.delivered| + l] {
      assert t.delivered[|r.delivered| + l] == c.got[l];
    }
  }

  // A reader leaves with nothing to show only if killed while waiting on an empty pipe that may be written.
  lemma ReadFails(ss: seq<St>, steps: seq<Action>, i: nat, p: nat) returns (j: nat)
    requires Run(ss, steps) && i < |steps| && steps[i] == ReadDies(p)
    ensures During(steps, j, i, p) && steps[j].CallRead?
    ensures |ss[i].ring.stored| == |ss[i].ring.delivered| && ss[i].writeopen && p in ss[i].killed
  {
    assert Next(ss[i], steps[i], ss[i + 1]);
    j := CallOf(ss, steps, i, p);
    RunKeeps(ss, steps, i);
    TestsExact(ss[i].ring);
  }

  // ---------------------------------------------------------------- going on

  // What process p itself can do, killing aside.
  predicate Own(a: Action, p: nat) { Actor(a) && !a.Kill? && a.p == p }

  // Whoever has the lock has exactly one way to go on.
  lemma OneWay(s: St, p: nat)
    requires p < |s.pc| && InLock(s.pc[p])
    ensures exists a :: Own(a, p) && Enabled(s, a)
    ensures forall a, b :: Own(a, p) && Enabled(s, a) && Own(b, p) && Enabled(s, b) ==> a == b
  {
    var c := s.pc[p];
    var a :=
      if c.WLoop? then
        if |c.at| >= |c.addr| then WriteDone(p) else if !Full(s.ring) then Store(p)
        else if !s.readopen || p in s.killed then GiveUp(p) else WriteSleeps(p)
      else if c.RTest? then
        if !(Empty(s.ring) && s.writeopen) then StartCopy(p) else if p in s.killed then ReadDies(p) else ReadSleeps(p)
      else if |c.got| >= c.n || Empty(s.ring) then ReadDone(p) else Copy(p);
    assert Own(a, p) && Enabled(s, a);
  }

  // Nobody sleeps who was killed.
  lemma {:induction false} KilledAwake(ss: seq<St>, steps: seq<Action>, i: nat, p: nat)
    requires Run(ss, steps) && i < |ss| && p < |ss[i].pc| && p in ss[i].killed
    ensures !ss[i].pc[p].WAsleep? && !ss[i].pc[p].RAsleep?
  {
    assert i > 0;
    var s, a := ss[i - 1], steps[i - 1];
    assert Next(s, a, ss[i]);
    if p in s.killed {
      KilledAwake(ss, steps, i - 1, p);
    }
    if Actor(a) && a.p == p {
      assert ss[i].pc[p] == Goes(s.pc[p], a, s.ring);
    } else {
      assert ss[i].pc[p] == Woken(s.pc[p], a);
    }
  }
}
