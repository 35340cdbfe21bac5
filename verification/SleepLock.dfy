/**
 Sleep locks: acquiresleep and releasesleep over sleep and wakeup, one shared-memory step at a
 time, for any number of processes.  Two spinlocks are in play, the one inside the sleep lock
 and the process table's; the rest of the kernel may take the second at any time, and a
 sleeping process may be woken by a kill.
 */
module SleepLock {
  // Where a process is; each constructor names the step it takes next.
  datatype Pc =
    | Outside
    // acquiresleep
    | TakeLk | Test | SetLocked | SetPid | DropLk
    // sleep: take the table's lock, release lk, mark itself, give up the processor
    | SleepTakePt | SleepDropLk | SleepMark | SleepSched | Asleep
    // awake again: resumed holding the table's lock, release it, take lk
    | Woken | WokenDropPt | Retake
    | Holding
    // releasesleep
    | RelTakeLk | ClearLocked | ClearPid
    // wakeup: slot i of the process table is next
    | WakeTakePt | WakeAt(i: nat) | WakeDropPt | RelDropLk

  // A spinlock: free, held by a process, or held by kernel code outside the model.
  datatype Spin = Free | By(p: nat) | Elsewhere

  datatype St = St(pc: seq<Pc>, lk: Spin, pt: Spin, locked: bool, pid: nat)

  // A process steps, is killed in its sleep, or other kernel code takes or drops the table's lock.
  datatype Action = Step(p: nat) | Kill(p: nat) | KernelTakes | KernelDrops

  predicate HoldsLk(c: Pc) {
    c.Test? || c.SetLocked? || c.SetPid? || c.DropLk? || c.SleepTakePt? || c.SleepDropLk?
    || c.ClearLocked? || c.ClearPid? || c.WakeTakePt? || c.WakeAt? || c.WakeDropPt? || c.RelDropLk?
  }

  predicate HoldsPt(c: Pc) {
    c.SleepDropLk? || c.SleepMark? || c.SleepSched? || c.WokenDropPt? || c.WakeAt? || c.WakeDropPt?
  }

  // The process has the sleep lock: from setting `locked` to clearing it.
  predicate Owns(c: Pc) {
    c.SetPid? || c.DropLk? || c.Holding? || c.RelTakeLk? || c.ClearLocked?
  }

  // Asleep on the lock, or past the test and committed to sleeping on it.
  predicate Sleeper(c: Pc) {
    c.SleepTakePt? || c.SleepDropLk? || c.SleepMark? || c.SleepSched? || c.Asleep?
  }

  // Waits for lk, or for the table's lock.
  predicate WantsLk(c: Pc) { c.TakeLk? || c.Retake? || c.RelTakeLk? }
  predicate WantsPt(c: Pc) { c.SleepTakePt? || c.WakeTakePt? || c.Woken? }

  ghost predicate Enabled(s: St, a: Action) {
    match a
    case Step(p) =>
      p < |s.pc| && !s.pc[p].Asleep?
      && (WantsLk(s.pc[p]) ==> s.lk.Free?) && (WantsPt(s.pc[p]) ==> s.pt.Free?)
    case Kill(p) => p < |s.pc| && s.pc[p].Asleep? && s.pt.Free?
    case KernelTakes => s.pt.Free?
    case KernelDrops => s.pt.Elsewhere?
  }

  // Where a step leads, in a table of n slots.
  function After(c: Pc, locked: bool, n: nat): (d: Pc) {
    match c
    case Outside => TakeLk
    case TakeLk => Test
    case Test => if locked then SleepTakePt else SetLocked
    case SetLocked => SetPid
    case SetPid => DropLk
    case DropLk => Holding
    case SleepTakePt => SleepDropLk
    case SleepDropLk => SleepMark
    case SleepMark => SleepSched
    case SleepSched => Asleep
    case Asleep => Woken
    case Woken => WokenDropPt
    case WokenDropPt => Retake
    case Retake => Test
    case Holding => RelTakeLk
    case RelTakeLk => ClearLocked
    case ClearLocked => ClearPid
    case ClearPid => WakeTakePt
    case WakeTakePt => WakeAt(0)
    case WakeAt(i) => if i < n then WakeAt(i + 1) else WakeDropPt
    case WakeDropPt => RelDropLk
    case RelDropLk => Outside
  }

  // What a step of process p writes: the two spinlocks, `locked` and `pid`.
  function LkAfter(c: Pc, p: nat, l: Spin): (k: Spin) {
    if WantsLk(c) then By(p) else if c.DropLk? || c.SleepDropLk? || c.RelDropLk? then Free else l
  }

  function PtAfter(c: Pc, p: nat, l: Spin): (k: Spin) {
    if WantsPt(c) then By(p) else if c.SleepSched? || c.WokenDropPt? || c.WakeDropPt? then Free else l
  }

  function LockedAfter(c: Pc, locked: bool): (r: bool) {
    if c.SetLocked? then true else if c.ClearLocked? then false else locked
  }

  function PidAfter(c: Pc, p: nat, pid: nat): (r: nat) {
    if c.SetPid? then p + 1 else if c.ClearPid? then 0 else pid
  }

  // wakeup1 at one slot of the table.
  function Scanned(c: Pc, pc: seq<Pc>): (r: seq<Pc>)
    ensures |r| == |pc| && forall q :: 0 <= q < |pc| ==> r[q] == pc[q] || (c == WakeAt(q) && pc[q].Asleep? && r[q].Woken?)
    ensures forall q :: 0 <= q < |pc| && c == WakeAt(q) ==> !r[q].Asleep?
  {
    if c.WakeAt? && c.i < |pc| && pc[c.i].Asleep? then pc[c.i := Woken] else pc
  }

  function Stepped(s: St, p: nat): (t: St)
    requires p < |s.pc|
  {
    var c := s.pc[p];
    St(Scanned(c, s.pc)[p := After(c, s.locked, |s.pc|)], LkAfter(c, p, s.lk), PtAfter(c, p, s.pt),
       LockedAfter(c, s.locked), PidAfter(c, p, s.pid))
  }

  ghost predicate Next(s: St, a: Action, t: St) {
    Enabled(s, a) &&
    t == match a
         case Step(p) => Stepped(s, p)
         case Kill(p) => s.(pc := s.pc[p := Woken])
         case KernelTakes => s.(pt := Elsewhere)
         case KernelDrops => s.(pt := Free)
  }

  // ---------------------------------------------------------------- the invariant

  ghost predicate LocksOk(s: St) {
    && !s.lk.Elsewhere? && (s.lk.By? ==> s.lk.p < |s.pc|) && (s.pt.By? ==> s.pt.p < |s.pc|)
    && (forall p :: 0 <= p < |s.pc| ==> (HoldsLk(s.pc[p]) <==> s.lk == By(p)))
    && (forall p :: 0 <= p < |s.pc| ==> (HoldsPt(s.pc[p]) <==> s.pt == By(p)))
  }

  ghost predicate OwnerOk(s: St) {
    && (forall p :: 0 <= p < |s.pc| && Owns(s.pc[p]) ==> s.locked)
    && (forall p, q :: 0 <= p < |s.pc| && 0 <= q < |s.pc| && Owns(s.pc[p]) && Owns(s.pc[q]) ==> p == q)
    && (s.locked ==> exists p :: 0 <= p < |s.pc| && Owns(s.pc[p]))
    && (forall p :: 0 <= p < |s.pc| && Owns(s.pc[p]) && !s.pc[p].SetPid? ==> s.pid == p + 1)
  }

  // The test of `locked` still stands while lk is held; a releaser has cleared it.
  ghost predicate TestOk(s: St) {
    forall p :: 0 <= p < |s.pc| ==>
      && (s.pc[p].SleepTakePt? || s.pc[p].SleepDropLk? ==> s.locked)
      && (s.pc[p].SetLocked? ==> !s.locked)
      && (s.pc[p].ClearPid? || s.pc[p].WakeTakePt? || s.pc[p].WakeAt? || s.pc[p].WakeDropPt? || s.pc[p].RelDropLk? ==> !s.locked)
  }

  // A process at c is still going to wake the sleeper in slot p.
  predicate WillWake(c: Pc, p: nat) {
    c.ClearPid? || c.WakeTakePt? || (c.WakeAt? && c.i <= p)
  }

  ghost predicate WakeOk(s: St) {
    !s.locked ==> forall p :: 0 <= p < |s.pc| && Sleeper(s.pc[p]) ==> s.lk.By? && s.lk.p < |s.pc| && WillWake(s.pc[s.lk.p], p)
  }

  // An open lock names no process, but for one that is about to clear the name.
  ghost predicate PidOk(s: St) {
    !s.locked ==> s.pid == 0 || exists p :: 0 <= p < |s.pc| && s.pc[p].ClearPid?
  }

  ghost predicate Inv(s: St) {
    LocksOk(s) && OwnerOk(s) && TestOk(s) && WakeOk(s) && PidOk(s)
  }

  ghost predicate Init(s: St) {
    && s.lk == Free && !s.locked && s.pid == 0 && !s.pt.By?
    && forall p :: 0 <= p < |s.pc| ==> s.pc[p] == Outside
  }

  // ---------------------------------------------------------------- what one step may do

  predicate Actor(a: Action) { !a.KernelTakes? && !a.KernelDrops? }

  // Process p moves; all that may happen to another is to be woken.
  ghost predicate Moved(s: St, p: nat, t: St) {
    && p < |s.pc| == |t.pc|
    && forall q :: 0 <= q < |s.pc| && q != p ==> t.pc[q] == s.pc[q] || (s.pc[q].Asleep? && t.pc[q].Woken?)
  }

  // Process p takes the lock, which was free, or gives it back, or leaves it alone.
  ghost predicate Spun(had: bool, has: bool, l: Spin, p: nat, k: Spin) {
    if had == has then k == l else if has then l.Free? && k == By(p) else k.Free?
  }

  // Process p becomes or stops being the owner as it sets or clears `locked`.
  ghost predicate Owned(s: St, p: nat, t: St)
    requires p < |s.pc| && p < |t.pc|
  {
    && (if Owns(s.pc[p]) == Owns(t.pc[p]) then t.locked == s.locked else t.locked == Owns(t.pc[p]))
    && (t.pid == s.pid || (s.pc[p].SetPid? && t.pid == p + 1) || s.pc[p].ClearPid?)
    && (Owns(t.pc[p]) && !t.pc[p].SetPid? ==> (if s.pc[p].SetPid? then t.pid == p + 1 else Owns(s.pc[p])))
    && (!Owns(s.pc[p]) && Owns(t.pc[p]) ==> s.pc[p].SetLocked?)
  }

  lemma ActorMoves(s: St, a: Action, t: St)
    requires Actor(a) && Next(s, a, t)
    ensures Moved(s, a.p, t)
  {
  }

  lemma ActorSpins(s: St, a: Action, t: St)
    requires Actor(a) && Next(s, a, t)
    ensures a.p < |s.pc| == |t.pc|
    ensures Spun(HoldsLk(s.pc[a.p]), HoldsLk(t.pc[a.p]), s.lk, a.p, t.lk)
    ensures Spun(HoldsPt(s.pc[a.p]), HoldsPt(t.pc[a.p]), s.pt, a.p, t.pt)
  {
  }

  lemma ActorOwns(s: St, a: Action, t: St)
    requires Actor(a) && Next(s, a, t)
    ensures a.p < |s.pc| == |t.pc| && Owned(s, a.p, t)
  {
  }

  // ---------------------------------------------------------------- every step keeps it

  lemma LocksFrom(s: St, p: nat, t: St)
    requires LocksOk(s) && Moved(s, p, t)
    requires Spun(HoldsLk(s.pc[p]), HoldsLk(t.pc[p]), s.lk, p, t.lk)
    requires Spun(HoldsPt(s.pc[p]), HoldsPt(t.pc[p]), s.pt, p, t.pt)
    ensures LocksOk(t)
  {
  }

  lemma LocksKept(s: St, a: Action, t: St)
    requires LocksOk(s) && Next(s, a, t)
    ensures LocksOk(t)
  {
    if Actor(a) {
      ActorMoves(s, a, t);
      ActorSpins(s, a, t);
      LocksFrom(s, a.p, t);
    }
  }

  lemma OwnerFrom(s: St, p: nat, t: St)
    requires OwnerOk(s) && Moved(s, p, t) && Owned(s, p, t)
    requires s.pc[p].SetLocked? || s.pc[p].ClearPid? ==> !s.locked
    ensures OwnerOk(t)
  {
    if t.locked && s.locked {
      var q :| 0 <= q < |s.pc| && Owns(s.pc[q]);
      assert Owns(t.pc[q]);
    } else if t.locked {
      assert Owns(t.pc[p]);
    }
  }

  lemma OwnerKept(s: St, a: Action, t: St)
    requires OwnerOk(s) && TestOk(s) && Next(s, a, t)
    ensures OwnerOk(t)
  {
    if Actor(a) {
      ActorMoves(s, a, t);
      ActorOwns(s, a, t);
      OwnerFrom(s, a.p, t);
    }
  }

  lemma TestKept(s: St, a: Action, t: St)
    requires LocksOk(s) && OwnerOk(s) && TestOk(s) && Next(s, a, t)
    ensures TestOk(t)
  {
    if Actor(a) {
      ActorMoves(s, a, t);
      ActorOwns(s, a, t);
      assert t.locked != s.locked ==> HoldsLk(s.pc[a.p]);
    }
  }

  // The lock is open before and after the step.
  lemma WakeFrom(s: St, p: nat, t: St)
    requires WakeOk(s) && LocksOk(s) && LocksOk(t) && Moved(s, p, t) && !s.locked && !t.locked
    requires Sleeper(t.pc[p]) ==> Sleeper(s.pc[p])
    requires forall q :: 0 <= q < |s.pc| && Sleeper(t.pc[q]) && WillWake(s.pc[p], q) ==> WillWake(t.pc[p], q)
    ensures WakeOk(t)
  {
  }

  // What a step means for those still to be woken.
  lemma ActorWakes(s: St, a: Action, t: St)
    requires LocksOk(s) && Actor(a) && Next(s, a, t) && !s.locked
    ensures a.p < |s.pc| == |t.pc|
    ensures Sleeper(t.pc[a.p]) ==> Sleeper(s.pc[a.p])
    ensures forall q :: 0 <= q < |s.pc| && Sleeper(t.pc[q]) && WillWake(s.pc[a.p], q) ==> WillWake(t.pc[a.p], q)
  {
    // Whoever is scanning the table holds both locks, so a sleeper it comes to is asleep.
    if s.pc[a.p].WakeAt? && s.pc[a.p].i < |s.pc| {
      assert Sleeper(s.pc[s.pc[a.p].i]) ==> s.pc[s.pc[a.p].i].Asleep?;
    }
  }

  lemma WakeKept(s: St, a: Action, t: St)
    requires LocksOk(s) && LocksOk(t) && OwnerOk(s) && TestOk(s) && WakeOk(s) && Next(s, a, t)
    ensures WakeOk(t)
  {
    if Actor(a) {
      ActorMoves(s, a, t);
      if s.locked {
        WakeOpened(s, a, t);
      } else {
        ActorWakes(s, a, t);
        if !t.locked {
          WakeFrom(s, a.p, t);
        }
      }
    }
  }

  // The step that opens the lock leaves its process about to wake everybody.
  lemma WakeOpened(s: St, a: Action, t: St)
    requires LocksOk(t) && Actor(a) && Next(s, a, t) && s.locked
    ensures WakeOk(t)
  {
    if !t.locked {
      assert t.pc[a.p].ClearPid?;
    }
  }

  lemma PidKept(s: St, a: Action, t: St)
    requires OwnerOk(s) && PidOk(s) && Next(s, a, t)
    ensures PidOk(t)
  {
    if Actor(a) {
      ActorMoves(s, a, t);
      assert s.pc[a.p].ClearLocked? ==> t.pc[a.p].ClearPid?;
      if !s.locked && s.pid != 0 {
        var p :| 0 <= p < |s.pc| && s.pc[p].ClearPid?;
        assert p != a.p ==> t.pc[p].ClearPid?;
      }
    }
  }

  lemma StepKeeps(s: St, a: Action, t: St)
    requires Inv(s) && Next(s, a, t)
    ensures Inv(t)
  {
    LocksKept(s, a, t);
    OwnerKept(s, a, t);
    TestKept(s, a, t);
    WakeKept(s, a, t);
    PidKept(s, a, t);
  }

  // ---------------------------------------------------------------- along every run

  ghost predicate Run(ss: seq<St>, steps: seq<Action>) {
    && |ss| == |steps| + 1 && Init(ss[0])
    && forall i :: 0 <= i < |steps| ==> Next(ss[i], steps[i], ss[i + 1])
  }

  lemma {:induction false} RunKeeps(ss: seq<St>, steps: seq<Action>, i: nat)
    requires Run(ss, steps) && i < |ss|
    ensures Inv(ss[i])
  {
    if i > 0 {
      RunKeeps(ss, steps, i - 1);
      StepKeeps(ss[i - 1], steps[i - 1], ss[i]);
    }
  }

  // At most one process has the lock, and the lock's fields say which one.
  lemma MutualExclusion(ss: seq<St>, steps: seq<Action>, i: nat, p: nat)
    requires Run(ss, steps) && i < |ss| && p < |ss[i].pc| && ss[i].pc[p].Holding?
    ensures ss[i].locked && ss[i].pid == p + 1
    ensures forall q :: 0 <= q < |ss[i].pc| && ss[i].pc[q].Holding? ==> q == p
  {
    RunKeeps(ss, steps, i);
  }

  // With lk free and the lock open, no process sleeps on it or is committed to sleeping on it,
  // and the lock names none.
  lemma NoLostWakeup(ss: seq<St>, steps: seq<Action>, i: nat, p: nat)
    requires Run(ss, steps) && i < |ss| && ss[i].lk.Free? && !ss[i].locked && p < |ss[i].pc|
    ensures !Sleeper(ss[i].pc[p]) && ss[i].pid == 0
  {
    RunKeeps(ss, steps, i);
  }

  // Process p is inside one of the two calls and can take its next step.
  ghost predicate CanGo(s: St, p: nat) {
    p < |s.pc| && !s.pc[p].Outside? && !s.pc[p].Holding? && Enabled(s, Step(p))
  }

  lemma HolderGoes(s: St)
    requires Inv(s) && (s.pt.By? || (s.pt.Free? && s.lk.By?))
    ensures exists p :: CanGo(s, p)
  {
    var p := if s.pt.By? then s.pt.p else s.lk.p;
    assert CanGo(s, p);
  }

  /**
   The two calls never deadlock: unless other kernel code has the table's lock, some process
   that is inside one of them can step, or all that are inside sleep and someone has the lock.
   */
  lemma NeverStuck(ss: seq<St>, steps: seq<Action>, i: nat, p: nat)
    requires Run(ss, steps) && i < |ss| && !ss[i].pt.Elsewhere?
    requires p < |ss[i].pc| && !ss[i].pc[p].Outside? && !ss[i].pc[p].Holding?
    ensures (exists q :: CanGo(ss[i], q)) || (ss[i].pc[p].Asleep? && exists q :: 0 <= q < |ss[i].pc| && ss[i].pc[q].Holding?)
  {
    RunKeeps(ss, steps, i);
    var s := ss[i];
    if s.pt.By? || s.lk.By? {
      HolderGoes(s);
    } else if !s.pc[p].Asleep? {
      assert CanGo(s, p);
    } else {
      var q :| 0 <= q < |s.pc| && Owns(s.pc[q]);
      assert !s.pc[q].Holding? ==> CanGo(s, q);
    }
  }
}
