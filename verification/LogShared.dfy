/** Operations of one process among any others, and what a crash leaves of them. */
module LogShared {
  import opened Sizes
  import opened RedoLog
  import opened LogMachine
  import opened LogTheorems
  import opened LogSerial

  // Of the operations in ops, one after another, n have begun.
  ghost predicate Begun(s: State, ops: seq<Proc>, n: nat) {
    n <= |ops| && forall k :: 0 <= k < |ops| ==> (ops[k] in s.hist.started <==> k < n)
  }

  ghost predicate HomeIn(c: Config, d: seq<Block>, images: iset<seq<Block>>) {
    |d| == c.nblocks && exists e :: e in images && |e| == c.nblocks && SameHome(c, d, e)
  }

  /**
   A process does the operations in `ops` in turn, and any others run beside it; none outlives a
   crash.  When the last operation under way ends, the home blocks as operations see them are
   among good[n], if n of ops have begun.
   */
  ghost predicate Beside(c: Config, s: State, st: Step, ops: seq<Proc>, good: seq<iset<seq<Block>>>, lost: bool)
    requires |good| == |ops| + 1
  {
    && (st.Begin? ==> !lost && (st.p in ops ==> exists n: nat :: Begun(s, ops, n) && n < |ops| && Begun(Started(s, st.p), ops, n + 1)))
    && (st.End? && |s.active| == 1 ==> forall n: nat :: Begun(s, ops, n) ==> HomeIn(c, Target(s), good[n]))
  }

  function Started(s: State, p: Proc): (r: State) { s.(hist := s.hist.(started := s.hist.started + {p})) }

  ghost predicate Shared(c: Config, ss: seq<State>, steps: seq<Step>, ops: seq<Proc>, good: seq<iset<seq<Block>>>) {
    && Run(c, ss, steps) && |good| == |ops| + 1 && HomeIn(c, Recovered(c, ss[0].disk), good[0])
    && forall j :: 0 <= j < |steps| ==> Beside(c, ss[j], steps[j], ops, good, Lost(ss, steps, j))
  }

  // n have begun, and the committed state is one after m of them; at rest, after all.
  ghost predicate Stand(c: Config, s: State, ops: seq<Proc>, good: seq<iset<seq<Block>>>, n: nat, m: nat, lost: bool)
    requires |good| == |ops| + 1
  {
    && Begun(s, ops, n) && m <= n && HomeIn(c, s.hist.base, good[m])
    && (lost ==> s.active == map[] && !s.phase.CopyLog?)
    && (!lost && s.active == map[] ==> if s.phase.CopyLog? then HomeIn(c, Target(s), good[n]) else m == n)
  }

  lemma BegunOne(s: State, ops: seq<Proc>, n: nat, m: nat)
    requires Begun(s, ops, n) && Begun(s, ops, m)
    ensures n == m
  {
    assert n < |ops| ==> ops[n] !in s.hist.started;
    assert m < |ops| ==> ops[m] !in s.hist.started;
  }

  lemma BeginStand(c: Config, s: State, r: State, ops: seq<Proc>, good: seq<iset<seq<Block>>>, n: nat, m: nat, p: Proc) returns (k: nat)
    requires |good| == |ops| + 1 && Stand(c, s, ops, good, n, m, false) && Next(c, s, Begin(p), r)
    requires Beside(c, s, Begin(p), ops, good, false)
    ensures Stand(c, r, ops, good, k, m, false)
  {
    hide HomeIn;
    assert p in r.active && r.hist.started == s.hist.started + {p};
    k := n;
    if p in ops {
      var l: nat :| Begun(s, ops, l) && l < |ops| && Begun(Started(s, p), ops, l + 1);
      BegunOne(s, ops, n, l);
      k := n + 1;
    }
  }

  lemma EndStand(c: Config, s: State, r: State, ops: seq<Proc>, good: seq<iset<seq<Block>>>, n: nat, m: nat, p: Proc) returns (k: nat)
    requires |good| == |ops| + 1 && LogInv(c, s) && Stand(c, s, ops, good, n, m, false) && Next(c, s, End(p), r)
    requires Beside(c, s, End(p), ops, good, false)
    ensures Stand(c, r, ops, good, n, k, false)
  {
    EndQuiet(c, s, r, p);
    LastOne(s.active, p);
    hide HomeIn, Next, LogInv;
    k := if |s.active| == 1 && !r.phase.CopyLog? then n else m;
  }

  lemma StillStand(c: Config, s: State, r: State, ops: seq<Proc>, good: seq<iset<seq<Block>>>, n: nat, m: nat, lost: bool)
    requires |good| == |ops| + 1 && Stand(c, s, ops, good, n, m, lost) && Still(s, r)
    ensures Stand(c, r, ops, good, n, m, lost)
  {
    hide HomeIn;
  }

  // A logged write, by whichever operation.
  lemma WriteStand(c: Config, s: State, r: State, ops: seq<Proc>, good: seq<iset<seq<Block>>>, n: nat, m: nat, w: Write)
    requires |good| == |ops| + 1 && Stand(c, s, ops, good, n, m, false) && s.active != map[] && r.active != map[]
    requires r.hist.(scribbled := {}) == Logged(s.hist, w).(scribbled := {})
    ensures Stand(c, r, ops, good, n, m, false)
  {
    hide HomeIn;
  }

  lemma CommitStand(c: Config, s: State, r: State, ops: seq<Proc>, good: seq<iset<seq<Block>>>, n: nat, m: nat, p: Proc)
    requires |good| == |ops| + 1 && Stand(c, s, ops, good, n, m, false) && Next(c, s, CommitHeader(p), r) && s.active == map[]
    ensures Stand(c, r, ops, good, n, n, false)
  {
    hide HomeIn, WithHeader;
  }

  lemma CrashStand(c: Config, s: State, r: State, ops: seq<Proc>, good: seq<iset<seq<Block>>>, n: nat, m: nat, lost: bool)
    requires |good| == |ops| + 1 && Stand(c, s, ops, good, n, m, lost) && Next(c, s, Crash, r)
    ensures Stand(c, r, ops, good, n, m, lost || s.hist.started != {})
  {
    hide HomeIn;
    assert n > 0 ==> ops[0] in s.hist.started;
  }

  lemma StandKept(c: Config, s: State, st: Step, r: State, ops: seq<Proc>, good: seq<iset<seq<Block>>>, n: nat, m: nat, lost: bool)
    returns (k: nat, l: nat)
    requires |good| == |ops| + 1 && LogInv(c, s) && Next(c, s, st, r)
    requires Stand(c, s, ops, good, n, m, lost) && Beside(c, s, st, ops, good, lost)
    ensures Stand(c, r, ops, good, k, l, lost || (st.Crash? && s.hist.started != {}))
  {
    k, l := n, m;
    if st.Crash? {
      CrashStand(c, s, r, ops, good, n, m, lost);
    } else if st.Begin? {
      hide Stand, LogInv, HomeIn;
      k := BeginStand(c, s, r, ops, good, n, m, st.p);
    } else {
      l := WorkStand(c, s, st, r, ops, good, n, m, lost);
    }
  }

  lemma WorkStand(c: Config, s: State, st: Step, r: State, ops: seq<Proc>, good: seq<iset<seq<Block>>>, n: nat, m: nat, lost: bool)
    returns (l: nat)
    requires |good| == |ops| + 1 && LogInv(c, s) && Next(c, s, st, r) && !st.Begin? && !st.Crash?
    requires Stand(c, s, ops, good, n, m, lost) && Beside(c, s, st, ops, good, lost)
    ensures Stand(c, r, ops, good, n, l, lost)
  {
    assert s.phase != Normal ==> s.active == map[];
    hide HomeIn, LogInv, Begun, Apply, WithHeader, HeaderOf;
    l := m;
    if st.End? {
      l := EndStand(c, s, r, ops, good, n, m, st.p);
    } else if st.Append? {
      assert st.p in r.active;
      WriteStand(c, s, r, ops, good, n, m, Write(st.p, st.b, s.cache[st.b].data));
    } else if st.Modify? && s.cache[st.b].dirty {
      WriteStand(c, s, r, ops, good, n, m, Write(st.p, st.b, st.data));
    } else if st.CommitHeader? {
      CommitStand(c, s, r, ops, good, n, m, st.p);
      l := n;
    } else {
      StillIs(c, s, st, r);
      StillStand(c, s, r, ops, good, n, m, lost);
    }
  }

  lemma InitialStand(c: Config, s: State, ops: seq<Proc>, good: seq<iset<seq<Block>>>)
    requires Initial(c, s) && |good| == |ops| + 1 && HomeIn(c, Recovered(c, s.disk), good[0])
    ensures Stand(c, s, ops, good, 0, 0, false)
  {
    hide Recovered, HomeIn;
  }

  lemma {:induction false} SharedStand(c: Config, ss: seq<State>, steps: seq<Step>, ops: seq<Proc>, good: seq<iset<seq<Block>>>, i: nat)
    returns (n: nat, m: nat)
    requires Shared(c, ss, steps, ops, good) && i < |ss| && FitsTo(c, ss, i)
    ensures Stand(c, ss[i], ops, good, n, m, Lost(ss, steps, i))
  {
    hide Initial, Next, Beside, Lost, Fit, Stand, HomeIn;
    if i == 0 {
      n, m := 0, 0;
      NotYet(ss, steps);
      InitialStand(c, ss[0], ops, good);
    } else {
      n, m := SharedStand(c, ss, steps, ops, good, i - 1);
      RunKeeps(c, ss, steps, i - 1);
      LostStep(ss, steps, i - 1);
      assert Next(c, ss[i - 1], steps[i - 1], ss[i]);
      assert Beside(c, ss[i - 1], steps[i - 1], ops, good, Lost(ss, steps, i - 1));
      n, m := StandKept(c, ss[i - 1], steps[i - 1], ss[i], ops, good, n, m, Lost(ss, steps, i - 1));
    }
  }

  /**
   Stop the machine anywhere and recover: the home blocks are among those after some number m of the
   operations in ops that had begun; and after all of them, at rest and with no crash before.
   */
  lemma SharedAtomicity(c: Config, ss: seq<State>, steps: seq<Step>, ops: seq<Proc>, good: seq<iset<seq<Block>>>, i: nat)
    returns (n: nat, m: nat)
    requires Shared(c, ss, steps, ops, good) && i < |ss| && FitsTo(c, ss, i)
    ensures Begun(ss[i], ops, n) && m <= n && DiskOk(c, ss[i].disk) && HomeIn(c, Recovered(c, ss[i].disk), good[m])
    ensures !Lost(ss, steps, i) && ss[i].active == map[] && !ss[i].phase.CopyLog? ==> m == n
  {
    n, m := SharedStand(c, ss, steps, ops, good, i);
    RunKeeps(c, ss, steps, i);
    RecoveredIff(c, ss[i].disk, ss[i].hist.base);
    hide Shared, Recovered, Lost, Represents, HistInv, LogInv, PhaseInv, CacheInv;
  }
}
