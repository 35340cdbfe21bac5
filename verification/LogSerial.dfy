/** Operations that follow one another, and what a crash leaves of them. */
module LogSerial {
  import opened Sizes
  import opened RedoLog
  import opened LogMachine
  import opened LogTheorems

  // A crash has come after the first operation began.
  ghost predicate Lost(ss: seq<State>, steps: seq<Step>, j: nat) {
    exists i :: 0 <= i < j && i < |steps| && i < |ss| && steps[i].Crash? && ss[i].hist.started != {}
  }

  /**
   Operations 0, 1, 2 ... of a process that does one after another and does not outlive a crash,
   while no other operation runs.  When one ends, what it has logged makes of the home blocks in
   images[p] those in images[p + 1].
   */
  ghost predicate OneByOne(c: Config, s: State, st: Step, images: seq<seq<Block>>, lost: bool) {
    && (st.Begin? ==> !lost && s.active == map[] && forall p: nat :: p in s.hist.started <==> p < st.p)
    && (st.End? ==> st.p + 1 < |images| && Makes(c, Of(st.p, s.hist.journal), images[st.p], images[st.p + 1]))
  }

  ghost predicate Makes(c: Config, ws: seq<Write>, d: seq<Block>, e: seq<Block>) {
    |d| == c.nblocks && |e| == c.nblocks && SameHome(c, Apply(d, ws), e)
  }

  ghost predicate Serial(c: Config, ss: seq<State>, steps: seq<Step>, images: seq<seq<Block>>) {
    && Run(c, ss, steps) && |images| > 0 && |images[0]| == c.nblocks && SameHome(c, Recovered(c, ss[0].disk), images[0])
    && forall j :: 0 <= j < |steps| ==> OneByOne(c, ss[j], steps[j], images, Lost(ss, steps, j))
  }

  ghost predicate Is(c: Config, d: seq<Block>, images: seq<seq<Block>>, k: int) {
    0 <= k < |images| && |d| == c.nblocks && |images[k]| == c.nblocks && SameHome(c, d, images[k])
  }

  /**
   Where n operations have begun.  While the last runs, and until its commit, the committed state
   is that of the ones before it; after a crash the last may be in it or not.
   */
  ghost predicate Stage(c: Config, s: State, images: seq<seq<Block>>, n: nat, lost: bool) {
    && (forall p: nat :: p in s.hist.started <==> p < n)
    && if lost then s.active == map[] && !s.phase.CopyLog? && (Is(c, s.hist.base, images, n) || Is(c, s.hist.base, images, n - 1))
       else if s.active != map[] then
         n > 0 && s.active.Keys == {n - 1} && Is(c, s.hist.base, images, n - 1) && s.hist.pending == Of(n - 1, s.hist.journal)
       else if s.phase.CopyLog? then
         n > 0 && Is(c, s.hist.base, images, n - 1) && Is(c, Target(s), images, n)
       else Is(c, s.hist.base, images, n)
  }

  lemma {:induction false} ApplySame(c: Config, d: seq<Block>, e: seq<Block>, ws: seq<Write>)
    requires |d| == c.nblocks && |e| == c.nblocks && SameHome(c, d, e)
    ensures SameHome(c, Apply(d, ws), Apply(e, ws))
  {
    if ws != [] {
      ApplySame(c, d, e, ws[..|ws| - 1]);
    }
  }

  // A logged write of the one operation there is.
  lemma WriteStage(c: Config, s: State, r: State, images: seq<seq<Block>>, n: nat, w: Write)
    requires Stage(c, s, images, n, false) && s.active != map[] && w.op in s.active && r.active.Keys == s.active.Keys
    requires r.hist.(scribbled := {}) == Logged(s.hist, w).(scribbled := {})
    ensures Stage(c, r, images, n, false)
  {
    hide Is;
    assert w.op == n - 1 && n - 1 in r.active;
    OfConcat(n - 1, s.hist.journal, [w]);
    assert [w][..0] == [];
    assert Of(n - 1, [w]) == [w];
  }

  lemma BeginStage(c: Config, s: State, r: State, images: seq<seq<Block>>, n: nat, p: Proc)
    requires Inv(c, s) && Stage(c, s, images, n, false) && Next(c, s, Begin(p), r)
    requires s.active == map[] && forall q: nat :: q in s.hist.started <==> q < p
    ensures Stage(c, r, images, n + 1, false)
  {
    assert p == n by {
      assert n !in s.hist.started && p !in s.hist.started;
    }
    if s.hist.pending != [] {
      HasPending(c, s);
    }
    assert r.active.Keys == {n};
    hide Is, Core;
  }

  lemma HasPending(c: Config, s: State)
    requires LogInv(c, s) && s.hist.pending != []
    ensures s.lh != []
  {
    assert s.hist.pending[0].block in s.lh;
  }

  lemma EndStage(c: Config, s: State, r: State, images: seq<seq<Block>>, n: nat, p: Proc)
    requires Inv(c, s) && Stage(c, s, images, n, false) && Next(c, s, End(p), r)
    requires p + 1 < |images| && Makes(c, Of(p, s.hist.journal), images[p], images[p + 1])
    ensures Stage(c, r, images, n, false)
  {
    EndQuiet(c, s, r, p);
    hide Core, HistInv, SameHome, Home, Next, Makes;
    NoneLeft(s.active, p);
    MadeIs(c, s.hist.base, s.hist.pending, images, p);
  }

  // What end_op does when the operation is the only one.
  lemma EndQuiet(c: Config, s: State, r: State, p: Proc)
    requires LogInv(c, s) && Next(c, s, End(p), r)
    ensures p in s.active && r.active == s.active - {p} && r.hist == s.hist && s.phase == Normal
    ensures |s.active| == 1 ==> if s.hist.pending == [] then r.phase.CopyLog? || r.phase == Normal else r.phase.CopyLog?
    ensures s.hist.pending != [] ==> s.lh != []
  {
    if s.hist.pending != [] {
      HasPending(c, s);
    }
    hide HeaderOk, WritesOk;
  }

  lemma NoneLeft(m: map<Proc, nat>, p: Proc)
    requires m.Keys == {p}
    ensures m - {p} == map[]
  {
    assert (m - {p}).Keys == {};
  }

  lemma MadeIs(c: Config, base: seq<Block>, ws: seq<Write>, images: seq<seq<Block>>, p: nat)
    requires Is(c, base, images, p) && p + 1 < |images| && Makes(c, ws, images[p], images[p + 1])
    ensures Is(c, Apply(base, ws), images, p + 1)
  {
    ApplySame(c, base, images[p], ws);
  }

  // What neither begins nor ends nor logs nor commits, nor is a crash.
  ghost predicate Still(s: State, r: State) {
    && r.hist.(scribbled := {}) == s.hist.(scribbled := {}) && r.active == s.active
    && (r.phase.CopyLog? <==> s.phase.CopyLog?)
  }

  lemma StillIs(c: Config, s: State, st: Step, r: State)
    requires Next(c, s, st, r) && !st.Begin? && !st.End? && !st.Append? && !st.Crash? && !st.CommitHeader?
    requires st.Modify? ==> !s.cache[st.b].dirty
    ensures Still(s, r)
  {
    hide Apply, HeaderOf, WithHeader;
  }

  lemma StillStage(c: Config, s: State, r: State, images: seq<seq<Block>>, n: nat, lost: bool)
    requires Stage(c, s, images, n, lost) && Still(s, r)
    ensures Stage(c, r, images, n, lost)
  {
  }

  lemma CrashStage(c: Config, s: State, r: State, images: seq<seq<Block>>, n: nat, lost: bool)
    requires Stage(c, s, images, n, lost) && Next(c, s, Crash, r)
    ensures Stage(c, r, images, n, lost || n > 0)
  {
    hide Is;
  }

  lemma CommitStage(c: Config, s: State, r: State, images: seq<seq<Block>>, n: nat, p: Proc)
    requires Stage(c, s, images, n, false) && Next(c, s, CommitHeader(p), r) && s.active == map[]
    ensures Stage(c, r, images, n, false)
  {
    hide Is, WithHeader;
  }

  // Every step keeps it.
  lemma StageKept(c: Config, s: State, st: Step, r: State, images: seq<seq<Block>>, n: nat, lost: bool)
    requires Inv(c, s) && Next(c, s, st, r) && Stage(c, s, images, n, lost) && OneByOne(c, s, st, images, lost)
    ensures Stage(c, r, images, if st.Begin? then n + 1 else n, lost || (st.Crash? && n > 0))
  {
    assert s.phase != Normal ==> s.active == map[];
    hide Inv, Stage, Makes;
    match st
    case Begin(p) => BeginStage(c, s, r, images, n, p);
    case Crash => CrashStage(c, s, r, images, n, lost);
    case _ => WorkStage(c, s, st, r, images, n, lost);
  }

  lemma WorkStage(c: Config, s: State, st: Step, r: State, images: seq<seq<Block>>, n: nat, lost: bool)
    requires Inv(c, s) && Next(c, s, st, r) && Stage(c, s, images, n, lost) && OneByOne(c, s, st, images, lost)
    requires !st.Begin? && !st.Crash? && (s.phase != Normal ==> s.active == map[])
    ensures Stage(c, r, images, n, lost)
  {
    hide Inv, Makes, Is, Apply, WithHeader, HeaderOf;
    if st.End? {
      EndStage(c, s, r, images, n, st.p);
    } else if st.Append? {
      WriteStage(c, s, r, images, n, Write(st.p, st.b, s.cache[st.b].data));
    } else if st.Modify? && s.cache[st.b].dirty {
      WriteStage(c, s, r, images, n, Write(st.p, st.b, st.data));
    } else if st.CommitHeader? {
      CommitStage(c, s, r, images, n, st.p);
    } else {
      StillIs(c, s, st, r);
      StillStage(c, s, r, images, n, lost);
    }
  }

  lemma InitialStage(c: Config, s: State, images: seq<seq<Block>>)
    requires Initial(c, s) && |images| > 0 && |images[0]| == c.nblocks && SameHome(c, Recovered(c, s.disk), images[0])
    ensures Stage(c, s, images, 0, false)
  {
    hide Replay;
  }

  lemma LostStep(ss: seq<State>, steps: seq<Step>, j: nat)
    requires j < |steps| && |ss| == |steps| + 1
    ensures Lost(ss, steps, j + 1) <==> Lost(ss, steps, j) || (steps[j].Crash? && ss[j].hist.started != {})
  {
  }

  lemma {:induction false} SerialStage(c: Config, ss: seq<State>, steps: seq<Step>, images: seq<seq<Block>>, i: nat) returns (n: nat)
    requires Serial(c, ss, steps, images) && i < |ss| && FitsTo(c, ss, i)
    ensures Stage(c, ss[i], images, n, Lost(ss, steps, i))
  {
    hide Initial, Next, Inv, OneByOne, Lost, Fit;
    if i == 0 {
      n := 0;
      assert !Lost(ss, steps, 0) by { NotYet(ss, steps); }
      InitialStage(c, ss[0], images);
    } else {
      n := SerialStage(c, ss, steps, images, i - 1);
      RunKeeps(c, ss, steps, i - 1);
      LostStep(ss, steps, i - 1);
      assert ss[i - 1].hist.started != {} <==> n > 0 by {
        assert n > 0 ==> 0 in ss[i - 1].hist.started;
      }
      StageKept(c, ss[i - 1], steps[i - 1], ss[i], images, n, Lost(ss, steps, i - 1));
      n := if steps[i - 1].Begin? then n + 1 else n;
    }
  }

  lemma NotYet(ss: seq<State>, steps: seq<Step>)
    ensures !Lost(ss, steps, 0)
  {
  }

  // There is never more than one operation to pass the test of log_write.
  lemma StageOne(c: Config, s: State, images: seq<seq<Block>>, n: nat, lost: bool)
    requires Stage(c, s, images, n, lost) && TestStands(c, s)
    ensures OneAtATime(s)
  {
    hide Is;
    assert s.active != map[] ==> s.active.Keys == {n - 1};
  }

  // So every such run fits.
  lemma {:induction false} SerialFits(c: Config, ss: seq<State>, steps: seq<Step>, images: seq<seq<Block>>, i: nat)
    requires Serial(c, ss, steps, images) && i < |ss|
    ensures FitsTo(c, ss, i) && forall j :: 0 <= j <= i ==> OneAtATime(ss[j])
  {
    hide Run, OneByOne, Lost, OneAtATime, TestStands, Inv, Stage;
    if i > 0 {
      SerialFits(c, ss, steps, images, i - 1);
    }
    assert Run(c, ss, steps);
    FitsOneAtATime(c, ss, steps, i);
    var n := SerialStage(c, ss, steps, images, i);
    StageOne(c, ss[i], images, n, Lost(ss, steps, i));
  }

  /**
   Stop such a process anywhere and recover: the home blocks are those after all the operations
   that had begun, or all but the last; and once the last has ended and its commit is through, they
   are those after all of them.
   */
  lemma SerialAtomicity(c: Config, ss: seq<State>, steps: seq<Step>, images: seq<seq<Block>>, i: nat) returns (n: nat, k: nat)
    requires Serial(c, ss, steps, images) && i < |ss|
    ensures (forall p: nat :: p in ss[i].hist.started <==> p < n) && n - 1 <= k <= n && k < |images|
    ensures DiskOk(c, ss[i].disk) && |images[k]| == c.nblocks && SameHome(c, Recovered(c, ss[i].disk), images[k])
    ensures !Lost(ss, steps, i) && ss[i].active == map[] && !ss[i].phase.CopyLog? ==> k == n
  {
    SerialFits(c, ss, steps, images, i);
    n := SerialStage(c, ss, steps, images, i);
    RunKeeps(c, ss, steps, i);
    RecoveredIff(c, ss[i].disk, ss[i].hist.base);
    hide Serial, Recovered, Lost, Represents, HistInv, LogInv, PhaseInv, CacheInv;
    k := if Is(c, ss[i].hist.base, images, n) && (ss[i].active == map[] && !ss[i].phase.CopyLog?) then n else n - 1;
  }

  // ---------------------------------------------------------------- the test of log_write

  // One operation at most, and it alone has filled the log.
  ghost predicate Lone(c: Config, s: State) {
    forall p :: p in s.active ==> s.active.Keys == {p} && |s.lh| <= s.active[p] <= c.allow
  }

  lemma LoneKept(c: Config, s: State, st: Step, r: State)
    requires Lone(c, s) && Next(c, s, st, r) && (st.Begin? ==> s.active == map[] && s.phase == Normal)
    requires s.phase == Normal && s.active == map[] ==> s.lh == []
    requires s.phase != Normal ==> s.active == map[]
    ensures Lone(c, r)
  {
    hide Next, Lone;
    if st.Begin? {
      LoneBegin(c, s, r, st.p);
    } else if st.Append? {
      LoneAppend(c, s, r, st.p, st.b);
    } else if st.End? {
      LoneEnd(c, s, r, st.p);
    } else {
      ListSame(c, s, st, r);
      LoneSame(c, s, r);
    }
  }

  lemma LoneBegin(c: Config, s: State, r: State, p: Proc)
    requires Next(c, s, Begin(p), r) && s.active == map[] && s.lh == []
    ensures Lone(c, r)
  {
    assert r.active.Keys == {p};
  }

  lemma LoneAppend(c: Config, s: State, r: State, p: Proc, b: nat)
    requires Lone(c, s) && Next(c, s, Append(p, b), r)
    ensures Lone(c, r)
  {
    assert r.active.Keys == s.active.Keys == {p};
  }

  lemma LoneEnd(c: Config, s: State, r: State, p: Proc)
    requires Lone(c, s) && Next(c, s, End(p), r)
    ensures Lone(c, r)
  {
    NoneLeft(s.active, p);
  }

  lemma LoneSame(c: Config, s: State, r: State)
    requires Lone(c, s) && (r.active == map[] || (r.active == s.active && r.lh == s.lh))
    ensures Lone(c, r)
  {
  }

  // What neither begins nor ends nor logs leaves the list of a running operation alone.
  lemma ListSame(c: Config, s: State, st: Step, r: State)
    requires Next(c, s, st, r) && !st.Begin? && !st.End? && !st.Append? && (s.phase != Normal ==> s.active == map[])
    ensures r.active == map[] || (r.active == s.active && r.lh == s.lh)
  {
    hide Apply, HeaderOf, WithHeader;
  }

  lemma {:induction false} SerialLone(c: Config, ss: seq<State>, steps: seq<Step>, images: seq<seq<Block>>, i: nat)
    requires Serial(c, ss, steps, images) && i < |ss|
    ensures Lone(c, ss[i])
  {
    hide Initial, Next, Lost, Makes, SameHome, FitsTo;
    if i == 0 {
      LoneFirst(c, ss[0]);
    } else {
      SerialLone(c, ss, steps, images, i - 1);
      SerialFits(c, ss, steps, images, i - 1);
      RunKeeps(c, ss, steps, i - 1);
      IdleList(c, ss[i - 1]);
      assert OneByOne(c, ss[i - 1], steps[i - 1], images, Lost(ss, steps, i - 1));
      if steps[i - 1].Begin? {
        BeginsNormal(c, ss[i - 1], steps[i - 1], ss[i]);
      }
      hide Inv, Lone;
      LoneKept(c, ss[i - 1], steps[i - 1], ss[i]);
    }
  }

  lemma BeginsNormal(c: Config, s: State, st: Step, r: State)
    requires Next(c, s, st, r) && st.Begin?
    ensures s.phase == Normal
  {
  }

  lemma LoneFirst(c: Config, s: State)
    requires Initial(c, s)
    ensures Lone(c, s)
  {
    hide Recovered, DiskOk;
  }

  lemma IdleList(c: Config, s: State)
    requires Inv(c, s)
    ensures s.phase == Normal && s.active == map[] ==> s.lh == []
    ensures s.phase != Normal ==> s.active == map[]
  {
  }

  /**
   Operations that follow one another and add fewer than LOGSIZE - 1 blocks each never meet the
   panics of log_write, with the log that mkfs makes or a larger one.
   */
  lemma SerialNeverTrips(c: Config, ss: seq<State>, steps: seq<Step>, images: seq<seq<Block>>, i: nat, p: Proc)
    requires Serial(c, ss, steps, images) && i < |ss| && c.allow < LOGSIZE - 1 && c.size >= LOGSIZE && p in ss[i].active
    ensures Enabled(c, ss[i], Check(p))
  {
    SerialLone(c, ss, steps, images, i);
  }
}
