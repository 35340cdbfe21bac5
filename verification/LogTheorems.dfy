/** What holds along every run of the logging file system, crashes included. */
module LogTheorems {
  import opened Sizes
  import opened RedoLog
  import opened LogMachine

  // A stopped machine with any disk whose log header is well formed.
  ghost predicate Initial(c: Config, s: State) {
    && DiskOk(c, s.disk)
    && s.cache == map[] && s.lh == [] && s.phase == Down && s.active == map[] && s.checked == {}
    && s.hist == History(Recovered(c, s.disk), [], [], Recovered(c, s.disk), [], {}, {})
  }

  ghost predicate Run(c: Config, ss: seq<State>, steps: seq<Step>) {
    && |ss| == |steps| + 1
    && Initial(c, ss[0])
    && forall i :: 0 <= i < |steps| ==> Next(c, ss[i], steps[i], ss[i + 1])
  }

  lemma {:induction false} ReplayWords(c: Config, d: seq<Block>, lh: seq<int>, k: nat)
    requires Layout(c) && |d| == c.nblocks && HeaderOk(c, lh) && k <= |lh|
    requires forall b :: 0 <= b < |d| ==> |d[b]| == c.words
    ensures forall b :: 0 <= b < |d| ==> |Replay(c, d, lh, k)[b]| == c.words
  {
    if k > 0 {
      ReplayWords(c, d, lh, k - 1);
    }
  }

  lemma InitialInv(c: Config, s: State)
    requires Initial(c, s)
    ensures Inv(c, s)
  {
    var lh := HeaderOf(s.disk[c.start]);
    ReplayWords(c, s.disk, lh, |lh|);
    RecoveredIff(c, s.disk, s.hist.base);
  }

  lemma CoreKept(c: Config, s: State, st: Step, r: State)
    requires Core(c, s) && Next(c, s, st, r) && Fit(c, r)
    ensures Core(c, r)
  {
    hide Core, Fit, Do;
    match st
    case Append(p, b) => AppendKeeps(c, s, r, p, b);
    case End(p) => EndKeeps(c, s, r, p);
    case CopyToLog(p) => CopyToLogKeeps(c, s, r, p);
    case CommitHeader(p) => CommitHeaderKeeps(c, s, r, p);
    case InstallOne(p) => InstallOneKeeps(c, s, r, p);
    case EraseHeader(p) => EraseHeaderKeeps(c, s, r, p);
    case Crash => CrashKeeps(c, s, r);
    case ReadHead => ReadHeadKeeps(c, s, r);
    case Modify(p, b, data) =>
      if s.cache[b].dirty {
        RewriteKeeps(c, s, r, p, b, data);
      } else {
        QuietKeeps(c, s, st, r);
      }
    case _ => QuietKeeps(c, s, st, r);
  }

  // Every step after which the logged blocks still fit keeps the invariant.
  lemma StepKeeps(c: Config, s: State, st: Step, r: State)
    requires Inv(c, s) && Next(c, s, st, r) && Fit(c, r)
    ensures Inv(c, r)
  {
    CoreKept(c, s, st, r);
    HistKept(c, s, st, r);
  }

  // States R, of which no step leads out but to a state that does not fit.
  ghost predicate ClosedFit(c: Config, R: iset<State>) {
    forall s, st, r :: s in R && Next(c, s, st, r) && Fit(c, r) ==> r in R
  }

  // The logged blocks fit in every state up to the i-th.
  ghost predicate FitsTo(c: Config, ss: seq<State>, i: nat) {
    forall j :: 0 <= j <= i && j < |ss| ==> Fit(c, ss[j])
  }

  lemma {:induction false} FitStays(c: Config, R: iset<State>, ss: seq<State>, steps: seq<Step>, i: nat)
    requires Run(c, ss, steps) && i < |ss| && ss[0] in R && ClosedFit(c, R) && FitsTo(c, ss, i)
    ensures ss[i] in R
  {
    hide Next, Fit;
    if i > 0 {
      FitStays(c, R, ss, steps, i - 1);
      assert Next(c, ss[i - 1], steps[i - 1], ss[i]);
    }
  }

  lemma RunKeeps(c: Config, ss: seq<State>, steps: seq<Step>, i: nat)
    requires Run(c, ss, steps) && i < |ss| && FitsTo(c, ss, i)
    ensures Inv(c, ss[i])
  {
    var R := iset s | Inv(c, s);
    InitialInv(c, ss[0]);
    forall s, st, r | s in R && Next(c, s, st, r) && Fit(c, r) ensures r in R {
      StepKeeps(c, s, st, r);
    }
    FitStays(c, R, ss, steps, i);
  }

  // A set of states that no step leaves.
  ghost predicate Closed(c: Config, R: iset<State>) {
    forall s, st, r :: s in R && Next(c, s, st, r) ==> r in R
  }

  lemma {:induction false} RunStays(c: Config, R: iset<State>, ss: seq<State>, steps: seq<Step>, i: nat, j: nat)
    requires Run(c, ss, steps) && i <= j < |ss| && ss[i] in R && Closed(c, R)
    ensures ss[j] in R
    decreases j
  {
    if i < j {
      RunStays(c, R, ss, steps, i, j - 1);
    }
  }

  /**
   Crash atomicity.  Stop any run at any point, recover, and the home blocks are exactly
   those after the transactions committed so far; and of every operation ever started,
   either all its logged writes are among them, in order, or none is.  Operations may log any
   number of blocks; what is asked is that all of them together have fitted so far.
   */
  lemma CrashAtomicity(c: Config, ss: seq<State>, steps: seq<Step>, i: nat)
    requires Run(c, ss, steps) && i < |ss| && FitsTo(c, ss, i)
    ensures DiskOk(c, ss[i].disk)
    ensures SameHome(c, Recovered(c, ss[i].disk),
                     Apply(Recovered(c, ss[0].disk), Flat(ss[i].hist.commits)))
    ensures forall op :: var h := ss[i].hist;
              Of(op, Flat(h.commits)) == [] || Of(op, Flat(h.commits)) == Of(op, h.journal)
    ensures forall op :: op in ss[i].active ==> Of(op, Flat(ss[i].hist.commits)) == []
  {
    RunKeeps(c, ss, steps, i);
    RecoveredIff(c, ss[i].disk, ss[i].hist.base);
    CommitsGrow(c, ss, steps, 0, i);
  }

  lemma HistoryStep(c: Config, s: State, st: Step, r: State)
    requires Next(c, s, st, r)
    ensures r.hist.init == s.hist.init
    ensures s.hist.commits <= r.hist.commits && s.hist.journal <= r.hist.journal
  {
    hide Apply, HeaderOf, WithHeader, Home, WriteOk;
  }

  // Durability: a transaction once committed stays committed, through any number of crashes.
  lemma CommitsGrow(c: Config, ss: seq<State>, steps: seq<Step>, i: nat, j: nat)
    requires Run(c, ss, steps) && i <= j < |ss|
    ensures ss[j].hist.init == ss[i].hist.init
    ensures ss[i].hist.commits <= ss[j].hist.commits && ss[i].hist.journal <= ss[j].hist.journal
  {
    var h := ss[i].hist;
    var R := iset s: State | s.hist.init == h.init && h.commits <= s.hist.commits && h.journal <= s.hist.journal;
    forall s, st, r | s in R && Next(c, s, st, r) ensures r in R {
      HistoryStep(c, s, st, r);
    }
    RunStays(c, R, ss, steps, i, j);
  }

  // All that op has logged is committed or pending.
  ghost predicate Safe(s: State, op: Proc) {
    Of(op, Flat(s.hist.commits) + s.hist.pending) == Of(op, s.hist.journal)
  }

  lemma SafeStep(c: Config, s: State, st: Step, r: State, op: Proc)
    requires Next(c, s, st, r) && !st.Crash? && Safe(s, op)
    ensures Safe(r, op)
  {
    if st.Append? {
      SafeLogged(s, r, Write(st.p, st.b, s.cache[st.b].data), op);
    } else if st.Modify? && s.cache[st.b].dirty {
      SafeLogged(s, r, Write(st.p, st.b, st.data), op);
    } else if st.CommitHeader? {
      SafeCommitted(s.hist.commits, s.hist.pending);
    } else {
      SafeQuiet(c, s, st, r);
    }
  }

  lemma SafeLogged(s: State, r: State, w: Write, op: Proc)
    requires r.hist.(scribbled := {}) == Logged(s.hist, w).(scribbled := {}) && Safe(s, op)
    ensures Safe(r, op)
  {
    var all := Flat(s.hist.commits) + s.hist.pending;
    OfConcat(op, all, [w]);
    OfConcat(op, s.hist.journal, [w]);
    assert Flat(r.hist.commits) + r.hist.pending == all + [w];
  }

  lemma SafeCommitted(commits: seq<seq<Write>>, pending: seq<Write>)
    ensures Flat(commits + [pending]) + [] == Flat(commits) + pending
  {
    assert (commits + [pending])[..|commits|] == commits;
  }

  lemma SafeQuiet(c: Config, s: State, st: Step, r: State)
    requires Next(c, s, st, r) && !st.Crash? && !st.Append? && !st.CommitHeader? && (st.Modify? ==> !s.cache[st.b].dirty)
    ensures r.hist.commits == s.hist.commits && r.hist.pending == s.hist.pending && r.hist.journal == s.hist.journal
  {
    hide Apply, HeaderOf, WithHeader, Home;
  }

  // What has not begun has logged nothing.
  lemma SafeBefore(s: State, op: Proc)
    requires HistInv(s) && op !in s.hist.started
    ensures Safe(s, op)
  {
    OfConcat(op, Flat(s.hist.commits), s.hist.pending);
  }

  lemma {:induction false} SafeAlong(c: Config, ss: seq<State>, steps: seq<Step>, op: Proc, j: nat, i: nat)
    requires Run(c, ss, steps) && j <= i < |ss| && Safe(ss[j], op) && forall k :: j <= k < i ==> !steps[k].Crash?
    ensures Safe(ss[i], op)
    decreases i
  {
    hide Next, Safe, Initial;
    if j < i {
      SafeAlong(c, ss, steps, op, j, i - 1);
      assert Next(c, ss[i - 1], steps[i - 1], ss[i]);
      SafeStep(c, ss[i - 1], steps[i - 1], ss[i], op);
    }
  }

  /**
   Durability of an operation, among any others.  If none of the steps from before it began is a
   crash, then at any moment with nothing outstanding and no commit under way everything that it
   has logged is committed.
   */
  lemma OpCommitted(c: Config, ss: seq<State>, steps: seq<Step>, op: Proc, j: nat, i: nat)
    requires Run(c, ss, steps) && j <= i < |ss| && FitsTo(c, ss, i) && op !in ss[j].hist.started
    requires (forall k :: j <= k < i ==> !steps[k].Crash?) && ss[i].phase == Normal && ss[i].active == map[]
    ensures Of(op, Flat(ss[i].hist.commits)) == Of(op, ss[i].hist.journal)
  {
    RunKeeps(c, ss, steps, j);
    QuiescentDisk(c, ss, steps, i);
    hide Run, Core;
    SafeBefore(ss[j], op);
    SafeAlong(c, ss, steps, op, j, i);
    assert Flat(ss[i].hist.commits) + [] == Flat(ss[i].hist.commits);
  }

  // An operation that has ended logs no more.
  lemma DoneStep(c: Config, s: State, st: Step, r: State, op: Proc)
    requires Next(c, s, st, r) && op in s.hist.started && op !in s.active
    ensures op in r.hist.started && op !in r.active && Of(op, r.hist.journal) == Of(op, s.hist.journal)
  {
    if st.Append? || (st.Modify? && s.cache[st.b].dirty) {
      OfOther(op, s.hist.journal, r.hist.journal);
    }
    hide Apply, HeaderOf, WithHeader, Home, Of;
  }

  lemma OfOther(op: Proc, ws: seq<Write>, more: seq<Write>)
    requires |more| == |ws| + 1 && more[..|ws|] == ws && more[|ws|].op != op
    ensures Of(op, more) == Of(op, ws)
  {
  }

  lemma {:induction false} DoneAlong(c: Config, ss: seq<State>, steps: seq<Step>, op: Proc, i: nat, k: nat)
    requires Run(c, ss, steps) && i <= k < |ss| && op in ss[i].hist.started && op !in ss[i].active
    ensures op in ss[k].hist.started && op !in ss[k].active && Of(op, ss[k].hist.journal) == Of(op, ss[i].hist.journal)
    decreases k
  {
    hide Next, Of, Initial;
    if i < k {
      DoneAlong(c, ss, steps, op, i, k - 1);
      assert Next(c, ss[k - 1], steps[k - 1], ss[k]);
      DoneStep(c, ss[k - 1], steps[k - 1], ss[k], op);
    }
  }

  lemma {:induction false} FlatPrefix(u: seq<seq<Write>>, v: seq<seq<Write>>)
    requires u <= v
    ensures Flat(u) <= Flat(v)
  {
    if u != v {
      assert u <= v[..|v| - 1];
      FlatPrefix(u, v[..|v| - 1]);
    }
  }

  lemma OfPrefix(op: Proc, u: seq<Write>, v: seq<Write>)
    requires u <= v
    ensures Of(op, u) <= Of(op, v)
  {
    OfConcat(op, u, v[|u|..]);
    assert u + v[|u|..] == v;
  }

  // And it stays committed, whole, through all that comes after, crashes included.
  lemma OpDurable(c: Config, ss: seq<State>, steps: seq<Step>, op: Proc, j: nat, i: nat, k: nat)
    requires Run(c, ss, steps) && j <= i <= k < |ss| && FitsTo(c, ss, k) && op !in ss[j].hist.started && op in ss[i].hist.started
    requires (forall l :: j <= l < i ==> !steps[l].Crash?) && ss[i].phase == Normal && ss[i].active == map[]
    ensures Of(op, Flat(ss[k].hist.commits)) == Of(op, ss[k].hist.journal) == Of(op, ss[i].hist.journal)
  {
    OpCommitted(c, ss, steps, op, j, i);
    DoneAlong(c, ss, steps, op, i, k);
    CommitsGrow(c, ss, steps, i, k);
    FlatPrefix(ss[i].hist.commits, ss[k].hist.commits);
    OfPrefix(op, Flat(ss[i].hist.commits), Flat(ss[k].hist.commits));
    CrashAtomicity(c, ss, steps, k);
    hide Of, Flat, Run;
  }

  /**
   A completed recovery, and every moment outside commit, leaves the home blocks on disk
   equal to the committed state; once no operation is outstanding nothing logged is still volatile.
   */
  lemma QuiescentDisk(c: Config, ss: seq<State>, steps: seq<Step>, i: nat)
    requires Run(c, ss, steps) && i < |ss| && FitsTo(c, ss, i) && ss[i].phase == Normal
    ensures |ss[i].disk| == c.nblocks && |ss[i].hist.init| == c.nblocks
    ensures SameHome(c, ss[i].disk, Apply(ss[i].hist.init, Flat(ss[i].hist.commits)))
    ensures ss[i].active == map[] ==> ss[i].hist.pending == [] && ss[i].lh == []
  {
    RunKeeps(c, ss, steps, i);
    assert ss[i].hist.pending != [] ==> ss[i].hist.pending[0].block in ss[i].lh;
  }

  /**
   No steal.  From log_write of a block until the commit header is written, its home copy on
   disk is the committed one, its buffer stays in the cache, and that buffer holds the latest
   logged contents: what write_log will copy.
   */
  lemma NoSteal(c: Config, ss: seq<State>, steps: seq<Step>, i: nat, b: int)
    requires Run(c, ss, steps) && i < |ss| && FitsTo(c, ss, i)
    requires ss[i].phase.Normal? || ss[i].phase.CopyLog?
    requires b in ss[i].lh
    ensures Home(c, b) && |ss[i].disk| == c.nblocks && |ss[i].hist.base| == c.nblocks
    ensures ss[i].disk[b] == ss[i].hist.base[b]
    ensures b in ss[i].cache && ss[i].cache[b].dirty
    ensures ss[i].cache[b].data == Target(ss[i])[b]
    ensures !Enabled(c, ss[i], Evict(b))
  {
    RunKeeps(c, ss, steps, i);
    assert BufInv(c, ss[i], b);
  }

  lemma CopiedLatest(c: Config, s: State, k: nat)
    requires Core(c, s) && s.phase == CopyLog(|s.lh|) && k < |s.lh|
    ensures Home(c, s.lh[k]) && s.lh[k] in s.cache
    ensures s.disk[c.start + 1 + k] == s.cache[s.lh[k]].data
  {
    assert BufInv(c, s, s.lh[k]);
  }

  // When the header goes to disk, log block k holds the latest contents of the k-th logged block.
  lemma LogHoldsLatest(c: Config, ss: seq<State>, steps: seq<Step>, i: nat, k: nat)
    requires Run(c, ss, steps) && i < |ss| && FitsTo(c, ss, i)
    requires ss[i].phase == CopyLog(|ss[i].lh|) && k < |ss[i].lh|
    ensures c.start + 1 + k < c.start + c.size <= |ss[i].disk| && ss[i].lh[k] in ss[i].cache
    ensures ss[i].disk[c.start + 1 + k] == ss[i].cache[ss[i].lh[k]].data
  {
    RunKeeps(c, ss, steps, i);
    CopiedLatest(c, ss[i], k);
  }

  /**
   Cache and disk agree.  A clean buffer nobody is changing equals its disk block, unless an
   operation released it with changes it never logged.
   */
  lemma CacheAgrees(c: Config, ss: seq<State>, steps: seq<Step>, i: nat, b: int)
    requires Run(c, ss, steps) && i < |ss| && FitsTo(c, ss, i)
    requires b in ss[i].cache && !ss[i].cache[b].dirty && ss[i].cache[b].holder == None
    requires b !in ss[i].hist.scribbled
    ensures 0 <= b < |ss[i].disk| && ss[i].cache[b].data == ss[i].disk[b]
  {
    RunKeeps(c, ss, steps, i);
    assert BufInv(c, ss[i], b);
  }

  /**
   What the file system does with its blocks.  `alloc` is what the bitmap marks, and `loose` are
   those of them that an operation in progress has marked and not yet zeroed and logged (balloc),
   or released with changes that it did not log and not yet freed (itrunc).  A block is marked as
   a loose one, or by a crash that loses an operation which had freed it; a loose block is logged
   or freed before it is loose no more.
   */
  ghost predicate Careful(s: State, st: Step, alloc: set<int>, loose: set<int>, alloc': set<int>, loose': set<int>) {
    && (st.Release? && st.b in s.cache && s.cache[st.b].unlogged && st.b in alloc' ==> st.b in loose')
    && (forall x :: x in alloc' && x !in loose' && (x !in alloc || x in loose) ==> st.Crash? || (st.Append? && st.b == x))
  }

  // In every step; and no block is loose while no operation is in progress.
  ghost predicate AllCareful(ss: seq<State>, steps: seq<Step>, alloc: seq<set<int>>, loose: seq<set<int>>) {
    && |ss| == |steps| + 1 == |alloc| == |loose|
    && (forall j :: 0 <= j < |steps| ==> Careful(ss[j], steps[j], alloc[j], loose[j], alloc[j + 1], loose[j + 1]))
    && forall j :: 0 <= j < |ss| && ss[j].active == map[] ==> loose[j] == {}
  }

  lemma ScribbledStep(c: Config, s: State, st: Step, r: State, x: int)
    requires Next(c, s, st, r) && x in r.hist.scribbled
    ensures x in s.hist.scribbled || (st.Release? && st.b == x && x in s.cache && s.cache[x].unlogged)
    ensures !(st.Append? && st.b == x) && !st.Crash?
  {
  }

  lemma {:induction false} AllocatedLogged(c: Config, ss: seq<State>, steps: seq<Step>, alloc: seq<set<int>>, loose: seq<set<int>>, i: nat, x: int)
    requires Run(c, ss, steps) && AllCareful(ss, steps, alloc, loose) && i < |ss| && x in alloc[i] && x !in loose[i]
    ensures x !in ss[i].hist.scribbled
  {
    hide Next, DiskOk, Recovered;
    if i > 0 && x in ss[i].hist.scribbled {
      ScribbledStep(c, ss[i - 1], steps[i - 1], ss[i], x);
      assert Careful(ss[i - 1], steps[i - 1], alloc[i - 1], loose[i - 1], alloc[i], loose[i]);
      AllocatedLogged(c, ss, steps, alloc, loose, i - 1, x);
    }
  }

  // Every clean buffer of an allocated block that is not loose and that nobody holds equals its disk block.
  lemma AllocatedAgrees(c: Config, ss: seq<State>, steps: seq<Step>, alloc: seq<set<int>>, loose: seq<set<int>>, i: nat, b: int)
    requires Run(c, ss, steps) && AllCareful(ss, steps, alloc, loose) && i < |ss| && FitsTo(c, ss, i) && b in alloc[i] && b !in loose[i]
    requires b in ss[i].cache && !ss[i].cache[b].dirty && ss[i].cache[b].holder == None
    ensures 0 <= b < |ss[i].disk| && ss[i].cache[b].data == ss[i].disk[b]
  {
    AllocatedLogged(c, ss, steps, alloc, loose, i, b);
    CacheAgrees(c, ss, steps, i, b);
  }

  // With no operation in progress that is every allocated block.
  lemma IdleAgrees(c: Config, ss: seq<State>, steps: seq<Step>, alloc: seq<set<int>>, loose: seq<set<int>>, i: nat, b: int)
    requires Run(c, ss, steps) && AllCareful(ss, steps, alloc, loose) && i < |ss| && FitsTo(c, ss, i)
    requires ss[i].active == map[] && b in alloc[i]
    requires b in ss[i].cache && !ss[i].cache[b].dirty && ss[i].cache[b].holder == None
    ensures 0 <= b < |ss[i].disk| && ss[i].cache[b].data == ss[i].disk[b]
  {
    AllocatedAgrees(c, ss, steps, alloc, loose, i, b);
  }

  // ---------------------------------------------------------------- when a run fits

  // The invariant, and what reservation adds to it.
  ghost predicate Reserved(c: Config, s: State) {
    Inv(c, s) && ReserveInv(c, s)
  }

  lemma InitialReserved(c: Config, s: State)
    requires Initial(c, s)
    ensures Reserved(c, s) && Fit(c, s)
  {
    InitialInv(c, s);
    hide Inv, Recovered;
  }

  lemma ReservedKept(c: Config, s: State, st: Step, r: State)
    requires Room(c) && Reserved(c, s) && Next(c, s, st, r)
    ensures Reserved(c, r) && Fit(c, r)
  {
    ReserveKept(c, s, st, r);
    FitKept(c, s, st, r);
    StepKeeps(c, s, st, r);
  }

  // Only log_write adds to the list, and what it adds was set aside.
  lemma FitKept(c: Config, s: State, st: Step, r: State)
    requires Room(c) && DiskInv(c, s) && LogInv(c, s) && ReserveInv(c, s) && Next(c, s, st, r)
    ensures Fit(c, r)
  {
    if st.Append? {
      AppendReserves(c, s, r, st.p, st.b);
    } else {
      assert r.lh == s.lh || r.lh == [] || r.lh == HeaderOf(s.disk[c.start]);
    }
  }

  lemma RunReserved(c: Config, ss: seq<State>, steps: seq<Step>, i: nat)
    requires Room(c) && Run(c, ss, steps) && i < |ss|
    ensures Reserved(c, ss[i]) && FitsTo(c, ss, i)
  {
    hide Initial, Next, Reserved, Fit;
    var R := iset s | Reserved(c, s) && Fit(c, s);
    InitialReserved(c, ss[0]);
    forall s, st, r | s in R && Next(c, s, st, r) ensures r in R {
      ReservedKept(c, s, st, r);
    }
    forall j | 0 <= j <= i ensures ss[j] in R {
      RunStays(c, R, ss, steps, 0, j);
    }
  }

  // With room for what they may add, every run fits.
  lemma RoomFits(c: Config, ss: seq<State>, steps: seq<Step>, i: nat)
    requires Room(c) && Run(c, ss, steps) && i < |ss|
    ensures FitsTo(c, ss, i)
  {
    RunReserved(c, ss, steps, i);
  }

  // ---------------------------------------------------------------- reservation

  // A list of at most LOGSIZE blocks, none twice and none the header.
  predicate ListOk(c: Config, lh: seq<int>) {
    |lh| <= LOGSIZE && NoDup(lh) && c.start !in lh
  }

  /**
   What holds however small the log region is, also when blocks logged beyond its end overwrite
   home blocks: the header on disk and the list in memory are sound, and what is set aside is.
   */
  ghost predicate SetAside(c: Config, s: State) {
    && 1 <= c.size && c.start < |s.disk| && ListOk(c, HeaderOf(s.disk[c.start])) && NoDup(s.lh) && c.start !in s.lh
    && ReserveInv(c, s) && s.active.Keys <= s.hist.started && (s.phase != Normal ==> s.active == map[])
  }

  lemma InitialSetAside(c: Config, s: State)
    requires Initial(c, s)
    ensures SetAside(c, s)
  {
    hide Recovered;
    var lh := HeaderOf(s.disk[c.start]);
    assert forall i :: 0 <= i < |lh| ==> Home(c, lh[i]);
  }

  // No step but the two header writes touches the header.
  lemma HeaderStays(c: Config, s: State, st: Step, r: State)
    requires c.start < |s.disk| && c.start !in s.lh && Next(c, s, st, r) && !st.CommitHeader? && !st.EraseHeader?
    ensures |r.disk| == |s.disk| && r.disk[c.start] == s.disk[c.start]
  {
    hide Apply, HeaderOf, WithHeader;
  }

  lemma HeaderWritten(c: Config, s: State, st: Step, r: State)
    requires SetAside(c, s) && Next(c, s, st, r) && (st.CommitHeader? || st.EraseHeader?)
    ensures |r.disk| == |s.disk| && ListOk(c, HeaderOf(r.disk[c.start]))
  {
    hide ReserveInv, NoDup;
    HeaderRoundTrip(s.cache[c.start].data, if st.CommitHeader? then s.lh else []);
    hide HeaderOf, WithHeader;
    if st.CommitHeader? {
      ListFits(c, s);
    } else {
      NoDupNone();
    }
  }

  lemma NoDupNone()
    ensures NoDup([])
  {
  }

  lemma ListFits(c: Config, s: State)
    requires ReserveInv(c, s) && s.active == map[]
    ensures |s.lh| <= LOGSIZE
  {
  }

  // What a step makes of the list.
  lemma ListKept(c: Config, s: State, st: Step, r: State)
    requires SetAside(c, s) && Next(c, s, st, r)
    ensures NoDup(r.lh) && c.start !in r.lh
  {
    hide HeaderOf, WithHeader, Apply, ReserveInv;
    if st.Append? {
      assert forall i :: 0 <= i < |s.lh| ==> r.lh[i] == s.lh[i];
    } else {
      assert r.lh == s.lh || r.lh == [] || r.lh == HeaderOf(s.disk[c.start]);
    }
  }

  lemma OutstandingKept(c: Config, s: State, st: Step, r: State)
    requires SetAside(c, s) && Next(c, s, st, r)
    ensures r.active.Keys <= r.hist.started && (r.phase != Normal ==> r.active == map[])
  {
    hide HeaderOf, WithHeader, Apply, ReserveInv, ListOk, NoDup;
    if st.End? {
      LastOne(s.active, st.p);
    }
  }

  lemma SetAsideKept(c: Config, s: State, st: Step, r: State)
    requires c.allow <= MAXOPBLOCKS && SetAside(c, s) && Next(c, s, st, r)
    ensures SetAside(c, r)
  {
    ListKept(c, s, st, r);
    OutstandingKept(c, s, st, r);
    hide Next, NoDup, HeaderOf, ReserveInv;
    if st.CommitHeader? || st.EraseHeader? {
      HeaderWritten(c, s, st, r);
    } else {
      HeaderStays(c, s, st, r);
    }
    ReserveKept(c, s, st, r);
  }

  /**
   Reservation.  If no operation adds more than the MAXOPBLOCKS that begin_op sets aside for it, then
   in every run, on a log region of any size, the log never holds more than was reserved, a
   commit runs with nothing outstanding, and no block is logged twice.
   */
  lemma LogReservation(c: Config, ss: seq<State>, steps: seq<Step>, i: nat)
    requires c.allow <= MAXOPBLOCKS && Run(c, ss, steps) && i < |ss|
    ensures |ss[i].lh| + Unspent(ss[i].active) <= LOGSIZE
    ensures ss[i].phase != Normal ==> ss[i].active == map[]
    ensures NoDup(ss[i].lh)
  {
    hide Next, Initial;
    var R := iset s | SetAside(c, s);
    InitialSetAside(c, ss[0]);
    forall s, st, r | s in R && Next(c, s, st, r) ensures r in R {
      SetAsideKept(c, s, st, r);
    }
    RunStays(c, R, ss, steps, 0, i);
  }

  // Whoever is past the test of log_write passed it on the list as it is now.
  ghost predicate TestStands(c: Config, s: State) {
    && s.checked <= s.active.Keys
    && (s.checked != {} ==> |s.lh| < LOGSIZE && |s.lh| < c.size - 1)
  }

  lemma TestFits(c: Config, s: State, st: Step, r: State)
    requires DiskInv(c, s) && LogInv(c, s) && TestStands(c, s) && Next(c, s, st, r)
    ensures Fit(c, r)
  {
    assert st.Append? ==> st.p in s.checked;
    assert !st.Append? ==> r.lh == s.lh || r.lh == [] || r.lh == HeaderOf(s.disk[c.start]);
  }

  // No two operations are between the test and the lock.
  ghost predicate OneAtATime(s: State) {
    forall p, q :: p in s.checked && q in s.checked ==> p == q
  }

  lemma TestStandsKept(c: Config, s: State, st: Step, r: State)
    requires LogInv(c, s) && TestStands(c, s) && OneAtATime(s) && Next(c, s, st, r)
    ensures TestStands(c, r)
  {
    hide HeaderOk, HeaderOf, WritesOk, WithHeader, Apply;
    assert s.phase != Normal ==> s.checked == {};
    assert r.lh != s.lh ==> r.checked == {};
  }

  /**
   Whatever operations log, the test of log_write alone makes every run fit in which no two
   operations are ever between that test and the lock.
   */
  lemma {:induction false} FitsOneAtATime(c: Config, ss: seq<State>, steps: seq<Step>, i: nat)
    requires Run(c, ss, steps) && i < |ss| && forall j :: 0 <= j < i ==> OneAtATime(ss[j])
    ensures FitsTo(c, ss, i) && Inv(c, ss[i]) && TestStands(c, ss[i])
  {
    hide Initial, Inv, Next, TestStands, Fit, OneAtATime;
    if i == 0 {
      InitialStands(c, ss[0]);
    } else {
      FitsOneAtATime(c, ss, steps, i - 1);
      OneStep(c, ss[i - 1], steps[i - 1], ss[i]);
    }
  }

  lemma InitialStands(c: Config, s: State)
    requires Initial(c, s)
    ensures Inv(c, s) && TestStands(c, s) && Fit(c, s)
  {
    InitialInv(c, s);
    hide Inv, Recovered;
  }

  lemma OneStep(c: Config, s: State, st: Step, r: State)
    requires Inv(c, s) && TestStands(c, s) && OneAtATime(s) && Next(c, s, st, r)
    ensures Inv(c, r) && TestStands(c, r) && Fit(c, r)
  {
    TestFits(c, s, st, r);
    TestStandsKept(c, s, st, r);
    StepKeeps(c, s, st, r);
  }

  // ---------------------------------------------------------------- the test in log_write

  // With one operation left, something reserved has been given back.
  ghost predicate Slack(c: Config, s: State) {
    s.phase == Normal && |s.active| <= 1 ==> |s.lh| + Unspent(s.active) < LOGSIZE
  }

  // The part of the invariant that the count of operations needs.
  ghost predicate Outstanding(c: Config, s: State) {
    && ReserveInv(c, s) && s.active.Keys <= s.hist.started
    && (s.phase != Normal ==> s.active == map[])
    && (s.phase == Normal && s.active == map[] ==> s.lh == [])
  }

  lemma RunOutstanding(c: Config, ss: seq<State>, steps: seq<Step>, i: nat)
    requires Room(c) && Run(c, ss, steps) && i < |ss|
    ensures Outstanding(c, ss[i])
  {
    RunReserved(c, ss, steps, i);
  }

  lemma SlackBegin(c: Config, s: State, r: State, p: Proc)
    requires ReserveInv(c, s) && s.active.Keys <= s.hist.started && Next(c, s, Begin(p), r)
    requires s.active == map[] ==> s.lh == []
    ensures Slack(c, r)
  {
    if |r.active| <= 1 {
      OnlyOne(s.active, p);
    }
  }

  // An operation that is alone after it is admitted was the first.
  lemma OnlyOne(active: map<Proc, nat>, p: Proc)
    requires p !in active && |active[p := 0]| <= 1
    ensures active == map[] && Unspent(active[p := 0]) == MAXOPBLOCKS
  {
    UnspentAdmit(active, p);
    assert active[p := 0].Keys == active.Keys + {p};
    assert |active.Keys| == 0;
  }

  lemma SlackAppend(c: Config, s: State, r: State, p: Proc, b: nat)
    requires ReserveInv(c, s) && c.allow <= MAXOPBLOCKS && Slack(c, s) && Next(c, s, Append(p, b), r)
    ensures Slack(c, r)
  {
    if b !in s.lh {
      UnspentSpend(s.active, p);
    }
    assert r.active.Keys == s.active.Keys;
  }

  lemma SlackEnd(c: Config, s: State, r: State, p: Proc)
    requires ReserveInv(c, s) && c.allow < MAXOPBLOCKS && Next(c, s, End(p), r)
    ensures Slack(c, r)
  {
    UnspentRemove(s.active, p);
  }

  lemma SlackKept(c: Config, s: State, st: Step, r: State)
    requires Outstanding(c, s) && Slack(c, s) && Next(c, s, st, r) && c.allow < MAXOPBLOCKS
    ensures Slack(c, r)
  {
    if st.Begin? {
      SlackBegin(c, s, r, st.p);
    } else if st.Append? {
      SlackAppend(c, s, r, st.p, st.b);
    } else if st.End? {
      SlackEnd(c, s, r, st.p);
    } else if st.EraseHeader? {
      assert r.active == map[];
    } else {
      assert r.phase == Normal ==> r.lh == s.lh && r.active == s.active && s.phase == Normal;
    }
  }

  lemma {:induction false} RunSlack(c: Config, ss: seq<State>, steps: seq<Step>, i: nat)
    requires Room(c) && c.allow < MAXOPBLOCKS && Run(c, ss, steps) && i < |ss|
    ensures Slack(c, ss[i])
  {
    hide Next, Outstanding, DiskOk, Recovered, Unspent;
    if i > 0 {
      RunSlack(c, ss, steps, i - 1);
      RunOutstanding(c, ss, steps, i - 1);
      SlackKept(c, ss[i - 1], steps[i - 1], ss[i]);
    }
  }

  // Two outstanding operations with something unspent each.
  lemma UnspentTwo(active: map<Proc, nat>, p: Proc, allow: nat)
    requires p in active && |active| >= 2 && allow < MAXOPBLOCKS
    requires forall q :: q in active ==> active[q] <= allow
    ensures Unspent(active) >= 2
  {
    UnspentRemove(active, p);
    var rest := active - {p};
    assert rest.Keys == active.Keys - {p} && |active.Keys - {p}| == |active| - 1;
    var q :| q in rest.Keys;
    UnspentRemove(rest, q);
    UnspentBounds(rest - {q});
  }

  /**
   If no operation adds more than MAXOPBLOCKS - 1 blocks, a log as small as mkfs makes it
   (LOGSIZE blocks with its header) never trips the test in log_write.
   */
  lemma GuardNeverTrips(c: Config, ss: seq<State>, steps: seq<Step>, i: nat, p: Proc)
    requires Room(c) && c.size >= LOGSIZE && c.allow < MAXOPBLOCKS
    requires Run(c, ss, steps) && i < |ss| && p in ss[i].active
    ensures Enabled(c, ss[i], Check(p))
  {
    var s := ss[i];
    RunOutstanding(c, ss, steps, i);
    RunSlack(c, ss, steps, i);
    UnspentRemove(s.active, p);
    UnspentBounds(s.active - {p});
    if |s.active| >= 2 {
      UnspentTwo(s.active, p, c.allow);
    }
  }
}
