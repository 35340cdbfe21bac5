/**
 The steps of the logging file system and what every run of them keeps.

 A step is one action that the kernel's locks (or the disk) make atomic.  A run is
 any interleaving of them, with the machine stopping and rebooting at any point.
 */
module LogMachine {
  import opened Sizes
  import opened RedoLog

  datatype Step =
    | Load(b: nat)                              // bread: read a block into an unused buffer
    | Evict(b: nat)                             // bget: recycle a buffer
    | Hold(p: Proc, b: nat)                     // bread: lock the buffer
    | Release(p: Proc, b: nat)                  // brelse
    | Begin(p: Proc)                            // begin_op, once it is let through
    | Modify(p: Proc, b: nat, data: Block)      // change bp->data
    | Check(p: Proc)                            // log_write, the test made before taking the lock
    | Append(p: Proc, b: nat)                   // log_write, the part under the lock
    | End(p: Proc)                              // end_op, up to the decision to commit
    | CopyToLog(p: Proc)                        // one turn of write_log
    | CommitHeader(p: Proc)                     // write_head: the commit point
    | InstallOne(p: Proc)                       // one turn of install_trans
    | EraseHeader(p: Proc)                      // n = 0; write_head
    | Crash
    | ReadHead                                  // boot: read_head

  predicate Held(s: State, p: Proc, b: int) {
    b in s.cache && s.cache[b].holder == Some(p)
  }

  predicate Enabled(c: Config, s: State, st: Step) {
    match st
    case Load(b) => s.phase != Down && b < |s.disk| && b !in s.cache && |s.cache| < c.nbuf
    case Evict(b) => b in s.cache && s.cache[b].holder == None && !s.cache[b].dirty
    case Hold(p, b) => b in s.cache && s.cache[b].holder == None
    case Release(p, b) => Held(s, p, b)
    case Begin(p) =>
      && s.phase == Normal && p !in s.hist.started
      && |s.lh| + (|s.active| + 1) * MAXOPBLOCKS <= LOGSIZE
    case Modify(p, b, data) => p in s.active && Held(s, p, b) && WriteOk(c, Write(p, b, data))
    case Check(p) => p in s.active && |s.lh| < LOGSIZE && |s.lh| < c.size - 1
    case Append(p, b) =>
      && p in s.active && p in s.checked && Held(s, p, b) && Home(c, b)
      && (b in s.lh || s.active[p] < c.allow)
    case End(p) => p in s.active && forall b :: b in s.cache ==> s.cache[b].holder != Some(p)
    case CopyToLog(p) =>
      && s.phase.CopyLog? && s.phase.k < |s.lh| && c.start + 1 + s.phase.k < |s.disk|
      && Held(s, p, s.lh[s.phase.k]) && Held(s, p, c.start + 1 + s.phase.k)
    case CommitHeader(p) =>
      && s.phase == CopyLog(|s.lh|) && c.start < |s.disk|
      && Held(s, p, c.start) && |s.lh| < |s.cache[c.start].data|
    case InstallOne(p) =>
      && s.phase.Install? && s.phase.k < |s.lh| && 0 <= s.lh[s.phase.k] < |s.disk|
      && Held(s, p, s.lh[s.phase.k]) && Held(s, p, c.start + 1 + s.phase.k)
    case EraseHeader(p) =>
      && s.phase == Install(|s.lh|) && c.start < |s.disk|
      && Held(s, p, c.start) && |s.cache[c.start].data| > 0
    case Crash => true
    case ReadHead => s.phase == Down && c.start < |s.disk|
  }

  // iderw on a dirty buffer: the block goes to disk and the buffer is clean.
  function WriteBlock(s: State, b: nat, data: Block): (r: State)
    requires b in s.cache && b < |s.disk|
  {
    s.(disk := s.disk[b := data],
       cache := s.cache[b := s.cache[b].(data := data, dirty := false)])
  }

  function Logged(h: History, w: Write): (r: History) {
    h.(pending := h.pending + [w], journal := h.journal + [w])
  }

  function Do(c: Config, s: State, st: Step): (r: State)
    requires Enabled(c, s, st)
  {
    match st
    case Load(b) => s.(cache := s.cache[b := Buf(s.disk[b], false, None, false)])
    case Evict(b) => s.(cache := s.cache - {b})
    case Hold(p, b) => s.(cache := s.cache[b := s.cache[b].(holder := Some(p))])
    case Release(p, b) =>
      s.(cache := s.cache[b := s.cache[b].(holder := None, unlogged := false)],
         hist := if s.cache[b].unlogged
                 then s.hist.(scribbled := s.hist.scribbled + {b}) else s.hist)
    case Begin(p) =>
      s.(active := s.active[p := 0], hist := s.hist.(started := s.hist.started + {p}))
    case Modify(p, b, data) =>
      if s.cache[b].dirty
      then s.(cache := s.cache[b := s.cache[b].(data := data)],
              hist := Logged(s.hist, Write(p, b, data)))
      else s.(cache := s.cache[b := s.cache[b].(data := data, unlogged := true)])
    case Check(p) => s.(checked := s.checked + {p})
    case Append(p, b) =>
      s.(lh := if b in s.lh then s.lh else s.lh + [b],
         active := if b in s.lh then s.active else s.active[p := s.active[p] + 1],
         checked := s.checked - {p},
         cache := s.cache[b := s.cache[b].(dirty := true, unlogged := false)],
         hist := Logged(s.hist, Write(p, b, s.cache[b].data)).(scribbled := s.hist.scribbled - {b}))
    case End(p) =>
      s.(active := s.active - {p}, checked := s.checked - {p},
         phase := if |s.active| == 1 && s.lh != [] then CopyLog(0) else s.phase)
    case CopyToLog(p) =>
      WriteBlock(s, c.start + 1 + s.phase.k, s.cache[s.lh[s.phase.k]].data).(phase := CopyLog(s.phase.k + 1))
    case CommitHeader(p) =>
      WriteBlock(s, c.start, WithHeader(s.cache[c.start].data, s.lh)).(phase := Install(0),
        hist := s.hist.(commits := s.hist.commits + [s.hist.pending],
                        base := Apply(s.hist.base, s.hist.pending), pending := []))
    case InstallOne(p) =>
      WriteBlock(s, s.lh[s.phase.k], s.cache[c.start + 1 + s.phase.k].data).(phase := Install(s.phase.k + 1))
    case EraseHeader(p) =>
      WriteBlock(s, c.start, WithHeader(s.cache[c.start].data, [])).(phase := Normal, lh := [])
    case Crash =>
      s.(cache := map[], lh := [], phase := Down, active := map[], checked := {},
         hist := s.hist.(pending := [], scribbled := {}))
    case ReadHead =>
      s.(cache := map[c.start := Buf(s.disk[c.start], false, None, false)],
         lh := HeaderOf(s.disk[c.start]), phase := Install(0))
  }

  predicate Next(c: Config, s: State, st: Step, r: State) {
    Enabled(c, s, st) && r == Do(c, s, st)
  }

  // ---------------------------------------------------------------- the invariant

  // What the home blocks will hold once everything logged so far is installed.
  function Target(s: State): (r: seq<Block>) {
    Apply(s.hist.base, s.hist.pending)
  }

  ghost predicate DiskInv(c: Config, s: State) {
    && DiskOk(c, s.disk)
    && |s.hist.base| == c.nblocks
    && (forall b :: 0 <= b < c.nblocks ==> |s.hist.base[b]| == c.words)
    && Represents(c, s.disk, HeaderOf(s.disk[c.start]), s.hist.base)
  }

  ghost predicate LogInv(c: Config, s: State) {
    && HeaderOk(c, s.lh)
    && WritesOk(c, s.hist.pending)
    && (forall i :: 0 <= i < |s.hist.pending| ==> s.hist.pending[i].block in s.lh)
    && (s.phase != Normal ==> s.active == map[])
  }

  ghost predicate PhaseInv(c: Config, s: State)
    requires DiskInv(c, s) && LogInv(c, s)
  {
    var hdr := HeaderOf(s.disk[c.start]);
    match s.phase
    case Normal => hdr == [] && (s.active == map[] ==> s.lh == [])
    case CopyLog(n) =>
      && hdr == [] && n <= |s.lh|
      && forall j :: 0 <= j < n ==> s.disk[c.start + 1 + j] == Target(s)[s.lh[j]]
    case Install(n) =>
      && hdr == s.lh && n <= |s.lh| && s.hist.pending == []
      && forall j :: 0 <= j < n ==> s.disk[s.lh[j]] == s.hist.base[s.lh[j]]
    case Down => s.lh == [] && s.hist.pending == [] && s.cache == map[] && s.hist.scribbled == {}
  }

  // The blocks that may not leave the cache: logged and not yet installed.
  predicate Pinned(s: State, b: int) {
    exists i :: 0 <= i < |s.lh| && s.lh[i] == b && (s.phase.Install? ==> s.phase.k <= i)
  }

  ghost predicate BufInv(c: Config, s: State, b: int)
    requires b in s.cache && |s.disk| == c.nblocks && |s.hist.base| == c.nblocks
  {
    var f := s.cache[b];
    && 0 <= b < c.nblocks && |f.data| == c.words
    && (f.dirty ==> Pinned(s, b) && !f.unlogged && f.data == Target(s)[b])
    && (f.unlogged ==> Home(c, b) && f.holder.Some? && f.holder.value in s.active)
    && (!f.dirty && !f.unlogged && b !in s.hist.scribbled ==> f.data == s.disk[b])
  }

  ghost predicate CacheInv(c: Config, s: State)
    requires |s.disk| == c.nblocks && |s.hist.base| == c.nblocks
  {
    && (forall b :: b in s.cache ==> BufInv(c, s, b))
    && (s.phase.Normal? || s.phase.CopyLog? ==>
          forall i :: 0 <= i < |s.lh| ==> s.lh[i] in s.cache && s.cache[s.lh[i]].dirty)
    && (forall b :: b in s.hist.scribbled ==> Home(c, b) && b !in s.lh)
  }

  ghost predicate ReserveInv(c: Config, s: State) {
    && (forall p :: p in s.active ==> s.active[p] <= c.allow)
    && |s.lh| + Unspent(s.active) <= LOGSIZE
    && s.checked <= s.active.Keys
  }

  ghost predicate HistInv(s: State) {
    var h := s.hist;
    && h.base == Apply(h.init, Flat(h.commits))
    && s.active.Keys <= h.started
    && (forall op :: op !in h.started ==> Of(op, h.journal) == [])
    && (forall op :: Of(op, Flat(h.commits)) == [] || Of(op, Flat(h.commits)) == Of(op, h.journal))
    && (forall op :: op in s.active || Of(op, h.pending) != [] ==>
          Of(op, Flat(h.commits)) == [] && Of(op, h.journal) == Of(op, h.pending))
  }

  ghost predicate Core(c: Config, s: State) {
    DiskInv(c, s) && LogInv(c, s) && PhaseInv(c, s) && CacheInv(c, s)
  }

  // What holds however many blocks operations log, as long as they fit.
  ghost predicate Inv(c: Config, s: State) {
    Core(c, s) && HistInv(s)
  }

  // The logged blocks fit in the header and in the log region.
  predicate Fit(c: Config, s: State) {
    |s.lh| <= LOGSIZE && |s.lh| < c.size
  }

  // ---------------------------------------------------------------- the reserved space

  lemma BeginReserves(c: Config, s: State, r: State, p: Proc)
    requires c.allow <= MAXOPBLOCKS && ReserveInv(c, s)
    requires s.active.Keys <= s.hist.started && Next(c, s, Begin(p), r)
    ensures ReserveInv(c, r)
  {
    UnspentAdmit(s.active, p);
    UnspentBounds(s.active);
  }

  // The new entry is paid for by the caller's own allowance, so it fits in the log.
  lemma AppendReserves(c: Config, s: State, r: State, p: Proc, b: nat)
    requires c.allow <= MAXOPBLOCKS && ReserveInv(c, s) && Next(c, s, Append(p, b), r)
    ensures ReserveInv(c, r)
    ensures b !in s.lh ==> |r.lh| + MAXOPBLOCKS - c.allow <= LOGSIZE
  {
    if b !in s.lh {
      UnspentSpend(s.active, p);
    }
  }

  lemma EndReserves(c: Config, s: State, r: State, p: Proc)
    requires c.allow <= MAXOPBLOCKS && ReserveInv(c, s) && Next(c, s, End(p), r)
    ensures ReserveInv(c, r)
  {
    UnspentRemove(s.active, p);
  }

  lemma ReserveKept(c: Config, s: State, st: Step, r: State)
    requires c.allow <= MAXOPBLOCKS && c.start < |s.disk| && |HeaderOf(s.disk[c.start])| <= LOGSIZE
    requires ReserveInv(c, s) && Next(c, s, st, r)
    requires s.active.Keys <= s.hist.started
    requires s.phase != Normal ==> s.active == map[]
    ensures ReserveInv(c, r)
  {
    if st.Begin? {
      BeginReserves(c, s, r, st.p);
    } else if st.Append? {
      AppendReserves(c, s, r, st.p, st.b);
    } else if st.End? {
      EndReserves(c, s, r, st.p);
    }
  }

  // ---------------------------------------------------------------- the history

  lemma LoggedHist(s: State, r: State, w: Write)
    requires HistInv(s) && w.op in s.active && s.active.Keys == r.active.Keys
    requires r.hist.(scribbled := {}) == Logged(s.hist, w).(scribbled := {})
    ensures HistInv(r)
  {
    var h := s.hist;
    forall op
      ensures Of(op, r.hist.journal) == Of(op, h.journal) + Of(op, [w])
      ensures Of(op, r.hist.pending) == Of(op, h.pending) + Of(op, [w])
      ensures Of(op, [w]) == if op == w.op then [w] else []
    {
      OfConcat(op, h.journal, [w]);
      OfConcat(op, h.pending, [w]);
      assert [w][..0] == [];
    }
  }

  lemma CommitHist(s: State, r: State)
    requires HistInv(s) && s.active == map[] && r.active == map[]
    requires r.hist == s.hist.(commits := s.hist.commits + [s.hist.pending],
                               base := Apply(s.hist.base, s.hist.pending), pending := [])
    ensures HistInv(r)
  {
    var h := s.hist;
    var ts := r.hist.commits;
    assert ts[..|ts| - 1] == h.commits;
    ApplyConcat(h.init, Flat(h.commits), h.pending);
    forall op ensures Of(op, Flat(ts)) == Of(op, Flat(h.commits)) + Of(op, h.pending) {
      OfConcat(op, Flat(h.commits), h.pending);
    }
  }

  // Nothing logged and nothing committed; whoever comes in is new, and a crash loses what is pending.
  ghost predicate QuietStep(s: State, r: State) {
    var h, g := s.hist, r.hist;
    && g.init == h.init && g.commits == h.commits && g.journal == h.journal && g.base == h.base
    && h.started <= g.started && r.active.Keys <= g.started
    && (forall p :: p in r.active ==> p in s.active || p !in h.started)
    && (g.pending == h.pending || (g.pending == [] && r.active == map[]))
  }

  lemma QuietIs(c: Config, s: State, st: Step, r: State)
    requires s.active.Keys <= s.hist.started && Next(c, s, st, r)
    requires !st.Append? && !st.CommitHeader? && (st.Modify? ==> !s.cache[st.b].dirty)
    ensures QuietStep(s, r)
  {
  }

  lemma QuietHist(s: State, r: State)
    requires HistInv(s) && QuietStep(s, r)
    ensures HistInv(r)
  {
  }

  lemma HistKept(c: Config, s: State, st: Step, r: State)
    requires HistInv(s) && Next(c, s, st, r)
    requires s.phase != Normal ==> s.active == map[]
    ensures HistInv(r)
  {
    assert s.active.Keys <= s.hist.started;
    hide HistInv;
    if st.Append? {
      LoggedHist(s, r, Write(st.p, st.b, s.cache[st.b].data));
    } else if st.Modify? && s.cache[st.b].dirty {
      LoggedHist(s, r, Write(st.p, st.b, st.data));
    } else if st.CommitHeader? {
      CommitHist(s, r);
    } else {
      QuietIs(c, s, st, r);
      QuietHist(s, r);
    }
  }

  // ---------------------------------------------------------------- steps inside the cache

  ghost predicate Sized(c: Config, s: State) {
    |s.disk| == c.nblocks && |s.hist.base| == c.nblocks
  }

  // A step that touches neither the disk nor the log keeps the core once it keeps the cache.
  lemma QuietCore(c: Config, s: State, r: State)
    requires Core(c, s)
    requires r.disk == s.disk && r.lh == s.lh && r.phase == s.phase
    requires r.hist.base == s.hist.base && r.hist.pending == s.hist.pending
    requires s.phase == Normal ==> r.active != map[] || s.active == map[]
    requires s.phase != Normal ==> r.active == map[]
    requires s.phase == Down ==> r.cache == map[] && r.hist.scribbled == {}
    requires CacheInv(c, r)
    ensures Core(c, r)
  {
  }

  lemma CacheStep(c: Config, s: State, st: Step, r: State)
    requires Sized(c, s) && CacheInv(c, s) && Next(c, s, st, r)
    requires forall b :: 0 <= b < |s.disk| ==> |s.disk[b]| == c.words
    requires s.phase != Normal ==> s.active == map[]
    requires st.Load? || st.Evict? || st.Hold? || st.Release?
    ensures CacheInv(c, r)
  {
    forall x | x in r.cache ensures BufInv(c, r, x) {
      assert x in s.cache ==> BufInv(c, s, x);
    }
    if st.Release? {
      assert BufInv(c, s, st.b);
    }
  }

  lemma OpStep(c: Config, s: State, st: Step, r: State)
    requires Sized(c, s) && CacheInv(c, s) && Next(c, s, st, r)
    requires st.Begin? || st.Check? || (st.Modify? && !s.cache[st.b].dirty)
    ensures CacheInv(c, r)
  {
    forall x | x in r.cache ensures BufInv(c, r, x) {
      assert BufInv(c, s, x);
    }
  }

  lemma QuietKeeps(c: Config, s: State, st: Step, r: State)
    requires Core(c, s) && Next(c, s, st, r)
    requires st.Load? || st.Evict? || st.Hold? || st.Release? || st.Begin? || st.Check?
          || (st.Modify? && !s.cache[st.b].dirty)
    ensures Core(c, r)
  {
    if st.Begin? || st.Check? || st.Modify? {
      OpStep(c, s, st, r);
    } else {
      CacheStep(c, s, st, r);
    }
    QuietCore(c, s, r);
  }

  // ---------------------------------------------------------------- logged writes

  // Adding one write to the current transaction changes the target at that block only.
  lemma LoggedTarget(s: State, r: State, w: Write)
    requires r.hist.base == s.hist.base && r.hist.pending == s.hist.pending + [w]
    requires w.block < |s.hist.base|
    ensures Target(r) == Target(s)[w.block := w.data]
  {
    ApplyOne(s.hist.base, s.hist.pending, w);
  }

  lemma RewriteKeeps(c: Config, s: State, r: State, p: Proc, b: nat, data: Block)
    requires Core(c, s) && Next(c, s, Modify(p, b, data), r) && s.cache[b].dirty
    ensures Core(c, r)
  {
    LoggedTarget(s, r, Write(p, b, data));
    assert BufInv(c, s, b);
    forall x | x in r.cache ensures BufInv(c, r, x) {
      assert BufInv(c, s, x);
    }
  }

  lemma AppendCache(c: Config, s: State, r: State, p: Proc, b: nat)
    requires Sized(c, s) && CacheInv(c, s) && Next(c, s, Append(p, b), r) && !s.phase.Install?
    ensures CacheInv(c, r)
  {
    LoggedTarget(s, r, Write(p, b, s.cache[b].data));
    assert forall i :: 0 <= i < |s.lh| ==> r.lh[i] == s.lh[i];
    assert b !in s.lh ==> r.lh[|s.lh|] == b;
    forall x | x in r.cache ensures BufInv(c, r, x) {
      assert BufInv(c, s, x);
    }
  }

  // The rest of the core, once the new entry fits.
  lemma AppendLog(c: Config, s: State, r: State, p: Proc, b: nat)
    requires DiskInv(c, s) && LogInv(c, s) && PhaseInv(c, s) && Next(c, s, Append(p, b), r) && Fit(c, r)
    requires |s.cache[b].data| == c.words
    ensures DiskInv(c, r) && LogInv(c, r) && PhaseInv(c, r)
  {
    hide Represents, HeaderOf, Target;
    assert forall i :: 0 <= i < |s.lh| ==> r.lh[i] == s.lh[i];
  }

  lemma AppendKeeps(c: Config, s: State, r: State, p: Proc, b: nat)
    requires Core(c, s) && Next(c, s, Append(p, b), r) && Fit(c, r)
    ensures Core(c, r)
  {
    assert BufInv(c, s, b);
    hide BufInv, PhaseInv, HeaderOk, HeaderOf, Represents, WritesOk, CacheInv, Fit;
    AppendCache(c, s, r, p, b);
    AppendLog(c, s, r, p, b);
  }

  lemma EndCache(c: Config, s: State, r: State, p: Proc)
    requires Sized(c, s) && CacheInv(c, s) && s.phase == Normal && (r.phase == Normal || r.phase == CopyLog(0))
    requires r.disk == s.disk && r.lh == s.lh && r.hist == s.hist && r.cache == s.cache && r.active == s.active - {p}
    requires forall b :: b in s.cache ==> s.cache[b].holder != Some(p)
    ensures CacheInv(c, r)
  {
    forall x | x in r.cache ensures BufInv(c, r, x) {
      assert BufInv(c, s, x);
    }
  }

  lemma LastOne(m: map<Proc, nat>, p: Proc)
    requires p in m
    ensures |m| == 1 <==> m - {p} == map[]
  {
    assert (m - {p}).Keys == m.Keys - {p};
    assert |m| == |m.Keys| == |(m - {p}).Keys| + 1;
    assert m - {p} == map[] <==> (m - {p}).Keys == {};
  }

  // What End does to what the log and phase invariants speak of.
  lemma EndPhase(c: Config, s: State, r: State)
    requires DiskInv(c, s) && LogInv(c, s) && PhaseInv(c, s) && s.phase == Normal
    requires r.disk == s.disk && r.lh == s.lh && r.hist == s.hist && r.cache == s.cache
    requires r.phase == Normal || r.phase == CopyLog(0)
    requires r.active == map[] ==> r.phase != Normal || r.lh == []
    requires r.phase != Normal ==> r.active == map[]
    ensures DiskInv(c, r) && LogInv(c, r) && PhaseInv(c, r)
  {
  }

  lemma EndKeeps(c: Config, s: State, r: State, p: Proc)
    requires Core(c, s) && Next(c, s, End(p), r)
    ensures Core(c, r)
  {
    hide CacheInv, PhaseInv, Represents, HeaderOk, HeaderOf, WritesOk;
    EndCache(c, s, r, p);
    LastOne(s.active, p);
    EndPhase(c, s, r);
  }

  lemma CrashKeeps(c: Config, s: State, r: State)
    requires Core(c, s) && Next(c, s, Crash, r)
    ensures Core(c, r)
  {
  }

  lemma ReadHeadKeeps(c: Config, s: State, r: State)
    requires Core(c, s) && Next(c, s, ReadHead, r)
    ensures Core(c, r)
  {
    assert DiskInv(c, r) && LogInv(c, r);
    assert BufInv(c, r, c.start);
  }

  // ---------------------------------------------------------------- commit and recovery

  // Buffers of the log region itself always agree with the disk.
  lemma LogBufferClean(c: Config, s: State, b: int)
    requires Sized(c, s) && HeaderOk(c, s.lh) && CacheInv(c, s)
    requires b in s.cache && !Home(c, b)
    ensures 0 <= b < c.nblocks && |s.cache[b].data| == c.words
    ensures s.cache[b].data == s.disk[b] && !s.cache[b].unlogged
  {
    assert BufInv(c, s, b);
  }

  // A block write leaves every other buffer as it was, and the written one clean.
  lemma WriteBlockCache(c: Config, s: State, r: State, b: int, data: Block)
    requires Sized(c, s) && CacheInv(c, s) && b in s.cache && 0 <= b < |s.disk|
    requires r.disk == s.disk[b := data] && |data| == c.words
    requires r.cache == s.cache[b := s.cache[b].(data := data, dirty := false)]
    requires r.hist.scribbled == s.hist.scribbled && r.active == s.active
    requires Sized(c, r) && Target(r) == Target(s)
    requires r.lh == s.lh || (r.lh == [] && s.phase.Install? && |s.lh| <= s.phase.k)
    requires r.phase.CopyLog? ==> s.phase.CopyLog? && b !in s.lh
    requires r.phase.Normal? ==> r.lh == []
    requires r.phase.Install? && r.phase.k > 0 ==>
               s.phase == Install(r.phase.k - 1) && r.phase.k <= |s.lh| && s.lh[r.phase.k - 1] == b
    ensures CacheInv(c, r)
  {
    forall x | x in r.cache ensures BufInv(c, r, x) {
      assert BufInv(c, s, x);
      if x != b && Pinned(s, x) {
        var i :| 0 <= i < |s.lh| && s.lh[i] == x && (s.phase.Install? ==> s.phase.k <= i);
        assert r.lh == s.lh && r.lh[i] == x;
      }
    }
  }

  // Copying entry k to the log, seen on the disk alone.
  lemma CopyToLogDisk(c: Config, s: State, d: seq<Block>, k: nat)
    requires DiskInv(c, s) && LogInv(c, s) && PhaseInv(c, s)
    requires s.phase == CopyLog(k) && k < |s.lh|
    requires d == s.disk[c.start + 1 + k := Target(s)[s.lh[k]]] && |Target(s)[s.lh[k]]| == c.words
    ensures var r := s.(disk := d, phase := CopyLog(k + 1));
            DiskInv(c, r) && LogInv(c, r) && PhaseInv(c, r)
  {
    assert d[c.start] == s.disk[c.start];
    assert Target(s.(disk := d, phase := CopyLog(k + 1))) == Target(s);
  }

  lemma CopyToLogKeeps(c: Config, s: State, r: State, p: Proc)
    requires Core(c, s) && Next(c, s, CopyToLog(p), r)
    ensures Core(c, r)
  {
    hide Represents, HeaderOf, WritesOk;
    var k := s.phase.k;
    assert BufInv(c, s, s.lh[k]);
    CopyToLogDisk(c, s, r.disk, k);
    WriteBlockCache(c, s, r, c.start + 1 + k, s.cache[s.lh[k]].data);
  }

  // With all entries copied, a disk under the new header stands for the target.
  lemma CommitRepresents(c: Config, s: State, d: seq<Block>)
    requires DiskInv(c, s) && LogInv(c, s) && PhaseInv(c, s) && s.phase == CopyLog(|s.lh|)
    requires |d| == c.nblocks && forall b :: 0 <= b < c.nblocks && b != c.start ==> d[b] == s.disk[b]
    ensures Represents(c, d, s.lh, Target(s))
  {
    hide HeaderOf, WritesOk;
    forall b | Home(c, b) && b !in s.lh ensures d[b] == Target(s)[b] {
      assert s.disk[b] == s.hist.base[b];
      ApplyElsewhere(s.hist.base, s.hist.pending, b);
    }
  }

  // Writing the header is the commit point: it turns the copied blocks into the recovered state.
  lemma CommitHeaderDisk(c: Config, s: State, r: State, f: Block)
    requires DiskInv(c, s) && LogInv(c, s) && PhaseInv(c, s)
    requires s.phase == CopyLog(|s.lh|)
    requires |f| == c.words && r.disk == s.disk[c.start := WithHeader(f, s.lh)]
    requires r.hist.base == Target(s)
    ensures DiskInv(c, r)
    ensures HeaderOf(r.disk[c.start]) == s.lh
  {
    HeaderRoundTrip(f, s.lh);
    assert WithHeader(f, s.lh)[0] == |s.lh|;
    CommitRepresents(c, s, r.disk);
    ApplyWords(c, s.hist.base, s.hist.pending);
    hide Represents, HeaderOf, WithHeader, WritesOk, PhaseInv;
  }

  lemma CommitHeaderKeeps(c: Config, s: State, r: State, p: Proc)
    requires Core(c, s) && Next(c, s, CommitHeader(p), r)
    ensures Core(c, r)
  {
    hide Represents, HeaderOf, WithHeader, BufInv;
    var f := s.cache[c.start].data;
    LogBufferClean(c, s, c.start);
    CommitHeaderDisk(c, s, r, f);
    HeaderRoundTrip(f, s.lh);
    WriteBlockCache(c, s, r, c.start, WithHeader(f, s.lh));
  }

  // Installing entry k leaves the log and what the disk represents.
  lemma InstallOneRepresents(c: Config, disk: seq<Block>, lh: seq<int>, base: seq<Block>, k: nat, d: seq<Block>)
    requires Layout(c) && |disk| == c.nblocks && HeaderOk(c, lh) && |base| == c.nblocks && Represents(c, disk, lh, base)
    requires k < |lh| && Home(c, lh[k]) && d == disk[lh[k] := disk[c.start + 1 + k]]
    ensures Represents(c, d, lh, base) && d[lh[k]] == base[lh[k]] && d[c.start] == disk[c.start]
  {
    forall j | 0 <= j < |lh| ensures d[c.start + 1 + j] == base[lh[j]] {
      assert disk[c.start + 1 + j] == base[lh[j]];
    }
  }

  // The same, seen on the disk alone.
  lemma InstallOneDisk(c: Config, s: State, d: seq<Block>, k: nat)
    requires DiskInv(c, s) && LogInv(c, s) && PhaseInv(c, s)
    requires s.phase == Install(k) && k < |s.lh|
    requires d == s.disk[s.lh[k] := s.disk[c.start + 1 + k]]
    ensures Home(c, s.lh[k]) && d[s.lh[k]] == s.hist.base[s.lh[k]]
    ensures var r := s.(disk := d, phase := Install(k + 1));
            DiskInv(c, r) && LogInv(c, r) && PhaseInv(c, r)
  {
    hide Represents, HeaderOf, WritesOk;
    assert Home(c, s.lh[k]);
    InstallOneRepresents(c, s.disk, s.lh, s.hist.base, k, d);
  }

  lemma InstallOneKeeps(c: Config, s: State, r: State, p: Proc)
    requires Core(c, s) && Next(c, s, InstallOne(p), r)
    ensures Core(c, r)
  {
    hide Represents, HeaderOf, WritesOk, BufInv;
    var k := s.phase.k;
    LogBufferClean(c, s, c.start + 1 + k);
    InstallOneDisk(c, s, r.disk, k);
    WriteBlockCache(c, s, r, s.lh[k], s.cache[c.start + 1 + k].data);
  }

  lemma EraseHeaderDisk(c: Config, s: State, f: Block)
    requires DiskInv(c, s) && LogInv(c, s) && PhaseInv(c, s)
    requires s.phase == Install(|s.lh|) && |f| == c.words
    ensures var r := s.(disk := s.disk[c.start := WithHeader(f, [])], lh := [], phase := Normal);
            DiskInv(c, r) && LogInv(c, r) && PhaseInv(c, r)
  {
    HeaderRoundTrip(f, []);
  }

  lemma EraseHeaderKeeps(c: Config, s: State, r: State, p: Proc)
    requires Core(c, s) && Next(c, s, EraseHeader(p), r)
    ensures Core(c, r)
  {
    var f := s.cache[c.start].data;
    LogBufferClean(c, s, c.start);
    EraseHeaderDisk(c, s, f);
    assert |WithHeader(f, [])| == c.words;
    WriteBlockCache(c, s, r, c.start, WithHeader(f, []));
  }
}
