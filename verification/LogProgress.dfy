/**
 Nothing in the steps of the log stops a commit or a recovery from being carried through, given a
 buffer or two to do it with.
 */
module LogProgress {
  import opened Sizes
  import opened RedoLog
  import opened LogMachine
  import opened LogTheorems

  // A state of R that keeps the invariant, and a step from it.
  ghost predicate Good(c: Config, R: iset<State>, s: State) { Closed(c, R) && s in R && Inv(c, s) && Fit(c, s) }

  lemma Go(c: Config, R: iset<State>, s: State, st: Step) returns (r: State)
    requires Good(c, R, s) && Enabled(c, s, st) && Fit(c, Do(c, s, st))
    ensures Good(c, R, r) && r == Do(c, s, st)
  {
    r := Do(c, s, st);
    assert Next(c, s, st, r);
    StepKeeps(c, s, st, r);
  }

  // Nobody holds a buffer, no block of the log region is cached, and there are n buffers to spare.
  ghost predicate Quiet(c: Config, s: State, n: nat) {
    && |s.cache| + n <= c.nbuf
    && forall b :: b in s.cache ==> s.cache[b].holder == None && !s.cache[b].unlogged && !(c.start <= b < c.start + c.size)
  }

  lemma QuietAt(c: Config, s: State, n: nat, h: int, l: nat)
    requires Quiet(c, s, n) && Home(c, h) && c.start <= l < c.start + c.size
    ensures h != l && l !in s.cache && |s.cache| + n <= c.nbuf && (h in s.cache ==> s.cache[h].holder == None && !s.cache[h].unlogged)
  {
  }

  // A block that is not cached comes into a buffer held by p.
  function Fetched(s: State, p: Proc, b: nat): (r: State)
    requires b < |s.disk|
  {
    s.(cache := s.cache[b := Buf(s.disk[b], false, Some(p), false)])
  }

  lemma Fetch(c: Config, R: iset<State>, s: State, p: Proc, b: nat) returns (r: State)
    requires Good(c, R, s) && s.phase != Down && b < |s.disk| && b !in s.cache && |s.cache| < c.nbuf
    ensures Good(c, R, r) && r == Fetched(s, p, b)
  {
    hide Good;
    GoodFit(c, R, s);
    r := Go(c, R, s, Load(b));
    r := Go(c, R, r, Hold(p, b));
  }

  lemma GoodFit(c: Config, R: iset<State>, s: State)
    requires Good(c, R, s)
    ensures Fit(c, s)
  {
  }

  lemma Grab(c: Config, R: iset<State>, s: State, p: Proc, b: nat) returns (r: State)
    requires Good(c, R, s) && b in s.cache && s.cache[b].holder == None
    ensures Good(c, R, r) && r == s.(cache := s.cache[b := s.cache[b].(holder := Some(p))])
  {
    hide Good;
    GoodFit(c, R, s);
    r := Go(c, R, s, Hold(p, b));
  }

  lemma Loose(c: Config, R: iset<State>, s: State, p: Proc, b: nat) returns (r: State)
    requires Good(c, R, s) && Held(s, p, b) && !s.cache[b].unlogged
    ensures Good(c, R, r) && r == s.(cache := s.cache[b := s.cache[b].(holder := None)])
  {
    hide Good;
    GoodFit(c, R, s);
    r := Go(c, R, s, Release(p, b));
  }

  // A clean buffer held by p is given up and recycled.
  lemma Discard(c: Config, R: iset<State>, s: State, p: Proc, b: nat) returns (r: State)
    requires Good(c, R, s) && Held(s, p, b) && !s.cache[b].dirty && !s.cache[b].unlogged
    ensures Good(c, R, r) && r == s.(cache := s.cache - {b})
  {
    hide Good;
    GoodFit(c, R, s);
    r := Go(c, R, s, Release(p, b));
    r := Go(c, R, r, Evict(b));
    assert r.cache == s.cache - {b};
  }

  // ---------------------------------------------------------------- one block

  lemma CopyReady(c: Config, R: iset<State>, s: State, k: nat)
    requires Good(c, R, s) && s.phase == CopyLog(k) && k < |s.lh|
    ensures Home(c, s.lh[k]) && s.lh[k] in s.cache && c.start + 1 + k < c.start + c.size <= |s.disk|
  {
  }

  lemma CopyOne(c: Config, R: iset<State>, s: State, p: Proc, k: nat, h: int, l: nat) returns (r: State)
    requires Good(c, R, s) && s.phase == CopyLog(k) && k < |s.lh| && h == s.lh[k] && l == c.start + 1 + k < |s.disk|
    requires Held(s, p, h) && Held(s, p, l)
    ensures Good(c, R, r) && l in s.cache && h in s.cache
    ensures r == WriteBlock(s, l, s.cache[h].data).(phase := CopyLog(k + 1))
  {
    hide Good;
    GoodFit(c, R, s);
    r := Go(c, R, s, CopyToLog(p));
  }

  // One turn of write_log, with the buffers it needs: only the log block and the phase are new.
  lemma CopyTurn(c: Config, R: iset<State>, s: State, p: Proc, k: nat) returns (r: State)
    requires Good(c, R, s) && Quiet(c, s, 1) && s.phase == CopyLog(k) && k < |s.lh|
    ensures Good(c, R, r) && r == s.(disk := r.disk, phase := CopyLog(k + 1))
  {
    hide Good, Quiet;
    CopyReady(c, R, s, k);
    var h, l := s.lh[k], c.start + 1 + k;
    QuietAt(c, s, 1, h, l);
    r := Fetch(c, R, s, p, l);
    r := Grab(c, R, r, p, h);
    r := CopyOne(c, R, r, p, k, h, l);
    r := Loose(c, R, r, p, h);
    r := Discard(c, R, r, p, l);
    assert r.cache == s.cache;
  }

  lemma InstallReady(c: Config, R: iset<State>, s: State, k: nat)
    requires Good(c, R, s) && s.phase == Install(k) && k < |s.lh|
    ensures Home(c, s.lh[k]) && NoDup(s.lh) && c.start + 1 + k < c.start + c.size <= |s.disk| == c.nblocks
  {
  }

  lemma InstallIt(c: Config, R: iset<State>, s: State, p: Proc, k: nat, h: nat, l: nat) returns (r: State)
    requires Good(c, R, s) && s.phase == Install(k) && k < |s.lh| && h == s.lh[k] < |s.disk| && l == c.start + 1 + k
    requires Held(s, p, h) && Held(s, p, l)
    ensures Good(c, R, r) && l in s.cache && h in s.cache
    ensures r == WriteBlock(s, h, s.cache[l].data).(phase := Install(k + 1))
  {
    hide Good;
    GoodFit(c, R, s);
    r := Go(c, R, s, InstallOne(p));
  }

  // The home block in a buffer held by p, whether it was cached or not.
  lemma Reach(c: Config, R: iset<State>, s: State, p: Proc, h: nat) returns (r: State)
    requires Good(c, R, s) && s.phase != Down && h < |s.disk| && (h in s.cache ==> s.cache[h].holder == None && !s.cache[h].unlogged)
    requires h in s.cache || |s.cache| < c.nbuf
    ensures Good(c, R, r) && Held(r, p, h) && !r.cache[h].unlogged && r == s.(cache := s.cache[h := r.cache[h]])
    ensures |r.cache| == |s.cache| + if h in s.cache then 0 else 1
  {
    hide Good, Fit;
    if h in s.cache {
      r := Grab(c, R, s, p, h);
    } else {
      r := Fetch(c, R, s, p, h);
    }
    var f := r.cache[h];
    assert r == s.(cache := s.cache[h := f]);
    CacheSize(s.cache, h, f);
  }

  lemma InstallHeld(c: Config, R: iset<State>, s: State, p: Proc, k: nat, h: nat, l: nat) returns (r: State)
    requires Good(c, R, s) && s.phase == Install(k) && k < |s.lh| && h == s.lh[k] < |s.disk| && l == c.start + 1 + k < |s.disk| && h != l
    requires Held(s, p, h) && !s.cache[h].unlogged && l !in s.cache && |s.cache| < c.nbuf
    ensures Good(c, R, r) && r == s.(disk := r.disk, cache := s.cache - {h}, phase := Install(k + 1))
  {
    hide Good;
    r := Fetch(c, R, s, p, l);
    r := InstallIt(c, R, r, p, k, h, l);
    r := Discard(c, R, r, p, l);
    r := Discard(c, R, r, p, h);
    assert r.cache == s.cache - {h};
  }

  // One turn of install_trans: the home block is written and leaves the cache.
  lemma InstallTurn(c: Config, R: iset<State>, s: State, p: Proc, k: nat) returns (r: State)
    requires Good(c, R, s) && s.phase == Install(k) && k < |s.lh| && Quiet(c, s, if s.lh[k] in s.cache then 1 else 2)
    ensures Good(c, R, r) && r == s.(disk := r.disk, cache := s.cache - {s.lh[k]}, phase := Install(k + 1))
  {
    hide Good, Quiet;
    InstallReady(c, R, s, k);
    var h, l := s.lh[k], c.start + 1 + k;
    QuietAt(c, s, if h in s.cache then 1 else 2, h, l);
    r := Reach(c, R, s, p, h);
    r := InstallHeld(c, R, r, p, k, h, l);
    assert r.cache == s.cache - {h};
  }

  lemma CacheSize<T>(m: map<int, T>, b: int, f: T)
    ensures |m[b := f]| == |m| + if b in m then 0 else 1
  {
    assert m[b := f].Keys == m.Keys + {b};
    assert b in m ==> m.Keys + {b} == m.Keys;
  }

  // ---------------------------------------------------------------- all blocks, and the header

  lemma {:induction false} CopyAll(c: Config, R: iset<State>, s: State, p: Proc, k: nat) returns (r: State)
    requires Good(c, R, s) && Quiet(c, s, 1) && s.phase == CopyLog(k) && k <= |s.lh|
    ensures Good(c, R, r) && r == s.(disk := r.disk, phase := CopyLog(|s.lh|))
    decreases |s.lh| - k
  {
    hide Good;
    r := s;
    if k < |s.lh| {
      r := CopyTurn(c, R, s, p, k);
      r := CopyAll(c, R, r, p, k + 1);
    }
  }

  lemma HeaderReady(c: Config, R: iset<State>, s: State)
    requires Good(c, R, s)
    ensures c.start < c.start + c.size <= |s.disk| && |s.lh| < |s.disk[c.start]|
  {
  }

  // write_head at the commit point.
  lemma CommitTurn(c: Config, R: iset<State>, s: State, p: Proc) returns (r: State)
    requires Good(c, R, s) && Quiet(c, s, 1) && s.phase == CopyLog(|s.lh|)
    ensures Good(c, R, r)
    ensures r == s.(disk := r.disk, phase := Install(0),
      hist := s.hist.(commits := s.hist.commits + [s.hist.pending], base := Apply(s.hist.base, s.hist.pending), pending := []))
  {
    hide Good, Apply;
    HeaderReady(c, R, s);
    GoodFit(c, R, s);
    assert c.start !in s.cache;
    r := Fetch(c, R, s, p, c.start);
    r := Go(c, R, r, CommitHeader(p));
    r := Discard(c, R, r, p, c.start);
    assert r.cache == s.cache;
  }

  lemma EraseTurn(c: Config, R: iset<State>, s: State, p: Proc) returns (r: State)
    requires Good(c, R, s) && Quiet(c, s, 1) && s.phase == Install(|s.lh|)
    ensures Good(c, R, r) && r == s.(disk := r.disk, phase := Normal, lh := [])
  {
    hide Good;
    HeaderReady(c, R, s);
    GoodFit(c, R, s);
    assert c.start !in s.cache;
    r := Fetch(c, R, s, p, c.start);
    r := Go(c, R, r, EraseHeader(p));
    r := Discard(c, R, r, p, c.start);
    assert r.cache == s.cache;
  }

  // Blocks k and after are cached.
  predicate Cached(s: State, k: nat) { forall i :: k <= i < |s.lh| ==> s.lh[i] in s.cache }

  lemma {:induction false} InstallAll(c: Config, R: iset<State>, s: State, p: Proc, k: nat, n: nat) returns (r: State)
    requires Good(c, R, s) && s.phase == Install(k) && k <= |s.lh| && Quiet(c, s, n) && n >= if Cached(s, k) then 1 else 2
    ensures Good(c, R, r) && Quiet(c, r, 1) && r == s.(disk := r.disk, cache := r.cache, phase := Install(|s.lh|))
    decreases |s.lh| - k
  {
    hide Good;
    r := s;
    if k < |s.lh| {
      InstallReady(c, R, s, k);
      r := InstallTurn(c, R, s, p, k);
      QuietLess(c, s, r, n, k);
      r := InstallAll(c, R, r, p, k + 1, n);
    }
  }

  lemma QuietLess(c: Config, s: State, r: State, n: nat, k: nat)
    requires Quiet(c, s, n) && k < |s.lh| && NoDup(s.lh) && r.lh == s.lh && r.cache == s.cache - {s.lh[k]}
    ensures Quiet(c, r, n) && (Cached(s, k) ==> Cached(r, k + 1))
  {
    assert r.cache.Keys == s.cache.Keys - {s.lh[k]};
  }

  // ---------------------------------------------------------------- whole transactions

  lemma EndReady(c: Config, R: iset<State>, s: State)
    requires Good(c, R, s) && s.phase.CopyLog?
    ensures Cached(s, 0)
  {
  }

  lemma HomeIs(c: Config, R: iset<State>, s: State)
    requires Good(c, R, s) && s.phase == Normal
    ensures |s.disk| == |s.hist.base| == c.nblocks && SameHome(c, s.disk, s.hist.base)
  {
  }

  /**
   The last operation ends.  With one buffer to spare the commit can be carried through: what was
   logged is one more transaction, the home blocks hold it, and the log is empty.
   */
  lemma CommitCan(c: Config, R: iset<State>, s: State, p: Proc) returns (r: State)
    requires Good(c, R, s) && Quiet(c, s, 1) && s.phase == Normal && s.active.Keys == {p} && s.lh != []
    ensures Good(c, R, r) && r.phase == Normal && r.lh == [] && r.active == map[]
    ensures r.hist.commits == s.hist.commits + [s.hist.pending] && r.hist.pending == [] && r.hist.journal == s.hist.journal
    ensures |r.disk| == c.nblocks == |s.hist.base| && SameHome(c, r.disk, Apply(s.hist.base, s.hist.pending))
  {
    hide Good, Apply, SameHome;
    r := EndTurn(c, R, s, p);
    r := CopyAll(c, R, r, p, 0);
    EndReady(c, R, r);
    r := CommitTurn(c, R, r, p);
    r := InstallAll(c, R, r, p, 0, 1);
    r := EraseTurn(c, R, r, p);
    HomeIs(c, R, r);
    HomeIs(c, R, s);
  }

  lemma EndTurn(c: Config, R: iset<State>, s: State, p: Proc) returns (r: State)
    requires Good(c, R, s) && Quiet(c, s, 1) && s.phase == Normal && s.active.Keys == {p} && s.lh != []
    ensures Good(c, R, r) && Quiet(c, r, 1) && r == s.(active := map[], checked := s.checked - {p}, phase := CopyLog(0))
  {
    hide Good;
    GoodFit(c, R, s);
    assert |s.active| == |s.active.Keys| == 1;
    r := Go(c, R, s, End(p));
    assert r.active.Keys == {};
  }

  /**
   The machine has stopped.  With two buffers recovery can be carried through, whatever the log
   holds: the home blocks are those of the last commit, and the log is empty.
   */
  lemma RecoverCan(c: Config, R: iset<State>, s: State, p: Proc) returns (r: State)
    requires Good(c, R, s) && s.phase == Down && c.nbuf >= 2
    ensures Good(c, R, r) && r.phase == Normal && r.lh == [] && r.active == map[] && r.hist == s.hist
    ensures DiskOk(c, s.disk) && |r.disk| == c.nblocks && SameHome(c, r.disk, Recovered(c, s.disk))
  {
    hide Good, SameHome, Recovered;
    r := BootTurn(c, R, s);
    r := InstallAll(c, R, r, p, 0, 2);
    r := EraseTurn(c, R, r, p);
    HomeIs(c, R, r);
    BaseIs(c, R, s, r.disk);
  }

  lemma BaseIs(c: Config, R: iset<State>, s: State, d: seq<Block>)
    requires Good(c, R, s) && |d| == |s.hist.base| == c.nblocks && SameHome(c, d, s.hist.base)
    ensures DiskOk(c, s.disk) && SameHome(c, d, Recovered(c, s.disk))
  {
    RecoveredIff(c, s.disk, s.hist.base);
  }

  lemma BootTurn(c: Config, R: iset<State>, s: State) returns (r: State)
    requires Good(c, R, s) && s.phase == Down && c.nbuf >= 2
    ensures Good(c, R, r) && Quiet(c, r, 2) && r.phase == Install(0) && r == s.(cache := map[], lh := r.lh, phase := Install(0))
    ensures s.active == map[]
  {
    DownReady(c, R, s);
    hide Good, HeaderOf;
    r := Go(c, R, s, ReadHead);
    r := Go(c, R, r, Evict(c.start));
    assert r.cache.Keys == {};
  }

  lemma DownReady(c: Config, R: iset<State>, s: State)
    requires Good(c, R, s) && s.phase == Down
    ensures c.start < |s.disk| && HeaderOk(c, HeaderOf(s.disk[c.start])) && s.active == map[] && s.cache == map[]
  {
  }
}
