/**
 What it takes for the logged blocks to fit in the log region.  mkfs makes the log region LOGSIZE blocks long, header included, so it
 has LOGSIZE - 1 slots, and log_write reads lh.n for its test before it takes log.lock.
 If operations may add MAXOPBLOCKS blocks each, two of them can pass that test together and
 fill more slots than there are; if they stop one short, none ever does.
 */
module LogOverflow {
  import opened Sizes
  import opened RedoLog
  import opened LogMachine
  import opened LogTheorems
  import Paths

  const NBUF: nat := 30

  // The sizes of param.h and mkfs.c, with enough blocks past the log to write to.
  predicate Shipped(c: Config) {
    && Layout(c) && c.size == LOGSIZE && c.nbuf == NBUF
    && c.start + c.size + LOGSIZE <= c.nblocks
  }

  function First(c: Config): (b: nat) { c.start + c.size }

  function Steps(c: Config): (next: (State, Step, State) -> bool) {
    (s: State, st: Step, r: State) => Next(c, s, st, r)
  }

  lemma Take(c: Config, R: iset<State>, s: State, st: Step) returns (r: State)
    requires Closed(c, R) && s in R && Enabled(c, s, st)
    ensures r in R && r == Do(c, s, st)
  {
    r := Do(c, s, st);
    assert Next(c, s, st, r);
  }

  // m blocks from First on are cached and the first n of them logged.
  ghost predicate Stage(c: Config, s: State, m: nat, n: nat, active: map<Proc, nat>,
                        checked: set<Proc>, held: map<int, Proc>) {
    && s.phase == Normal && |s.disk| == c.nblocks && s.active == active && s.checked == checked
    && |s.lh| == n && (forall i :: 0 <= i < n ==> s.lh[i] == First(c) + i)
    && |s.cache| == m && (forall b :: b in s.cache ==> First(c) <= b < First(c) + m)
    && held.Keys <= s.cache.Keys
    && (forall b :: b in held ==> s.cache[b].holder == Some(held[b]))
  }

  lemma MoreKeys<T>(m: map<int, T>, b: int, f: T)
    requires b !in m
    ensures |m[b := f]| == |m| + 1
  {
    assert m[b := f].Keys == m.Keys + {b};
  }

  lemma DoLoad(c: Config, R: iset<State>, s: State, m: nat, n: nat, a: map<Proc, nat>, k: set<Proc>, h: map<int, Proc>)
    returns (r: State)
    requires Shipped(c) && Closed(c, R) && s in R && Stage(c, s, m, n, a, k, h)
    requires m < LOGSIZE
    ensures r in R && Stage(c, r, m + 1, n, a, k, h)
    ensures First(c) + m !in h && First(c) + m in r.cache && r.cache[First(c) + m].holder == None
  {
    var b := First(c) + m;
    assert b !in s.cache;
    r := Take(c, R, s, Load(b));
    MoreKeys(s.cache, b, r.cache[b]);
  }

  lemma DoHold(c: Config, R: iset<State>, s: State, m: nat, n: nat, a: map<Proc, nat>, k: set<Proc>, h: map<int, Proc>, p: Proc, b: nat)
    returns (r: State)
    requires Shipped(c) && Closed(c, R) && s in R && Stage(c, s, m, n, a, k, h)
    requires b in s.cache && s.cache[b].holder == None
    ensures r in R && Stage(c, r, m, n, a, k, h[b := p])
  {
    r := Take(c, R, s, Hold(p, b));
    assert r.cache.Keys == s.cache.Keys;
  }

  lemma DoRelease(c: Config, R: iset<State>, s: State, m: nat, n: nat, a: map<Proc, nat>, k: set<Proc>, h: map<int, Proc>, b: nat)
    returns (r: State)
    requires Shipped(c) && Closed(c, R) && s in R && Stage(c, s, m, n, a, k, h)
    requires b in h
    ensures r in R && Stage(c, r, m, n, a, k, h - {b})
  {
    r := Take(c, R, s, Release(h[b], b));
    assert r.cache.Keys == s.cache.Keys;
  }

  lemma DoCheck(c: Config, R: iset<State>, s: State, m: nat, n: nat, a: map<Proc, nat>, k: set<Proc>, h: map<int, Proc>, p: Proc)
    returns (r: State)
    requires Shipped(c) && Closed(c, R) && s in R && Stage(c, s, m, n, a, k, h)
    requires p in a && n < LOGSIZE - 1
    ensures r in R && Stage(c, r, m, n, a, k + {p}, h)
  {
    r := Take(c, R, s, Check(p));
  }

  lemma DoAppend(c: Config, R: iset<State>, s: State, m: nat, n: nat, a: map<Proc, nat>, k: set<Proc>, h: map<int, Proc>, p: Proc)
    returns (r: State)
    requires Shipped(c) && Closed(c, R) && s in R && Stage(c, s, m, n, a, k, h)
    requires n < LOGSIZE && First(c) + n in h && h[First(c) + n] == p
    requires p in a && p in k && a[p] < c.allow
    ensures r in R && Stage(c, r, m, n + 1, a[p := a[p] + 1], k - {p}, h)
  {
    var b := First(c) + n;
    assert Home(c, b) && b !in s.lh;
    r := Take(c, R, s, Append(p, b));
    assert r.cache.Keys == s.cache.Keys;
  }

  // One whole log_write of a fresh block: bread, log_write, brelse.
  lemma FillOne(c: Config, R: iset<State>, s: State, n: nat, a: map<Proc, nat>, p: Proc) returns (r: State)
    requires Shipped(c) && Closed(c, R) && s in R && Stage(c, s, n, n, a, {}, map[])
    requires n < LOGSIZE - 1 && p in a && a[p] < c.allow
    ensures r in R && Stage(c, r, n + 1, n + 1, a[p := a[p] + 1], {}, map[])
  {
    var b := First(c) + n;
    r := DoLoad(c, R, s, n, n, a, {}, map[]);
    r := DoHold(c, R, r, n + 1, n, a, {}, map[], p, b);
    r := DoCheck(c, R, r, n + 1, n, a, {}, map[b := p], p);
    r := DoAppend(c, R, r, n + 1, n, a, {} + {p}, map[b := p], p);
    r := DoRelease(c, R, r, n + 1, n + 1, a[p := a[p] + 1], {p} - {p}, map[b := p], b);
    assert map[b := p] - {b} == map[];
  }

  lemma {:induction false} FillMany(c: Config, R: iset<State>, s: State, n: nat, a: map<Proc, nat>, p: Proc, k: nat)
    returns (r: State)
    requires Shipped(c) && Closed(c, R) && s in R && Stage(c, s, n, n, a, {}, map[])
    requires n + k < LOGSIZE && p in a && a[p] + k <= c.allow
    ensures r in R && Stage(c, r, n + k, n + k, a[p := a[p] + k], {}, map[])
    decreases k
  {
    if k == 0 {
      r := s;
      assert a[p := a[p]] == a;
    } else {
      r := FillOne(c, R, s, n, a, p);
      var more := a[p := a[p] + 1];
      r := FillMany(c, R, r, n + 1, more, p, k - 1);
      assert more[p := more[p] + (k - 1)] == a[p := a[p] + k];
    }
  }

  // ---------------------------------------------------------------- from a blank disk to the race

  function BlankDisk(c: Config): (d: seq<Block>) {
    seq(c.nblocks, i => seq(c.words, j => 0))
  }

  lemma BlankInitial(c: Config) returns (o: State)
    requires Shipped(c)
    ensures Initial(c, o) && HeaderOf(o.disk[c.start]) == []
  {
    var d := BlankDisk(c);
    assert HeaderOf(d[c.start]) == [];
    var home := Recovered(c, d);
    o := State(d, map[], [], Down, map[], {}, History(home, [], [], home, [], {}, {}));
  }

  // Boot with an empty log: read the header, install nothing, write the header back.
  lemma Boot(c: Config, R: iset<State>, o: State) returns (s: State)
    requires Shipped(c) && Closed(c, R) && o in R && Initial(c, o) && HeaderOf(o.disk[c.start]) == []
    ensures s in R && s.hist.started == {} && Stage(c, s, 0, 0, map[], {}, map[])
  {
    var s1 := Take(c, R, o, ReadHead);
    var s2 := Take(c, R, s1, Hold(0, c.start));
    var s3 := Take(c, R, s2, EraseHeader(0));
    var s4 := Take(c, R, s3, Release(0, c.start));
    s := Take(c, R, s4, Evict(c.start));
    assert s.cache.Keys == {};
  }

  lemma Admit(c: Config, R: iset<State>, s: State) returns (r: State)
    requires Shipped(c) && Closed(c, R) && s in R && s.hist.started == {}
    requires Stage(c, s, 0, 0, map[], {}, map[])
    ensures r in R && Stage(c, r, 0, 0, map[1 := 0, 2 := 0, 3 := 0], {}, map[])
  {
    var s1 := Take(c, R, s, Begin(1));
    var s2 := Take(c, R, s1, Begin(2));
    assert s2.active == map[1 := 0, 2 := 0];
    r := Take(c, R, s2, Begin(3));
  }

  // Two operations with one block left each both pass the test when one slot is left.
  lemma Race(c: Config, R: iset<State>, s: State) returns (r: State)
    requires Shipped(c) && c.allow >= MAXOPBLOCKS && Closed(c, R) && s in R
    requires Stage(c, s, 28, 28, map[1 := 10, 2 := 9, 3 := 9], {}, map[])
    ensures r in R && |r.lh| == LOGSIZE
  {
    var a := map[1 := 10, 2 := 9, 3 := 9];
    var b := First(c) + 28;
    r := DoLoad(c, R, s, 28, 28, a, {}, map[]);
    r := DoHold(c, R, r, 29, 28, a, {}, map[], 2, b);
    r := DoLoad(c, R, r, 29, 28, a, {}, map[b := 2]);
    r := DoHold(c, R, r, 30, 28, a, {}, map[b := 2], 3, b + 1);
    var h := map[b := 2][b + 1 := 3];
    r := DoCheck(c, R, r, 30, 28, a, {}, h, 2);
    r := DoCheck(c, R, r, 30, 28, a, {} + {2}, h, 3);
    r := DoAppend(c, R, r, 30, 28, a, {} + {2} + {3}, h, 2);
    r := DoAppend(c, R, r, 30, 29, a[2 := 10], {} + {2} + {3} - {2}, h, 3);
  }

  lemma Overflow(c: Config, R: iset<State>, o: State) returns (s: State)
    requires Shipped(c) && c.allow >= MAXOPBLOCKS && Closed(c, R)
    requires o in R && Initial(c, o) && HeaderOf(o.disk[c.start]) == []
    ensures s in R && |s.lh| == c.size
  {
    hide Stage, Closed, Initial, HeaderOf;
    var a0 := map[1 := 0, 2 := 0, 3 := 0];
    s := Boot(c, R, o);
    s := Admit(c, R, s);
    s := FillMany(c, R, s, 0, a0, 1, 10);
    s := FillMany(c, R, s, 10, a0[1 := 10], 2, 9);
    s := FillMany(c, R, s, 19, a0[1 := 10][2 := 9], 3, 9);
    assert a0[1 := 10][2 := 9][3 := 9] == map[1 := 10, 2 := 9, 3 := 9];
    s := Race(c, R, s);
  }

  ghost function Reachable(c: Config, o: State): (R: iset<State>) {
    iset s | Paths.Reach(Steps(c), o, s)
  }

  lemma ReachableClosed(c: Config, o: State)
    ensures o in Reachable(c, o) && Closed(c, Reachable(c, o))
  {
    Paths.Here(Steps(c), o);
    forall s, st, r | s in Reachable(c, o) && Next(c, s, st, r) ensures r in Reachable(c, o) {
      Paths.Then(Steps(c), o, s, st, r);
    }
  }

  ghost predicate AlwaysFits(c: Config) {
    forall ss: seq<State>, steps: seq<Step>, i: int :: Run(c, ss, steps) && 0 <= i < |ss| ==> |ss[i].lh| < c.size
  }

  /**
   With the log mkfs makes, every run keeps the logged blocks within the log region
   exactly when operations add fewer than MAXOPBLOCKS blocks each.
   */
  lemma FitsIff(c: Config)
    requires Shipped(c)
    ensures AlwaysFits(c) <==> c.allow < MAXOPBLOCKS
  {
    if c.allow < MAXOPBLOCKS {
      forall ss: seq<State>, steps: seq<Step>, i: int | Run(c, ss, steps) && 0 <= i < |ss| ensures |ss[i].lh| < c.size {
        RoomFits(c, ss, steps, i);
        assert Fit(c, ss[i]);
      }
    } else {
      var o := BlankInitial(c);
      ReachableClosed(c, o);
      var s := Overflow(c, Reachable(c, o), o);
      var ss: seq<State>, steps: seq<Step> :| Paths.Joins(Steps(c), o, ss, steps, s);
      assert Run(c, ss, steps) && |ss[|steps|].lh| == c.size;
    }
  }

  // ---------------------------------------------------------------- the panic in log_write

  // With nothing raced, the third operation finds the log one short of its last block.
  lemma Trips(c: Config, R: iset<State>, o: State) returns (s: State)
    requires Shipped(c) && c.allow >= MAXOPBLOCKS && Closed(c, R)
    requires o in R && Initial(c, o) && HeaderOf(o.disk[c.start]) == []
    ensures s in R && 3 in s.active && s.active[3] < MAXOPBLOCKS && !Enabled(c, s, Check(3))
  {
    var a0 := map[1 := 0, 2 := 0, 3 := 0];
    s := Boot(c, R, o);
    s := Admit(c, R, s);
    s := FillMany(c, R, s, 0, a0, 1, 10);
    s := FillMany(c, R, s, 10, a0[1 := 10], 2, 10);
    s := FillMany(c, R, s, 20, a0[1 := 10][2 := 10], 3, 9);
  }

  // No operation that is under way ever finds the log too full to write to.
  ghost predicate NeverTrips(c: Config) {
    forall ss: seq<State>, steps: seq<Step>, i: int, p: Proc ::
      Run(c, ss, steps) && 0 <= i < |ss| && p in ss[i].active ==> Enabled(c, ss[i], Check(p))
  }

  /**
   With the log mkfs makes, the panics of log_write are out of reach exactly when operations
   add fewer than MAXOPBLOCKS blocks each.
   */
  lemma GuardIff(c: Config)
    requires Shipped(c)
    ensures NeverTrips(c) <==> c.allow < MAXOPBLOCKS
  {
    if c.allow < MAXOPBLOCKS {
      forall ss: seq<State>, steps: seq<Step>, i: int, p: Proc | Run(c, ss, steps) && 0 <= i < |ss| && p in ss[i].active
        ensures Enabled(c, ss[i], Check(p))
      {
        GuardNeverTrips(c, ss, steps, i, p);
      }
    } else {
      var o := BlankInitial(c);
      ReachableClosed(c, o);
      var s := Trips(c, Reachable(c, o), o);
      var ss: seq<State>, steps: seq<Step> :| Paths.Joins(Steps(c), o, ss, steps, s);
      assert Run(c, ss, steps) && 3 in ss[|steps|].active;
    }
  }
}
