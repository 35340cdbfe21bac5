/**
 The write-ahead (redo) log of the file system, over the block cache and a disk
 that may stop between any two block writes.

 The state is a value and every atomic action of the kernel is a step, so that
 any number of operations can interleave.  `History` records what a reader of
 the machine wants to talk about (which writes were made, which were committed);
 no guard of any step looks at it, except that operation names are used once.
 */
module RedoLog {
  import opened Sizes

  // A disk block, as the 32-bit words it holds.
  type Block = seq<int>
  // The name of one begin_op/end_op operation, or of a reader.
  type Proc = nat

  datatype Option<T> = None | Some(value: T)

  /**
   Where the log lies on disk, and the sizes the kernel was built with.
   `allow` bounds how many distinct blocks one operation adds to the log.
   */
  datatype Config = Config(start: nat, size: nat, nblocks: nat, words: nat, nbuf: nat, allow: nat)

  // The header fits in a block and the log fits on the disk.
  predicate Layout(c: Config) {
    && 1 <= c.size && c.start + c.size <= c.nblocks
    && LOGSIZE + 1 < c.words
  }

  // No operation adds more than begin_op sets aside, and the log region has a block for all that.
  predicate Room(c: Config) {
    c.allow <= MAXOPBLOCKS && LOGSIZE + c.allow < c.size + MAXOPBLOCKS
  }

  // Blocks outside the log region: the only ones operations log.
  predicate Home(c: Config, b: int) {
    0 <= b < c.nblocks && !(c.start <= b < c.start + c.size)
  }

  // `unlogged`: the holder has changed the data and not yet called log_write.
  datatype Buf = Buf(data: Block, dirty: bool, holder: Option<Proc>, unlogged: bool)

  datatype Write = Write(op: Proc, block: nat, data: Block)

  /**
   Normal: operations run.  CopyLog(k): commit has copied k blocks to the log.
   Install(k): the header is on disk and k blocks are installed (by commit or by recovery).
   Down: the machine has stopped; only the disk is left.
   */
  datatype Phase = Normal | CopyLog(k: nat) | Install(k: nat) | Down

  datatype History = History(
    init: seq<Block>,           // the disk contents recovered at the start
    commits: seq<seq<Write>>,   // one entry per committed transaction
    pending: seq<Write>,        // logged writes of the current transaction
    base: seq<Block>,           // home contents as of the last commit
    journal: seq<Write>,        // every logged write ever made
    scribbled: set<int>,        // released with changes that were never logged
    started: set<Proc>)

  datatype State = State(
    disk: seq<Block>,
    cache: map<int, Buf>,
    lh: seq<int>,               // log.lh in memory
    phase: Phase,
    active: map<Proc, nat>,     // outstanding operations, and how many blocks each added to lh
    checked: set<Proc>,         // inside log_write, past the test for room
    hist: History)

  // ---------------------------------------------------------------- the header block

  function HeaderOf(b: Block): (lh: seq<int>) {
    if |b| > 0 && 0 <= b[0] < |b| then seq(b[0], i requires 0 <= i < b[0] => b[1 + i]) else []
  }

  // What write_head leaves in the header buffer: words past the last entry keep their old value.
  function WithHeader(b: Block, lh: seq<int>): (r: Block)
    requires |lh| < |b|
  {
    [|lh|] + lh + b[1 + |lh|..]
  }

  lemma HeaderRoundTrip(b: Block, lh: seq<int>)
    requires |lh| < |b|
    ensures |WithHeader(b, lh)| == |b|
    ensures HeaderOf(WithHeader(b, lh)) == lh
  {
    var r := WithHeader(b, lh);
    assert r[0] == |lh|;
    assert forall i :: 0 <= i < |lh| ==> r[1 + i] == lh[i];
  }

  predicate NoDup(s: seq<int>) {
    forall i, j :: 0 <= i < j < |s| ==> s[i] != s[j]
  }

  predicate HeaderOk(c: Config, lh: seq<int>) {
    && |lh| <= LOGSIZE && |lh| < c.size
    && NoDup(lh)
    && forall i :: 0 <= i < |lh| ==> Home(c, lh[i])
  }

  // ---------------------------------------------------------------- replay

  // What install_trans does to a disk: copy the first k log blocks to their home, in order.
  function Replay(c: Config, d: seq<Block>, lh: seq<int>, k: nat): (r: seq<Block>)
    requires Layout(c) && |d| == c.nblocks && HeaderOk(c, lh) && k <= |lh|
    ensures |r| == |d|
  {
    if k == 0 then d else Replay(c, d, lh, k - 1)[lh[k - 1] := d[c.start + k]]
  }

  // The disk that an uninterrupted recovery leaves, but for the header.
  function Recovered(c: Config, d: seq<Block>): (r: seq<Block>)
    requires DiskOk(c, d)
    ensures |r| == |d|
  {
    Replay(c, d, HeaderOf(d[c.start]), |HeaderOf(d[c.start])|)
  }

  predicate DiskOk(c: Config, d: seq<Block>) {
    && Layout(c) && |d| == c.nblocks
    && (forall b :: 0 <= b < |d| ==> |d[b]| == c.words)
    && 0 <= d[c.start][0] < c.words
    && HeaderOk(c, HeaderOf(d[c.start]))
  }

  ghost predicate SameHome(c: Config, d: seq<Block>, e: seq<Block>)
    requires |d| == c.nblocks && |e| == c.nblocks
  {
    forall b :: Home(c, b) ==> d[b] == e[b]
  }

  // Log blocks hold what their home blocks should; the other home blocks are as they should be.
  ghost predicate Represents(c: Config, d: seq<Block>, lh: seq<int>, base: seq<Block>)
    requires Layout(c) && |d| == c.nblocks && HeaderOk(c, lh) && |base| == c.nblocks
  {
    && (forall k :: 0 <= k < |lh| ==> d[c.start + 1 + k] == base[lh[k]])
    && (forall b {:trigger Home(c, b)} :: Home(c, b) && b !in lh ==> d[b] == base[b])
  }

  lemma {:induction false} ReplayAt(c: Config, d: seq<Block>, lh: seq<int>, k: nat, b: int)
    requires Layout(c) && |d| == c.nblocks && HeaderOk(c, lh) && k <= |lh|
    requires Home(c, b)
    ensures b !in lh[..k] ==> Replay(c, d, lh, k)[b] == d[b]
    ensures forall i :: 0 <= i < k && lh[i] == b ==> Replay(c, d, lh, k)[b] == d[c.start + 1 + i]
  {
    if k > 0 {
      ReplayAt(c, d, lh, k - 1, b);
      assert lh[..k] == lh[..k - 1] + [lh[k - 1]];
    }
  }

  // Recovery yields `base` exactly when the log and the home blocks represent it.
  lemma RecoveredIff(c: Config, d: seq<Block>, base: seq<Block>)
    requires DiskOk(c, d) && |base| == c.nblocks
    ensures SameHome(c, Recovered(c, d), base) <==> Represents(c, d, HeaderOf(d[c.start]), base)
  {
    var lh := HeaderOf(d[c.start]);
    forall b | Home(c, b)
      ensures b !in lh ==> Recovered(c, d)[b] == d[b]
      ensures forall i :: 0 <= i < |lh| && lh[i] == b ==> Recovered(c, d)[b] == d[c.start + 1 + i]
    {
      ReplayAt(c, d, lh, |lh|, b);
      assert lh[..|lh|] == lh;
    }
  }

  // ---------------------------------------------------------------- writes

  predicate WriteOk(c: Config, w: Write) {
    Home(c, w.block) && |w.data| == c.words
  }

  predicate WritesOk(c: Config, ws: seq<Write>) {
    forall i :: 0 <= i < |ws| ==> WriteOk(c, ws[i])
  }

  // The home contents after a sequence of writes: the last write to a block wins.
  function Apply(d: seq<Block>, ws: seq<Write>): (r: seq<Block>)
    ensures |r| == |d|
  {
    if ws == [] then d
    else
      var w := ws[|ws| - 1];
      var r := Apply(d, ws[..|ws| - 1]);
      if w.block < |d| then r[w.block := w.data] else r
  }

  function Flat(ts: seq<seq<Write>>): (r: seq<Write>) {
    if ts == [] then [] else Flat(ts[..|ts| - 1]) + ts[|ts| - 1]
  }

  // The writes one operation made, in order.
  function Of(op: Proc, ws: seq<Write>): (r: seq<Write>) {
    if ws == [] then []
    else if ws[|ws| - 1].op == op then Of(op, ws[..|ws| - 1]) + [ws[|ws| - 1]]
    else Of(op, ws[..|ws| - 1])
  }

  lemma {:induction false} ApplyConcat(d: seq<Block>, u: seq<Write>, v: seq<Write>)
    ensures Apply(d, u + v) == Apply(Apply(d, u), v)
  {
    if v == [] {
      assert u + v == u;
    } else {
      assert (u + v)[..|u + v| - 1] == u + v[..|v| - 1];
      ApplyConcat(d, u, v[..|v| - 1]);
    }
  }

  lemma {:induction false} OfConcat(op: Proc, u: seq<Write>, v: seq<Write>)
    ensures Of(op, u + v) == Of(op, u) + Of(op, v)
  {
    if v == [] {
      assert u + v == u;
    } else {
      assert (u + v)[..|u + v| - 1] == u + v[..|v| - 1];
      OfConcat(op, u, v[..|v| - 1]);
    }
  }

  lemma {:induction false} ApplyElsewhere(d: seq<Block>, ws: seq<Write>, b: int)
    requires 0 <= b < |d|
    requires forall i :: 0 <= i < |ws| ==> ws[i].block != b
    ensures Apply(d, ws)[b] == d[b]
  {
    if ws != [] {
      ApplyElsewhere(d, ws[..|ws| - 1], b);
    }
  }

  lemma {:induction false} ApplyWords(c: Config, d: seq<Block>, ws: seq<Write>)
    requires forall b :: 0 <= b < |d| ==> |d[b]| == c.words
    requires WritesOk(c, ws)
    ensures forall b :: 0 <= b < |d| ==> |Apply(d, ws)[b]| == c.words
  {
    if ws != [] {
      assert WriteOk(c, ws[|ws| - 1]);
      ApplyWords(c, d, ws[..|ws| - 1]);
    }
  }

  lemma ApplyOne(d: seq<Block>, ws: seq<Write>, w: Write)
    requires w.block < |d|
    ensures Apply(d, ws + [w]) == Apply(d, ws)[w.block := w.data]
  {
    assert (ws + [w])[..|ws|] == ws;
  }

  // ---------------------------------------------------------------- reserved space

  // The sum, over the outstanding operations, of the blocks each may still add.
  ghost function Unspent(active: map<Proc, nat>): (r: int) {
    if active == map[] then 0
    else
      var p :| p in active;
      MAXOPBLOCKS - active[p] + Unspent(active - {p})
  }

  lemma {:induction false} UnspentRemove(active: map<Proc, nat>, p: Proc)
    requires p in active
    ensures Unspent(active) == MAXOPBLOCKS - active[p] + Unspent(active - {p})
    decreases |active|
  {
    var q :| q in active && Unspent(active) == MAXOPBLOCKS - active[q] + Unspent(active - {q});
    if p != q {
      UnspentRemove(active - {q}, p);
      UnspentRemove(active - {p}, q);
      assert active - {q} - {p} == active - {p} - {q};
    }
  }

  lemma {:induction false} UnspentBounds(active: map<Proc, nat>)
    requires forall p :: p in active ==> active[p] <= MAXOPBLOCKS
    ensures 0 <= Unspent(active) <= |active| * MAXOPBLOCKS
    decreases |active|
  {
    if active != map[] {
      var p :| p in active;
      UnspentRemove(active, p);
      var rest := active - {p};
      assert rest.Keys == active.Keys - {p};
      UnspentBounds(rest);
    }
  }

  // Admitting an operation reserves its whole allowance.
  lemma UnspentAdmit(active: map<Proc, nat>, p: Proc)
    requires p !in active
    ensures Unspent(active[p := 0]) == Unspent(active) + MAXOPBLOCKS
  {
    UnspentRemove(active[p := 0], p);
    assert active[p := 0] - {p} == active;
  }

  // One more block moves one unit from the allowance to the log.
  lemma UnspentSpend(active: map<Proc, nat>, p: Proc)
    requires p in active
    requires forall q :: q in active ==> active[q] <= MAXOPBLOCKS
    ensures Unspent(active[p := active[p] + 1]) == Unspent(active) - 1
    ensures MAXOPBLOCKS - active[p] <= Unspent(active)
  {
    var more := active[p := active[p] + 1];
    UnspentRemove(active, p);
    UnspentRemove(more, p);
    assert more - {p} == active - {p};
    UnspentBounds(active - {p});
  }
}
