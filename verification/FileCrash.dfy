/**
 filewrite on the log: a crash during a write leaves the old contents and a whole number of
 chunks of the new.
 */
module FileCrash {
  import opened FileTree
  import opened FileContents
  import opened FileLogs
  import opened FileSteps
  import opened FileWrite
  import opened Sizes
  import RedoLog
  import LogMachine
  import LogTheorems
  import LogSerial
  import LogShared

  // ---------------------------------------------------------------- the disk of a file system

  // How a data block, the bits of a bitmap block and the inodes of an inode block look on disk.
  datatype Coding = Coding(data: Block -> seq<int>, bits: seq<bool> -> seq<int>, inodes: seq<Inode> -> seq<int>)

  // An inode of 32-bit addresses and size.
  predicate Formed(ip: Inode) {
    |ip.addrs| == NDIRECT + 2 && ip.size < WORD && forall j :: 0 <= j < |ip.addrs| ==> 0 <= ip.addrs[j] < WORD
  }

  predicate AllFormed(xs: seq<Inode>) {
    forall j :: 0 <= j < |xs| ==> Formed(xs[j])
  }

  // What is on disk can be read back.
  ghost predicate Readable(k: Coding) {
    && (forall a: Block, b: Block :: |a| == |b| == BSIZE && k.data(a) == k.data(b) ==> a == b)
    && (forall a, b :: |a| == |b| == BPB && k.bits(a) == k.bits(b) ==> a == b)
    && (forall a, b :: |a| == |b| == IPB && AllFormed(a) && AllFormed(b) && k.inodes(a) == k.inodes(b) ==> a == b)
  }

  // Where the inodes, the bitmap and the data start.
  datatype Areas = Areas(inodestart: nat, bmapstart: nat, first: nat)

  function BitsIn(fs: FS, j: nat): (r: seq<bool>) {
    seq(BPB, t requires 0 <= t < BPB => j * BPB + t < |fs.used| && fs.used[j * BPB + t])
  }

  function Blank(): (ip: Inode) { Inode(Kind(0, 0, 0, 0), seq(NDIRECT + 2, j => 0), 0) }

  function InodesIn(fs: FS, j: nat): (r: seq<Inode>) {
    seq(IPB, t requires 0 <= t < IPB => if j * IPB + t < |fs.inodes| then fs.inodes[j * IPB + t] else Blank())
  }

  function BlockOf(k: Coding, a: Areas, fs: FS, b: nat): (r: seq<int>)
    requires b < |fs.disk|
  {
    if a.bmapstart <= b < a.first then k.bits(BitsIn(fs, b - a.bmapstart))
    else if a.inodestart <= b < a.bmapstart then k.inodes(InodesIn(fs, b - a.inodestart))
    else k.data(fs.disk[b])
  }

  function Image(k: Coding, a: Areas, fs: FS): (d: seq<seq<int>>)
    ensures |d| == |fs.disk|
  {
    seq(|fs.disk|, b requires 0 <= b < |fs.disk| => BlockOf(k, a, fs, b))
  }

  // A step that logs its changes changes no other block.
  lemma UnloggedSame(k: Coding, a: Areas, fs: FS, g: FS, log: set<int>, b: nat)
    requires StepTo(fs, g, a.bmapstart, a.inodestart, log) && b < |fs.disk| && b !in log
    ensures BlockOf(k, a, g, b) == BlockOf(k, a, fs, b)
  {
    if a.bmapstart <= b < a.first {
      var j := b - a.bmapstart;
      forall t | 0 <= t < BPB ensures BitsIn(g, j)[t] == BitsIn(fs, j)[t] {
        assert (j * BPB + t) / BPB == j;
      }
      assert BitsIn(g, j) == BitsIn(fs, j);
    } else if a.inodestart <= b < a.bmapstart {
      var j := b - a.inodestart;
      forall t | 0 <= t < IPB ensures InodesIn(g, j)[t] == InodesIn(fs, j)[t] {
        assert (j * IPB + t) / IPB == j;
      }
      assert InodesIn(g, j) == InodesIn(fs, j);
    }
  }

  // ---------------------------------------------------------------- a transaction's writes

  // The contents last logged for block b.
  function LastOf(ws: seq<RedoLog.Write>, b: int): (r: seq<int>) {
    if ws == [] then []
    else if ws[|ws| - 1].block == b then ws[|ws| - 1].data
    else LastOf(ws[..|ws| - 1], b)
  }

  // The writes are to the blocks in `log`, and the last to each has what d has there.
  ghost predicate Logs(ws: seq<RedoLog.Write>, log: set<int>, d: seq<seq<int>>) {
    && (forall j :: 0 <= j < |ws| ==> ws[j].block in log)
    && (forall b :: b in log ==> 0 <= b < |d| && Written(ws, b) && LastOf(ws, b) == d[b])
  }

  ghost predicate Written(ws: seq<RedoLog.Write>, b: int) {
    exists j :: 0 <= j < |ws| && ws[j].block == b
  }

  lemma {:induction false} ApplyLast(d: seq<seq<int>>, ws: seq<RedoLog.Write>, b: int)
    requires 0 <= b < |d|
    ensures RedoLog.Apply(d, ws)[b] == if Written(ws, b) then LastOf(ws, b) else d[b]
  {
    if ws != [] {
      var n := |ws| - 1;
      ApplyLast(d, ws[..n], b);
      assert Written(ws, b) <==> ws[n].block == b || Written(ws[..n], b) by {
        if Written(ws[..n], b) {
          var j :| 0 <= j < n && ws[..n][j].block == b;
          assert ws[j].block == b;
        }
        if Written(ws, b) && ws[n].block != b {
          var j :| 0 <= j <= n && ws[j].block == b;
          assert ws[..n][j].block == b;
        }
      }
    }
  }

  // Logging every change, with its final contents, makes the one disk of the other.
  lemma StepMakes(k: Coding, a: Areas, fs: FS, g: FS, log: set<int>, ws: seq<RedoLog.Write>)
    requires StepTo(fs, g, a.bmapstart, a.inodestart, log) && Logs(ws, log, Image(k, a, g))
    ensures RedoLog.Apply(Image(k, a, fs), ws) == Image(k, a, g)
  {
    var d, e := Image(k, a, fs), Image(k, a, g);
    forall b | 0 <= b < |d| ensures RedoLog.Apply(d, ws)[b] == e[b] {
      ApplyLast(d, ws, b);
      if b !in log {
        UnloggedSame(k, a, fs, g, log, b);
      }
    }
  }

  // ---------------------------------------------------------------- reading the disk back

  // The disk holds g, in the blocks outside the log.
  ghost predicate Holds(c: RedoLog.Config, k: Coding, a: Areas, g: FS, d: seq<seq<int>>) {
    && |g.used| == |g.disk| == |d| == c.nblocks && (forall b :: 0 <= b < |d| ==> |g.disk[b]| == BSIZE) && AllFormed(g.inodes)
    && RedoLog.SameHome(c, Image(k, a, g), d)
  }

  // The log comes before the inodes, the inodes are in the blocks before the bitmap, and the bitmap has a bit for every block.
  ghost predicate Areable(c: RedoLog.Config, a: Areas, n: nat) {
    && c.start + c.size <= a.inodestart <= a.bmapstart <= a.first <= c.nblocks
    && (forall j :: 0 <= j < n ==> a.inodestart + j / IPB < a.bmapstart)
    && c.nblocks <= (a.first - a.bmapstart) * BPB
  }

  lemma SameBlock(c: RedoLog.Config, k: Coding, a: Areas, g: FS, h: FS, d: seq<seq<int>>, b: nat)
    requires Holds(c, k, a, g, d) && Holds(c, k, a, h, d) && RedoLog.Home(c, b)
    ensures b < |g.disk| && b < |h.disk| && BlockOf(k, a, g, b) == BlockOf(k, a, h, b)
  {
    hide BlockOf;
    assert Image(k, a, g)[b] == d[b] && Image(k, a, h)[b] == d[b];
  }

  lemma SameInode(c: RedoLog.Config, k: Coding, a: Areas, g: FS, h: FS, d: seq<seq<int>>, j: nat)
    requires Readable(k) && Areable(c, a, |h.inodes|) && |g.inodes| == |h.inodes| && j < |h.inodes|
    requires Holds(c, k, a, g, d) && Holds(c, k, a, h, d)
    ensures g.inodes[j] == h.inodes[j]
  {
    InodeAt(g, j);
    InodeAt(h, j);
    hide Holds, InodesIn, BitsIn, AllFormed;
    SameBlock(c, k, a, g, h, d, a.inodestart + j / IPB);
  }

  lemma InodeAt(fs: FS, j: nat)
    requires j < |fs.inodes| && AllFormed(fs.inodes)
    ensures |InodesIn(fs, j / IPB)| == IPB && InodesIn(fs, j / IPB)[j % IPB] == fs.inodes[j] && AllFormed(InodesIn(fs, j / IPB))
  {
    assert Formed(Blank());
    forall t | 0 <= t < IPB ensures Formed(InodesIn(fs, j / IPB)[t]) {
      assert j / IPB * IPB + t < |fs.inodes| ==> Formed(fs.inodes[j / IPB * IPB + t]);
    }
  }

  lemma SameBits(c: RedoLog.Config, k: Coding, a: Areas, g: FS, h: FS, d: seq<seq<int>>, j: nat)
    requires Readable(k) && Areable(c, a, |h.inodes|) && a.bmapstart + j < a.first
    requires Holds(c, k, a, g, d) && Holds(c, k, a, h, d)
    ensures BitsIn(g, j) == BitsIn(h, j)
  {
    hide Holds, InodesIn;
    SameBlock(c, k, a, g, h, d, a.bmapstart + j);
  }

  lemma SameBit(c: RedoLog.Config, k: Coding, a: Areas, g: FS, h: FS, d: seq<seq<int>>, b: nat)
    requires Readable(k) && Areable(c, a, |h.inodes|) && b < c.nblocks
    requires Holds(c, k, a, g, d) && Holds(c, k, a, h, d)
    ensures g.used[b] == h.used[b]
  {
    BitAt(g, b);
    BitAt(h, b);
    BitBlock(b, c.nblocks, a.first - a.bmapstart);
    hide *;
    SameBits(c, k, a, g, h, d, b / BPB);
  }

  lemma BitBlock(b: nat, n: nat, m: nat)
    requires b < n <= m * BPB
    ensures b / BPB < m
  {
  }

  lemma BitAt(fs: FS, b: nat)
    requires b < |fs.used|
    ensures |BitsIn(fs, b / BPB)| == BPB && BitsIn(fs, b / BPB)[b % BPB] == fs.used[b]
  {
  }

  // Two file systems on one disk have the same inodes, the same data blocks and the same blocks in use.
  lemma SameData(c: RedoLog.Config, k: Coding, a: Areas, g: FS, h: FS, d: seq<seq<int>>)
    requires Readable(k) && Areable(c, a, |h.inodes|) && |g.inodes| == |h.inodes|
    requires Holds(c, k, a, g, d) && Holds(c, k, a, h, d)
    ensures |d| == |g.disk| == |h.disk| == c.nblocks && g.inodes == h.inodes && forall b :: a.first <= b < |d| ==> g.disk[b] == h.disk[b]
    ensures g.used == h.used
  {
    hide InodesIn, BitsIn, Image;
    forall b | 0 <= b < c.nblocks ensures g.used[b] == h.used[b] {
      SameBit(c, k, a, g, h, d, b);
    }
    forall b | a.first <= b < |d| ensures g.disk[b] == h.disk[b] {
      SameBlock(c, k, a, g, h, d, b);
    }
    forall j | 0 <= j < |h.inodes| ensures g.inodes[j] == h.inodes[j] {
      SameInode(c, k, a, g, h, d, j);
    }
  }

  // The places of a tree are read from its own blocks.
  lemma SamePlace(w: Codec, g: FS, h: FS, first: nat, i: nat, p: Path)
    requires Tree(w, h, first) && g.inodes == h.inodes && |g.disk| == |h.disk| && Place(h, i, p)
    requires forall b :: first <= b < |h.disk| ==> g.disk[b] == h.disk[b]
    ensures Place(g, i, p) && A(w, g, i, p) == A(w, h, i, p) && (A(w, h, i, p) != 0 ==> first <= A(w, h, i, p) < |h.disk|)
    decreases p.Leaf?, !Root(p)
  {
    AtByParent(w, g, i, p);
    AtByParent(w, h, i, p);
    if !Root(p) {
      SamePlace(w, g, h, first, i, Parent(p));
    }
  }

  lemma SameContents(w: Codec, g: FS, h: FS, first: nat, i: nat)
    requires Tree(w, h, first) && g.inodes == h.inodes && |g.disk| == |h.disk| && i < |h.inodes|
    requires forall b :: first <= b < |h.disk| ==> g.disk[b] == h.disk[b]
    ensures |g.inodes[i].addrs| == NDIRECT + 2 && Contents(w, g, i) == Contents(w, h, i)
  {
    forall n | 0 <= n < h.inodes[i].size ensures Byte(w, g, i, n) == Byte(w, h, i, n) {
      if n < MAXBYTES {
        assert Place(h, i, PathOf(n / BSIZE));
        SamePlace(w, g, h, first, i, PathOf(n / BSIZE));
      }
    }
    hide Byte, Tree;
    assert Contents(w, g, i) == Contents(w, h, i);
  }

  // The bitmap and the places agree: a block at a place is a data block in use and at no other place,
  // and a data block in use is at a place.
  ghost predicate Accounted(w: Codec, g: FS, first: nat) {
    && |g.used| == |g.disk| && (forall b :: 0 <= b < first && b < |g.used| ==> g.used[b])
    && (forall i, p :: Place(g, i, p) && A(w, g, i, p) != 0 ==> first <= A(w, g, i, p) < |g.used| && g.used[A(w, g, i, p)])
    && (forall i, p, j, q :: Place(g, i, p) && Place(g, j, q) && A(w, g, i, p) == A(w, g, j, q) != 0 ==> i == j && p == q)
    && forall b :: first <= b < |g.used| && g.used[b] ==> exists i, p :: Place(g, i, p) && A(w, g, i, p) == b
  }

  lemma SameAccounts(w: Codec, g: FS, h: FS, first: nat)
    requires Tree(w, h, first) && g.inodes == h.inodes && g.used == h.used && |g.disk| == |h.disk|
    requires forall b :: first <= b < |h.disk| ==> g.disk[b] == h.disk[b]
    ensures Accounted(w, g, first)
  {
    forall i: nat, p | Place(g, i, p) ensures Place(h, i, p) && A(w, g, i, p) == A(w, h, i, p) {
      assert Place(h, i, p);
      SamePlace(w, g, h, first, i, p);
    }
    forall b | first <= b < |g.used| && g.used[b] ensures exists i, p :: Place(g, i, p) && A(w, g, i, p) == b {
      var o := h.owner[b];
      assert Place(h, o.inum, o.path) && A(w, h, o.inum, o.path) == b;
      assert Place(g, o.inum, o.path);
    }
    hide A;
  }

  // ---------------------------------------------------------------- the two together

  function Images(k: Coding, a: Areas, states: seq<FS>): (r: seq<seq<seq<int>>>)
    ensures |r| == |states|
  {
    seq(|states|, j requires 0 <= j < |states| => Image(k, a, states[j]))
  }

  /**
   The log machine runs the transactions of one filewrite, and no other operation meanwhile.
   The disk recovers at first to what the file system was; transaction p logs the blocks that the
   trace says, each in the end with the contents that the trace has for it.
   */
  ghost predicate RunsWrite(c: RedoLog.Config, k: Coding, a: Areas, ss: seq<RedoLog.State>, steps: seq<LogMachine.Step>, t: Trace) {
    && LogTheorems.Run(c, ss, steps) && |t.states| == |t.logs| + 1
    && (forall j :: 0 <= j < |t.states| ==> |t.states[j].disk| == c.nblocks)
    && RedoLog.SameHome(c, RedoLog.Recovered(c, ss[0].disk), Image(k, a, t.states[0]))
    && forall j :: 0 <= j < |steps| ==> RunsStep(k, a, ss[j], steps[j], t, LogSerial.Lost(ss, steps, j))
  }

  ghost predicate RunsStep(k: Coding, a: Areas, s: RedoLog.State, st: LogMachine.Step, t: Trace, lost: bool)
    requires |t.states| == |t.logs| + 1
  {
    && (st.Begin? ==> !lost && s.active == map[] && forall p: nat :: p in s.hist.started <==> p < st.p)
    && (st.End? ==> st.p < |t.logs| && Logs(RedoLog.Of(st.p, s.hist.journal), t.logs[st.p], Image(k, a, t.states[st.p + 1])))
  }

  lemma RunsSerial(c: RedoLog.Config, k: Coding, a: Areas, ss: seq<RedoLog.State>, steps: seq<LogMachine.Step>, t: Trace)
    requires RunsWrite(c, k, a, ss, steps, t)
    requires forall j :: 0 <= j < |t.logs| ==> StepTo(t.states[j], t.states[j + 1], a.bmapstart, a.inodestart, t.logs[j])
    ensures LogSerial.Serial(c, ss, steps, Images(k, a, t.states))
  {
    hide LogMachine.Next, LogTheorems.Initial, StepTo, Logs, Image;
    var images := Images(k, a, t.states);
    forall j | 0 <= j < |steps| ensures LogSerial.OneByOne(c, ss[j], steps[j], images, LogSerial.Lost(ss, steps, j)) {
      assert RunsStep(k, a, ss[j], steps[j], t, LogSerial.Lost(ss, steps, j));
      if steps[j].End? {
        var p := steps[j].p;
        StepMakes(k, a, t.states[p], t.states[p + 1], t.logs[p], RedoLog.Of(p, ss[j].hist.journal));
      }
    }
  }

  // g has file i as far as m transactions brought it, every other file as it was, and its blocks accounted for.
  ghost predicate LeftBy(w: Codec, first: nat, i: nat, off: nat, src: seq<Octet>, t: Trace, m: nat, g: FS)
    requires |t.states| > 0 && forall j :: 0 <= j < |t.states[0].inodes| ==> |t.states[0].inodes[j].addrs| == NDIRECT + 2
  {
    && i < |g.inodes| == |t.states[0].inodes| && (forall j :: 0 <= j < |g.inodes| ==> |g.inodes[j].addrs| == NDIRECT + 2)
    && Came(Contents(w, t.states[0], i), Contents(w, g, i), off, src, DoneBy(|src|, Min(m, t.whole)))
    && (forall j :: 0 <= j < |g.inodes| && j != i ==> Contents(w, g, j) == Contents(w, t.states[0], j))
    && Accounted(w, g, first)
  }

  lemma LeftIs(c: RedoLog.Config, k: Coding, a: Areas, w: Codec, i: nat, off: nat, src: seq<Octet>, t: Trace, m: nat, g: FS, d: seq<seq<int>>)
    requires Readable(k) && Chunked(w, a.first, a.bmapstart, a.inodestart, i, off, src, t.states, t.logs, t.whole) && m < |t.states|
    requires Areable(c, a, |t.states[0].inodes|) && |g.inodes| == |t.states[0].inodes|
    requires Holds(c, k, a, g, d) && Holds(c, k, a, t.states[m], d)
    ensures (forall j :: 0 <= j < |t.states[0].inodes| ==> |t.states[0].inodes[j].addrs| == NDIRECT + 2) && LeftBy(w, a.first, i, off, src, t, m, g)
  {
    var h := t.states[m];
    assert ChunkState(w, a.first, i, off, src, t.states[0], h, DoneBy(|src|, Min(m, t.whole)));
    SameData(c, k, a, g, h, d);
    SameAccounts(w, g, h, a.first);
    forall j | 0 <= j < |g.inodes| ensures |g.inodes[j].addrs| == NDIRECT + 2 && Contents(w, g, j) == Contents(w, h, j) {
      SameContents(w, g, h, a.first, j);
    }
    hide Came, Contents, Holds, Readable, Held, Found, Marked, Accounted;
  }

  lemma HoldsImage(c: RedoLog.Config, k: Coding, a: Areas, h: FS, d: seq<seq<int>>, first: nat, w: Codec)
    requires Tree(w, h, first) && AllSolid(w, h) && |d| == c.nblocks == |h.disk| && RedoLog.SameHome(c, d, Image(k, a, h))
    ensures Holds(c, k, a, h, d)
  {
    forall j | 0 <= j < |h.inodes| ensures Formed(h.inodes[j]) {
      TreeFormed(w, h, first, j);
    }
    hide Held, Found, Marked, Formed, Image;
  }

  // Addresses in a tree are 0 or on the disk.
  lemma TreeFormed(w: Codec, h: FS, first: nat, j: nat)
    requires Tree(w, h, first) && AllSolid(w, h) && j < |h.inodes|
    ensures Formed(h.inodes[j])
  {
    forall t | 0 <= t < NDIRECT + 2 ensures 0 <= h.inodes[j].addrs[t] < WORD {
      var p := if t < NDIRECT then Direct(t) else if t == NDIRECT then Single else Double;
      assert Place(h, j, p) && A(w, h, j, p) == h.inodes[j].addrs[t];
    }
  }

  // What the disk holds, as a file system of the trace.
  lemma HoldsState(c: RedoLog.Config, k: Coding, a: Areas, w: Codec, ss: seq<RedoLog.State>, steps: seq<LogMachine.Step>,
                   i: nat, off: nat, src: seq<Octet>, t: Trace, at: nat) returns (n: nat, m: nat)
    requires RunsWrite(c, k, a, ss, steps, t) && at < |ss|
    requires Chunked(w, a.first, a.bmapstart, a.inodestart, i, off, src, t.states, t.logs, t.whole)
    ensures (forall p: nat :: p in ss[at].hist.started <==> p < n) && n - 1 <= m <= n && m < |t.states|
    ensures RedoLog.DiskOk(c, ss[at].disk) && Holds(c, k, a, t.states[m], RedoLog.Recovered(c, ss[at].disk))
  {
    hide StepTo, ChunkState, RunsStep, LogTheorems.Run, LogSerial.Serial, LogSerial.Lost, Image;
    RunsSerial(c, k, a, ss, steps, t);
    n, m := LogSerial.SerialAtomicity(c, ss, steps, Images(k, a, t.states), at);
    assert ChunkState(w, a.first, i, off, src, t.states[0], t.states[m], DoneBy(|src|, Min(m, t.whole)));
    ChunkTree(w, a.first, i, off, src, t.states[0], t.states[m], DoneBy(|src|, Min(m, t.whole)));
    HoldsImage(c, k, a, t.states[m], RedoLog.Recovered(c, ss[at].disk), a.first, w);
  }

  lemma ChunkTree(w: Codec, first: nat, i: nat, off: nat, src: seq<Octet>, fs: FS, g: FS, done: nat)
    requires ChunkState(w, first, i, off, src, fs, g, done)
    ensures Tree(w, fs, first) && Tree(w, g, first) && AllSolid(w, g) && |g.inodes| == |fs.inodes|
  {
  }

  /**
   Stop the machine anywhere in a filewrite, or in what comes after it, and recover.  The disk
   holds the file system that m transactions left: all that were begun, or all but the last.
   Whatever file system one reads from it, the file is its old contents with a whole number of
   chunks of src put at off, every other file is as it was, and the blocks in use are those at some
   place of some inode, each at one place.
   */
  lemma FilewriteAtomic(c: RedoLog.Config, k: Coding, a: Areas, w: Codec, ss: seq<RedoLog.State>, steps: seq<LogMachine.Step>,
                        i: nat, off: nat, src: seq<Octet>, t: Trace, at: nat) returns (n: nat, m: nat)
    requires Readable(k) && RunsWrite(c, k, a, ss, steps, t) && at < |ss|
    requires Chunked(w, a.first, a.bmapstart, a.inodestart, i, off, src, t.states, t.logs, t.whole)
    requires Areable(c, a, |t.states[0].inodes|)
    ensures (forall p: nat :: p in ss[at].hist.started <==> p < n) && n - 1 <= m <= n && m < |t.states|
    ensures RedoLog.DiskOk(c, ss[at].disk) && Holds(c, k, a, t.states[m], RedoLog.Recovered(c, ss[at].disk))
    ensures forall j :: 0 <= j < |t.states[0].inodes| ==> |t.states[0].inodes[j].addrs| == NDIRECT + 2
    ensures forall g: FS :: |g.inodes| == |t.states[0].inodes| && Holds(c, k, a, g, RedoLog.Recovered(c, ss[at].disk)) ==>
      LeftBy(w, a.first, i, off, src, t, m, g)
  {
    hide Chunked, ChunkState, Holds, Readable, LeftBy, Areable, RunsWrite;
    n, m := HoldsState(c, k, a, w, ss, steps, i, off, src, t, at);
    var d := RedoLog.Recovered(c, ss[at].disk);
    StatesAlike(w, a, i, off, src, t, m);
    LeftIs(c, k, a, w, i, off, src, t, m, t.states[m], d);
    forall g: FS | |g.inodes| == |t.states[0].inodes| && Holds(c, k, a, g, d) ensures LeftBy(w, a.first, i, off, src, t, m, g) {
      LeftIs(c, k, a, w, i, off, src, t, m, g, d);
    }
  }

  lemma StatesAlike(w: Codec, a: Areas, i: nat, off: nat, src: seq<Octet>, t: Trace, m: nat)
    requires Chunked(w, a.first, a.bmapstart, a.inodestart, i, off, src, t.states, t.logs, t.whole) && m < |t.states|
    ensures |t.states[m].inodes| == |t.states[0].inodes|
  {
    assert ChunkState(w, a.first, i, off, src, t.states[0], t.states[m], DoneBy(|src|, Min(m, t.whole)));
  }

  // ---------------------------------------------------------------- among other operations

  // A file system on the same disk with file i as far as q chunks of a write to what `was`.
  ghost predicate HasChunks(w: Codec, first: nat, i: nat, off: nat, src: seq<Octet>, was: FS, g: FS, q: nat)
    requires i < |was.inodes| && |was.inodes[i].addrs| == NDIRECT + 2
  {
    && Tree(w, g, first) && AllSolid(w, g) && |g.inodes| == |was.inodes| && |g.disk| == |was.disk|
    && Came(Contents(w, was, i), Contents(w, g, i), off, src, DoneBy(|src|, q))
  }

  // The disks that hold one.
  ghost function With(k: Coding, a: Areas, w: Codec, i: nat, off: nat, src: seq<Octet>, was: FS, q: nat): (r: iset<seq<seq<int>>>)
    requires i < |was.inodes| && |was.inodes[i].addrs| == NDIRECT + 2
  {
    iset g: FS | HasChunks(w, a.first, i, off, src, was, g, q) :: Image(k, a, g)
  }

  ghost function Withs(k: Coding, a: Areas, w: Codec, i: nat, off: nat, src: seq<Octet>, was: FS, n: nat): (r: seq<iset<seq<seq<int>>>>)
    requires i < |was.inodes| && |was.inodes[i].addrs| == NDIRECT + 2
    ensures |r| == n + 1 && forall q :: 0 <= q <= n ==> r[q] == With(k, a, w, i, off, src, was, q)
  {
    seq(n + 1, q requires 0 <= q <= n => With(k, a, w, i, off, src, was, q))
  }

  // What one reads from such a disk has that many chunks.
  lemma WithRead(c: RedoLog.Config, k: Coding, a: Areas, w: Codec, i: nat, off: nat, src: seq<Octet>, was: FS, q: nat, d: seq<seq<int>>, g: FS)
    requires i < |was.inodes| && |was.inodes[i].addrs| == NDIRECT + 2 && Readable(k) && Areable(c, a, |was.inodes|) && |was.disk| == c.nblocks
    requires LogShared.HomeIn(c, d, With(k, a, w, i, off, src, was, q)) && |g.inodes| == |was.inodes| && Holds(c, k, a, g, d)
    ensures |g.inodes[i].addrs| == NDIRECT + 2 && Came(Contents(w, was, i), Contents(w, g, i), off, src, DoneBy(|src|, q))
    ensures Accounted(w, g, a.first)
  {
    hide Came, Contents, Held, Found, Marked, AllSolid, Image, Readable, Accounted;
    var e :| e in With(k, a, w, i, off, src, was, q) && |e| == c.nblocks && RedoLog.SameHome(c, d, e);
    var h: FS :| HasChunks(w, a.first, i, off, src, was, h, q) && Image(k, a, h) == e;
    HoldsImage(c, k, a, h, d, a.first, w);
    SameData(c, k, a, g, h, d);
    SameContents(w, g, h, a.first, i);
    SameAccounts(w, g, h, a.first);
  }

  /**
   A filewrite among any other operations, whose transactions may be committed together with its
   own.  Whenever no operation is left, the file system that operations see has file i as far as the
   chunks begun, since each chunk is one operation and others keep off the file.  Then stopping the
   machine anywhere and recovering leaves the file with a whole number of chunks, and every block in
   use at one place.
   */
  lemma FilewriteShared(c: RedoLog.Config, k: Coding, a: Areas, w: Codec, ss: seq<RedoLog.State>, steps: seq<LogMachine.Step>,
                        ops: seq<RedoLog.Proc>, i: nat, off: nat, src: seq<Octet>, was: FS, at: nat) returns (n: nat, m: nat)
    requires Readable(k) && i < |was.inodes| && |was.inodes[i].addrs| == NDIRECT + 2 && Areable(c, a, |was.inodes|) && |was.disk| == c.nblocks
    requires LogShared.Shared(c, ss, steps, ops, Withs(k, a, w, i, off, src, was, |ops|)) && at < |ss| && LogTheorems.FitsTo(c, ss, at)
    ensures LogShared.Begun(ss[at], ops, n) && m <= n && RedoLog.DiskOk(c, ss[at].disk)
    ensures !LogSerial.Lost(ss, steps, at) && ss[at].active == map[] && !ss[at].phase.CopyLog? ==> m == n
    ensures forall g: FS :: |g.inodes| == |was.inodes| && Holds(c, k, a, g, RedoLog.Recovered(c, ss[at].disk)) ==>
      |g.inodes[i].addrs| == NDIRECT + 2 && Came(Contents(w, was, i), Contents(w, g, i), off, src, DoneBy(|src|, m)) && Accounted(w, g, a.first)
  {
    hide LogShared.Shared, Readable, Holds, With, Came, Contents, LogShared.HomeIn, LogSerial.Lost, Accounted;
    n, m := LogShared.SharedAtomicity(c, ss, steps, ops, Withs(k, a, w, i, off, src, was, |ops|), at);
    forall g: FS | |g.inodes| == |was.inodes| && Holds(c, k, a, g, RedoLog.Recovered(c, ss[at].disk))
      ensures |g.inodes[i].addrs| == NDIRECT + 2 && Came(Contents(w, was, i), Contents(w, g, i), off, src, DoneBy(|src|, m)) && Accounted(w, g, a.first)
    {
      WithRead(c, k, a, w, i, off, src, was, m, RedoLog.Recovered(c, ss[at].disk), g);
    }
  }

  // ---------------------------------------------------------------- the test of log_write

  // A filewrite that has the log to itself never meets the panics of log_write.
  lemma FilewriteNeverTrips(c: RedoLog.Config, k: Coding, a: Areas, ss: seq<RedoLog.State>, steps: seq<LogMachine.Step>, t: Trace,
                            at: nat, p: RedoLog.Proc)
    requires RunsWrite(c, k, a, ss, steps, t) && at < |ss| && p in ss[at].active
    requires forall j :: 0 <= j < |t.logs| ==> StepTo(t.states[j], t.states[j + 1], a.bmapstart, a.inodestart, t.logs[j])
    requires c.allow <= 14 + 3 + 1 + 1 && c.size >= LOGSIZE
    ensures LogMachine.Enabled(c, ss[at], LogMachine.Check(p))
  {
    hide RunsWrite, StepTo, LogSerial.Serial;
    RunsSerial(c, k, a, ss, steps, t);
    LogSerial.SerialNeverTrips(c, ss, steps, Images(k, a, t.states), at, p);
  }
}
