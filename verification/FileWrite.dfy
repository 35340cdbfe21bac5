/** filewrite: a write cut into transactions, and how many blocks one of them dirties. */
module FileWrite {
  import opened FileTree
  import opened FileContents
  import opened FileLogs
  import opened FileSteps
  import opened FileOps
  import opened FileCount
  import opened Sizes

  // The most one transaction writes: ((LOGSIZE-1-1-2) / 2) * 512 bytes.
  const CHUNK: nat := (LOGSIZE - 1 - 1 - 2) / 2 * 512

  // ---------------------------------------------------------------- how many blocks

  /**
   One transaction dirties at most 19 blocks: 14 data blocks, 3 index blocks, the bitmap and the
   inode.  From an empty log that is too few to trip the test in log_write, even with a log of
   LOGSIZE blocks; FileCrash has that on the log machine.
   */
  lemma TransactionBound(off: nat, n: nat, size: nat)
    requires 0 < n <= CHUNK && off <= size
    ensures Dirtied(off, n, size) <= 14 + 3 + 1 + 1 < LOGSIZE - 1
  {
    var lo, hi, m := off / BSIZE, Blocks(off + n), Blocks(size);
    assert hi - lo <= 14 && lo <= m;
    IndexBound(m, hi);
  }

  // Few new blocks lie under few index blocks.
  lemma IndexBound(m: nat, hi: nat)
    requires hi <= m + 14
    ensures Singles(m, hi) + Tables(m, hi) + Doubles(m, hi) <= 3
  {
    if m < hi && BEHIND < hi {
      var a, z := Max(m, BEHIND) - BEHIND, hi - 1 - BEHIND;
      assert a <= z < a + 14;
      assert z / NINDIRECT <= a / NINDIRECT + 1;
      if m < BEHIND {
        assert z / NINDIRECT == 0;
      }
    }
  }

  /**
   A full transaction always dirties more blocks than the MAXOPBLOCKS that begin_op sets aside.
   */
  lemma FullExceeds(off: nat, size: nat)
    requires off <= size
    ensures Dirtied(off, CHUNK, size) >= 13 > MAXOPBLOCKS
  {
    assert Blocks(off + CHUNK) - off / BSIZE >= 13;
  }

  // Over blocks that are there, a write fits what was set aside exactly when it spans at most ten.
  lemma OverwriteFits(off: nat, n: nat, size: nat)
    requires n > 0 && off + n <= size
    ensures Dirtied(off, n, size) <= MAXOPBLOCKS <==> Blocks(off + n) <= off / BSIZE + MAXOPBLOCKS
  {
    assert Blocks(off + n) <= Blocks(size);
  }

  // The first chunk of a new file does not fit; eight blocks of one do, and nine do not.
  lemma NewFile()
    ensures Dirtied(0, CHUNK, 0) == 16 && Dirtied(0, 8 * BSIZE, 0) == MAXOPBLOCKS && Dirtied(0, 9 * BSIZE, 0) > MAXOPBLOCKS
  {
  }

  // ---------------------------------------------------------------- the loop

  lemma SpliceTwice(s: seq<Octet>, off: nat, a: seq<Octet>, b: seq<Octet>)
    requires off <= |s|
    ensures off + |a| <= |Spliced(s, off, a)|
    ensures Spliced(Spliced(s, off, a), off + |a|, b) == Spliced(s, off, a + b)
  {
    var u, v := Spliced(Spliced(s, off, a), off + |a|, b), Spliced(s, off, a + b);
    assert |u| == |v|;
    forall k | 0 <= k < |u| ensures u[k] == v[k] {
    }
  }

  // From fs to g every block of data, of the bitmap and of inodes that changed was logged.
  ghost predicate StepTo(fs: FS, g: FS, bmapstart: nat, inodestart: nat, log: set<int>) {
    && ChangesLogged(fs, g, bmapstart, log) && |g.inodes| == |fs.inodes|
    && forall j :: 0 <= j < |g.inodes| && g.inodes[j] != fs.inodes[j] ==> inodestart + j / IPB in log
  }

  // One turn of the loop: begin_op, writei, end_op, running alone from an empty log.
  method Transaction(fs: FileSystem, i: nat, at: nat, piece: seq<Octet>) returns (r: int, panicked: bool)
    requires fs.Valid() && i < |fs.inodes| && at < WORD && 0 < |piece| <= CHUNK
    modifies fs
    ensures panicked ==> fs.Full()
    ensures !panicked ==> fs.Valid() && |fs.inodes| == old(|fs.inodes|) && |fs.used| == old(|fs.used|)
    ensures !panicked ==> r == if at <= old(fs.inodes[i].size) && at + |piece| <= MAXBYTES then |piece| else -1
    ensures !panicked ==> fs.File(i) == if r < 0 then old(fs.File(i)) else Spliced(old(fs.File(i)), at, piece)
    ensures !panicked ==> forall j :: 0 <= j < |fs.inodes| && j != i ==> fs.File(j) == old(fs.File(j))
    ensures !panicked && r < 0 ==> fs.logged == {}
    ensures !panicked ==> StepTo(old(fs.State()), fs.State(), fs.bmapstart, fs.inodestart, fs.logged)
    ensures !panicked && r > 0 && |fs.used| <= BPB ==> |fs.logged| == Dirtied(at, |piece|, old(fs.inodes[i].size))
  {
    hide Tree, Contents, Lawful, Dirtied, WriteLogs, ChangesLogged, AllSolid;
    fs.logged := {};
    ghost var before := fs.State();
    r, panicked := fs.Writei(i, at, piece);
    if !panicked && r > 0 && |fs.used| <= BPB {
      ghost var log :| WriteLogs(fs.w, before, fs.State(), i, at / BSIZE, Last(at, |piece|), fs.bmapstart, {}, log)
        && fs.logged == if at + |piece| > before.inodes[i].size then log + {fs.IBlock(i)} else log;
      WriteGrew(fs.w, before, fs.State(), fs.first, i, at, |piece|);
      FirstBitmap(fs);
      DirtyCount(fs.w, before, fs.State(), fs.first, i, at, |piece|, before.inodes[i].size, fs.bmapstart, fs.IBlock(i), log, fs.logged);
    }
  }

  // The sizes before and after a write say how far the file grew.
  lemma WriteGrew(w: Codec, fs: FS, h: FS, first: nat, i: nat, off: nat, n: nat)
    requires Tree(w, h, first) && AllSolid(w, fs) && AllSolid(w, h) && i < |fs.inodes| == |h.inodes|
    requires n > 0 && off <= fs.inodes[i].size && off + n <= MAXBYTES
    requires h.inodes[i].size == Max(fs.inodes[i].size, off + n)
    ensures Grew(w, fs, h, first, i, off / BSIZE, Blocks(off + n), Blocks(fs.inodes[i].size))
  {
    hide Tree, Solid;
  }

  lemma FirstBitmap(fs: FileSystem)
    requires fs.Valid()
    ensures fs.bmapstart < fs.first && |fs.disk| == |fs.used| && forall i :: 0 <= i < |fs.inodes| ==> fs.IBlock(i) < fs.bmapstart
  {
    assert fs.BBlock(0) == fs.bmapstart;
  }

  // How far a write of src at off has come: the first `done` bytes, and nothing if off is past the end.
  ghost predicate Came(s: seq<Octet>, file: seq<Octet>, off: nat, src: seq<Octet>, done: nat) {
    && done <= |src|
    && if off <= |s| then file == Spliced(s, off, src[..done]) && off + done <= |file| else file == s && done == 0
  }

  lemma CameNone(s: seq<Octet>, off: nat, src: seq<Octet>)
    ensures Came(s, s, off, src, 0)
  {
  }

  lemma CameFurther(s: seq<Octet>, file: seq<Octet>, off: nat, src: seq<Octet>, done: nat, at: nat, next: nat)
    requires Came(s, file, off, src, done) && done <= next <= |src| && at == off + done <= |file|
    ensures Came(s, Spliced(file, at, src[done..next]), off, src, next)
  {
    assert off <= |s|;
    SpliceTwice(s, off, src[..done], src[done..next]);
    assert src[..done] + src[done..next] == src[..next];
    SpliceTwice(s, off, src[..next], []);
  }

  lemma CameSize(s: seq<Octet>, file: seq<Octet>, off: nat, src: seq<Octet>, done: nat)
    requires Came(s, file, off, src, done)
    ensures off <= |s| ==> |file| == Max(|s|, off + done)
    ensures off > |s| ==> file == s
  {
  }

  // Where chunk k of a write of len bytes ends.
  function ChunkEnd(len: nat, k: nat): (r: nat) { if len - k * CHUNK > CHUNK then (k + 1) * CHUNK else len }

  // How much of it the first k chunks are.
  function DoneBy(len: nat, k: nat): (r: nat) { if k * CHUNK < len then k * CHUNK else len }

  lemma ChunksTo(len: nat, k: nat, done: nat)
    requires done == DoneBy(len, k) < len
    ensures done == k * CHUNK && ChunkEnd(len, k) == DoneBy(len, k + 1) == if len - done > CHUNK then done + CHUNK else len
  {
  }

  // The sizes of the transactions are those of the chunks, each on the file the one before left.
  ghost predicate SizesAre(sizes: seq<nat>, off: nat, len: nat, size: nat) {
    forall k :: 0 <= k < |sizes| ==> ChunkIs(sizes[k], off, len, size, k)
  }

  ghost predicate ChunkIs(n: nat, off: nat, len: nat, size: nat, k: nat) {
    k * CHUNK < len && n == Dirtied(off + k * CHUNK, ChunkEnd(len, k) - k * CHUNK, Max(size, off + k * CHUNK))
  }

  // Only file i is different.
  ghost predicate ButOne(a: seq<seq<Octet>>, b: seq<seq<Octet>>, i: nat) {
    |a| == |b| && forall j :: 0 <= j < |a| && j != i ==> a[j] == b[j]
  }

  lemma ButOneTrans(a: seq<seq<Octet>>, b: seq<seq<Octet>>, c: seq<seq<Octet>>, i: nat)
    requires ButOne(a, b, i) && ButOne(b, c, i)
    ensures ButOne(a, c, i)
  {
  }

  /**
   The file system before a write and after each of its transactions, and what each logged: every
   change is logged, only file i changes, and after k transactions, of which all but perhaps the
   last wrote a chunk, it has come as far as that many chunks.
   */
  ghost predicate Chunked(w: Codec, first: nat, bmapstart: nat, inodestart: nat, i: nat, off: nat, src: seq<Octet>,
                          states: seq<FS>, logs: seq<set<int>>, whole: nat) {
    && |states| == |logs| + 1 && whole <= |logs| <= whole + 1
    && (forall k :: 0 <= k < |logs| ==> StepTo(states[k], states[k + 1], bmapstart, inodestart, logs[k]))
    && forall k :: 0 <= k < |states| ==> ChunkState(w, first, i, off, src, states[0], states[k], DoneBy(|src|, Min(k, whole)))
  }

  function Min(a: nat, b: nat): (r: nat) { if a < b then a else b }

  ghost predicate ChunkState(w: Codec, first: nat, i: nat, off: nat, src: seq<Octet>, fs: FS, g: FS, done: nat) {
    && Tree(w, fs, first) && Tree(w, g, first) && AllSolid(w, g) && i < |fs.inodes| == |g.inodes| && |fs.disk| == |g.disk|
    && Came(Contents(w, fs, i), Contents(w, g, i), off, src, done)
    && forall j :: 0 <= j < |g.inodes| && j != i ==> Contents(w, g, j) == Contents(w, fs, j)
  }

  lemma ChunkedNone(w: Codec, first: nat, bmapstart: nat, inodestart: nat, i: nat, off: nat, src: seq<Octet>, fs: FS)
    requires Tree(w, fs, first) && AllSolid(w, fs) && i < |fs.inodes|
    ensures Chunked(w, first, bmapstart, inodestart, i, off, src, [fs], [], 0)
  {
    CameNone(Contents(w, fs, i), off, src);
  }

  lemma ChunkedMore(w: Codec, first: nat, bmapstart: nat, inodestart: nat, i: nat, off: nat, src: seq<Octet>,
                    states: seq<FS>, logs: seq<set<int>>, whole: nat, g: FS, log: set<int>, more: nat)
    requires Chunked(w, first, bmapstart, inodestart, i, off, src, states, logs, whole) && |logs| == whole <= more <= whole + 1
    requires StepTo(states[|logs|], g, bmapstart, inodestart, log)
    requires ChunkState(w, first, i, off, src, states[0], g, DoneBy(|src|, more))
    ensures Chunked(w, first, bmapstart, inodestart, i, off, src, states + [g], logs + [log], more)
  {
    hide StepTo, ChunkState, DoneBy;
    var ss, ls := states + [g], logs + [log];
    forall k | 0 <= k < |ls| ensures StepTo(ss[k], ss[k + 1], bmapstart, inodestart, ls[k]) {
      if k < |logs| {
        assert ss[k + 1] == states[k + 1] && ls[k] == logs[k];
      }
    }
    forall k | 0 <= k < |ss| ensures ChunkState(w, first, i, off, src, ss[0], ss[k], DoneBy(|src|, Min(k, more))) {
      if k < |states| {
        assert ChunkState(w, first, i, off, src, states[0], states[k], DoneBy(|src|, Min(k, whole)));
        assert Min(k, more) == Min(k, whole);
      } else {
        assert Min(k, more) == more;
      }
    }
  }

  // The same, said of the object.
  lemma ChunkStateIs(fs: FileSystem, i: nat, off: nat, src: seq<Octet>, was: FS, files: seq<seq<Octet>>, done: nat)
    requires fs.Valid() && Tree(fs.w, was, fs.first) && i < |was.inodes| == |fs.inodes| && |was.disk| == |fs.disk| && |files| == |was.inodes|
    requires forall j :: 0 <= j < |files| ==> files[j] == Contents(fs.w, was, j)
    requires Came(files[i], fs.File(i), off, src, done) && ButOne(files, fs.Files(), i)
    ensures ChunkState(fs.w, fs.first, i, off, src, was, fs.State(), done)
  {
    hide Came, Contents, Held, Found, Marked, Lawful;
    forall j | 0 <= j < |fs.inodes| && j != i ensures Contents(fs.w, fs.State(), j) == Contents(fs.w, was, j) {
      assert fs.Files()[j] == fs.File(j);
    }
  }

  // One turn of the loop, seen from the whole write.
  method Advance(fs: FileSystem, i: nat, off: nat, src: seq<Octet>, done: nat, ghost s: seq<Octet>)
    returns (next: nat, stopped: bool, panicked: bool)
    requires fs.Valid() && i < |fs.inodes| && off + done < WORD && done < |src|
    requires Came(s, fs.File(i), off, src, done)
    modifies fs
    ensures panicked ==> fs.Full()
    ensures !panicked ==> fs.Valid() && |fs.inodes| == old(|fs.inodes|) && |fs.used| == old(|fs.used|)
    ensures !panicked ==> Came(s, fs.File(i), off, src, if stopped then done else next)
    ensures !panicked && stopped ==> off > |s| || off + |src| > MAXBYTES
    ensures !panicked && !stopped ==> done < next <= |src| && off <= |s| && off + next <= MAXBYTES
    ensures !panicked ==> ButOne(old(fs.Files()), fs.Files(), i)
    ensures !panicked && !stopped ==> next == if |src| - done > CHUNK then done + CHUNK else |src|
    ensures !panicked ==> StepTo(old(fs.State()), fs.State(), fs.bmapstart, fs.inodestart, fs.logged)
    ensures !panicked && !stopped && |fs.used| <= BPB ==> |fs.logged| == Dirtied(off + done, next - done, Max(|s|, off + done))
  {
    hide Dirtied, Held, Found, Marked, Solid, Contents, Spliced, Lawful;
    var at := off + done;
    next := if |src| - done > CHUNK then done + CHUNK else |src|;
    ghost var file := fs.File(i);
    CameSize(s, file, off, src, done);
    var got;
    got, panicked := Transaction(fs, i, at, src[done..next]);
    stopped := got < 0;
    if !panicked && !stopped {
      CameFurther(s, file, off, src, done, at, next);
    }
  }

  lemma SizesOne(sizes: seq<nat>, off: nat, len: nat, size: nat, n: nat)
    requires SizesAre(sizes, off, len, size) && ChunkIs(n, off, len, size, |sizes|)
    ensures SizesAre(sizes + [n], off, len, size)
  {
    hide ChunkIs;
  }

  // One more chunk, from done to next.
  lemma MoreSizes(sizes: seq<nat>, off: nat, len: nat, size: nat, n: nat, done: nat, next: nat)
    requires done == DoneBy(len, |sizes|) < len && next == if len - done > CHUNK then done + CHUNK else len
    ensures next == DoneBy(len, |sizes| + 1)
    ensures SizesAre(sizes, off, len, size) && n == Dirtied(off + done, next - done, Max(size, off + done)) ==>
      SizesAre(sizes + [n], off, len, size)
  {
    hide Dirtied, SizesAre;
    ChunksTo(len, |sizes|, done);
    if SizesAre(sizes, off, len, size) && n == Dirtied(off + done, next - done, Max(size, off + done)) {
      assert ChunkIs(n, off, len, size, |sizes|);
      SizesOne(sizes, off, len, size, n);
    }
  }

  // What a write leaves behind it, for whoever asks what a crash would have left.
  datatype Trace = Trace(states: seq<FS>, logs: seq<set<int>>, whole: nat)

  ghost predicate Traced(fs: FileSystem, i: nat, off: nat, src: seq<Octet>, t: Trace) {
    |t.states| == |t.logs| + 1 && Chunked(fs.w, fs.first, fs.bmapstart, fs.inodestart, i, off, src, t.states, t.logs, t.whole)
  }

  // Where the loop is, when it has written `done` bytes to a file system whose files were `files`.
  ghost predicate Going(fs: FileSystem, i: nat, off: nat, src: seq<Octet>, was: FS, files: seq<seq<Octet>>, done: nat, sizes: seq<nat>)
    reads fs
  {
    && fs.Valid() && i < |fs.inodes| == |files| && |fs.used| == |was.disk| && done <= |src| && off + done < WORD
    && Came(files[i], fs.File(i), off, src, done) && ButOne(files, fs.Files(), i)
    && (done > 0 ==> off <= |files[i]| && off + done <= MAXBYTES)
    && (|fs.used| <= BPB ==> SizesAre(sizes, off, |src|, |files[i]|))
    && done == DoneBy(|src|, |sizes|)
  }

  // One turn of the loop; if it stops, nothing was written.
  method Turn(fs: FileSystem, i: nat, off: nat, src: seq<Octet>, done: nat, ghost was: FS, ghost files: seq<seq<Octet>>, ghost sizes: seq<nat>)
    returns (next: nat, stopped: bool, panicked: bool)
    requires Going(fs, i, off, src, was, files, done, sizes) && done < |src| && |src| < 0x8000_0000
    modifies fs
    ensures panicked ==> fs.Full()
    ensures !panicked && stopped ==> next == done && Going(fs, i, off, src, was, files, done, sizes) && (off > |files[i]| || off + |src| > MAXBYTES)
    ensures !panicked && !stopped ==> done < next <= |src| && Going(fs, i, off, src, was, files, next, sizes + [|fs.logged|])
    ensures !panicked ==> StepTo(old(fs.State()), fs.State(), fs.bmapstart, fs.inodestart, fs.logged)
  {
    hide Came, ButOne, SizesAre, DoneBy, Dirtied, StepTo, FileSystem.Valid, FileSystem.File, FileSystem.Files;
    ghost var before := fs.Files();
    next, stopped, panicked := Advance(fs, i, off, src, done, files[i]);
    if panicked { return; }
    ButOneTrans(files, before, fs.Files(), i);
    if stopped {
      next := done;
    } else {
      MoreSizes(sizes, off, |src|, |files[i]|, |fs.logged|, done, next);
    }
  }

  // What the files were.
  ghost predicate Were(w: Codec, first: nat, was: FS, files: seq<seq<Octet>>) {
    && Tree(w, was, first) && |files| == |was.inodes|
    && forall j :: 0 <= j < |files| ==> files[j] == Contents(w, was, j)
  }

  function Longer(t: Trace, g: FS, log: set<int>, stopped: bool): (r: Trace) {
    Trace(t.states + [g], t.logs + [log], if stopped then t.whole else t.whole + 1)
  }

  // The trace once one more transaction has been made; if it stopped, nothing was written.
  lemma TracedMore(fs: FileSystem, i: nat, off: nat, src: seq<Octet>, t: Trace, was: FS, files: seq<seq<Octet>>, done: nat, sizes: seq<nat>, stopped: bool)
    requires Traced(fs, i, off, src, t) && |t.logs| == t.whole && t.states[0] == was && Were(fs.w, fs.first, was, files)
    requires Going(fs, i, off, src, was, files, done, sizes) && |sizes| == if stopped then t.whole else t.whole + 1
    requires StepTo(t.states[|t.logs|], fs.State(), fs.bmapstart, fs.inodestart, fs.logged)
    ensures Traced(fs, i, off, src, Longer(t, fs.State(), fs.logged, stopped))
  {
    hide Came, Contents, Held, Found, Chunked, ButOne, SizesAre, DoneBy, StepTo, AllSolid, Lawful, ChunkState;
    ChunkStateIs(fs, i, off, src, was, files, done);
    ChunkedMore(fs.w, fs.first, fs.bmapstart, fs.inodestart, i, off, src, t.states, t.logs, t.whole, fs.State(), fs.logged, |sizes|);
  }

  // The loop: one transaction per CHUNK bytes, until one fails or all is written.
  method Chunks(fs: FileSystem, i: nat, off: nat, src: seq<Octet>)
    returns (done: nat, panicked: bool, ghost sizes: seq<nat>, ghost trace: Trace)
    requires fs.Valid() && i < |fs.inodes| && off < WORD && |src| < 0x8000_0000
    modifies fs
    ensures panicked ==> fs.Full()
    ensures !panicked ==> Going(fs, i, off, src, old(fs.State()), old(fs.Files()), done, sizes)
    ensures !panicked && done < |src| ==> off > old(|fs.Files()[i]|) || off + |src| > MAXBYTES
    ensures Traced(fs, i, off, src, trace) && trace.states[0] == old(fs.State())
    ensures !panicked ==> trace.states[|trace.logs|] == fs.State()
  {
    ghost var files, was := fs.Files(), fs.State();
    Start(fs, i, off, src);
    trace := Trace([was], [], 0);
    hide Chunked, Going, Were, StepTo, FileSystem.Valid;
    done, panicked, sizes := 0, false, [];
    while done < |src|
      invariant !panicked && done <= |src| && Going(fs, i, off, src, was, files, done, sizes)
      invariant Traced(fs, i, off, src, trace) && trace.states[0] == was
      invariant |trace.logs| == trace.whole == |sizes| && trace.states[|trace.logs|] == fs.State()
      decreases |src| - done
    {
      var stopped, next;
      next, stopped, panicked := Turn(fs, i, off, src, done, was, files, sizes);
      if panicked { return; }
      sizes := if stopped then sizes else sizes + [|fs.logged|];
      TracedMore(fs, i, off, src, trace, was, files, next, sizes, stopped);
      trace := Longer(trace, fs.State(), fs.logged, stopped);
      if stopped { return; }
      done := next;
    }
  }

  lemma Start(fs: FileSystem, i: nat, off: nat, src: seq<Octet>)
    requires fs.Valid() && i < |fs.inodes| && off < WORD
    ensures Going(fs, i, off, src, fs.State(), fs.Files(), 0, []) && Traced(fs, i, off, src, Trace([fs.State()], [], 0))
    ensures Were(fs.w, fs.first, fs.State(), fs.Files())
  {
    hide Held, Found, Contents, Lawful;
    CameNone(fs.File(i), off, src);
    ChunkedNone(fs.w, fs.first, fs.bmapstart, fs.inodestart, i, off, src, fs.State());
  }

  /**
   Write src at off, one transaction per CHUNK bytes.  It returns the number of bytes exactly
   when all of src was written, and then the file is its old contents with src put at off; if the
   file would grow too large it stops at a transaction boundary.  `sizes` records how many
   blocks each transaction dirtied, and `trace` what each left and logged.
   */
  method Filewrite(fs: FileSystem, i: nat, off: nat, src: seq<Octet>)
    returns (r: int, at: nat, panicked: bool, ghost sizes: seq<nat>, ghost trace: Trace)
    requires fs.Valid() && i < |fs.inodes| && off < WORD && |src| < 0x8000_0000
    modifies fs
    ensures panicked ==> fs.Full()
    ensures !panicked ==> fs.Valid() && |fs.inodes| == old(|fs.inodes|) && off <= at <= off + |src|
    ensures !panicked ==> Came(old(fs.File(i)), fs.File(i), off, src, at - off)
    ensures !panicked ==> r == if at == off + |src| then |src| else -1
    ensures !panicked && src != [] ==> (r == |src| <==> off <= old(fs.inodes[i].size) && off + |src| <= MAXBYTES)
    ensures !panicked ==> forall j :: 0 <= j < |fs.inodes| && j != i ==> fs.File(j) == old(fs.File(j))
    ensures !panicked && old(|fs.used|) <= BPB ==> SizesAre(sizes, off, |src|, old(fs.inodes[i].size))
    ensures Traced(fs, i, off, src, trace) && trace.states[0] == old(fs.State())
    ensures !panicked ==> trace.states[|trace.logs|] == fs.State()
  {
    assert |fs.File(i)| == fs.inodes[i].size;
    hide Held, Found, Marked, AllSolid, Contents, Came, Lawful, SizesAre, Traced;
    var done;
    done, panicked, sizes, trace := Chunks(fs, i, off, src);
    at := off + done;
    r := if done == |src| then |src| else -1;
  }
}
