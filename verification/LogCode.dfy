/**
 log.c as the code it is: loops over the in-memory header that copy blocks one at a time.
 `past` records every image the disk has held, so that a contract can speak of a crash
 between any two block writes of the method it belongs to.
 */
module LogCode {
  import opened Sizes
  import opened RedoLog

  datatype Cached = Cached(data: Block, dirty: bool)

  // x differs from d in log blocks only, not in the header.
  ghost predicate OnlySlots(c: Config, d: seq<Block>, x: seq<Block>) {
    && |x| == |d| && c.start < |d| && x[c.start] == d[c.start]
    && (forall b :: 0 <= b < |d| ==> |x[b]| == c.words)
    && forall b :: Home(c, b) && b < |d| ==> x[b] == d[b]
  }

  // With an empty header, whatever the log blocks hold does not matter to recovery.
  lemma SlotsDoNotMatter(c: Config, d: seq<Block>, x: seq<Block>)
    requires DiskOk(c, d) && HeaderOf(d[c.start]) == [] && OnlySlots(c, d, x)
    ensures Yields(c, x, d)
  {
  }

  // The header is on disk and the first k entries are installed.
  ghost predicate Installed(c: Config, d: seq<Block>, lh: seq<int>, base: seq<Block>, k: nat) {
    && DiskOk(c, d) && HeaderOf(d[c.start]) == lh && |base| == c.nblocks && k <= |lh|
    && Represents(c, d, lh, base)
    && forall j :: 0 <= j < k ==> d[lh[j]] == base[lh[j]]
  }

  lemma InstallStep(c: Config, d: seq<Block>, lh: seq<int>, base: seq<Block>, k: nat)
    requires Installed(c, d, lh, base, k) && k < |lh|
    ensures 0 <= lh[k] < |d|
    ensures Installed(c, d[lh[k] := d[c.start + 1 + k]], lh, base, k + 1)
  {
    assert Home(c, lh[k]);
  }

  // Recovery is idempotent: interrupted after any number of installs, it can start over.
  lemma InstalledYields(c: Config, d: seq<Block>, lh: seq<int>, base: seq<Block>, k: nat)
    requires Installed(c, d, lh, base, k)
    ensures Yields(c, d, base)
    ensures k == |lh| ==> SameHome(c, d, base)
  {
    RecoveredIff(c, d, base);
  }

  // Once every entry is installed, erasing the header changes no home block.
  lemma EraseRecovers(c: Config, d: seq<Block>, f: Block, base: seq<Block>)
    requires DiskOk(c, d) && |f| == c.words && |base| == c.nblocks && SameHome(c, d, base)
    ensures var x := d[c.start := WithHeader(f, [])];
            Yields(c, x, base) && HeaderOf(x[c.start]) == [] && SameHome(c, x, base)
  {
    HeaderRoundTrip(f, []);
    assert WithHeader(f, [])[0] == 0;
    hide WithHeader, HeaderOf;
  }

  // Every log block holds the contents meant for its home.
  ghost predicate Copied(c: Config, d: seq<Block>, lh: seq<int>, want: seq<Block>) {
    CopiedTo(c, d, lh, want, |lh|)
  }

  ghost predicate CopiedTo(c: Config, d: seq<Block>, lh: seq<int>, want: seq<Block>, tail: nat) {
    && HeaderOk(c, lh) && |d| == c.nblocks && |want| == c.nblocks && Layout(c) && tail <= |lh|
    && forall k :: 0 <= k < tail ==> d[c.start + 1 + k] == want[lh[k]]
  }

  lemma CopiedMore(c: Config, d: seq<Block>, lh: seq<int>, want: seq<Block>, tail: nat)
    requires CopiedTo(c, d, lh, want, tail) && tail < |lh|
    ensures CopiedTo(c, d[c.start + 1 + tail := want[lh[tail]]], lh, want, tail + 1)
  {
  }

  // A disk with a new header is well formed, and the header reads back.
  lemma HeaderDisk(c: Config, d: seq<Block>, lh: seq<int>, f: Block)
    requires DiskOk(c, d) && |f| == c.words && HeaderOk(c, lh)
    ensures var x := d[c.start := WithHeader(f, lh)]; DiskOk(c, x) && HeaderOf(x[c.start]) == lh
  {
    HeaderRoundTrip(f, lh);
    assert WithHeader(f, lh)[0] == |lh|;
    hide WithHeader, HeaderOf, HeaderOk;
  }

  // Writing the header turns copied blocks into the recovered contents, all at once.
  lemma HeaderCommits(c: Config, d: seq<Block>, lh: seq<int>, want: seq<Block>, f: Block)
    requires DiskOk(c, d) && |f| == c.words && Copied(c, d, lh, want)
    requires forall b :: Home(c, b) && b !in lh ==> want[b] == d[b]
    ensures var x := d[c.start := WithHeader(f, lh)];
            DiskOk(c, x) && HeaderOf(x[c.start]) == lh && SameHome(c, Recovered(c, x), want)
  {
    HeaderDisk(c, d, lh, f);
    hide WithHeader, HeaderOf, Recovered, SameHome, HeaderOk, DiskOk;
    var x := d[c.start := WithHeader(f, lh)];
    assert Represents(c, x, lh, want);
    RecoveredIff(c, x, want);
  }

  // Stopping here and recovering gives these home contents.
  ghost predicate Yields(c: Config, x: seq<Block>, want: seq<Block>) {
    DiskOk(c, x) && |want| == c.nblocks && SameHome(c, Recovered(c, x), want)
  }

  ghost predicate AllYield(c: Config, images: seq<seq<Block>>, want: seq<Block>) {
    forall i :: 0 <= i < |images| ==> Yields(c, images[i], want)
  }

  lemma AfterCommit(c: Config, front: seq<seq<Block>>, x: seq<Block>, rest: seq<seq<Block>>, want: seq<Block>)
    requires Yields(c, x, want) && AllYield(c, rest, want)
    ensures front + [x] + rest == front + ([x] + rest)
    ensures AllYield(c, [x] + rest, want)
  {
  }

  lemma HeaderMore(c: Config, lh: seq<int>, b: int)
    requires HeaderOk(c, lh) && Home(c, b) && b !in lh && |lh| < LOGSIZE && |lh| < c.size - 1
    ensures HeaderOk(c, lh + [b])
  {
  }

  class Log {
    const c: Config
    var disk: seq<Block>
    var cache: map<int, Cached>
    var lh: seq<int>
    var outstanding: nat
    var committing: bool
    ghost var past: seq<seq<Block>>

    ghost predicate Sound()
      reads this`disk, this`cache, this`past
    {
      && Layout(c) && |disk| == c.nblocks && (forall b :: 0 <= b < |disk| ==> |disk[b]| == c.words)
      && |past| > 0 && past[|past| - 1] == disk
      && forall b :: b in cache ==>
           && 0 <= b < c.nblocks && |cache[b].data| == c.words
           && (!cache[b].dirty ==> cache[b].data == disk[b])
    }

    // What a reader of block b is given.
    ghost function View(b: int): (data: Block)
      requires 0 <= b < |disk|
      reads this`disk, this`cache
    {
      if b in cache then cache[b].data else disk[b]
    }

    // The log is empty on disk; the dirty buffers are exactly the logged blocks.
    ghost predicate Ready()
      reads this`disk, this`cache, this`past, this`lh
    {
      && Sound() && DiskOk(c, disk) && HeaderOf(disk[c.start]) == [] && HeaderOk(c, lh)
      && (forall i :: 0 <= i < |lh| ==> lh[i] in cache && cache[lh[i]].dirty)
      && forall b :: b in cache && cache[b].dirty ==> b in lh
    }

    method Bread(b: int) returns (data: Block)
      requires Sound() && 0 <= b < c.nblocks
      modifies this`cache
      ensures Sound() && data == old(View(b))
      ensures cache == if b in old(cache) then old(cache) else old(cache)[b := Cached(disk[b], false)]
    {
      if b !in cache {
        cache := cache[b := Cached(disk[b], false)];
      }
      data := cache[b].data;
    }

    // bwrite: mark dirty, and let the driver write the block and mark it clean.
    method Bwrite(b: int, data: Block)
      requires Sound() && b in cache && |data| == c.words
      modifies this`disk, this`cache, this`past
      ensures Sound()
      ensures disk == old(disk)[b := data] && cache == old(cache)[b := Cached(data, false)]
      ensures past == old(past) + [disk]
    {
      disk := disk[b := data];
      cache := cache[b := Cached(data, false)];
      past := past + [disk];
    }

    method WriteHead()
      requires Sound() && HeaderOk(c, lh)
      modifies this`disk, this`cache, this`past
      ensures Sound()
      ensures disk == old(disk)[c.start := WithHeader(old(View(c.start)), lh)]
      ensures past == old(past) + [disk]
      ensures cache == old(cache)[c.start := Cached(disk[c.start], false)]
    {
      var hb := Bread(c.start);
      ghost var f := hb;
      hb := hb[0 := |lh|];
      var i := 0;
      while i < |lh|
        invariant 0 <= i <= |lh| && |hb| == |f| && hb[0] == |lh|
        invariant forall j :: 0 <= j < i ==> hb[1 + j] == lh[j]
        invariant forall j :: 1 + i <= j < |f| ==> hb[j] == f[j]
      {
        hb := hb[1 + i := lh[i]];
        i := i + 1;
      }
      assert hb == WithHeader(f, lh);
      Bwrite(c.start, hb);
    }

    method ReadHead()
      requires Sound() && DiskOk(c, disk) && cache == map[]
      modifies this`cache, this`lh
      ensures Sound() && lh == HeaderOf(disk[c.start])
      ensures forall b :: b in cache ==> !cache[b].dirty
    {
      var hb := Bread(c.start);
      var list := [];
      while |list| < hb[0]
        invariant |list| <= hb[0]
        invariant forall j :: 0 <= j < |list| ==> list[j] == hb[1 + j]
      {
        list := list + [hb[1 + |list|]];
      }
      lh := list;
    }

    // The home blocks, as operations see them.
    ghost predicate Shows(want: seq<Block>)
      requires |disk| == c.nblocks
      reads this`disk, this`cache, this`past, this`lh
    {
      |want| == c.nblocks && forall b :: Home(c, b) ==> View(b) == want[b]
    }

    method CopyOne(tail: nat)
      requires Ready() && tail < |lh|
      modifies this`disk, this`cache, this`past
      ensures Ready()
      ensures disk == old(disk)[c.start + 1 + tail := old(View(lh[tail]))]
      ensures past == old(past) + [disk]
      ensures forall b :: Home(c, b) ==> View(b) == old(View(b))
    {
      assert Home(c, lh[tail]);
      var to := Bread(c.start + 1 + tail);
      var from := Bread(lh[tail]);
      Bwrite(c.start + 1 + tail, from);
      assert disk[c.start] == old(disk[c.start]);
    }

    // Copy the modified blocks from the cache to the log.
    method WriteLog(ghost want: seq<Block>) returns (ghost images: seq<seq<Block>>)
      requires Ready() && Shows(want)
      modifies this`disk, this`cache, this`past
      ensures Ready() && Shows(want) && Copied(c, disk, lh, want) && OnlySlots(c, old(disk), disk)
      ensures past == old(past) + images && AllYield(c, images, old(disk))
    {
      hide Yields, HeaderOf;
      images := [];
      var tail := 0;
      while tail < |lh|
        invariant 0 <= tail <= |lh| && Ready() && Shows(want) && OnlySlots(c, old(disk), disk)
        invariant CopiedTo(c, disk, lh, want, tail)
        invariant past == old(past) + images && AllYield(c, images, old(disk))
      {
        assert Home(c, lh[tail]);
        CopiedMore(c, disk, lh, want, tail);
        CopyOne(tail);
        tail := tail + 1;
        SlotsDoNotMatter(c, old(disk), disk);
        images := images + [disk];
      }
    }

    // Only logged blocks from entry `tail` on are dirty.
    ghost predicate DirtyFrom(tail: nat)
      reads this`disk, this`cache, this`past, this`lh
    {
      forall b :: b in cache && cache[b].dirty ==> exists i :: tail <= i < |lh| && lh[i] == b
    }

    method InstallOne(tail: nat)
      requires Sound() && HeaderOk(c, lh) && tail < |lh| && DirtyFrom(tail)
      modifies this`disk, this`cache, this`past
      ensures Sound() && DirtyFrom(tail + 1)
      ensures disk == old(disk)[lh[tail] := old(disk)[c.start + 1 + tail]]
      ensures past == old(past) + [disk]
    {
      assert forall i :: 0 <= i < |lh| ==> Home(c, lh[i]);
      var lbuf := Bread(c.start + 1 + tail);
      var dbuf := Bread(lh[tail]);
      Bwrite(lh[tail], lbuf);
      forall b | b in cache && cache[b].dirty ensures exists i :: tail + 1 <= i < |lh| && lh[i] == b {
        assert b in old(cache) && old(cache)[b].dirty;
        var i :| tail <= i < |lh| && lh[i] == b;
        assert i != tail;
      }
    }

    // Copy committed blocks from the log to their home location.
    method InstallTrans(ghost base: seq<Block>) returns (ghost images: seq<seq<Block>>)
      requires Sound() && Yields(c, disk, base) && HeaderOf(disk[c.start]) == lh && DirtyFrom(0)
      modifies this`disk, this`cache, this`past
      ensures Sound() && DiskOk(c, disk) && SameHome(c, disk, base) && DirtyFrom(|lh|)
      ensures past == old(past) + images && AllYield(c, images, base)
    {
      RecoveredIff(c, disk, base);
      images := [];
      var tail := 0;
      while tail < |lh|
        invariant 0 <= tail <= |lh| && Sound() && DirtyFrom(tail) && Installed(c, disk, lh, base, tail)
        invariant past == old(past) + images && AllYield(c, images, base)
      {
        InstallStep(c, disk, lh, base, tail);
        InstallOne(tail);
        tail := tail + 1;
        InstalledYields(c, disk, lh, base, tail);
        images := images + [disk];
      }
      InstalledYields(c, disk, lh, base, tail);
    }

    // Install what the header on disk names, then erase the header: the end of both
    // commit and recovery.
    method Finish(ghost base: seq<Block>) returns (ghost images: seq<seq<Block>>)
      requires Sound() && Yields(c, disk, base) && HeaderOf(disk[c.start]) == lh && DirtyFrom(0)
      modifies this`disk, this`cache, this`past, this`lh
      ensures Ready() && lh == [] && SameHome(c, disk, base)
      ensures past == old(past) + images && AllYield(c, images, base)
    {
      images := InstallTrans(base);
      lh := [];
      EraseRecovers(c, disk, View(c.start), base);
      WriteHead();
      images := images + [disk];
    }

    // Copy to the log and write the header.
    method WriteTransaction(ghost want: seq<Block>) returns (ghost images: seq<seq<Block>>)
      requires Ready() && Shows(want)
      modifies this`disk, this`cache, this`past
      ensures Sound() && Yields(c, disk, want) && HeaderOf(disk[c.start]) == lh && DirtyFrom(0)
      ensures past == old(past) + images + [disk] && AllYield(c, images, old(disk))
    {
      images := WriteLog(want);
      ghost var copied, f := disk, View(c.start);
      WriteHead();
      HeaderCommits(c, copied, lh, want, f);
    }

    /**
     Commit the logged blocks.  Wherever it is stopped, recovery finds either the contents
     committed before or all the contents operations saw when it began, and once it has
     found the new ones it never goes back.
     */
    method Commit(ghost want: seq<Block>) returns (ghost before: seq<seq<Block>>, ghost after: seq<seq<Block>>)
      requires Ready() && Shows(want)
      modifies this`disk, this`cache, this`past, this`lh
      ensures Ready() && lh == [] && SameHome(c, disk, want)
      ensures past == old(past) + before + after
      ensures AllYield(c, before, old(disk)) && AllYield(c, after, want)
    {
      if |lh| == 0 {
        return [], [];
      }
      before := WriteTransaction(want);
      ghost var committed := disk;
      ghost var rest := Finish(want);
      after := [committed] + rest;
      AfterCommit(c, old(past) + before, committed, rest, want);
    }

    /**
     Recovery at boot.  Wherever it is stopped, starting over finds the same contents,
     and it ends with them on disk and the log empty.
     */
    method RecoverFromLog() returns (ghost images: seq<seq<Block>>)
      requires Sound() && DiskOk(c, disk) && cache == map[]
      modifies this`disk, this`cache, this`past, this`lh
      ensures Ready() && lh == [] && SameHome(c, disk, Recovered(c, old(disk)))
      ensures past == old(past) + images && AllYield(c, images, Recovered(c, old(disk)))
    {
      ghost var base := Recovered(c, disk);
      ReadHead();
      images := Finish(base);
    }

    // One turn of the waiting loop: either the operation is let in, or it must sleep.
    method BeginOp() returns (admitted: bool)
      modifies this`outstanding
      ensures admitted <==> !committing && |lh| + (old(outstanding) + 1) * MAXOPBLOCKS <= LOGSIZE
      ensures outstanding == old(outstanding) + (if admitted then 1 else 0)
    {
      if committing {
        admitted := false;
      } else if |lh| + (outstanding + 1) * MAXOPBLOCKS > LOGSIZE {
        admitted := false;
      } else {
        outstanding := outstanding + 1;
        admitted := true;
      }
    }

    /**
     The last operation to leave commits; then the disk holds what all operations saw, and no
     stop on the way could have left part of it.
     */
    method EndOp(ghost want: seq<Block>) returns (ghost before: seq<seq<Block>>, ghost after: seq<seq<Block>>)
      requires Ready() && Shows(want) && outstanding > 0 && !committing
      modifies this
      ensures Ready() && !committing && outstanding == old(outstanding) - 1
      ensures outstanding == 0 ==> lh == [] && SameHome(c, disk, want)
      ensures outstanding > 0 ==> lh == old(lh) && disk == old(disk) && cache == old(cache)
      ensures past == old(past) + before + after
      ensures AllYield(c, before, old(disk)) && AllYield(c, after, want)
    {
      outstanding := outstanding - 1;
      if outstanding == 0 {
        committing := true;
        before, after := Commit(want);
        committing := false;
      } else {
        before, after := [], [];
      }
    }

    /**
     The caller has put `data` in the buffer of block b.  The block is logged once however often
     it is written, the buffer is pinned, and nothing reaches the disk.
     */
    method LogWrite(b: int, data: Block) returns (panicked: bool)
      requires Ready() && Home(c, b) && |data| == c.words
      modifies this`cache, this`lh
      ensures panicked <==> old(|lh|) >= LOGSIZE || old(|lh|) >= c.size - 1 || outstanding < 1
      ensures panicked ==> lh == old(lh) && cache == old(cache)
      ensures !panicked ==> Ready() && View(b) == data && cache.Keys == old(cache.Keys) + {b}
      ensures !panicked ==> lh == if b in old(lh) then old(lh) else old(lh) + [b]
      ensures forall x :: Home(c, x) && x != b ==> View(x) == old(View(x))
    {
      hide DiskOk, HeaderOf, HeaderOk;
      if |lh| >= LOGSIZE || |lh| >= c.size - 1 || outstanding < 1 {
        return true;
      }
      cache := cache[b := Cached(data, false)];
      var i := 0;
      while i < |lh| && lh[i] != b
        invariant 0 <= i <= |lh|
        invariant forall j :: 0 <= j < i ==> lh[j] != b
      {
        i := i + 1;
      }
      if i == |lh| {
        HeaderMore(c, lh, b);
        lh := lh + [b];
        assert forall j :: 0 <= j < |lh| - 1 ==> lh[j] == old(lh)[j];
      }
      cache := cache[b := Cached(data, true)];
      return false;
    }

    // initlog: nothing cached, nothing outstanding, and whatever the disk holds.
    constructor (c: Config, d: seq<Block>)
      requires DiskOk(c, d)
      ensures Sound() && DiskOk(c, disk) && this.c == c && disk == d && past == [d]
      ensures cache == map[] && lh == [] && outstanding == 0 && !committing
    {
      this.c := c;
      disk := d;
      cache := map[];
      lh := [];
      outstanding := 0;
      committing := false;
      past := [d];
    }
  }
}
