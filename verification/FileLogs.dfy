/** Which blocks growing a tree changes, and that they are the ones logged. */
module FileLogs {
  import opened FileTree
  import opened FileContents

  const BPB: nat := BSIZE * 8    // bitmap bits per block
  const IPB: nat := 8            // inodes per block

  // x is the bitmap block of one of n blocks.
  ghost predicate IsBitmap(bmapstart: nat, n: nat, x: int) {
    exists c :: 0 <= c < n && x == bmapstart + c / BPB
  }

  // Place p of inode i is empty in fs and filled in g.
  ghost predicate New(w: Codec, fs: FS, g: FS, i: nat, p: Path) {
    Place(fs, i, p) && Place(g, i, p) && A(w, fs, i, p) == 0 && A(w, g, i, p) != 0
  }

  // Filling place p changes its block, the index block above it, and the bitmap.
  ghost predicate ForOne(w: Codec, g: FS, i: nat, bmapstart: nat, p: Path, x: int)
    requires Place(g, i, p)
  {
    x == A(w, g, i, p) || x == bmapstart + A(w, g, i, p) / BPB || (!Root(p) && x == A(w, g, i, Parent(p)))
  }

  ghost predicate ForNew(w: Codec, fs: FS, g: FS, i: nat, bmapstart: nat, x: int) {
    exists p :: New(w, fs, g, i, p) && ForOne(w, g, i, bmapstart, p, x)
  }

  // Whatever differs between fs and g is in a block that was logged.
  ghost predicate ChangesLogged(fs: FS, g: FS, bmapstart: nat, log: set<int>) {
    && |g.disk| == |fs.disk| && |g.used| == |fs.used|
    && (forall b :: 0 <= b < |g.disk| && g.disk[b] != fs.disk[b] ==> b in log)
    && (forall b :: 0 <= b < |g.used| && g.used[b] != fs.used[b] ==> bmapstart + b / BPB in log)
  }

  /**
   From fs to g exactly the blocks that filling its new places changes were logged, and every
   change is in one of them.
   */
  ghost predicate Logs(w: Codec, fs: FS, g: FS, i: nat, bmapstart: nat, before: set<int>, after: set<int>) {
    && (forall x :: x in after <==> x in before || ForNew(w, fs, g, i, bmapstart, x))
    && ChangesLogged(fs, g, bmapstart, after)
  }

  // Blocks in the tree of inode i stay at their places.
  ghost predicate Stays(w: Codec, fs: FS, g: FS, i: nat) {
    |g.disk| == |fs.disk| &&
    forall q :: Place(fs, i, q) ==> Place(g, i, q) && (A(w, fs, i, q) != 0 ==> A(w, g, i, q) == A(w, fs, i, q))
  }

  lemma ExtendsStays(w: Codec, fs: FS, g: FS, i: nat, chain: set<Path>)
    requires Extends(w, fs, g, i, chain)
    ensures Stays(w, fs, g, i)
  {
  }

  // Above a filled place there is an index block.
  lemma ParentThere(w: Codec, fs: FS, i: nat, p: Path)
    requires Place(fs, i, p) && !Root(p) && A(w, fs, i, p) != 0
    ensures A(w, fs, i, Parent(p)) != 0
  {
  }

  // The new places of two steps are those of the first, unchanged by the second, and its own.
  lemma NewTwice(w: Codec, fs: FS, g: FS, h: FS, i: nat, bmapstart: nat, x: int)
    requires Stays(w, fs, g, i) && Stays(w, g, h, i) && (forall q :: Place(g, i, q) ==> Place(fs, i, q))
    ensures ForNew(w, fs, h, i, bmapstart, x) <==> ForNew(w, fs, g, i, bmapstart, x) || ForNew(w, g, h, i, bmapstart, x)
  {
    if p :| New(w, fs, g, i, p) && ForOne(w, g, i, bmapstart, p, x) {
      SameForOne(w, g, h, i, bmapstart, p, x);
      assert New(w, fs, h, i, p);
    }
    if p :| New(w, g, h, i, p) && ForOne(w, h, i, bmapstart, p, x) {
      assert New(w, fs, h, i, p);
    }
    if p :| New(w, fs, h, i, p) && ForOne(w, h, i, bmapstart, p, x) {
      if A(w, g, i, p) != 0 {
        SameForOne(w, g, h, i, bmapstart, p, x);
        assert New(w, fs, g, i, p);
      } else {
        assert New(w, g, h, i, p);
      }
    }
  }

  lemma SameForOne(w: Codec, g: FS, h: FS, i: nat, bmapstart: nat, p: Path, x: int)
    requires Stays(w, g, h, i) && Place(g, i, p) && A(w, g, i, p) != 0
    ensures Place(h, i, p) && (ForOne(w, h, i, bmapstart, p, x) <==> ForOne(w, g, i, bmapstart, p, x))
  {
    if !Root(p) {
      ParentThere(w, g, i, p);
      assert Place(g, i, Parent(p));
    }
  }

  lemma LogsTrans(w: Codec, fs: FS, g: FS, h: FS, i: nat, bmapstart: nat, l: set<int>, m: set<int>, n: set<int>)
    requires Stays(w, fs, g, i) && Stays(w, g, h, i) && (forall q :: Place(g, i, q) ==> Place(fs, i, q))
    requires Logs(w, fs, g, i, bmapstart, l, m) && Logs(w, g, h, i, bmapstart, m, n)
    ensures Logs(w, fs, h, i, bmapstart, l, n)
  {
    forall x ensures x in n <==> x in l || ForNew(w, fs, h, i, bmapstart, x) {
      NewTwice(w, fs, g, h, i, bmapstart, x);
    }
  }

  // Hanging block b at place p.
  lemma GrowLogs(w: Codec, fs: FS, first: nat, i: nat, p: Path, b: int, bmapstart: nat, before: set<int>, after: set<int>)
    requires CanGrow(w, fs, first, i, p, b)
    requires 0 <= b < |fs.disk| == |fs.used|
    requires !Root(p) ==> 0 <= A(w, fs, i, Parent(p)) < |fs.disk|
    requires after == before + {bmapstart + b / BPB, b} + (if Root(p) then {} else {A(w, fs, i, Parent(p))})
    ensures var g := Grow(w, fs, i, p, b); Place(g, i, p) && A(w, g, i, p) == b && Logs(w, fs, g, i, bmapstart, before, after)
  {
    GrowOk(w, fs, first, i, p, b);
    var g := Grow(w, fs, i, p, b);
    forall q | Place(fs, i, q) ensures Place(g, i, q) && A(w, g, i, q) == if q == p then b else A(w, fs, i, q) {
      GrowAt(w, fs, first, i, p, b, i, q);
    }
    forall x ensures x in after <==> x in before || ForNew(w, fs, g, i, bmapstart, x) {
      OnlyNew(w, fs, g, i, p, bmapstart, x);
    }
  }

  // With one new place.
  lemma OnlyNew(w: Codec, fs: FS, g: FS, i: nat, p: Path, bmapstart: nat, x: int)
    requires New(w, fs, g, i, p) && forall q :: Place(fs, i, q) && q != p ==> Place(g, i, q) && A(w, g, i, q) == A(w, fs, i, q)
    ensures ForNew(w, fs, g, i, bmapstart, x) <==> ForOne(w, g, i, bmapstart, p, x)
  {
  }

  // ---------------------------------------------------------------- writing data as well

  // x is one of the data blocks lo .. hi of file i.
  ghost predicate Spans(w: Codec, g: FS, i: nat, lo: nat, hi: nat, x: int) {
    exists bn :: lo <= bn < hi && bn < MAXFILE && Place(g, i, PathOf(bn)) && A(w, g, i, PathOf(bn)) == x
  }

  // The same for a write of logical blocks lo .. hi, whose data blocks are logged too.
  ghost predicate WriteLogs(w: Codec, fs: FS, g: FS, i: nat, lo: nat, hi: nat, bmapstart: nat, before: set<int>, after: set<int>) {
    && (forall x :: x in after <==> x in before || ForNew(w, fs, g, i, bmapstart, x) || Spans(w, g, i, lo, hi, x))
    && ChangesLogged(fs, g, bmapstart, after)
  }

  // h has the blocks of g at the places of inode i.
  ghost predicate SamePlaces(w: Codec, g: FS, h: FS, i: nat) {
    && |h.disk| == |g.disk|
    && forall q :: (Place(g, i, q) <==> Place(h, i, q)) && (Place(g, i, q) ==> A(w, h, i, q) == A(w, g, i, q))
  }

  lemma SameNew(w: Codec, fs: FS, g: FS, h: FS, i: nat, bmapstart: nat, x: int)
    requires SamePlaces(w, g, h, i)
    ensures ForNew(w, fs, g, i, bmapstart, x) <==> ForNew(w, fs, h, i, bmapstart, x)
  {
    if p :| New(w, fs, g, i, p) && ForOne(w, g, i, bmapstart, p, x) {
      assert New(w, fs, h, i, p) && (!Root(p) ==> Place(g, i, Parent(p)));
    }
    if p :| New(w, fs, h, i, p) && ForOne(w, h, i, bmapstart, p, x) {
      assert New(w, fs, g, i, p) && (!Root(p) ==> Place(g, i, Parent(p)));
    }
  }

  lemma SameSpans(w: Codec, g: FS, h: FS, i: nat, lo: nat, hi: nat, x: int)
    requires SamePlaces(w, g, h, i)
    ensures Spans(w, g, i, lo, hi, x) <==> Spans(w, h, i, lo, hi, x)
  {
  }

  // Mapping block bn, then changing and logging its data.
  lemma PieceLogs(w: Codec, fs: FS, g: FS, h: FS, i: nat, bn: nat, bmapstart: nat, before: set<int>, mid: set<int>, after: set<int>)
    requires bn < MAXFILE && Place(g, i, PathOf(bn)) && SamePlaces(w, g, h, i)
    requires Logs(w, fs, g, i, bmapstart, before, mid) && after == mid + {A(w, g, i, PathOf(bn))}
    requires h.used == g.used && forall b :: 0 <= b < |g.disk| && b != A(w, g, i, PathOf(bn)) ==> h.disk[b] == g.disk[b]
    ensures WriteLogs(w, fs, h, i, bn, bn + 1, bmapstart, before, after)
  {
    forall x ensures x in after <==> x in before || ForNew(w, fs, h, i, bmapstart, x) || Spans(w, h, i, bn, bn + 1, x) {
      SameNew(w, fs, g, h, i, bmapstart, x);
      SameSpans(w, g, h, i, bn, bn + 1, x);
    }
  }

  // Data blocks that are there stay.
  lemma SpansStay(w: Codec, g: FS, h: FS, i: nat, lo: nat, hi: nat, x: int)
    requires Stays(w, g, h, i) && (forall q :: Place(h, i, q) ==> Place(g, i, q))
    requires forall bn :: lo <= bn < hi && bn < MAXFILE && Place(g, i, PathOf(bn)) ==> A(w, g, i, PathOf(bn)) != 0
    ensures Spans(w, g, i, lo, hi, x) <==> Spans(w, h, i, lo, hi, x)
  {
    if bn :| lo <= bn < hi && bn < MAXFILE && Place(h, i, PathOf(bn)) && A(w, h, i, PathOf(bn)) == x {
      assert Place(g, i, PathOf(bn));
    }
  }

  lemma SpansMore(w: Codec, h: FS, i: nat, lo: nat, hi: nat, x: int)
    requires lo <= hi
    ensures Spans(w, h, i, lo, hi + 1, x) <==> Spans(w, h, i, lo, hi, x) || Spans(w, h, i, hi, hi + 1, x)
  {
  }

  // Blocks lo .. hi, and then block hi.
  lemma WriteLogsMore(w: Codec, fs: FS, g: FS, h: FS, i: nat, lo: nat, hi: nat, bmapstart: nat, l: set<int>, m: set<int>, n: set<int>)
    requires lo <= hi && Stays(w, fs, g, i) && Stays(w, g, h, i)
    requires forall q :: Place(h, i, q) ==> Place(g, i, q) && Place(fs, i, q)
    requires forall bn :: lo <= bn < hi && bn < MAXFILE && Place(g, i, PathOf(bn)) ==> A(w, g, i, PathOf(bn)) != 0
    requires WriteLogs(w, fs, g, i, lo, hi, bmapstart, l, m) && WriteLogs(w, g, h, i, hi, hi + 1, bmapstart, m, n)
    ensures WriteLogs(w, fs, h, i, lo, hi + 1, bmapstart, l, n)
  {
    forall x ensures x in n <==> x in l || ForNew(w, fs, h, i, bmapstart, x) || Spans(w, h, i, lo, hi + 1, x) {
      NewTwice(w, fs, g, h, i, bmapstart, x);
      SpansStay(w, g, h, i, lo, hi, x);
      SpansMore(w, h, i, lo, hi, x);
    }
  }
}
