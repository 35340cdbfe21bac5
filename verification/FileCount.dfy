/** How many blocks a write changes, as a number that its caller can compute. */
module FileCount {
  import opened FileTree
  import opened FileContents
  import opened FileLogs
  import opened FileSteps

  // The first logical block behind the double-indirect block.
  const BEHIND: nat := NDIRECT + NINDIRECT

  function Max(a: nat, b: nat): (r: nat) { if a < b then b else a }

  // The table over logical block bn, or over the first behind the double-indirect block.
  function TableOf(bn: nat): (j: nat) { (Max(bn, BEHIND) - BEHIND) / NINDIRECT }

  // ---------------------------------------------------------------- the numbers

  // Whether the indirect block changes when logical blocks a .. hi are new.
  function Singles(a: nat, hi: nat): (n: nat) { if a < hi && a < BEHIND && NDIRECT < hi then 1 else 0 }

  // How many tables do.
  function Tables(a: nat, hi: nat): (n: nat) {
    if a < hi && BEHIND < hi && TableOf(a) <= TableOf(hi - 1) then TableOf(hi - 1) - TableOf(a) + 1 else 0
  }

  // Whether the double-indirect block does: when a table is new, that is, when its first block is.
  function Doubles(a: nat, hi: nat): (n: nat) {
    if a < hi && BEHIND < hi && ((Max(a, BEHIND) - BEHIND) % NINDIRECT == 0 || TableOf(a) < TableOf(hi - 1)) then 1 else 0
  }

  /**
   The blocks that writing n bytes at off to a file of `size` bytes changes: the data blocks it
   spans, the index blocks over those past the end, the bitmap if there are any, and the inode if
   the file grows.
   */
  function Dirtied(off: nat, n: nat, size: nat): (r: nat)
    requires n > 0 && off <= size
  {
    var lo, hi, m := off / BSIZE, Blocks(off + n), Blocks(size);
    (hi - lo) + Singles(m, hi) + Tables(m, hi) + Doubles(m, hi) + (if m < hi then 1 else 0) + (if off + n > size then 1 else 0)
  }

  // ---------------------------------------------------------------- the places

  ghost function DataPaths(lo: nat, hi: nat): (r: set<Path>)
    requires hi <= MAXFILE
    ensures forall p :: p in r <==> Node(p) && Data(p) && lo <= FirstOf(p) < hi
    ensures |r| == if lo < hi then hi - lo else 0
  {
    if lo >= hi then {}
    else
      assert forall p :: Node(p) && Data(p) && FirstOf(p) == hi - 1 ==> p == PathOf(hi - 1) by {
        forall p | Node(p) && Data(p) && FirstOf(p) == hi - 1 ensures p == PathOf(hi - 1) {
          PathBijection(hi - 1, p);
        }
      }
      DataPaths(lo, hi - 1) + {PathOf(hi - 1)}
  }

  ghost function TablePaths(j: nat, k: nat): (r: set<Path>)
    ensures forall p :: p in r <==> p.Table? && j <= p.j < k
    ensures |r| == if j < k then k - j else 0
  {
    if j >= k then {} else TablePaths(j, k - 1) + {Table(k - 1)}
  }

  // Index places: these two or not, and tables j .. k.
  ghost function IndexSet(single: bool, double: bool, j: nat, k: nat): (r: set<Path>)
    requires j <= k
    ensures forall p :: p in r <==> (p.Single? && single) || (p.Double? && double) || (p.Table? && j <= p.j < k)
    ensures |r| == (if single then 1 else 0) + (if double then 1 else 0) + (k - j)
  {
    var t := TablePaths(j, k);
    var d := if double then t + {Double} else t;
    if single then d + {Single} else d
  }

  // The index blocks that change when logical blocks a .. hi are new.
  ghost function IndexPaths(a: nat, hi: nat): (r: set<Path>)
    ensures |r| == Singles(a, hi) + Tables(a, hi) + Doubles(a, hi)
    ensures forall p :: p in r ==> !Data(p)
  {
    IndexSet(Singles(a, hi) == 1, Doubles(a, hi) == 1, TableOf(a), TableOf(a) + Tables(a, hi))
  }

  // The new places when a file grows from m to hi blocks, and the ones above them.
  ghost predicate NewAt(m: nat, hi: nat, p: Path) { Node(p) && m <= FirstOf(p) < hi }

  lemma IndexIn(m: nat, hi: nat, p: Path)
    requires m < hi <= MAXFILE
    ensures p.Single? ==> (p in IndexPaths(m, hi) <==> m < BEHIND && NDIRECT < hi)
    ensures p.Double? ==> (p in IndexPaths(m, hi) <==> Doubles(m, hi) == 1)
    ensures p.Table? ==> (p in IndexPaths(m, hi) <==> BEHIND < hi && TableOf(m) <= p.j <= TableOf(hi - 1))
  {
    TableOrder(m, hi - 1);
    hide TableOf, Doubles;
  }

  lemma TableOrder(a: nat, b: nat)
    requires a <= b
    ensures TableOf(a) <= TableOf(b)
  {
    Monotone(Max(a, BEHIND) - BEHIND, Max(b, BEHIND) - BEHIND);
  }

  lemma NewInside(m: nat, hi: nat, p: Path)
    requires m < hi <= MAXFILE && NewAt(m, hi, p)
    ensures Data(p) ==> p in DataPaths(m, hi)
    ensures !Data(p) ==> p in IndexPaths(m, hi)
    ensures !Root(p) ==> Parent(p) in IndexPaths(m, hi)
  {
    hide IndexPaths;
    if p.Table? || p.Leaf? {
      TableBounds(m, hi, p);
    }
    if p.Double? {
      assert Max(m, BEHIND) == BEHIND;
    }
    if !Data(p) {
      IndexIn(m, hi, p);
    }
    if !Root(p) {
      IndexIn(m, hi, Parent(p));
    }
  }

  lemma TableBounds(m: nat, hi: nat, p: Path)
    requires m < hi <= MAXFILE && NewAt(m, hi, p) && (p.Table? || p.Leaf?)
    ensures TableOf(m) <= p.j <= TableOf(hi - 1)
    ensures p.Table? ==> Doubles(m, hi) == 1
  {
    var f := FirstOf(p) - BEHIND;
    assert f / NINDIRECT == p.j by {
      if p.Leaf? {
        assert (p.j * NINDIRECT + p.k) / NINDIRECT == p.j;
      }
    }
    Monotone(Max(m, BEHIND) - BEHIND, f);
    Monotone(f, hi - 1 - BEHIND);
    if p.Table? && TableOf(m) == TableOf(hi - 1) {
      assert Max(m, BEHIND) - BEHIND == f;
    }
  }

  lemma Monotone(a: nat, b: nat)
    requires a <= b
    ensures a / NINDIRECT <= b / NINDIRECT
  {
  }

  // Each index block of that set is above a new place.
  lemma InsideNew(m: nat, hi: nat, p: Path) returns (q: Path)
    requires m < hi <= MAXFILE && p in IndexPaths(m, hi)
    ensures Node(p) && NewAt(m, hi, q) && !Root(q) && Parent(q) == p
  {
    IndexIn(m, hi, p);
    hide IndexPaths;
    if p.Single? {
      q := Ind(Max(m, NDIRECT) - NDIRECT);
    } else if p.Double? {
      q := UnderDouble(m, hi);
    } else {
      q := UnderTable(m, hi, p.j);
    }
  }

  lemma UnderDouble(m: nat, hi: nat) returns (q: Path)
    requires m < hi <= MAXFILE && Doubles(m, hi) == 1
    ensures q.Table? && NewAt(m, hi, q)
  {
    q := Table(NextStart(Max(m, BEHIND) - BEHIND, hi - 1 - BEHIND));
  }

  lemma UnderTable(m: nat, hi: nat, j: nat) returns (q: Path)
    requires m < hi <= MAXFILE && BEHIND < hi && TableOf(m) <= j <= TableOf(hi - 1)
    ensures j < NINDIRECT && q.Leaf? && q.j == j && NewAt(m, hi, q)
  {
    var a := Max(m, BEHIND) - BEHIND;
    InTable(a, hi - 1 - BEHIND, j);
    q := Leaf(j, if j == a / NINDIRECT then a % NINDIRECT else 0);
  }

  // The first table that starts at or after a, if it starts by z.
  function NextStart(a: nat, z: nat): (j: nat)
    requires a <= z < NINDIRECT * NINDIRECT && (a % NINDIRECT == 0 || a / NINDIRECT < z / NINDIRECT)
    ensures j < NINDIRECT && a <= j * NINDIRECT <= z
  {
    if a % NINDIRECT == 0 then a / NINDIRECT else a / NINDIRECT + 1
  }

  // Table j lies between a and z, or holds them.
  lemma InTable(a: nat, z: nat, j: nat)
    requires a <= z < NINDIRECT * NINDIRECT && a / NINDIRECT <= j <= z / NINDIRECT
    ensures j < NINDIRECT
    ensures j == a / NINDIRECT ==> j * NINDIRECT + a % NINDIRECT == a
    ensures j > a / NINDIRECT ==> a <= j * NINDIRECT <= z
  {
  }

  // ---------------------------------------------------------------- counting the blocks logged

  // Distinct places hold distinct blocks.
  lemma {:induction false} PlacesCount(w: Codec, fs: FS, first: nat, i: nat, ps: set<Path>)
    requires Tree(w, fs, first) && forall p :: p in ps ==> Place(fs, i, p) && A(w, fs, i, p) != 0
    ensures |set p | p in ps :: A(w, fs, i, p)| == |ps|
    decreases |ps|
  {
    var xs := set p | p in ps :: A(w, fs, i, p);
    if ps != {} {
      var q :| q in ps;
      var ys := set p | p in ps - {q} :: A(w, fs, i, p);
      PlacesCount(w, fs, first, i, ps - {q});
      forall p | p in ps - {q} ensures A(w, fs, i, p) != A(w, fs, i, q) {
        assert Place(fs, i, p) && Place(fs, i, q);
      }
      assert xs == ys + {A(w, fs, i, q)};
    }
  }

  // With no holes, what is new is what the sizes say.
  lemma NewBySize(w: Codec, fs: FS, h: FS, i: nat, m: nat, hi: nat, p: Path)
    requires Solid(w, fs, i, m) && Solid(w, h, i, Max(m, hi))
    ensures New(w, fs, h, i, p) <==> NewAt(m, hi, p)
  {
    if Node(p) {
      assert Place(fs, i, p) && Place(h, i, p);
    }
  }

  ghost function DirtyPaths(lo: nat, hi: nat, m: nat): (r: set<Path>)
    requires lo < hi <= MAXFILE
    ensures |r| == (hi - lo) + Singles(m, hi) + Tables(m, hi) + Doubles(m, hi)
  {
    assert DataPaths(lo, hi) !! IndexPaths(m, hi);
    DataPaths(lo, hi) + IndexPaths(m, hi)
  }

  // A write of blocks lo .. hi took a file from m blocks, with no holes before or after.
  ghost predicate Grew(w: Codec, fs: FS, h: FS, first: nat, i: nat, lo: nat, hi: nat, m: nat) {
    && Tree(w, h, first) && lo < hi <= MAXFILE && lo <= m
    && Solid(w, fs, i, m) && Solid(w, h, i, Max(m, hi))
  }

  lemma DirtyThere(w: Codec, fs: FS, h: FS, first: nat, i: nat, lo: nat, hi: nat, m: nat, p: Path)
    requires Grew(w, fs, h, first, i, lo, hi, m) && p in DirtyPaths(lo, hi, m)
    ensures Place(h, i, p) && first <= A(w, h, i, p) < |h.disk|
  {
    if p in IndexPaths(m, hi) {
      if m < hi {
        var q := InsideNew(m, hi, p);
        assert Place(h, i, q) && A(w, h, i, q) != 0;
        ParentThere(w, h, i, q);
      }
    }
    assert Place(h, i, p);
  }

  // x is the block of one of the places.
  ghost predicate AtOne(w: Codec, h: FS, i: nat, ps: set<Path>, x: int) {
    exists p :: p in ps && Place(h, i, p) && A(w, h, i, p) == x
  }

  lemma NewDirty(lo: nat, hi: nat, m: nat, p: Path)
    requires lo < hi <= MAXFILE && lo <= m && NewAt(m, hi, p)
    ensures p in DirtyPaths(lo, hi, m) && (!Root(p) ==> Parent(p) in DirtyPaths(lo, hi, m))
  {
    NewInside(m, hi, p);
    hide IndexPaths;
  }

  // Blocks in a tree are data-region blocks.
  lemma Address(w: Codec, h: FS, first: nat, i: nat, p: Path)
    requires Tree(w, h, first) && Place(h, i, p) && A(w, h, i, p) != 0
    ensures first <= A(w, h, i, p) < |h.disk|
  {
  }

  lemma OneBitmap(bmapstart: nat, b: int)
    requires 0 <= b < BPB
    ensures bmapstart + b / BPB == bmapstart
  {
  }

  lemma NewAtOne(w: Codec, fs: FS, h: FS, first: nat, i: nat, lo: nat, hi: nat, m: nat, bmapstart: nat, p: Path, x: int)
    requires Grew(w, fs, h, first, i, lo, hi, m) && |h.disk| <= BPB
    requires New(w, fs, h, i, p) && ForOne(w, h, i, bmapstart, p, x)
    ensures AtOne(w, h, i, DirtyPaths(lo, hi, m), x) || (m < hi && x == bmapstart)
  {
    hide Solid, Tree, DirtyPaths, A;
    NewBySize(w, fs, h, i, m, hi, p);
    NewDirty(lo, hi, m, p);
    Address(w, h, first, i, p);
    OneBitmap(bmapstart, A(w, h, i, p));
    if !Root(p) {
      assert Place(h, i, Parent(p));
    }
  }

  lemma SpanAtOne(w: Codec, h: FS, i: nat, lo: nat, hi: nat, m: nat, x: int)
    requires lo < hi <= MAXFILE
    ensures Spans(w, h, i, lo, hi, x) ==> AtOne(w, h, i, DirtyPaths(lo, hi, m), x)
  {
    hide IndexPaths, A;
  }

  lemma LoggedInside(w: Codec, fs: FS, h: FS, first: nat, i: nat, lo: nat, hi: nat, m: nat, bmapstart: nat, x: int)
    requires Grew(w, fs, h, first, i, lo, hi, m) && |h.disk| <= BPB
    requires ForNew(w, fs, h, i, bmapstart, x) || Spans(w, h, i, lo, hi, x)
    ensures AtOne(w, h, i, DirtyPaths(lo, hi, m), x) || (m < hi && x == bmapstart)
  {
    hide Solid, Tree, DirtyPaths, A, AtOne, Spans;
    SpanAtOne(w, h, i, lo, hi, m, x);
    if p :| New(w, fs, h, i, p) && ForOne(w, h, i, bmapstart, p, x) {
      NewAtOne(w, fs, h, first, i, lo, hi, m, bmapstart, p, x);
    }
  }

  lemma BitmapLogged(w: Codec, fs: FS, h: FS, first: nat, i: nat, lo: nat, hi: nat, m: nat, bmapstart: nat)
    requires Grew(w, fs, h, first, i, lo, hi, m) && |h.disk| <= BPB && m < hi
    ensures ForNew(w, fs, h, i, bmapstart, bmapstart)
  {
    hide Solid, Tree, A;
    var q := PathOf(m);
    NewBySize(w, fs, h, i, m, hi, q);
    Address(w, h, first, i, q);
    OneBitmap(bmapstart, A(w, h, i, q));
    assert ForOne(w, h, i, bmapstart, q, bmapstart);
  }

  lemma PlaceLogged(w: Codec, fs: FS, h: FS, first: nat, i: nat, lo: nat, hi: nat, m: nat, bmapstart: nat, p: Path)
    requires Grew(w, fs, h, first, i, lo, hi, m) && p in DirtyPaths(lo, hi, m) && Place(h, i, p)
    ensures ForNew(w, fs, h, i, bmapstart, A(w, h, i, p)) || Spans(w, h, i, lo, hi, A(w, h, i, p))
  {
    hide Solid, Tree, A, IndexPaths;
    if Data(p) {
      PathBijection(FirstOf(p), p);
    } else {
      GrownOnly(m, hi, p);
      var q := InsideNew(m, hi, p);
      NewBySize(w, fs, h, i, m, hi, q);
      assert ForOne(w, h, i, bmapstart, q, A(w, h, i, p));
    }
  }

  // Index blocks change only if the file grows.
  lemma GrownOnly(m: nat, hi: nat, p: Path)
    requires p in IndexPaths(m, hi)
    ensures m < hi
  {
  }

  lemma InsideLogged(w: Codec, fs: FS, h: FS, first: nat, i: nat, lo: nat, hi: nat, m: nat, bmapstart: nat, x: int)
    requires Grew(w, fs, h, first, i, lo, hi, m) && |h.disk| <= BPB
    requires AtOne(w, h, i, DirtyPaths(lo, hi, m), x) || (m < hi && x == bmapstart)
    ensures ForNew(w, fs, h, i, bmapstart, x) || Spans(w, h, i, lo, hi, x)
  {
    hide Solid, Tree, A, DirtyPaths, ForNew, Spans;
    if m < hi && x == bmapstart {
      BitmapLogged(w, fs, h, first, i, lo, hi, m, bmapstart);
    } else {
      var p :| p in DirtyPaths(lo, hi, m) && Place(h, i, p) && A(w, h, i, p) == x;
      PlaceLogged(w, fs, h, first, i, lo, hi, m, bmapstart, p);
    }
  }

  /**
   The count is exact: when one bitmap block covers the disk, a write dirties as many blocks as
   Dirtied says.
   */
  lemma DirtyCount(w: Codec, fs: FS, h: FS, first: nat, i: nat, off: nat, n: nat, size: nat,
                   bmapstart: nat, iblock: int, log: set<int>, logged: set<int>)
    requires n > 0 && off <= size && off + n <= MAXBYTES && iblock < bmapstart < first && |h.disk| <= BPB
    requires Grew(w, fs, h, first, i, off / BSIZE, Blocks(off + n), Blocks(size))
    requires WriteLogs(w, fs, h, i, off / BSIZE, Blocks(off + n), bmapstart, {}, log)
    requires logged == if off + n > size then log + {iblock} else log
    ensures |logged| == Dirtied(off, n, size)
  {
    hide Grew, WriteLogs;
    LogCount(w, fs, h, first, i, off / BSIZE, Blocks(off + n), Blocks(size), bmapstart, log);
    assert iblock !in log;
  }

  // What is logged but for the inode.
  lemma LogCount(w: Codec, fs: FS, h: FS, first: nat, i: nat, lo: nat, hi: nat, m: nat, bmapstart: nat, log: set<int>)
    requires bmapstart < first && |h.disk| <= BPB && Grew(w, fs, h, first, i, lo, hi, m)
    requires WriteLogs(w, fs, h, i, lo, hi, bmapstart, {}, log)
    ensures |log| == (hi - lo) + Singles(m, hi) + Tables(m, hi) + Doubles(m, hi) + (if m < hi then 1 else 0)
    ensures forall x :: x in log ==> bmapstart <= x
  {
    assert lo < hi <= MAXFILE;
    hide *;
    var xs := DirtyBlocks(w, fs, h, first, i, lo, hi, m);
    LogIs(w, fs, h, first, i, lo, hi, m, bmapstart, log, xs);
    OneMore(xs, bmapstart, m < hi);
  }

  lemma OneMore(xs: set<int>, b: int, more: bool)
    requires b !in xs
    ensures |xs + if more then {b} else {}| == |xs| + if more then 1 else 0
  {
    assert xs + {} == xs;
  }

  // The blocks at those places, as many as the places.
  lemma DirtyBlocks(w: Codec, fs: FS, h: FS, first: nat, i: nat, lo: nat, hi: nat, m: nat) returns (xs: set<int>)
    requires Grew(w, fs, h, first, i, lo, hi, m)
    ensures |xs| == |DirtyPaths(lo, hi, m)| && (forall x :: x in xs ==> first <= x)
    ensures forall x :: x in xs <==> AtOne(w, h, i, DirtyPaths(lo, hi, m), x)
  {
    hide Solid, DirtyPaths, A;
    var ps := DirtyPaths(lo, hi, m);
    forall p | p in ps ensures Place(h, i, p) && first <= A(w, h, i, p) {
      DirtyThere(w, fs, h, first, i, lo, hi, m, p);
    }
    PlacesCount(w, h, first, i, ps);
    xs := set p | p in ps :: A(w, h, i, p);
  }

  lemma LogIs(w: Codec, fs: FS, h: FS, first: nat, i: nat, lo: nat, hi: nat, m: nat, bmapstart: nat, log: set<int>, xs: set<int>)
    requires Grew(w, fs, h, first, i, lo, hi, m) && |h.disk| <= BPB
    requires WriteLogs(w, fs, h, i, lo, hi, bmapstart, {}, log)
    requires forall x :: x in xs <==> AtOne(w, h, i, DirtyPaths(lo, hi, m), x)
    ensures log == xs + if m < hi then {bmapstart} else {}
  {
    hide Grew, DirtyPaths, AtOne, ForNew, Spans;
    var meta: set<int> := if m < hi then {bmapstart} else {};
    forall x ensures x in log <==> x in xs + meta {
      if x in log { LoggedInside(w, fs, h, first, i, lo, hi, m, bmapstart, x); }
      if x in xs + meta { InsideLogged(w, fs, h, first, i, lo, hi, m, bmapstart, x); }
    }
  }
}
