/** What the pieces of bmap, readi, writei and itrunc amount to, as values. */
module FileSteps {
  import opened FileTree
  import opened FileContents
  import opened FileTrunc
  import opened FileLogs

  // Every file has exactly the blocks its size needs.
  ghost predicate AllSolid(w: Codec, fs: FS) {
    forall i :: 0 <= i < |fs.inodes| ==>
      fs.inodes[i].size <= MAXBYTES && Solid(w, fs, i, Blocks(fs.inodes[i].size))
  }

  // s is the n elements of f from off on.
  predicate Slice(s: seq<Octet>, f: seq<Octet>, off: nat, n: nat) {
    off + n <= |f| && s == f[off..off + n]
  }

  lemma SliceMore(s: seq<Octet>, f: seq<Octet>, off: nat, n: nat, more: seq<Octet>, m: nat)
    requires Slice(s, f, off, n) && Slice(more, f, off + n, m)
    ensures Slice(s + more, f, off, n + m)
  {
  }

  // Table l and its leaves are among the places.
  ghost predicate TableDone(ps: set<Path>, l: nat) {
    Table(l) in ps && forall k :: 0 <= k < NINDIRECT ==> Leaf(l, k) in ps
  }

  lemma AllFreed(w: Codec, fs: FS, i: nat, dbl: int, ps: set<Path>)
    requires Place(fs, i, Double) && dbl == A(w, fs, i, Double)
    requires forall k :: 0 <= k < NDIRECT ==> Direct(k) in ps
    requires forall p :: Place(fs, i, p) && (p.Single? || p.Ind?) && A(w, fs, i, p) != 0 ==> p in ps
    requires dbl != 0 ==> forall p :: Place(fs, i, p) && (p.Double? || p.Table? || p.Leaf?) && A(w, fs, i, p) != 0 ==> p in ps
    ensures forall p :: Place(fs, i, p) && A(w, fs, i, p) != 0 ==> p in ps
  {
  }

  lemma TruncDone(w: Codec, fs: FS, first: nat, d: seq<Block>, used: seq<bool>, i: nat, ps: set<Path>)
    requires Tree(w, fs, first) && AllSolid(w, fs) && i < |fs.inodes| && Emptied(w, fs, d, used, i, ps)
    ensures var g := Truncated(fs, d, used, i);
      && Tree(w, g, first) && AllSolid(w, g) && Contents(w, g, i) == []
      && (forall j :: 0 <= j < |fs.inodes| && j != i ==> Contents(w, g, j) == Contents(w, fs, j))
      && FreeSet(used) == FreeSet(fs.used) + TreeBlocks(fs, i)
      && |FreeSet(used)| == |FreeSet(fs.used)| + |TreeBlocks(fs, i)|
    ensures |d| == |used| == |fs.disk| && forall b :: 0 <= b < |d| && used[b] ==> d[b] == fs.disk[b]
  {
    var g := Truncated(fs, d, used, i);
    forall b | 0 <= b < |d| && used[b] ensures d[b] == fs.disk[b] {
      UsedSame(w, fs, first, d, used, i, ps, b);
    }
    TruncatedTree(w, fs, first, d, used, i, ps);
    TruncatedOthers(w, fs, first, d, used, i);
    FreedCount(w, fs, first, d, used, i, ps);
    forall j | 0 <= j < |fs.inodes|
      ensures g.inodes[j].size <= MAXBYTES && Solid(w, g, j, Blocks(g.inodes[j].size))
      ensures j != i ==> Contents(w, g, j) == Contents(w, fs, j)
    {
      if j != i {
        OthersContents(w, fs, g, first, i, j, Blocks(fs.inodes[j].size));
      } else {
        forall p | Node(p) ensures A(w, g, i, p) == 0 {
          assert Place(fs, i, p);
          TruncatedAt(w, fs, first, d, used, i, i, p);
        }
      }
    }
  }

  // Entry k of the index block at place t.
  function Child(t: Path, k: nat): (p: Path)
    requires t.Single? || t.Table?
  {
    if t.Single? then Ind(k) else Leaf(t.j, k)
  }

  predicate Under(t: Path, p: Path) {
    (t.Single? && p.Ind?) || (t.Table? && p.Leaf? && p.j == t.j)
  }

  lemma OnePlaceTable(w: Codec, fs: FS, first: nat, i: nat, t: Path)
    requires Tree(w, fs, first) && Place(fs, i, t) && !t.Double? && A(w, fs, i, t) != 0
    ensures first <= A(w, fs, i, t) < |fs.disk| && A(w, fs, i, t) != A(w, fs, i, Double)
  {
    if A(w, fs, i, t) == A(w, fs, i, Double) {
      OnePlace(w, fs, first, i, t, i, Double);
    }
  }

  predicate Aligned(o: nat) { o % BSIZE == 0 }

  // What is known of the piece of a write of n bytes at off that starts at o and ends at off + next.
  ghost predicate Piece(size: nat, off: nat, tot: nat, o: nat, next: nat, n: nat) {
    && o == off + tot && tot < next <= n && next - tot <= BSIZE - o % BSIZE
    && (next < n ==> Aligned(off + next))
    && Last(off, tot) == o / BSIZE && Last(off, next) == o / BSIZE + 1
    && off / BSIZE <= o / BSIZE <= Covered(size, o)
    && (off + next <= size ==> o / BSIZE < Covered(size, o))
    && Covered(size, off + next) == (if o / BSIZE < Covered(size, o) then Covered(size, o) else o / BSIZE + 1)
  }

  lemma PieceEnds(size: nat, off: nat, tot: nat, o: nat, next: nat, n: nat)
    requires o == off + tot && tot < n
    requires next == tot + if n - tot < BSIZE - o % BSIZE then n - tot else BSIZE - o % BSIZE
    requires if tot == 0 then off <= size else Aligned(o)
    ensures Piece(size, off, tot, o, next, n)
  {
  }

  // The logical blocks a file of `size` bytes has once bytes up to o are written.
  function Covered(size: nat, o: nat): (m: nat) {
    if Blocks(size) < Blocks(o) then Blocks(o) else Blocks(size)
  }

  // One past the last logical block of a write of n bytes at off.
  function Last(off: nat, n: nat): (r: nat)
    ensures off + n <= MAXBYTES ==> r <= MAXFILE
  {
    if n == 0 then off / BSIZE else Blocks(off + n)
  }

  // The first n bytes of src are in the file at off; the other bytes it had are as before.
  ghost predicate Written(w: Codec, fs: FS, g: FS, i: nat, off: nat, src: seq<Octet>, n: nat) {
    && i < |fs.inodes| && |fs.inodes[i].addrs| == NDIRECT + 2 && n <= |src|
    && Solid(w, g, i, Covered(fs.inodes[i].size, off + n))
    && forall k :: 0 <= k < MAXBYTES ==>
         && (off <= k < off + n ==> Byte(w, g, i, k) == src[k - off])
         && (!(off <= k < off + n) && k / BSIZE < Blocks(fs.inodes[i].size) ==> Byte(w, g, i, k) == Byte(w, fs, i, k))
  }

  ghost predicate WroteTo(w: Codec, fs: FS, g: FS, i: nat, off: nat, src: seq<Octet>, n: nat, bmapstart: nat,
                          log0: set<int>, log: set<int>)
    requires off + |src| <= MAXBYTES && n <= |src|
  {
    && OthersKept(w, fs, g, i) && i < |fs.inodes| && g.inodes[i].size == fs.inodes[i].size
    && Written(w, fs, g, i, off, src, n)
    && (off + n <= fs.inodes[i].size ==> g.inodes == fs.inodes)
    && Stays(w, fs, g, i) && WriteLogs(w, fs, g, i, off / BSIZE, Last(off, n), bmapstart, log0, log)
  }

  // One piece, of m bytes, takes h further than g.
  ghost predicate PieceOf(w: Codec, g: FS, h: FS, i: nat, o: nat, data: seq<Octet>, c: nat) {
    && i < |g.inodes| && |g.inodes[i].addrs| == NDIRECT + 2 && i < |h.inodes| && |h.inodes[i].addrs| == NDIRECT + 2
    && Solid(w, h, i, if o / BSIZE < c then c else o / BSIZE + 1)
    && (o / BSIZE < c ==> h.inodes == g.inodes)
    && forall k :: 0 <= k < MAXBYTES ==>
         && (o <= k < o + |data| ==> Byte(w, h, i, k) == data[k - o])
         && (!(o <= k < o + |data|) && k / BSIZE < c ==> Byte(w, h, i, k) == Byte(w, g, i, k))
  }

  lemma WroteMore(w: Codec, fs: FS, g: FS, h: FS, i: nat, off: nat, src: seq<Octet>, n: nat, o: nat, next: nat,
                  bmapstart: nat, log0: set<int>, glog: set<int>, hlog: set<int>)
    requires off + |src| <= MAXBYTES && n <= |src|
    requires WroteTo(w, fs, g, i, off, src, n, bmapstart, log0, glog)
    requires Piece(fs.inodes[i].size, off, n, o, next, |src|)
    requires PieceOf(w, g, h, i, o, src[n..next], Covered(fs.inodes[i].size, o))
    requires OthersKept(w, g, h, i) && h.inodes[i].size == g.inodes[i].size && Stays(w, g, h, i)
    requires WriteLogs(w, g, h, i, o / BSIZE, o / BSIZE + 1, bmapstart, glog, hlog)
    ensures WroteTo(w, fs, h, i, off, src, next, bmapstart, log0, hlog)
  {
    OthersTrans(w, fs, g, h, i);
    WrittenMore(w, fs, g, h, i, off, src, n, o, next);
    StaysTrans(w, fs, g, h, i);
    WroteLogs(w, fs, g, h, i, off, o, n, next, |src|, bmapstart, log0, glog, hlog);
  }

  lemma StaysTrans(w: Codec, fs: FS, g: FS, h: FS, i: nat)
    requires Stays(w, fs, g, i) && Stays(w, g, h, i)
    ensures Stays(w, fs, h, i)
  {
  }

  lemma WroteLogs(w: Codec, fs: FS, g: FS, h: FS, i: nat, off: nat, o: nat, n: nat, next: nat, len: nat,
                  bmapstart: nat, log0: set<int>, glog: set<int>, hlog: set<int>)
    requires i < |fs.inodes| == |g.inodes| == |h.inodes| && |fs.inodes[i].addrs| == NDIRECT + 2
    requires Solid(w, g, i, Covered(fs.inodes[i].size, o)) && Piece(fs.inodes[i].size, off, n, o, next, len)
    requires Stays(w, fs, g, i) && Stays(w, g, h, i)
    requires WriteLogs(w, fs, g, i, off / BSIZE, Last(off, n), bmapstart, log0, glog)
    requires WriteLogs(w, g, h, i, o / BSIZE, o / BSIZE + 1, bmapstart, glog, hlog)
    ensures WriteLogs(w, fs, h, i, off / BSIZE, Last(off, next), bmapstart, log0, hlog)
  {
    var lo, hi := off / BSIZE, o / BSIZE;
    forall bn | lo <= bn < hi && bn < MAXFILE && Place(g, i, PathOf(bn)) ensures A(w, g, i, PathOf(bn)) != 0 {
      assert FirstOf(PathOf(bn)) == bn;
    }
    forall q | Place(h, i, q) ensures Place(g, i, q) && Place(fs, i, q) {
      assert Place(fs, i, q);
    }
    WriteLogsMore(w, fs, g, h, i, lo, hi, bmapstart, log0, glog, hlog);
  }

  // Setting a size moves no block and changes no byte.
  function Resized(fs: FS, i: nat, size: nat): (g: FS)
    requires i < |fs.inodes|
  {
    fs.(inodes := fs.inodes[i := fs.inodes[i].(size := size)])
  }

  lemma ResizedTree(w: Codec, fs: FS, first: nat, i: nat, size: nat)
    requires Tree(w, fs, first) && i < |fs.inodes|
    ensures Tree(w, Resized(fs, i, size), first)
    ensures forall j, q :: Place(fs, j, q) ==> A(w, Resized(fs, i, size), j, q) == A(w, fs, j, q)
  {
    var g := Resized(fs, i, size);
    forall j, q | Place(fs, j, q) ensures A(w, g, j, q) == A(w, fs, j, q) {
    }
    assert forall j, q :: Place(g, j, q) ==> Place(fs, j, q);
    forall b | b in g.owner
      ensures first <= b < |g.disk| && Place(g, g.owner[b].inum, g.owner[b].path)
           && A(w, g, g.owner[b].inum, g.owner[b].path) == b
    {
      assert Place(fs, fs.owner[b].inum, fs.owner[b].path);
    }
  }

  // The bytes written, seen as the whole file.
  lemma WholeFile(w: Codec, fs: FS, g: FS, i: nat, off: nat, src: seq<Octet>)
    requires Written(w, fs, g, i, off, src, |src|) && off <= fs.inodes[i].size <= MAXBYTES && off + |src| <= MAXBYTES
    requires g.inodes[i].size == if off + |src| > fs.inodes[i].size then off + |src| else fs.inodes[i].size
    ensures Contents(w, g, i) == Spliced(Contents(w, fs, i), off, src)
  {
    assert i < |g.inodes| && |g.inodes[i].addrs| == NDIRECT + 2;
    hide Byte, Solid;
    var u, v := Contents(w, g, i), Spliced(Contents(w, fs, i), off, src);
    forall k | 0 <= k < |u| ensures u[k] == v[k] {
      assert k < fs.inodes[i].size ==> k / BSIZE < Blocks(fs.inodes[i].size);
    }
  }

  // g with the size of file i set if the write went past its end.
  ghost predicate Closed(fs: FS, g: FS, h: FS, i: nat, off: nat, src: seq<Octet>)
    requires i < |fs.inodes| && i < |g.inodes|
  {
    h == if |src| > 0 && off + |src| > fs.inodes[i].size then Resized(g, i, off + |src|) else g
  }

  // The blocks at any place of g are those of h.
  lemma ClosedPlaces(w: Codec, fs: FS, g: FS, h: FS, first: nat, i: nat, off: nat, src: seq<Octet>)
    requires Tree(w, g, first) && i < |fs.inodes| && i < |g.inodes| && Closed(fs, g, h, i, off, src)
    ensures Tree(w, h, first) && |h.inodes| == |g.inodes| && h.disk == g.disk
    ensures forall j, q :: Place(g, j, q) ==> Place(h, j, q) && A(w, h, j, q) == A(w, g, j, q)
    ensures SamePlaces(w, g, h, i)
  {
    ResizedTree(w, g, first, i, off + |src|);
  }

  lemma ClosedOther(w: Codec, fs: FS, g: FS, h: FS, first: nat, i: nat, off: nat, src: seq<Octet>, j: nat)
    requires Tree(w, fs, first) && Tree(w, g, first) && AllSolid(w, fs) && OthersKept(w, fs, g, i)
    requires i < |fs.inodes| && Closed(fs, g, h, i, off, src) && j != i && j < |fs.inodes|
    ensures h.inodes[j] == fs.inodes[j] && Solid(w, h, j, Blocks(h.inodes[j].size))
    ensures Contents(w, h, j) == Contents(w, fs, j)
  {
    ClosedPlaces(w, fs, g, h, first, i, off, src);
    OthersTrans(w, fs, g, h, i);
    OthersContents(w, fs, h, first, i, j, Blocks(fs.inodes[j].size));
  }

  lemma ClosedSelf(w: Codec, fs: FS, g: FS, h: FS, first: nat, i: nat, off: nat, src: seq<Octet>)
    requires Tree(w, g, first) && i < |fs.inodes| && i < |g.inodes| && Closed(fs, g, h, i, off, src)
    requires Written(w, fs, g, i, off, src, |src|) && g.inodes[i].size == fs.inodes[i].size
    requires off <= fs.inodes[i].size <= MAXBYTES && off + |src| <= MAXBYTES
    ensures Solid(w, h, i, Blocks(h.inodes[i].size)) && h.inodes[i].size <= MAXBYTES
    ensures Contents(w, h, i) == Spliced(Contents(w, fs, i), off, src)
  {
    ClosedPlaces(w, fs, g, h, first, i, off, src);
    forall p | Node(p) ensures A(w, h, i, p) == A(w, g, i, p) {
      assert Place(g, i, p);
    }
    forall k | 0 <= k < MAXBYTES ensures Byte(w, h, i, k) == Byte(w, g, i, k) {
      assert Place(g, i, PathOf(k / BSIZE));
    }
    WholeFile(w, fs, h, i, off, src);
  }

  // What is true once writei returns.
  lemma Finished(w: Codec, fs: FS, g: FS, h: FS, first: nat, i: nat, off: nat, src: seq<Octet>, bmapstart: nat,
                 log0: set<int>, log: set<int>)
    requires Tree(w, fs, first) && Tree(w, g, first) && AllSolid(w, fs) && i < |fs.inodes| && i < |g.inodes|
    requires off <= fs.inodes[i].size && off + |src| <= MAXBYTES
    requires WroteTo(w, fs, g, i, off, src, |src|, bmapstart, log0, log) && Closed(fs, g, h, i, off, src)
    ensures Tree(w, h, first) && AllSolid(w, h) && |h.inodes| == |fs.inodes|
    ensures Contents(w, h, i) == Spliced(Contents(w, fs, i), off, src)
    ensures forall j :: 0 <= j < |fs.inodes| && j != i ==> h.inodes[j] == fs.inodes[j] && Contents(w, h, j) == Contents(w, fs, j)
    ensures WriteLogs(w, fs, h, i, off / BSIZE, Last(off, |src|), bmapstart, log0, log)
  {
    ClosedPlaces(w, fs, g, h, first, i, off, src);
    ClosedLogs(w, fs, g, h, i, off / BSIZE, Last(off, |src|), bmapstart, log0, log);
    ClosedSelf(w, fs, g, h, first, i, off, src);
    forall j | 0 <= j < |fs.inodes| && j != i
      ensures h.inodes[j] == fs.inodes[j] && Contents(w, h, j) == Contents(w, fs, j)
      ensures Solid(w, h, j, Blocks(h.inodes[j].size))
    {
      ClosedOther(w, fs, g, h, first, i, off, src, j);
    }
  }

  lemma ClosedLogs(w: Codec, fs: FS, g: FS, h: FS, i: nat, lo: nat, hi: nat, bmapstart: nat, log0: set<int>, log: set<int>)
    requires SamePlaces(w, g, h, i) && h.disk == g.disk && h.used == g.used
    requires WriteLogs(w, fs, g, i, lo, hi, bmapstart, log0, log)
    ensures WriteLogs(w, fs, h, i, lo, hi, bmapstart, log0, log)
  {
    forall x ensures x in log <==> x in log0 || ForNew(w, fs, h, i, bmapstart, x) || Spans(w, h, i, lo, hi, x) {
      SameNew(w, fs, g, h, i, bmapstart, x);
      SameSpans(w, g, h, i, lo, hi, x);
    }
  }

  lemma WrittenNone(w: Codec, fs: FS, first: nat, i: nat, off: nat, src: seq<Octet>)
    requires i < |fs.inodes| && |fs.inodes[i].addrs| == NDIRECT + 2 && off <= fs.inodes[i].size
    requires Solid(w, fs, i, Blocks(fs.inodes[i].size))
    ensures Written(w, fs, fs, i, off, src, 0)
  {
  }

  lemma WrittenMore(w: Codec, fs: FS, g: FS, h: FS, i: nat, off: nat, src: seq<Octet>, n: nat, o: nat, next: nat)
    requires Written(w, fs, g, i, off, src, n) && off + |src| <= MAXBYTES
    requires Piece(fs.inodes[i].size, off, n, o, next, |src|)
    requires PieceOf(w, g, h, i, o, src[n..next], Covered(fs.inodes[i].size, o))
    ensures Written(w, fs, h, i, off, src, next)
  {
    var c := Covered(fs.inodes[i].size, o);
    forall k | 0 <= k < MAXBYTES
      ensures off <= k < off + next ==> Byte(w, h, i, k) == src[k - off]
      ensures !(off <= k < off + next) && k / BSIZE < Blocks(fs.inodes[i].size) ==> Byte(w, h, i, k) == Byte(w, fs, i, k)
    {
      Covers(fs.inodes[i].size, o, k);
    }
  }

  lemma Covers(size: nat, o: nat, k: nat)
    ensures k < o ==> k / BSIZE < Covered(size, o)
    ensures k / BSIZE < Blocks(size) ==> k / BSIZE < Covered(size, o)
  {
  }

  lemma PieceRead(w: Codec, fs: FS, first: nat, i: nat, o: nat, m: nat)
    requires Tree(w, fs, first) && i < |fs.inodes| && o + m <= fs.inodes[i].size <= MAXBYTES
    requires o / BSIZE < MAXFILE && 0 < m <= BSIZE - o % BSIZE
    requires A(w, fs, i, PathOf(o / BSIZE)) != 0
    ensures 0 < A(w, fs, i, PathOf(o / BSIZE)) < |fs.disk|
    ensures Contents(w, fs, i)[o..o + m] == fs.disk[A(w, fs, i, PathOf(o / BSIZE))][o % BSIZE..o % BSIZE + m]
  {
    assert Place(fs, i, PathOf(o / BSIZE));
    var a := A(w, fs, i, PathOf(o / BSIZE));
    var u, v := Contents(w, fs, i)[o..o + m], fs.disk[a][o % BSIZE..o % BSIZE + m];
    forall k | 0 <= k < m ensures u[k] == v[k] {
      assert (o + k) / BSIZE == o / BSIZE && (o + k) % BSIZE == o % BSIZE + k;
    }
  }

  // A block that is there lies on the disk.
  lemma OnDisk(w: Codec, g: FS, first: nat, i: nat, p: Path)
    requires Tree(w, g, first) && Place(g, i, p) && A(w, g, i, p) != 0
    ensures 0 < A(w, g, i, p) < |g.disk|
  {
  }

  // Patching a block moves none.
  lemma PatchPlaces(w: Codec, g: FS, first: nat, i: nat, bn: nat, o: nat, data: seq<Octet>, m: nat)
    requires Tree(w, g, first) && bn < MAXFILE && Place(g, i, PathOf(bn)) && o + |data| <= BSIZE
    requires 0 < A(w, g, i, PathOf(bn)) < |g.disk|
    ensures var h := PatchedFS(w, g, i, bn, o, data);
      Tree(w, h, first) && OthersKept(w, g, h, i) && SamePlaces(w, g, h, i) && (Solid(w, g, i, m) ==> Solid(w, h, i, m))
  {
    PatchOthers(w, g, first, i, bn, o, data);
    hide Tree, OthersKept;
  }

  lemma StaysThen(w: Codec, fs: FS, g: FS, h: FS, i: nat)
    requires Stays(w, fs, g, i) && SamePlaces(w, g, h, i)
    ensures Stays(w, fs, h, i)
  {
  }

  // What mapping a block and patching it amount to.
  lemma PieceLemma(w: Codec, fs: FS, g: FS, first: nat, i: nat, o: nat, data: seq<Octet>, m: nat)
    requires Tree(w, fs, first) && Tree(w, g, first) && i < |fs.inodes| && Solid(w, fs, i, m)
    requires 0 < |data| <= BSIZE - o % BSIZE && o + |data| <= MAXBYTES && o / BSIZE <= m
    requires Extends(w, fs, g, i, Chain(o / BSIZE)) && A(w, g, i, PathOf(o / BSIZE)) != 0
    requires A(w, fs, i, PathOf(o / BSIZE)) != 0 ==> g == fs
    ensures 0 < A(w, g, i, PathOf(o / BSIZE)) < |g.disk|
    ensures var h := PatchedFS(w, g, i, o / BSIZE, o % BSIZE, data);
      && Tree(w, h, first) && OthersKept(w, fs, h, i) && h.inodes[i].size == fs.inodes[i].size
      && Stays(w, fs, h, i)
      && SamePlaces(w, g, h, i)
      && PieceOf(w, fs, h, i, o, data, m)
  {
    hide Held, Found, Marked, Byte, OthersKept, Stays, SamePlaces, Chain;
    var bn := o / BSIZE;
    assert Place(g, i, PathOf(bn));
    OnDisk(w, g, first, i, PathOf(bn));
    var h := PatchedFS(w, g, i, bn, o % BSIZE, data);
    PatchPlaces(w, g, first, i, bn, o % BSIZE, data, if bn < m then m else bn + 1);
    ExtendsOthers(w, fs, g, i, Chain(bn));
    OthersTrans(w, fs, g, h, i);
    ExtendsSolid(w, fs, g, i, bn, m);
    ExtendsStays(w, fs, g, i, Chain(bn));
    StaysThen(w, fs, g, h, i);
    assert bn < m ==> g == fs;
    hide Solid, A;
    forall k | 0 <= k < MAXBYTES
      ensures o <= k < o + |data| ==> Byte(w, h, i, k) == data[k - o]
      ensures !(o <= k < o + |data|) && k / BSIZE < m ==> Byte(w, h, i, k) == Byte(w, fs, i, k)
    {
      PieceByte(w, fs, g, first, i, o, data, m, k);
    }
  }

  lemma PieceByte(w: Codec, fs: FS, g: FS, first: nat, i: nat, o: nat, data: seq<Octet>, m: nat, k: nat)
    requires Tree(w, fs, first) && Tree(w, g, first) && i < |fs.inodes| && Solid(w, fs, i, m) && k < MAXBYTES
    requires 0 < |data| <= BSIZE - o % BSIZE && o + |data| <= MAXBYTES
    requires Extends(w, fs, g, i, Chain(o / BSIZE)) && Place(g, i, PathOf(o / BSIZE)) && 0 < A(w, g, i, PathOf(o / BSIZE)) < |g.disk|
    ensures var h := PatchedFS(w, g, i, o / BSIZE, o % BSIZE, data);
      && (o <= k < o + |data| ==> Byte(w, h, i, k) == data[k - o])
      && (!(o <= k < o + |data|) && k / BSIZE < m ==> Byte(w, h, i, k) == Byte(w, fs, i, k))
  {
    PatchByte(w, g, first, i, o / BSIZE, o % BSIZE, data, k);
    if k / BSIZE < m {
      assert A(w, fs, i, PathOf(k / BSIZE)) != 0;
      ExtendsByte(w, fs, g, first, i, Chain(o / BSIZE), i, k);
    }
    hide Tree, Solid, Byte, PatchedFS;
  }

  // A place outside the chain is not filled.
  lemma Elsewhere(w: Codec, fs: FS, g: FS, i: nat, chain: set<Path>, p: Path)
    requires Extends(w, fs, g, i, chain) && Place(fs, i, p) && p !in chain
    ensures Place(g, i, p) && A(w, g, i, p) == A(w, fs, i, p)
  {
  }

  lemma FetchLemma(w: Codec, fs: FS, first: nat, i: nat, p: Path, b: int, bmapstart: nat, before: set<int>, after: set<int>)
    requires CanGrow(w, fs, first, i, p, b)
    requires 0 <= b < |fs.disk| == |fs.used|
    requires !Root(p) ==> 0 <= A(w, fs, i, Parent(p)) < |fs.disk|
    requires after == before + {bmapstart + b / BPB, b} + (if Root(p) then {} else {A(w, fs, i, Parent(p))})
    ensures var g := Grow(w, fs, i, p, b);
      && Tree(w, g, first) && Place(g, i, p) && A(w, g, i, p) == b != 0
      && Extends(w, fs, g, i, {p}) && Logs(w, fs, g, i, bmapstart, before, after)
      && (Data(p) ==> g.disk[b] == Zeros())
  {
    GrowTree(w, fs, first, i, p, b);
    GrowExtends(w, fs, first, i, p, b);
    GrowLogs(w, fs, first, i, p, b, bmapstart, before, after);
    GrowOk(w, fs, first, i, p, b);
  }

  // Two fetches, one after the other.
  lemma FetchTwice(w: Codec, fs: FS, g: FS, h: FS, i: nat, u: set<Path>, v: set<Path>, bmapstart: nat, l: set<int>, m: set<int>, n: set<int>)
    requires Extends(w, fs, g, i, u) && Extends(w, g, h, i, v)
    requires Logs(w, fs, g, i, bmapstart, l, m) && Logs(w, g, h, i, bmapstart, m, n)
    ensures Extends(w, fs, h, i, u + v) && Logs(w, fs, h, i, bmapstart, l, n)
  {
    ExtendsTrans(w, fs, g, h, i, u, v);
    ExtendsStays(w, fs, g, i, u);
    ExtendsStays(w, g, h, i, v);
    LogsTrans(w, fs, g, h, i, bmapstart, l, m, n);
  }

  // Zeroing a free block moves nothing in any tree.
  lemma GrowParent(w: Codec, fs: FS, first: nat, i: nat, p: Path, b: int)
    requires CanGrow(w, fs, first, i, p, b) && !Root(p)
    ensures 0 <= b < |fs.disk|
    ensures At(w, fs.disk[b := Zeros()], fs.inodes[i], Parent(p)) == A(w, fs, i, Parent(p))
  {
    GrowOk(w, fs, first, i, p, b);
    if p.Leaf? {
      assert Place(fs, i, Double) && A(w, fs, i, Double) != b;
    }
  }
}
