/** The bytes of a file, and how they survive changes to the tree. */
module FileContents {
  import opened FileTree

  const MAXBYTES: nat := MAXFILE * BSIZE

  // Blocks needed for `size` bytes.
  function Blocks(size: nat): (m: nat) {
    (size + BSIZE - 1) / BSIZE
  }

  // The file has exactly its first m logical blocks and the index blocks over them: no holes.
  ghost predicate Solid(w: Codec, fs: FS, i: nat, m: nat) {
    && i < |fs.inodes| && |fs.inodes[i].addrs| == NDIRECT + 2
    && forall p :: Node(p) ==> (A(w, fs, i, p) != 0 <==> FirstOf(p) < m)
  }

  // Byte k of the file, had it that many; 0 where there is no block.
  function Byte(w: Codec, fs: FS, i: nat, k: nat): (r: Octet)
    requires i < |fs.inodes| && |fs.inodes[i].addrs| == NDIRECT + 2
  {
    if k >= MAXBYTES then 0
    else
      var a := A(w, fs, i, PathOf(k / BSIZE));
      if 0 < a < |fs.disk| && |fs.disk[a]| == BSIZE then fs.disk[a][k % BSIZE] else 0
  }

  function Contents(w: Codec, fs: FS, i: nat): (s: seq<Octet>)
    requires i < |fs.inodes| && |fs.inodes[i].addrs| == NDIRECT + 2
    ensures |s| == fs.inodes[i].size
  {
    seq(fs.inodes[i].size, k requires 0 <= k < fs.inodes[i].size => Byte(w, fs, i, k))
  }

  // s with data written at offset off, extended if it ends past the end.
  function Spliced(s: seq<Octet>, off: nat, data: seq<Octet>): (r: seq<Octet>)
    requires off <= |s|
  {
    if data == [] then s
    else if off + |data| <= |s| then s[..off] + data + s[off + |data|..]
    else s[..off] + data
  }

  /**
   g is fs with some empty places of inode i filled: nothing that was in a tree has moved, only
   places in `chain` may be new, and no data block that was in a tree has changed.
   */
  ghost predicate Extends(w: Codec, fs: FS, g: FS, i: nat, chain: set<Path>) {
    && |g.inodes| == |fs.inodes| && |g.disk| == |fs.disk|
    && (forall j :: 0 <= j < |fs.inodes| ==> |g.inodes[j].addrs| == |fs.inodes[j].addrs| && g.inodes[j].size == fs.inodes[j].size)
    && (forall j :: 0 <= j < |fs.inodes| && j != i ==> g.inodes[j] == fs.inodes[j])
    && (forall j, q :: Place(fs, j, q) && A(w, g, j, q) != A(w, fs, j, q) ==> A(w, fs, j, q) == 0 && j == i && q in chain)
    && (forall j, q :: Place(fs, j, q) && Data(q) && 0 < A(w, fs, j, q) < |fs.disk| ==>
          g.disk[A(w, fs, j, q)] == fs.disk[A(w, fs, j, q)])
  }

  lemma ExtendsTrans(w: Codec, fs: FS, g: FS, h: FS, i: nat, u: set<Path>, v: set<Path>)
    requires Extends(w, fs, g, i, u) && Extends(w, g, h, i, v)
    ensures Extends(w, fs, h, i, u + v)
  {
    forall j, q | Place(fs, j, q) && A(w, h, j, q) != A(w, fs, j, q)
      ensures A(w, fs, j, q) == 0 && j == i && q in u + v
    {
      assert Place(g, j, q);
    }
    forall j, q | Place(fs, j, q) && Data(q) && 0 < A(w, fs, j, q) < |fs.disk|
      ensures h.disk[A(w, fs, j, q)] == fs.disk[A(w, fs, j, q)]
    {
      assert Place(g, j, q) && A(w, g, j, q) == A(w, fs, j, q);
    }
  }

  lemma GrowExtends(w: Codec, fs: FS, first: nat, i: nat, p: Path, b: int)
    requires CanGrow(w, fs, first, i, p, b)
    ensures 0 <= b < |fs.disk| == |fs.used|
    ensures !Root(p) ==> 0 <= A(w, fs, i, Parent(p)) < |fs.disk|
    ensures Extends(w, fs, Grow(w, fs, i, p, b), i, {p})
  {
    GrowOk(w, fs, first, i, p, b);
    var g := Grow(w, fs, i, p, b);
    forall j, q | Place(fs, j, q) ensures A(w, g, j, q) == if j == i && q == p then b else A(w, fs, j, q) {
      GrowAt(w, fs, first, i, p, b, j, q);
    }
    forall j, q | Place(fs, j, q) && Data(q) && 0 < A(w, fs, j, q) < |fs.disk|
      ensures g.disk[A(w, fs, j, q)] == fs.disk[A(w, fs, j, q)]
    {
      GrowData(w, fs, first, i, p, b, j, q);
    }
  }

  // Bytes in blocks that were there are unchanged.
  lemma ExtendsByte(w: Codec, fs: FS, g: FS, first: nat, i: nat, chain: set<Path>, j: nat, k: nat)
    requires Tree(w, fs, first) && Extends(w, fs, g, i, chain)
    requires j < |fs.inodes| && k < MAXBYTES && A(w, fs, j, PathOf(k / BSIZE)) != 0
    ensures Byte(w, g, j, k) == Byte(w, fs, j, k)
  {
    var p := PathOf(k / BSIZE);
    assert Place(fs, j, p);
    assert A(w, g, j, p) == A(w, fs, j, p);
  }

  // ---------------------------------------------------------------- one piece of a write

  // Other files are as they were: same inode, same places, same data.
  ghost predicate OthersKept(w: Codec, fs: FS, g: FS, i: nat) {
    && |g.inodes| == |fs.inodes| && |g.disk| == |fs.disk|
    && (forall j :: 0 <= j < |fs.inodes| && j != i ==> g.inodes[j] == fs.inodes[j])
    && (forall j, q :: j != i && Place(fs, j, q) ==> Place(g, j, q) && A(w, g, j, q) == A(w, fs, j, q))
    && (forall j, q :: j != i && Place(fs, j, q) && Data(q) && 0 < A(w, fs, j, q) < |fs.disk| ==>
          g.disk[A(w, fs, j, q)] == fs.disk[A(w, fs, j, q)])
  }

  lemma OthersTrans(w: Codec, fs: FS, g: FS, h: FS, i: nat)
    requires OthersKept(w, fs, g, i) && OthersKept(w, g, h, i)
    ensures OthersKept(w, fs, h, i)
  {
    forall j, q | j != i && Place(fs, j, q) && Data(q) && 0 < A(w, fs, j, q) < |fs.disk|
      ensures h.disk[A(w, fs, j, q)] == fs.disk[A(w, fs, j, q)]
    {
      assert Place(g, j, q) && A(w, g, j, q) == A(w, fs, j, q);
    }
  }

  lemma ExtendsOthers(w: Codec, fs: FS, g: FS, i: nat, chain: set<Path>)
    requires Extends(w, fs, g, i, chain)
    ensures OthersKept(w, fs, g, i)
  {
  }

  lemma OthersContents(w: Codec, fs: FS, g: FS, first: nat, i: nat, j: nat, m: nat)
    requires Tree(w, fs, first) && Shape(g, first) && OthersKept(w, fs, g, i) && j != i && j < |fs.inodes|
    requires Solid(w, fs, j, m)
    ensures Solid(w, g, j, m)
    ensures Contents(w, g, j) == Contents(w, fs, j)
  {
    forall p | Node(p) ensures A(w, g, j, p) == A(w, fs, j, p) {
      assert Place(fs, j, p);
    }
    forall k | 0 <= k < fs.inodes[j].size ensures Byte(w, g, j, k) == Byte(w, fs, j, k) {
      if k < MAXBYTES {
        assert Place(fs, j, PathOf(k / BSIZE));
      }
    }
  }

  // The places bmap may have to fill to give logical block bn an address.
  function Chain(bn: nat): (r: set<Path>)
    requires bn < MAXFILE
  {
    match PathOf(bn)
    case Direct(i) => {Direct(i)}
    case Ind(i) => {Single, Ind(i)}
    case Leaf(j, k) => {Double, Table(j), Leaf(j, k)}
  }

  // The places that start with block bn are on its chain, and those on it start at or before it.
  lemma ChainStarts(bn: nat, p: Path)
    requires bn < MAXFILE && Node(p)
    ensures FirstOf(p) == bn ==> p in Chain(bn)
    ensures p in Chain(bn) ==> FirstOf(p) <= bn
  {
    if Data(p) {
      PathBijection(bn, p);
    }
  }

  // An index block is there when something below it is.
  lemma ChainThere(w: Codec, fs: FS, i: nat, bn: nat, p: Path)
    requires bn < MAXFILE && Place(fs, i, p) && p in Chain(bn) && A(w, fs, i, PathOf(bn)) != 0
    ensures A(w, fs, i, p) != 0
  {
  }

  // Filling the places of logical block bn adds what it needs and no more.
  lemma ExtendsSolid(w: Codec, fs: FS, g: FS, i: nat, bn: nat, m: nat)
    requires bn <= m && bn < MAXFILE && Extends(w, fs, g, i, Chain(bn)) && Solid(w, fs, i, m)
    requires A(w, g, i, PathOf(bn)) != 0
    ensures Solid(w, g, i, if bn < m then m else bn + 1)
  {
    forall p | Node(p) ensures A(w, g, i, p) != 0 <==> FirstOf(p) < (if bn < m then m else bn + 1) {
      assert Place(fs, i, p) && Place(g, i, p);
      ChainStarts(bn, p);
      if p in Chain(bn) {
        ChainThere(w, g, i, bn, p);
      }
    }
  }

  // Bytes of a block with `data` copied in at offset o.
  function Patched(b: Block, o: nat, data: seq<Octet>): (r: Block)
    requires |b| == BSIZE && o + |data| <= BSIZE
    ensures |r| == BSIZE
    ensures forall k :: 0 <= k < BSIZE ==> r[k] == if o <= k < o + |data| then data[k - o] else b[k]
  {
    b[..o] + data + b[o + |data|..]
  }

  function PatchedFS(w: Codec, fs: FS, i: nat, bn: nat, o: nat, data: seq<Octet>): (g: FS)
    requires bn < MAXFILE && Place(fs, i, PathOf(bn)) && 0 < A(w, fs, i, PathOf(bn)) < |fs.disk|
    requires |fs.disk[A(w, fs, i, PathOf(bn))]| == BSIZE && o + |data| <= BSIZE
  {
    var a := A(w, fs, i, PathOf(bn));
    fs.(disk := fs.disk[a := Patched(fs.disk[a], o, data)])
  }

  lemma PatchOthers(w: Codec, fs: FS, first: nat, i: nat, bn: nat, o: nat, data: seq<Octet>)
    requires Tree(w, fs, first) && bn < MAXFILE && Place(fs, i, PathOf(bn)) && o + |data| <= BSIZE
    requires 0 < A(w, fs, i, PathOf(bn)) < |fs.disk|
    ensures Tree(w, PatchedFS(w, fs, i, bn, o, data), first)
    ensures OthersKept(w, fs, PatchedFS(w, fs, i, bn, o, data), i)
    ensures forall q :: Place(fs, i, q) ==> A(w, PatchedFS(w, fs, i, bn, o, data), i, q) == A(w, fs, i, q)
  {
    var p := PathOf(bn);
    var a := A(w, fs, i, p);
    var g := PatchedFS(w, fs, i, bn, o, data);
    var b := Patched(fs.disk[a], o, data);
    DataWriteTree(w, fs, first, i, p, b);
    forall j, q | Place(fs, j, q) ensures A(w, g, j, q) == A(w, fs, j, q) {
      DataWriteAt(w, fs, first, i, p, b, j, q);
    }
    forall j, q | j != i && Place(fs, j, q) && Data(q) && 0 < A(w, fs, j, q) < |fs.disk|
      ensures g.disk[A(w, fs, j, q)] == fs.disk[A(w, fs, j, q)]
    {
      if A(w, fs, j, q) == a {
        OnePlace(w, fs, first, j, q, i, p);
      }
    }
  }

  // Byte k of the file is patched exactly when it lies in the piece written.
  lemma PatchByte(w: Codec, fs: FS, first: nat, i: nat, bn: nat, o: nat, data: seq<Octet>, k: nat)
    requires Tree(w, fs, first) && bn < MAXFILE && Place(fs, i, PathOf(bn)) && o + |data| <= BSIZE
    requires 0 < A(w, fs, i, PathOf(bn)) < |fs.disk| && k < MAXBYTES
    ensures Byte(w, PatchedFS(w, fs, i, bn, o, data), i, k)
         == if bn * BSIZE + o <= k < bn * BSIZE + o + |data| then data[k - bn * BSIZE - o] else Byte(w, fs, i, k)
  {
    var p, q := PathOf(bn), PathOf(k / BSIZE);
    PatchOthers(w, fs, first, i, bn, o, data);
    assert Place(fs, i, q);
    if A(w, fs, i, q) == A(w, fs, i, p) {
      OnePlace(w, fs, first, i, q, i, p);
      PathBijection(bn, p);
      PathBijection(k / BSIZE, q);
      assert k / BSIZE == bn;
    }
  }
}
