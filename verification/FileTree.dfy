/**
 The block tree of an inode: eleven direct blocks, one block of addresses, and one block of
 addresses of such blocks.  This module gives the tree as a function from places in it
 (`Path`) to block numbers, says who owns each block, and shows what storing one fresh block
 number in the tree changes.
 */
module FileTree {

  // A byte.
  type Octet = b: int | 0 <= b < 0x100

  type Block = seq<Octet>

  const BSIZE: nat := 512
  const NDIRECT: nat := 11
  const NINDIRECT: nat := 128
  const MAXFILE: nat := NDIRECT + NINDIRECT + NINDIRECT * NINDIRECT
  const WORD: nat := 0x1_0000_0000

  function Zeros(): (b: Block)
    ensures |b| == BSIZE && forall k :: 0 <= k < BSIZE ==> b[k] == 0
  {
    seq(BSIZE, i => 0)
  }

  /**
   How a block of bytes is read and written as an array of addresses.  Everything below
   holds for any such reading that keeps the laws; Words.dfy shows that of the machine does.
   */
  datatype Codec = Codec(get: (Block, int) -> int, put: (Block, int, int) -> Block)

  ghost predicate Lawful(w: Codec) {
    && (forall b, i, v :: |b| == BSIZE && 0 <= i < NINDIRECT && 0 <= v < WORD ==>
          |w.put(b, i, v)| == BSIZE && w.get(w.put(b, i, v), i) == v)
    && (forall b, i, v, j :: |b| == BSIZE && 0 <= i < NINDIRECT && 0 <= v < WORD && 0 <= j < NINDIRECT && i != j ==>
          w.get(w.put(b, i, v), j) == w.get(b, j))
    && (forall i :: 0 <= i < NINDIRECT ==> w.get(Zeros(), i) == 0)
  }

  type Short = v: int | -0x8000 <= v < 0x8000

  // What an inode says of its file besides where it lies: what it is, and how many names it has.
  datatype Kind = Kind(typ: Short, major: Short, minor: Short, nlink: Short)

  // The last two addresses are those of the indirect and the double-indirect block.
  datatype Inode = Inode(kind: Kind, addrs: seq<int>, size: nat)

  datatype Path =
    | Direct(i: nat)
    | Single                    // the indirect block
    | Double                    // the double-indirect block
    | Ind(i: nat)               // data, through the indirect block
    | Table(j: nat)             // an index block, through the double-indirect block
    | Leaf(j: nat, k: nat)      // data, through table j

  predicate Node(p: Path) {
    match p
    case Direct(i) => i < NDIRECT
    case Ind(i) => i < NINDIRECT
    case Table(j) => j < NINDIRECT
    case Leaf(j, k) => j < NINDIRECT && k < NINDIRECT
    case _ => true
  }

  predicate Data(p: Path) {
    p.Direct? || p.Ind? || p.Leaf?
  }

  // The first logical block at or below a place: for a data place, the one it holds.
  function FirstOf(p: Path): (bn: nat)
    requires Node(p)
    ensures bn < MAXFILE
  {
    match p
    case Direct(i) => i
    case Single => NDIRECT
    case Double => NDIRECT + NINDIRECT
    case Ind(i) => NDIRECT + i
    case Table(j) => NDIRECT + NINDIRECT + j * NINDIRECT
    case Leaf(j, k) => NDIRECT + NINDIRECT + j * NINDIRECT + k
  }

  // Where logical block bn of a file hangs in the tree.
  function PathOf(bn: nat): (p: Path)
    requires bn < MAXFILE
    ensures Node(p) && Data(p) && FirstOf(p) == bn
  {
    if bn < NDIRECT then Direct(bn)
    else if bn < NDIRECT + NINDIRECT then Ind(bn - NDIRECT)
    else
      var r := bn - NDIRECT - NINDIRECT;
      Leaf(r / NINDIRECT, r % NINDIRECT)
  }

  // The data places are exactly the logical blocks below MAXFILE, one each.
  lemma PathBijection(bn: nat, p: Path)
    requires bn < MAXFILE && Node(p) && Data(p)
    ensures FirstOf(PathOf(bn)) == bn && PathOf(FirstOf(p)) == p
  {
    if p.Leaf? {
      assert (p.j * NINDIRECT + p.k) / NINDIRECT == p.j;
      assert (p.j * NINDIRECT + p.k) % NINDIRECT == p.k;
    }
  }

  datatype Own = Own(inum: nat, path: Path)

  /**
   `owner` says which place of which inode holds a block; it is what the invariant needs to
   say that no block hangs in two places.
   */
  datatype FS = FS(disk: seq<Block>, used: seq<bool>, inodes: seq<Inode>, owner: map<int, Own>)

  // Entry i of the index block at address a; address 0 stands for no block.
  function Entry(w: Codec, d: seq<Block>, a: int, i: int): (r: int) {
    if 0 < a < |d| then w.get(d[a], i) else 0
  }

  function At(w: Codec, d: seq<Block>, ip: Inode, p: Path): (r: int)
    requires Node(p) && |ip.addrs| == NDIRECT + 2
  {
    match p
    case Direct(i) => ip.addrs[i]
    case Single => ip.addrs[NDIRECT]
    case Double => ip.addrs[NDIRECT + 1]
    case Ind(i) => Entry(w, d, ip.addrs[NDIRECT], i)
    case Table(j) => Entry(w, d, ip.addrs[NDIRECT + 1], j)
    case Leaf(j, k) => Entry(w, d, Entry(w, d, ip.addrs[NDIRECT + 1], j), k)
  }

  // Sizes, and the blocks before `first` (boot, super, log, inodes, bitmap) always in use.
  ghost predicate Shape(fs: FS, first: nat) {
    && 0 < first <= |fs.disk| < WORD && |fs.used| == |fs.disk|
    && (forall b :: 0 <= b < |fs.disk| ==> |fs.disk[b]| == BSIZE)
    && (forall i :: 0 <= i < |fs.inodes| ==> |fs.inodes[i].addrs| == NDIRECT + 2)
  }

  ghost predicate Place(fs: FS, i: nat, p: Path) {
    i < |fs.inodes| && |fs.inodes[i].addrs| == NDIRECT + 2 && Node(p)
  }

  function A(w: Codec, fs: FS, i: nat, p: Path): (r: int)
    requires Place(fs, i, p)
  {
    At(w, fs.disk, fs.inodes[i], p)
  }

  // Every block in the tree is owned by the place that holds it.
  ghost predicate Held(w: Codec, fs: FS, first: nat) {
    forall i, p :: Place(fs, i, p) && A(w, fs, i, p) != 0 ==>
      A(w, fs, i, p) in fs.owner && fs.owner[A(w, fs, i, p)] == Own(i, p)
  }

  // Every owned block is a data-region block found at the place that owns it.
  ghost predicate Found(w: Codec, fs: FS, first: nat) {
    forall b :: b in fs.owner ==>
      && first <= b < |fs.disk|
      && Place(fs, fs.owner[b].inum, fs.owner[b].path)
      && A(w, fs, fs.owner[b].inum, fs.owner[b].path) == b
  }

  // The bitmap marks exactly the metadata and the owned blocks.
  ghost predicate Marked(fs: FS, first: nat) {
    |fs.used| == |fs.disk| &&
    forall b :: 0 <= b < |fs.used| ==> (fs.used[b] <==> b < first || b in fs.owner)
  }

  ghost predicate Tree(w: Codec, fs: FS, first: nat) {
    Shape(fs, first) && Held(w, fs, first) && Found(w, fs, first) && Marked(fs, first)
  }

  // No block hangs in two places.
  lemma OnePlace(w: Codec, fs: FS, first: nat, i: nat, p: Path, j: nat, q: Path)
    requires Tree(w, fs, first) && Place(fs, i, p) && Place(fs, j, q)
    requires A(w, fs, i, p) == A(w, fs, j, q) != 0
    ensures i == j && p == q
  {
  }

  // ---------------------------------------------------------------- hanging a fresh block

  predicate Root(p: Path) {
    p.Direct? || p.Single? || p.Double?
  }

  function RootSlot(p: Path): (r: nat)
    requires Node(p) && Root(p)
    ensures r < NDIRECT + 2
  {
    match p
    case Direct(i) => i
    case Single => NDIRECT
    case Double => NDIRECT + 1
  }

  function Parent(p: Path): (r: Path)
    requires Node(p) && !Root(p)
    ensures Node(r) && !Data(r)
  {
    match p
    case Ind(_) => Single
    case Table(_) => Double
    case Leaf(j, _) => Table(j)
  }

  function Index(p: Path): (r: nat)
    requires Node(p) && !Root(p)
    ensures r < NINDIRECT
  {
    match p
    case Ind(i) => i
    case Table(j) => j
    case Leaf(_, k) => k
  }

  // An entry of the tree is a slot of the inode or an entry of the parent's block.
  lemma AtByParent(w: Codec, fs: FS, i: nat, p: Path)
    requires Place(fs, i, p)
    ensures Root(p) ==> A(w, fs, i, p) == fs.inodes[i].addrs[RootSlot(p)]
    ensures !Root(p) ==> A(w, fs, i, p) == Entry(w, fs.disk, A(w, fs, i, Parent(p)), Index(p))
  {
  }

  // b is free, and place p of inode i is empty but its parent is there.
  ghost predicate CanGrow(w: Codec, fs: FS, first: nat, i: nat, p: Path, b: int) {
    && Lawful(w) && Tree(w, fs, first) && Place(fs, i, p) && A(w, fs, i, p) == 0
    && (!Root(p) ==> A(w, fs, i, Parent(p)) != 0)
    && 0 <= b < |fs.used| && !fs.used[b]
  }

  // balloc has returned b, zeroed, and b is stored at place p.
  function Grow(w: Codec, fs: FS, i: nat, p: Path, b: int): (r: FS)
    requires Place(fs, i, p) && 0 <= b < |fs.disk| == |fs.used|
    requires !Root(p) ==> 0 <= A(w, fs, i, Parent(p)) < |fs.disk|
  {
    var d := fs.disk[b := Zeros()];
    var ip := fs.inodes[i];
    var g := FS(d, fs.used[b := true], fs.inodes, fs.owner[b := Own(i, p)]);
    if Root(p) then g.(inodes := fs.inodes[i := ip.(addrs := ip.addrs[RootSlot(p) := b])])
    else
      var a := A(w, fs, i, Parent(p));
      g.(disk := d[a := w.put(d[a], Index(p), b)])
  }

  lemma GrowOk(w: Codec, fs: FS, first: nat, i: nat, p: Path, b: int)
    requires CanGrow(w, fs, first, i, p, b)
    ensures first <= b < |fs.disk| && b !in fs.owner
    ensures !Root(p) ==> first <= A(w, fs, i, Parent(p)) < |fs.disk| && A(w, fs, i, Parent(p)) != b
  {
  }

  // Reading an entry of an index block after the change.
  lemma GrowEntry(w: Codec, fs: FS, first: nat, i: nat, p: Path, b: int, j: nat, q: Path, k: nat)
    requires CanGrow(w, fs, first, i, p, b) && Place(fs, j, q) && k < NINDIRECT
    ensures 0 <= b < |fs.disk| == |fs.used|
    ensures !Root(p) ==> 0 <= A(w, fs, i, Parent(p)) < |fs.disk|
    ensures Entry(w, Grow(w, fs, i, p, b).disk, A(w, fs, j, q), k)
         == if !Root(p) && j == i && q == Parent(p) && k == Index(p) then b
            else Entry(w, fs.disk, A(w, fs, j, q), k)
  {
    GrowOk(w, fs, first, i, p, b);
    var a := A(w, fs, j, q);
    if a != 0 && !Root(p) && a == A(w, fs, i, Parent(p)) {
      OnePlace(w, fs, first, j, q, i, Parent(p));
    }
  }

  lemma GrowAt(w: Codec, fs: FS, first: nat, i: nat, p: Path, b: int, j: nat, q: Path)
    requires CanGrow(w, fs, first, i, p, b) && Place(fs, j, q)
    ensures 0 <= b < |fs.disk| == |fs.used|
    ensures !Root(p) ==> 0 <= A(w, fs, i, Parent(p)) < |fs.disk|
    ensures A(w, Grow(w, fs, i, p, b), j, q) == if j == i && q == p then b else A(w, fs, j, q)
    decreases q.Leaf?, !Root(q)
  {
    GrowOk(w, fs, first, i, p, b);
    var g := Grow(w, fs, i, p, b);
    AtByParent(w, g, j, q);
    AtByParent(w, fs, j, q);
    if !Root(q) {
      GrowAt(w, fs, first, i, p, b, j, Parent(q));
      GrowEntry(w, fs, first, i, p, b, j, Parent(q), Index(q));
    }
  }

  // Every block of a tree is owned by its place, the new one too.
  lemma GrowHeld(w: Codec, fs: FS, first: nat, i: nat, p: Path, b: int)
    requires CanGrow(w, fs, first, i, p, b)
    ensures 0 <= b < |fs.disk| == |fs.used|
    ensures !Root(p) ==> 0 <= A(w, fs, i, Parent(p)) < |fs.disk|
    ensures Held(w, Grow(w, fs, i, p, b), first) && Found(w, Grow(w, fs, i, p, b), first)
  {
    GrowOk(w, fs, first, i, p, b);
    hide A, Marked, Lawful;
    var g := Grow(w, fs, i, p, b);
    forall j, q | Place(g, j, q)
      ensures Place(fs, j, q) && A(w, g, j, q) == if j == i && q == p then b else A(w, fs, j, q)
    {
      assert Place(fs, j, q);
      GrowAt(w, fs, first, i, p, b, j, q);
    }
    forall c | c in g.owner
      ensures first <= c < |g.disk| && Place(g, g.owner[c].inum, g.owner[c].path)
           && A(w, g, g.owner[c].inum, g.owner[c].path) == c
    {
      assert c != b ==> Place(fs, fs.owner[c].inum, fs.owner[c].path);
    }
  }

  lemma GrowTree(w: Codec, fs: FS, first: nat, i: nat, p: Path, b: int)
    requires CanGrow(w, fs, first, i, p, b)
    ensures 0 <= b < |fs.disk| == |fs.used|
    ensures !Root(p) ==> 0 <= A(w, fs, i, Parent(p)) < |fs.disk|
    ensures Tree(w, Grow(w, fs, i, p, b), first)
  {
    hide Held, Found, A;
    GrowOk(w, fs, first, i, p, b);
    GrowHeld(w, fs, first, i, p, b);
  }

  // Growing a tree touches no data block that was in one.
  lemma GrowData(w: Codec, fs: FS, first: nat, i: nat, p: Path, b: int, j: nat, q: Path)
    requires CanGrow(w, fs, first, i, p, b) && Place(fs, j, q) && Data(q) && A(w, fs, j, q) != 0
    ensures 0 <= b < |fs.disk| == |fs.used|
    ensures !Root(p) ==> 0 <= A(w, fs, i, Parent(p)) < |fs.disk|
    ensures first <= A(w, fs, j, q) < |fs.disk|
    ensures Grow(w, fs, i, p, b).disk[A(w, fs, j, q)] == fs.disk[A(w, fs, j, q)]
  {
    GrowOk(w, fs, first, i, p, b);
    if !Root(p) && A(w, fs, j, q) == A(w, fs, i, Parent(p)) {
      OnePlace(w, fs, first, j, q, i, Parent(p));
    }
  }

  // ---------------------------------------------------------------- writing data

  // Changing one data block changes no address in any tree.
  lemma DataWriteAt(w: Codec, fs: FS, first: nat, i: nat, p: Path, data: Block, j: nat, q: Path)
    requires Tree(w, fs, first) && Place(fs, i, p) && Data(p) && A(w, fs, i, p) != 0 && |data| == BSIZE
    requires Place(fs, j, q)
    ensures first <= A(w, fs, i, p) < |fs.disk|
    ensures A(w, fs.(disk := fs.disk[A(w, fs, i, p) := data]), j, q) == A(w, fs, j, q)
    decreases q.Leaf?, !Root(q)
  {
    var a := A(w, fs, i, p);
    var g := fs.(disk := fs.disk[a := data]);
    AtByParent(w, g, j, q);
    AtByParent(w, fs, j, q);
    if !Root(q) {
      DataWriteAt(w, fs, first, i, p, data, j, Parent(q));
      if A(w, fs, j, Parent(q)) == a {
        OnePlace(w, fs, first, j, Parent(q), i, p);
      }
    }
  }

  lemma DataWriteTree(w: Codec, fs: FS, first: nat, i: nat, p: Path, data: Block)
    requires Tree(w, fs, first) && Place(fs, i, p) && Data(p) && A(w, fs, i, p) != 0 && |data| == BSIZE
    ensures first <= A(w, fs, i, p) < |fs.disk|
    ensures Tree(w, fs.(disk := fs.disk[A(w, fs, i, p) := data]), first)
  {
    var g := fs.(disk := fs.disk[A(w, fs, i, p) := data]);
    forall j, q | Place(g, j, q) ensures A(w, g, j, q) == A(w, fs, j, q) {
      assert Place(fs, j, q);
      DataWriteAt(w, fs, first, i, p, data, j, q);
    }
    forall c | c in g.owner
      ensures first <= c < |g.disk| && Place(g, g.owner[c].inum, g.owner[c].path)
           && A(w, g, g.owner[c].inum, g.owner[c].path) == c
    {
      assert Place(fs, fs.owner[c].inum, fs.owner[c].path);
    }
  }
}
