/** What itrunc leaves: the tree of one inode gone, all others as they were. */
module FileTrunc {
  import opened FileTree
  import opened FileContents

  // The blocks in the tree of inode i: data and index blocks alike.
  ghost function TreeBlocks(fs: FS, i: nat): (r: set<int>) {
    set b | b in fs.owner && fs.owner[b].inum == i
  }

  ghost function FreeSet(used: seq<bool>): (r: set<int>) {
    set b: int | 0 <= b < |used| && !used[b]
  }

  // Exactly the blocks that hang somewhere under the inode.
  lemma TreeBlocksAre(w: Codec, fs: FS, first: nat, i: nat, b: int)
    requires Tree(w, fs, first) && i < |fs.inodes|
    ensures b in TreeBlocks(fs, i) <==> b != 0 && exists p :: Place(fs, i, p) && A(w, fs, i, p) == b
  {
    if b in TreeBlocks(fs, i) {
      assert Place(fs, i, fs.owner[b].path) && A(w, fs, i, fs.owner[b].path) == b;
    }
  }

  function EmptyInode(kind: Kind): (ip: Inode)
    ensures |ip.addrs| == NDIRECT + 2 && ip.size == 0
    ensures forall k :: 0 <= k < |ip.addrs| ==> ip.addrs[k] == 0
  {
    Inode(kind, seq(NDIRECT + 2, k => 0), 0)
  }

  // The blocks at the places in ps have been freed, and nothing else.
  ghost predicate Freed(fs: FS, used: seq<bool>, i: nat, ps: set<Path>) {
    && |used| == |fs.used|
    && forall b :: 0 <= b < |used| ==>
         (used[b] <==> fs.used[b] && !(b in fs.owner && fs.owner[b].inum == i && fs.owner[b].path in ps))
  }

  // Only the double-indirect block of inode i may have changed.
  ghost predicate AlmostSame(w: Codec, fs: FS, d: seq<Block>, i: nat)
    requires Place(fs, i, Double)
  {
    && |d| == |fs.disk| && (forall b :: 0 <= b < |d| ==> |d[b]| == BSIZE)
    && forall b :: 0 <= b < |d| && (b != A(w, fs, i, Double) || b == 0) ==> d[b] == fs.disk[b]
  }

  function Truncated(fs: FS, d: seq<Block>, used: seq<bool>, i: nat): (g: FS)
    requires i < |fs.inodes|
  {
    FS(d, used, fs.inodes[i := EmptyInode(fs.inodes[i].kind)], map b | b in fs.owner && fs.owner[b].inum != i :: fs.owner[b])
  }

  ghost predicate Emptied(w: Codec, fs: FS, d: seq<Block>, used: seq<bool>, i: nat, ps: set<Path>) {
    && Place(fs, i, Double) && AlmostSame(w, fs, d, i) && Freed(fs, used, i, ps)
    && forall p :: Place(fs, i, p) && A(w, fs, i, p) != 0 ==> p in ps
  }

  // Other trees do not pass through the block that changed.
  lemma TruncatedAt(w: Codec, fs: FS, first: nat, d: seq<Block>, used: seq<bool>, i: nat, j: nat, q: Path)
    requires Tree(w, fs, first) && Place(fs, i, Double) && AlmostSame(w, fs, d, i) && Place(fs, j, q)
    ensures A(w, Truncated(fs, d, used, i), j, q) == if j == i then 0 else A(w, fs, j, q)
    decreases q.Leaf?, !Root(q)
  {
    var g := Truncated(fs, d, used, i);
    AtByParent(w, g, j, q);
    AtByParent(w, fs, j, q);
    if !Root(q) {
      TruncatedAt(w, fs, first, d, used, i, j, Parent(q));
      if j != i && A(w, fs, j, Parent(q)) != 0 && A(w, fs, j, Parent(q)) == A(w, fs, i, Double) {
        OnePlace(w, fs, first, j, Parent(q), i, Double);
      }
    }
  }

  lemma TruncatedTree(w: Codec, fs: FS, first: nat, d: seq<Block>, used: seq<bool>, i: nat, ps: set<Path>)
    requires Tree(w, fs, first) && i < |fs.inodes| && Emptied(w, fs, d, used, i, ps)
    ensures Tree(w, Truncated(fs, d, used, i), first)
  {
    var g := Truncated(fs, d, used, i);
    forall j, q | Place(fs, j, q) ensures A(w, g, j, q) == if j == i then 0 else A(w, fs, j, q) {
      TruncatedAt(w, fs, first, d, used, i, j, q);
    }
    assert forall j, q :: Place(g, j, q) ==> Place(fs, j, q);
    assert Marked(g, first) by {
      forall b | 0 <= b < |used| ensures used[b] <==> b < first || b in g.owner {
        assert b in fs.owner ==> Place(fs, fs.owner[b].inum, fs.owner[b].path);
      }
    }
    assert Found(w, g, first) by {
      forall b | b in g.owner
        ensures first <= b < |g.disk| && Place(g, g.owner[b].inum, g.owner[b].path)
             && A(w, g, g.owner[b].inum, g.owner[b].path) == b
      {
        assert Place(fs, fs.owner[b].inum, fs.owner[b].path);
      }
    }
  }

  lemma TruncatedOthers(w: Codec, fs: FS, first: nat, d: seq<Block>, used: seq<bool>, i: nat)
    requires Tree(w, fs, first) && i < |fs.inodes| && Place(fs, i, Double) && AlmostSame(w, fs, d, i)
    ensures OthersKept(w, fs, Truncated(fs, d, used, i), i)
  {
    var g := Truncated(fs, d, used, i);
    forall j, q | j != i && Place(fs, j, q) ensures Place(g, j, q) && A(w, g, j, q) == A(w, fs, j, q) {
      TruncatedAt(w, fs, first, d, used, i, j, q);
    }
    forall j, q | j != i && Place(fs, j, q) && Data(q) && 0 < A(w, fs, j, q) < |fs.disk|
      ensures g.disk[A(w, fs, j, q)] == fs.disk[A(w, fs, j, q)]
    {
      if A(w, fs, j, q) == A(w, fs, i, Double) {
        OnePlace(w, fs, first, j, q, i, Double);
      }
    }
  }

  // The free blocks are the old ones and the tree's, which were not free.
  lemma FreedCount(w: Codec, fs: FS, first: nat, d: seq<Block>, used: seq<bool>, i: nat, ps: set<Path>)
    requires Tree(w, fs, first) && i < |fs.inodes| && Emptied(w, fs, d, used, i, ps)
    ensures FreeSet(used) == FreeSet(fs.used) + TreeBlocks(fs, i)
    ensures FreeSet(fs.used) !! TreeBlocks(fs, i)
    ensures |FreeSet(used)| == |FreeSet(fs.used)| + |TreeBlocks(fs, i)|
  {
    forall b | b in fs.owner && fs.owner[b].inum == i ensures fs.owner[b].path in ps && first <= b < |fs.used| {
      assert Place(fs, fs.owner[b].inum, fs.owner[b].path);
    }
  }

  // The one block that may have changed is free.
  lemma UsedSame(w: Codec, fs: FS, first: nat, d: seq<Block>, used: seq<bool>, i: nat, ps: set<Path>, b: int)
    requires Tree(w, fs, first) && i < |fs.inodes| && Emptied(w, fs, d, used, i, ps) && 0 <= b < |used| && used[b]
    ensures b < |d| && b < |fs.disk| && d[b] == fs.disk[b]
  {
    assert Place(fs, i, Double);
  }
}
