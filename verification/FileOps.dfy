/** balloc, bfree, bmap, readi, writei, itrunc and iupdate, on the fields they update in place. */
module FileOps {
  import opened FileTree
  import opened FileContents
  import opened FileTrunc
  import opened FileLogs
  import opened FileSteps

  class FileSystem {
    const w: Codec
    const first: nat        // first data block
    const bmapstart: nat
    const inodestart: nat

    var disk: seq<Block>
    var used: seq<bool>     // the bitmap
    var inodes: seq<Inode>  // in memory
    var dinodes: seq<Inode> // on disk
    var logged: set<int>    // blocks passed to log_write in the current transaction
    ghost var owner: map<int, Own>

    ghost function State(): (fs: FS)
      reads this
    {
      FS(disk, used, inodes, owner)
    }

    ghost predicate Sound()
      reads this
    {
      Lawful(w) && Tree(w, State(), first)
    }

    // Inode blocks come before bitmap blocks, and both before the data blocks.
    ghost predicate Layout()
      reads this
    {
      && (forall i :: 0 <= i < |inodes| ==> IBlock(i) < bmapstart)
      && (forall b :: 0 <= b < |disk| ==> BBlock(b) < first)
    }

    // Which block of the bitmap has the bit of block b.
    function BBlock(b: int): (r: int) { bmapstart + b / BPB }

    function IBlock(inum: nat): (r: int) { inodestart + inum / IPB }

    ghost predicate Full()
      reads this
    {
      forall b :: 0 <= b < |used| ==> used[b]
    }

    /**
     The first free block, zeroed and marked; or a panic when there is none.
     */
    method Balloc() returns (b: int, panicked: bool)
      requires |used| == |disk|
      modifies this`disk, this`used, this`logged
      ensures panicked <==> old(Full())
      ensures panicked ==> disk == old(disk) && used == old(used) && logged == old(logged)
      ensures !panicked ==>
        && 0 <= b < old(|used|) && !old(used[b]) && (forall c :: 0 <= c < b ==> old(used[c]))
        && used == old(used)[b := true] && disk == old(disk)[b := Zeros()]
        && logged == old(logged) + {BBlock(b), b}
    {
      b := 0;
      while b < |used|
        invariant 0 <= b && forall c :: 0 <= c < b && c < |used| ==> used[c]
        invariant disk == old(disk) && used == old(used) && logged == old(logged)
      {
        var bi := 0;
        while bi < BPB && b + bi < |used|
          invariant 0 <= bi <= BPB && forall c :: 0 <= c < b + bi && c < |used| ==> used[c]
          invariant disk == old(disk) && used == old(used) && logged == old(logged)
        {
          if !used[b + bi] {
            b := b + bi;
            used := used[b := true];
            logged := logged + {BBlock(b)};
            disk := disk[b := Zeros()];
            logged := logged + {b};
            return b, false;
          }
          bi := bi + 1;
        }
        b := b + BPB;
      }
      return b, true;
    }

    // Allocate a block and store its number at an empty place whose parent exists.
    method AllocAt(i: nat, p: Path) returns (b: int, panicked: bool)
      requires Sound() && Place(State(), i, p) && A(w, State(), i, p) == 0
      requires !Root(p) ==> A(w, State(), i, Parent(p)) != 0
      modifies this`disk, this`used, this`logged, this`inodes, this`owner
      ensures panicked <==> old(Full())
      ensures panicked ==> State() == old(State())
      ensures !panicked ==>
        && CanGrow(w, old(State()), first, i, p, b) && 0 <= b < |old(disk)| == |old(used)|
        && (!Root(p) ==> 0 <= A(w, old(State()), i, Parent(p)) < |old(disk)|)
        && State() == Grow(w, old(State()), i, p, b)
        && logged == old(logged) + {BBlock(b), b}
                     + (if Root(p) then {} else {A(w, old(State()), i, Parent(p))})
    {
      b, panicked := Balloc();
      if panicked { return; }
      GrowOk(w, old(State()), first, i, p, b);
      if Root(p) {
        var ip := inodes[i];
        inodes := inodes[i := ip.(addrs := ip.addrs[RootSlot(p) := b])];
      } else {
        ghost var g := old(State());
        GrowParent(w, g, first, i, p, b);
        var a := At(w, disk, inodes[i], Parent(p));
        disk := disk[a := w.put(disk[a], Index(p), b)];
        logged := logged + {a};
      }
      owner := owner[b := Own(i, p)];
    }

    // The address at place p, allocating a block there if there is none.
    method Fetch(i: nat, p: Path) returns (addr: int, panicked: bool)
      requires Sound() && Place(State(), i, p)
      requires !Root(p) ==> A(w, State(), i, Parent(p)) != 0
      modifies this`disk, this`used, this`logged, this`inodes, this`owner
      ensures panicked <==> old(A(w, State(), i, p) == 0 && Full())
      ensures panicked ==> State() == old(State())
      ensures !panicked ==>
        && Sound() && Place(State(), i, p) && addr == A(w, State(), i, p) != 0
        && Extends(w, old(State()), State(), i, {p})
        && Logs(w, old(State()), State(), i, bmapstart, old(logged), logged)
      ensures !panicked && old(A(w, State(), i, p)) != 0 ==> State() == old(State()) && logged == old(logged)
      ensures !panicked && old(A(w, State(), i, p)) == 0 ==> 0 <= addr < |disk| && (Data(p) ==> disk[addr] == Zeros())
    {
      addr := At(w, disk, inodes[i], p);
      panicked := false;
      if addr == 0 {
        addr, panicked := AllocAt(i, p);
        if !panicked {
          FetchLemma(w, old(State()), first, i, p, addr, bmapstart, old(logged), logged);
        }
      }
    }

    // bmap for a block reached through one index block: first that block, then the entry.
    method FetchThrough(i: nat, p: Path) returns (addr: int, panicked: bool)
      requires Sound() && Place(State(), i, p) && !Root(p)
      requires p.Leaf? ==> A(w, State(), i, Double) != 0
      modifies this`disk, this`used, this`logged, this`inodes, this`owner
      ensures panicked ==> Full() && old(A(w, State(), i, p)) == 0
      ensures !panicked ==>
        && Sound() && Place(State(), i, p) && addr == A(w, State(), i, p) != 0
        && Extends(w, old(State()), State(), i, {Parent(p), p})
        && Logs(w, old(State()), State(), i, bmapstart, old(logged), logged)
      ensures !panicked && old(A(w, State(), i, p)) != 0 ==> State() == old(State()) && logged == old(logged)
      ensures !panicked && old(A(w, State(), i, p)) == 0 ==> 0 <= addr < |disk| && (Data(p) ==> disk[addr] == Zeros())
    {
      hide Tree, Logs, Extends, Lawful;
      AtByParent(w, State(), i, p);
      addr, panicked := Fetch(i, Parent(p));
      if panicked { return; }
      ghost var mid, midlog := State(), logged;
      Elsewhere(w, old(State()), mid, i, {Parent(p)}, p);
      addr, panicked := Fetch(i, p);
      if panicked { return; }
      FetchTwice(w, old(State()), mid, State(), i, {Parent(p)}, {p}, bmapstart, old(logged), midlog, logged);
      assert {Parent(p)} + {p} == {Parent(p), p};
    }

    // bmap for a block behind the double-indirect block.
    method FetchDouble(i: nat, p: Path) returns (addr: int, panicked: bool)
      requires Sound() && Place(State(), i, p) && p.Leaf?
      modifies this`disk, this`used, this`logged, this`inodes, this`owner
      ensures panicked ==> Full() && old(A(w, State(), i, p)) == 0
      ensures !panicked ==>
        && Sound() && Place(State(), i, p) && addr == A(w, State(), i, p) != 0
        && Extends(w, old(State()), State(), i, {Double, Table(p.j), p})
        && Logs(w, old(State()), State(), i, bmapstart, old(logged), logged)
      ensures !panicked && old(A(w, State(), i, p)) != 0 ==> State() == old(State()) && logged == old(logged)
      ensures !panicked && old(A(w, State(), i, p)) == 0 ==> 0 <= addr < |disk| && disk[addr] == Zeros()
    {
      hide Tree, Logs, Extends, Lawful;
      AtByParent(w, State(), i, p);
      addr, panicked := Fetch(i, Double);
      if panicked { return; }
      ghost var mid, midlog := State(), logged;
      Elsewhere(w, old(State()), mid, i, {Double}, p);
      addr, panicked := FetchThrough(i, p);
      if panicked { return; }
      FetchTwice(w, old(State()), mid, State(), i, {Double}, {Parent(p), p}, bmapstart, old(logged), midlog, logged);
      assert {Double} + {Parent(p), p} == {Double, Table(p.j), p};
    }

    /**
     The disk block of logical block bn, allocating it and any index block on the way.  Every
     address already in a tree stays where it is, and a block that was there is left alone.
     */
    method Bmap(i: nat, bn: nat) returns (addr: int, panicked: bool)
      requires Sound() && i < |inodes|
      modifies this`disk, this`used, this`logged, this`inodes, this`owner
      ensures bn >= MAXFILE ==> panicked
      ensures panicked ==> bn >= MAXFILE || (Full() && old(A(w, State(), i, PathOf(bn))) == 0)
      ensures !panicked ==>
        && Sound() && Place(State(), i, PathOf(bn)) && addr == A(w, State(), i, PathOf(bn)) != 0
        && Extends(w, old(State()), State(), i, Chain(bn))
        && Logs(w, old(State()), State(), i, bmapstart, old(logged), logged)
      ensures !panicked && old(A(w, State(), i, PathOf(bn))) != 0 ==> State() == old(State()) && logged == old(logged)
      ensures !panicked && old(A(w, State(), i, PathOf(bn))) == 0 ==> 0 <= addr < |disk| && disk[addr] == Zeros()
    {
      hide Held, Found, Marked, Logs, Extends, Lawful;
      if bn < NDIRECT {
        addr, panicked := Fetch(i, Direct(bn));
        return;
      }
      var n := bn - NDIRECT;
      if n < NINDIRECT {
        addr, panicked := FetchThrough(i, Ind(n));
        return;
      }
      n := n - NINDIRECT;
      if n < NINDIRECT * NINDIRECT {
        addr, panicked := FetchDouble(i, Leaf(n / NINDIRECT, n % NINDIRECT));
        return;
      }
      return 0, true;
    }

    // One turn of the loop of writei: the piece of the write that falls in one block.
    method WritePiece(i: nat, o: nat, data: seq<Octet>, ghost m: nat) returns (panicked: bool)
      requires Sound() && i < |inodes| && Solid(w, State(), i, m)
      requires 0 < |data| <= BSIZE - o % BSIZE && o + |data| <= MAXBYTES && o / BSIZE <= m
      modifies this`disk, this`used, this`logged, this`inodes, this`owner
      ensures panicked ==> Full()
      ensures !panicked ==>
        && Sound() && OthersKept(w, old(State()), State(), i) && inodes[i].size == old(inodes[i].size)
        && Stays(w, old(State()), State(), i)
        && PieceOf(w, old(State()), State(), i, o, data, m)
        && WriteLogs(w, old(State()), State(), i, o / BSIZE, o / BSIZE + 1, bmapstart, old(logged), logged)
    {
      hide Found, Marked, Held, Byte, Solid;
      var bn := o / BSIZE;
      ghost var fs := State();
      var addr;
      addr, panicked := Bmap(i, bn);
      if panicked { return; }
      ghost var g := State();
      OnDisk(w, g, first, i, PathOf(bn));
      disk := disk[addr := Patched(disk[addr], o % BSIZE, data)];
      ghost var mid := logged;
      logged := logged + {addr};
      PieceLemma(w, fs, g, first, i, o, data, m);
      assert State() == PatchedFS(w, g, i, bn, o % BSIZE, data);
      PieceLogs(w, fs, g, State(), i, bn, bmapstart, old(logged), mid, logged);
    }

    /**
     Between operations: every file has exactly the blocks its size needs, and the inodes on
     disk are the inodes in memory.
     */
    ghost predicate Valid()
      reads this
    {
      && Sound() && Layout() && dinodes == inodes
      && AllSolid(w, State())
    }

    ghost function File(i: nat): (s: seq<Octet>)
      requires Valid() && i < |inodes|
      reads this
    {
      Contents(w, State(), i)
    }

    ghost function Files(): (r: seq<seq<Octet>>)
      requires Valid()
      ensures |r| == |inodes| && forall i :: 0 <= i < |inodes| ==> r[i] == File(i)
      reads this
    {
      seq(|inodes|, i requires 0 <= i < |inodes| reads this requires Valid() => File(i))
    }

    method Iupdate(i: nat)
      requires i < |inodes| == |dinodes|
      modifies this`dinodes, this`logged
      ensures dinodes == old(dinodes)[i := inodes[i]] && logged == old(logged) + {IBlock(i)}
    {
      dinodes := dinodes[i := inodes[i]];
      logged := logged + {IBlock(i)};
    }

    // One turn of the loop of readi.
    method ReadPiece(i: nat, o: nat, m: nat) returns (piece: seq<Octet>)
      requires Valid() && i < |inodes| && 0 < m <= BSIZE - o % BSIZE && o + m <= inodes[i].size
      modifies this`disk, this`used, this`logged, this`inodes, this`owner
      ensures Valid() && State() == old(State()) && logged == old(logged)
      ensures piece == File(i)[o..o + m]
    {
      var bn := o / BSIZE;
      assert 0 <= bn < MAXFILE && bn < Blocks(inodes[i].size);
      var addr, panicked := Bmap(i, bn);
      PieceRead(w, State(), first, i, o, m);
      piece := disk[addr][o % BSIZE..o % BSIZE + m];
    }

    // The next piece of a read, up to the end of the block.
    method ReadNext(i: nat, o: nat, left: nat, ghost f: seq<Octet>) returns (m: nat, piece: seq<Octet>)
      requires Valid() && i < |inodes| && 0 < left && o + left <= inodes[i].size && f == File(i)
      modifies this`disk, this`used, this`logged, this`inodes, this`owner
      ensures Valid() && State() == old(State()) && logged == old(logged)
      ensures 0 < m <= left && Slice(piece, f, o, m)
    {
      m := if left < BSIZE - o % BSIZE then left else BSIZE - o % BSIZE;
      piece := ReadPiece(i, o, m);
    }

    // The loop of readi.
    method ReadAll(i: nat, off: nat, len: nat, ghost f: seq<Octet>) returns (dst: seq<Octet>)
      requires Valid() && i < |inodes| && off + len <= inodes[i].size && f == File(i)
      modifies this`disk, this`used, this`logged, this`inodes, this`owner
      ensures State() == old(State()) && logged == old(logged) && Slice(dst, f, off, len)
    {
      dst := [];
      var tot := 0;
      while tot < len
        invariant 0 <= tot <= len && Valid() && State() == old(State()) && logged == old(logged)
        invariant Slice(dst, f, off, tot)
      {
        var m, piece := ReadNext(i, off + tot, len - tot, f);
        SliceMore(dst, f, off, tot, piece, m);
        dst := dst + piece;
        tot := tot + m;
      }
    }

    /**
     Bytes off .. off + n of the file, clipped at its end.  Nothing is allocated and nothing logged.
     */
    method Readi(i: nat, off: nat, n: nat) returns (r: int, dst: seq<Octet>)
      requires Valid() && i < |inodes| && off < WORD && n < WORD
      modifies this`disk, this`used, this`logged, this`inodes, this`owner
      ensures State() == old(State()) && logged == old(logged)
      ensures off > inodes[i].size || off + n >= WORD ==> r == -1 && dst == []
      ensures off <= inodes[i].size && off + n < WORD ==>
        && r == (if off + n > inodes[i].size then inodes[i].size - off else n)
        && dst == File(i)[off..off + r]
    {
      dst := [];
      if off > inodes[i].size || (off + n) % WORD < off {
        return -1, [];
      }
      var len := if off + n > inodes[i].size then inodes[i].size - off else n;
      dst := ReadAll(i, off, len, File(i));
      r := len;
    }

    // From fs, having logged `log0`, the first n bytes of src have been written.
    ghost predicate Progress(fs: FS, log0: set<int>, i: nat, off: nat, src: seq<Octet>, n: nat)
      reads this
    {
      && Sound() && off + |src| <= MAXBYTES && n <= |src|
      && WroteTo(w, fs, State(), i, off, src, n, bmapstart, log0, logged)
    }

    // One turn of the loop of writei, up to the next block boundary or the end.
    method WriteNext(ghost fs: FS, ghost log0: set<int>, i: nat, off: nat, src: seq<Octet>, tot: nat)
      returns (next: nat, panicked: bool)
      requires tot < |src| && Progress(fs, log0, i, off, src, tot)
      requires if tot == 0 then off <= fs.inodes[i].size else Aligned(off + tot)
      modifies this`disk, this`used, this`logged, this`inodes, this`owner
      ensures panicked ==> Full()
      ensures !panicked ==> tot < next <= |src| && Progress(fs, log0, i, off, src, next)
      ensures !panicked && next < |src| ==> Aligned(off + next)
    {
      var o := off + tot;
      var m := if |src| - tot < BSIZE - o % BSIZE then |src| - tot else BSIZE - o % BSIZE;
      next := tot + m;
      PieceEnds(fs.inodes[i].size, off, tot, o, next, |src|);
      ghost var g, glog := State(), logged;
      panicked := WritePiece(i, o, src[tot..next], Covered(fs.inodes[i].size, o));
      if panicked { return; }
      WroteMore(w, fs, g, State(), i, off, src, tot, o, next, bmapstart, log0, glog, logged);
    }

    // The loop of writei.
    method WriteAll(i: nat, off: nat, src: seq<Octet>) returns (panicked: bool)
      requires Valid() && i < |inodes| && off <= inodes[i].size && off + |src| <= MAXBYTES
      modifies this`disk, this`used, this`logged, this`inodes, this`owner
      ensures panicked ==> Full()
      ensures !panicked ==> Progress(old(State()), old(logged), i, off, src, |src|)
    {
      ghost var fs := State();
      WrittenNone(w, fs, first, i, off, src);
      var tot := 0;
      while tot < |src|
        invariant 0 <= tot <= |src| && Progress(fs, old(logged), i, off, src, tot)
        invariant 0 < tot < |src| ==> Aligned(off + tot)
      {
        tot, panicked := WriteNext(fs, old(logged), i, off, src, tot);
        if panicked { return; }
      }
      panicked := false;
    }

    /**
     Write src at off.  The file becomes exactly its old contents with src put at off, growing
     if src ends past its end; every other file is untouched.
     */
    method Writei(i: nat, off: nat, src: seq<Octet>) returns (r: int, panicked: bool)
      requires Valid() && i < |inodes| && off < WORD && |src| < WORD
      modifies this`disk, this`used, this`logged, this`inodes, this`owner, this`dinodes
      ensures panicked ==> Full()
      ensures !panicked ==> Valid() && |inodes| == old(|inodes|) && |used| == old(|used|)
      ensures !panicked && (off > old(inodes[i].size) || off + |src| > MAXBYTES) ==>
        r == -1 && State() == old(State()) && logged == old(logged)
      ensures !panicked && off <= old(inodes[i].size) && off + |src| <= MAXBYTES ==>
        && r == |src| && File(i) == Spliced(old(File(i)), off, src)
        && (forall j :: 0 <= j < |inodes| && j != i ==> inodes[j] == old(inodes[j]) && File(j) == old(File(j)))
      ensures !panicked && off <= old(inodes[i].size) && off + |src| <= MAXBYTES ==>
        exists log :: WriteLogs(w, old(State()), State(), i, off / BSIZE, Last(off, |src|), bmapstart, old(logged), log)
          && logged == if off + |src| > old(inodes[i].size) then log + {IBlock(i)} else log
      ensures !panicked ==> ChangesLogged(old(State()), State(), bmapstart, logged)
      ensures !panicked ==> forall j :: 0 <= j < |dinodes| && dinodes[j] != old(dinodes[j]) ==> IBlock(j) in logged
    {
      hide Held, Found, Marked, Solid, Contents, Lawful, ForNew, Spans;
      if off > inodes[i].size || (off + |src|) % WORD < off {
        return -1, false;
      }
      if off + |src| > MAXBYTES {
        return -1, false;
      }
      ghost var fs := State();
      panicked := WriteAll(i, off, src);
      if panicked { return 0, true; }
      ghost var g, glog := State(), logged;
      if |src| > 0 && off + |src| > inodes[i].size {
        inodes := inodes[i := inodes[i].(size := off + |src|)];
        Iupdate(i);
      }
      r := |src|;
      Finished(w, fs, g, State(), first, i, off, src, bmapstart, old(logged), glog);
    }

    // An empty file system: nothing in the data region is in use.
    constructor (w: Codec, first: nat, nblocks: nat, ninodes: nat, bmapstart: nat, inodestart: nat)
      requires Lawful(w) && 0 < first <= nblocks < WORD
      requires ninodes > 0 ==> inodestart + (ninodes - 1) / IPB < bmapstart
      requires bmapstart + (nblocks - 1) / BPB < first
      ensures Valid() && |inodes| == ninodes && |disk| == nblocks && logged == {}
      ensures forall i :: 0 <= i < ninodes ==> inodes[i] == EmptyInode(Kind(0, 0, 0, 0)) && File(i) == []
    {
      this.w, this.first, this.bmapstart, this.inodestart := w, first, bmapstart, inodestart;
      disk := seq(nblocks, b => Zeros());
      used := seq(nblocks, b => b < first);
      inodes := seq(ninodes, i => EmptyInode(Kind(0, 0, 0, 0)));
      dinodes := seq(ninodes, i => EmptyInode(Kind(0, 0, 0, 0)));
      logged := {};
      owner := map[];
      new;
      forall i, p | Place(State(), i, p) ensures A(w, State(), i, p) == 0 {
        AtByParent(w, State(), i, p);
      }
    }

    // Clear the bit of block b; freeing a free block is a panic.
    method Bfree(b: int) returns (panicked: bool)
      requires 0 <= b < |used|
      modifies this`used, this`logged
      ensures panicked <==> !old(used[b])
      ensures panicked ==> used == old(used) && logged == old(logged)
      ensures !panicked ==> used == old(used)[b := false] && logged == old(logged) + {BBlock(b)}
    {
      if !used[b] {
        return true;
      }
      used := used[b := false];
      logged := logged + {BBlock(b)};
      return false;
    }

    // Inside itrunc: from fs, the blocks at the places in ps have been freed.
    ghost predicate Truncating(fs: FS, i: nat, ps: set<Path>)
      reads this
    {
      && Lawful(w) && Tree(w, fs, first) && Place(fs, i, Double) && |inodes| == |fs.inodes|
      && AlmostSame(w, fs, disk, i) && Freed(fs, used, i, ps)
      && |inodes[i].addrs| == NDIRECT + 2
      && forall j :: 0 <= j < |inodes| && j != i ==> inodes[j] == fs.inodes[j]
    }

    // Since `log0` bitmap blocks were logged, and all that differ from fs.
    ghost predicate LogsBitmap(fs: FS, log0: set<int>)
      reads this
    {
      && log0 <= logged && (forall x :: x in logged - log0 ==> IsBitmap(bmapstart, |used|, x))
      && |used| == |fs.used| && (forall b :: 0 <= b < |used| && used[b] != fs.used[b] ==> BBlock(b) in logged)
    }

    method FreeAt(addr: int, ghost fs: FS, ghost log0: set<int>, i: nat, ghost ps: set<Path>, ghost p: Path)
      requires Truncating(fs, i, ps) && LogsBitmap(fs, log0) && Place(fs, i, p) && p !in ps && addr == A(w, fs, i, p)
      modifies this`used, this`logged
      ensures Truncating(fs, i, ps + {p}) && LogsBitmap(fs, log0)
    {
      if addr != 0 {
        assert fs.owner[addr] == Own(i, p);
        var panicked := Bfree(addr);
        assert !panicked;
      }
    }

    method TruncDirect(ghost fs: FS, ghost log0: set<int>, i: nat) returns (ghost ps: set<Path>)
      requires Truncating(fs, i, {}) && LogsBitmap(fs, log0) && inodes[i] == fs.inodes[i]
      modifies this`used, this`logged, this`inodes
      ensures Truncating(fs, i, ps) && LogsBitmap(fs, log0)
      ensures (forall k :: 0 <= k < NDIRECT ==> Direct(k) in ps) && (forall p :: p in ps ==> p.Direct?)
      ensures forall k :: 0 <= k < NDIRECT + 2 ==> inodes[i].addrs[k] == if k < NDIRECT then 0 else fs.inodes[i].addrs[k]
      ensures inodes[i].size == fs.inodes[i].size && inodes[i].kind == fs.inodes[i].kind
    {
      ps := {};
      var k := 0;
      while k < NDIRECT
        invariant 0 <= k <= NDIRECT && Truncating(fs, i, ps) && LogsBitmap(fs, log0)
        invariant (forall l :: 0 <= l < k ==> Direct(l) in ps) && (forall p :: p in ps ==> p.Direct? && p.i < k)
        invariant forall l :: 0 <= l < NDIRECT + 2 ==> inodes[i].addrs[l] == if l < k then 0 else fs.inodes[i].addrs[l]
        invariant inodes[i].size == fs.inodes[i].size && inodes[i].kind == fs.inodes[i].kind
      {
        FreeAt(inodes[i].addrs[k], fs, log0, i, ps, Direct(k));
        inodes := inodes[i := inodes[i].(addrs := inodes[i].addrs[k := 0])];
        ps := ps + {Direct(k)};
        k := k + 1;
      }
    }

    // Free what the index block at place t lists, then the block itself.
    method TruncTable(a: int, ghost fs: FS, ghost log0: set<int>, i: nat, ghost ps: set<Path>, ghost t: Path) returns (ghost qs: set<Path>)
      requires Truncating(fs, i, ps) && LogsBitmap(fs, log0)
      requires (t.Single? || t.Table?) && Place(fs, i, t) && a == A(w, fs, i, t) != 0
      requires t !in ps && forall k :: 0 <= k < NINDIRECT ==> Child(t, k) !in ps
      modifies this`used, this`logged
      ensures Truncating(fs, i, qs) && LogsBitmap(fs, log0)
      ensures ps <= qs && t in qs && forall k :: 0 <= k < NINDIRECT ==> Child(t, k) in qs
      ensures forall p :: p in qs ==> p in ps || p == t || Under(t, p)
    {
      OnePlaceTable(w, fs, first, i, t);
      qs := ps;
      var k := 0;
      while k < NINDIRECT
        invariant 0 <= k <= NINDIRECT && Truncating(fs, i, qs) && LogsBitmap(fs, log0)
        invariant ps <= qs && t !in qs && forall l :: 0 <= l < NINDIRECT ==> (Child(t, l) in qs <==> l < k)
        invariant forall p :: p in qs ==> p in ps || Under(t, p)
      {
        AtByParent(w, fs, i, Child(t, k));
        FreeAt(w.get(disk[a], k), fs, log0, i, qs, Child(t, k));
        qs := qs + {Child(t, k)};
        k := k + 1;
      }
      FreeAt(a, fs, log0, i, qs, t);
      qs := qs + {t};
    }

    // The tables before entry j of the double-indirect block are freed, and the entries from j on
    // are as they were.
    ghost predicate DoubleTo(dbl: int, fs: FS, i: nat, qs: set<Path>, j: nat)
      requires Place(fs, i, Double)
      reads this
    {
      && 0 < dbl < |disk| == |fs.disk| && (forall l :: j <= l < NINDIRECT ==> w.get(disk[dbl], l) == w.get(fs.disk[dbl], l))
      && (forall p :: p in qs ==> !p.Double? && (p.Table? ==> p.j < j) && (p.Leaf? ==> p.j < j))
      && forall l :: 0 <= l < j && Place(fs, i, Table(l)) && A(w, fs, i, Table(l)) != 0 ==> TableDone(qs, l)
    }

    // One turn of the loop: the table at entry j, if there is one, and then the entry.
    method TruncEntry(dbl: int, ghost fs: FS, ghost log0: set<int>, i: nat, ghost ps: set<Path>, j: nat) returns (ghost qs: set<Path>)
      requires Truncating(fs, i, ps) && LogsBitmap(fs, log0) && j < NINDIRECT
      requires dbl == A(w, fs, i, Double) && DoubleTo(dbl, fs, i, ps, j)
      modifies this`used, this`logged, this`disk
      ensures Truncating(fs, i, qs) && LogsBitmap(fs, log0) && ps <= qs && DoubleTo(dbl, fs, i, qs, j + 1)
    {
      hide Tree, Freed;
      qs := ps;
      assert Place(fs, i, Table(j));
      AtByParent(w, fs, i, Table(j));
      var d := w.get(disk[dbl], j);
      if d != 0 {
        qs := TruncTable(d, fs, log0, i, qs, Table(j));
        forall k | 0 <= k < NINDIRECT ensures Leaf(j, k) in qs {
          assert Leaf(j, k) == Child(Table(j), k);
        }
        disk := disk[dbl := w.put(disk[dbl], j, 0)];
      }
    }

    // Everything behind the double-indirect block, then that block.  Its entries are zeroed in
    // the buffer as they go, without log_write.
    method TruncDouble(dbl: int, ghost fs: FS, ghost log0: set<int>, i: nat, ghost ps: set<Path>) returns (ghost qs: set<Path>)
      requires Truncating(fs, i, ps) && LogsBitmap(fs, log0)
      requires dbl == A(w, fs, i, Double) != 0 && disk == fs.disk
      requires forall p :: p in ps ==> !p.Double? && !p.Table? && !p.Leaf?
      modifies this`used, this`logged, this`disk
      ensures Truncating(fs, i, qs) && LogsBitmap(fs, log0)
      ensures ps <= qs && forall p :: Place(fs, i, p) && (p.Double? || p.Table? || p.Leaf?) && A(w, fs, i, p) != 0 ==> p in qs
    {
      qs := ps;
      var j := 0;
      while j < NINDIRECT
        invariant 0 <= j <= NINDIRECT && Truncating(fs, i, qs) && LogsBitmap(fs, log0) && ps <= qs
        invariant DoubleTo(dbl, fs, i, qs, j)
      {
        qs := TruncEntry(dbl, fs, log0, i, qs, j);
        j := j + 1;
      }
      FreeAt(dbl, fs, log0, i, qs, Double);
      qs := qs + {Double};
      forall p | Place(fs, i, p) && (p.Double? || p.Table? || p.Leaf?) && A(w, fs, i, p) != 0 ensures p in qs {
        AtByParent(w, fs, i, p);
      }
    }

    // The indirect block, if there is one.
    method TruncSingle(ghost fs: FS, ghost log0: set<int>, i: nat, ghost ps: set<Path>) returns (ghost qs: set<Path>)
      requires Truncating(fs, i, ps) && LogsBitmap(fs, log0)
      requires inodes[i].addrs[NDIRECT] == fs.inodes[i].addrs[NDIRECT]
      requires forall p :: p in ps ==> p.Direct?
      modifies this`used, this`logged, this`inodes
      ensures Truncating(fs, i, qs) && LogsBitmap(fs, log0)
      ensures inodes == old(inodes)[i := old(inodes[i]).(addrs := old(inodes[i].addrs)[NDIRECT := 0])]
      ensures ps <= qs && (forall p :: p in qs ==> p.Direct? || p.Single? || p.Ind?)
      ensures forall p :: Place(fs, i, p) && (p.Single? || p.Ind?) && A(w, fs, i, p) != 0 ==> p in qs
    {
      var a := inodes[i].addrs[NDIRECT];
      qs := ps;
      assert Place(fs, i, Single);
      if a != 0 {
        qs := TruncTable(a, fs, log0, i, ps, Single);
        forall p | Place(fs, i, p) && p.Ind? ensures p in qs {
          assert p == Child(Single, p.i);
        }
      }
      forall p | Place(fs, i, p) && (p.Single? || p.Ind?) && A(w, fs, i, p) != 0 ensures p in qs {
        AtByParent(w, fs, i, p);
      }
      inodes := inodes[i := inodes[i].(addrs := inodes[i].addrs[NDIRECT := 0])];
    }

    // The three parts of the tree, in turn.
    method TruncAll(ghost fs: FS, i: nat) returns (ghost ps: set<Path>)
      requires Sound() && i < |inodes| && fs == State()
      modifies this`used, this`logged, this`inodes, this`disk
      ensures Emptied(w, fs, disk, used, i, ps) && LogsBitmap(fs, old(logged))
      ensures inodes == fs.inodes[i := EmptyInode(fs.inodes[i].kind)]
    {
      ghost var log0 := logged;
      ps := TruncDirect(fs, log0, i);
      ps := TruncSingle(fs, log0, i, ps);
      var dbl := inodes[i].addrs[NDIRECT + 1];
      if dbl != 0 {
        ps := TruncDouble(dbl, fs, log0, i, ps);
      }
      inodes := inodes[i := inodes[i].(addrs := inodes[i].addrs[NDIRECT + 1 := 0], size := 0)];
      assert inodes[i].addrs == EmptyInode(fs.inodes[i].kind).addrs;
      assert inodes == fs.inodes[i := EmptyInode(fs.inodes[i].kind)];
      AllFreed(w, fs, i, dbl, ps);
    }

    /**
     Discard the contents of inode i.  Exactly the blocks of its tree become free, each once and
     none of them free already; no other file is touched.
     */
    method Itrunc(i: nat)
      requires Valid() && i < |inodes|
      modifies this`disk, this`used, this`logged, this`inodes, this`owner, this`dinodes
      ensures Valid() && |inodes| == old(|inodes|)
      ensures inodes[i] == EmptyInode(old(inodes[i].kind)) && File(i) == []
      ensures forall j :: 0 <= j < |inodes| && j != i ==> inodes[j] == old(inodes[j]) && File(j) == old(File(j))
      ensures FreeSet(used) == old(FreeSet(used)) + TreeBlocks(old(State()), i)
      ensures |FreeSet(used)| == |old(FreeSet(used))| + |TreeBlocks(old(State()), i)|
      ensures forall x :: x in logged - old(logged) ==> x == IBlock(i) || IsBitmap(bmapstart, |used|, x)
      ensures |used| == old(|used|) && |disk| == old(|disk|)
      ensures forall b :: 0 <= b < |disk| && used[b] ==> disk[b] == old(disk[b])
      ensures forall b :: 0 <= b < |used| && used[b] != old(used[b]) ==> BBlock(b) in logged
      ensures forall j :: 0 <= j < |dinodes| && dinodes[j] != old(dinodes[j]) ==> IBlock(j) in logged
    {
      hide Emptied, Tree, AllSolid, Contents, FreeSet, TreeBlocks, Lawful;
      ghost var fs := State();
      ghost var ps := TruncAll(fs, i);
      Iupdate(i);
      owner := Truncated(fs, disk, used, i).owner;
      TruncDone(w, fs, first, disk, used, i, ps);
      assert State() == Truncated(fs, disk, used, i);
    }
  }
}
