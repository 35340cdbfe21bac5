/**
 bio.c over the memory disk of memide.c.  Each method is what runs between taking and dropping
 bcache.lock, or while holding the buffer's own lock; its invariant holds between any two of
 them, so in every interleaving.  Bread and Brelse are such parts one after the other, with nobody
 in between.
 */
module BufCache {
  import opened BufRing

  type Block = seq<int>

  // `locked` is the buffer's sleep lock.
  datatype Buf = Buf(dev: nat, blockno: nat, refcnt: nat, valid: bool, dirty: bool, locked: bool, data: Block)

  const DISK: nat := 1       // the only device there is

  // The disk has the block.
  predicate OnDisk(dev: nat, blockno: nat, disk: seq<Block>) { dev == DISK && blockno < |disk| }

  // What came of bread: the buffer, a wait for it, or a panic.
  datatype Outcome = Has | Waits | Panics

  predicate Is(b: Buf, dev: nat, blockno: nat) { b.dev == dev && b.blockno == blockno }
  predicate SameId(a: Buf, b: Buf) { a.dev == b.dev && a.blockno == b.blockno }

  // In use, or holding a block's contents.
  predicate Live(b: Buf) { b.refcnt > 0 || b.valid }

  predicate Reusable(b: Buf) { b.refcnt == 0 && !b.dirty }

  // Members of the ring are buffers, and all buffers are in it.
  predicate Everyone(order: seq<nat>, n: nat) {
    (forall i :: 0 <= i < |order| ==> order[i] < n) && forall b :: 0 <= b < n ==> b in order
  }

  // Of the buffers that carry one block's number only the first in the ring may be live.
  predicate LiveFirst(bufs: seq<Buf>, order: seq<nat>)
    requires forall i :: 0 <= i < |order| ==> order[i] < |bufs|
  {
    forall i, j :: 0 <= i < j < |order| && SameId(bufs[order[i]], bufs[order[j]]) ==> !Live(bufs[order[j]])
  }

  predicate BufOk(b: Buf, disk: seq<Block>) {
    && (b.valid ==> b.dev == DISK && b.blockno < |disk|)
    && (b.locked ==> b.refcnt > 0)
  }

  // A valid clean buffer holds what the disk holds.
  predicate Agrees(b: Buf, disk: seq<Block>)
    requires BufOk(b, disk)
  {
    b.valid && !b.dirty ==> b.data == disk[b.blockno]
  }

  // No two live buffers carry one block's number.
  lemma Unique(bufs: seq<Buf>, order: seq<nat>, a: nat, b: nat)
    requires Everyone(order, |bufs|) && LiveFirst(bufs, order)
    requires a < |bufs| && b < |bufs| && a != b && Live(bufs[a]) && Live(bufs[b])
    ensures !SameId(bufs[a], bufs[b])
  {
    assert a in order && b in order;
    var i :| 0 <= i < |order| && order[i] == a;
    var j :| 0 <= j < |order| && order[j] == b;
  }

  // Changing what does not decide who is live, or where it is live already.
  lemma LiveSame(bufs: seq<Buf>, order: seq<nat>, b: nat, c: Buf)
    requires Everyone(order, |bufs|) && LiveFirst(bufs, order) && b < |bufs| && SameId(bufs[b], c) && (Live(c) ==> Live(bufs[b]))
    ensures LiveFirst(bufs[b := c], order)
  {
  }

  // Taking the first buffer that carries the number.
  lemma LiveHit(bufs: seq<Buf>, order: seq<nat>, k: nat, c: Buf)
    requires Everyone(order, |bufs|) && LiveFirst(bufs, order) && k < |order| && SameId(bufs[order[k]], c) && Distinct(order, |bufs|)
    requires forall i :: 0 <= i < k ==> !SameId(bufs[order[i]], c)
    ensures LiveFirst(bufs[order[k] := c], order)
  {
  }

  // Giving a buffer a number that no buffer carries.
  lemma LiveFresh(bufs: seq<Buf>, order: seq<nat>, b: nat, c: Buf)
    requires Everyone(order, |bufs|) && LiveFirst(bufs, order) && b < |bufs| && Distinct(order, |bufs|)
    requires forall i :: 0 <= i < |order| ==> !SameId(bufs[order[i]], c)
    ensures LiveFirst(bufs[b := c], order)
  {
  }

  // The ring with the buffer at place k first.
  function Fronted(order: seq<nat>, k: nat): (s: seq<nat>)
    requires k < |order|
    ensures |s| == |order| && s[0] == order[k]
    ensures forall j :: 1 <= j < |s| ==> s[j] == order[if j - 1 < k then j - 1 else j]
  {
    [order[k]] + Without(order, k)
  }

  lemma EveryoneFront(order: seq<nat>, n: nat, k: nat, s: seq<nat>)
    requires Everyone(order, n) && k < |order| && s == Fronted(order, k)
    ensures Everyone(s, n)
  {
    forall b | 0 <= b < n ensures b in s {
      assert b in order;
      var i :| 0 <= i < |order| && order[i] == b;
      assert s[if i == k then 0 else if i < k then i + 1 else i] == b;
    }
  }

  // A live buffer may go to the front.
  lemma LiveFront(bufs: seq<Buf>, order: seq<nat>, k: nat, s: seq<nat>)
    requires (forall i :: 0 <= i < |order| ==> order[i] < |bufs|) && LiveFirst(bufs, order) && k < |order| && Live(bufs[order[k]])
    requires |s| == |order| && s[0] == order[k] && forall j :: 1 <= j < |s| ==> s[j] == order[if j - 1 < k then j - 1 else j]
    ensures (forall i :: 0 <= i < |s| ==> s[i] < |bufs|) && LiveFirst(bufs, s)
  {
    forall i, j | 0 <= i < j < |s| && SameId(bufs[s[i]], bufs[s[j]]) ensures !Live(bufs[s[j]]) {
      var j1 := if j - 1 < k then j - 1 else j;
      var i1 := if i == 0 then k else if i - 1 < k then i - 1 else i;
      assert s[j] == order[j1] && s[i] == order[i1];
    }
  }

  // ---------------------------------------------------------------- what bget looks for

  predicate Miss(bufs: seq<Buf>, dev: nat, blockno: nat) {
    forall b :: 0 <= b < |bufs| ==> !Is(bufs[b], dev, blockno)
  }

  predicate AllBusy(bufs: seq<Buf>) {
    forall b :: 0 <= b < |bufs| ==> !Reusable(bufs[b])
  }

  // b is the first in the ring to carry the number.
  ghost predicate Hit(bufs: seq<Buf>, order: seq<nat>, dev: nat, blockno: nat, b: nat) {
    && b < |bufs| && Is(bufs[b], dev, blockno)
    && exists i :: 0 <= i < |order| && order[i] == b && NoneBefore(bufs, order, dev, blockno, i)
  }

  predicate NoneBefore(bufs: seq<Buf>, order: seq<nat>, dev: nat, blockno: nat, i: nat) {
    i <= |order| && forall j :: 0 <= j < i ==> order[j] < |bufs| && !Is(bufs[order[j]], dev, blockno)
  }

  // b is the least recently used of the buffers that may be reused.
  ghost predicate Oldest(bufs: seq<Buf>, order: seq<nat>, b: nat) {
    && b < |bufs| && Reusable(bufs[b])
    && exists i :: 0 <= i < |order| && order[i] == b && BusyAfter(bufs, order, i)
  }

  predicate BusyAfter(bufs: seq<Buf>, order: seq<nat>, i: nat) {
    forall j :: i < j < |order| ==> order[j] < |bufs| && !Reusable(bufs[order[j]])
  }

  lemma HitAt(bufs: seq<Buf>, order: seq<nat>, dev: nat, blockno: nat, i: nat)
    requires i < |order| && order[i] < |bufs| && Is(bufs[order[i]], dev, blockno) && NoneBefore(bufs, order, dev, blockno, i)
    ensures Hit(bufs, order, dev, blockno, order[i])
  {
  }

  lemma OldestAt(bufs: seq<Buf>, order: seq<nat>, i: nat)
    requires i < |order| && order[i] < |bufs| && Reusable(bufs[order[i]]) && BusyAfter(bufs, order, i)
    ensures Oldest(bufs, order, order[i])
  {
  }

  lemma TookIs(bufs: seq<Buf>, order: seq<nat>, dev: nat, blockno: nat, b: nat)
    requires if Miss(bufs, dev, blockno) then Oldest(bufs, order, b) else Hit(bufs, order, dev, blockno, b)
    ensures b < |bufs| && (Is(bufs[b], dev, blockno) <==> !Miss(bufs, dev, blockno)) && (Miss(bufs, dev, blockno) ==> Reusable(bufs[b]))
  {
  }

  class Cache {
    const n: nat
    var bufs: seq<Buf>
    var next: seq<nat>
    var prev: seq<nat>
    var disk: seq<Block>
    ghost var order: seq<nat>        // the ring, most recently used first
    ghost var loose: set<nat>        // changed by their holder and neither marked dirty nor written since

    ghost predicate Valid()
      reads this
    {
      && |bufs| == n && Ring(order, n, next, prev) && Everyone(order, n) && LiveFirst(bufs, order)
      && (forall b :: 0 <= b < n ==> BufOk(bufs[b], disk))
      && (forall b :: 0 <= b < n && b !in loose ==> Agrees(bufs[b], disk))
    }

    // binit: the buffers go in one after another, each at the front.
    constructor (nbuf: nat, blank: Block, blocks: seq<Block>)
      ensures Valid() && n == nbuf && disk == blocks && loose == {}
      ensures forall b :: 0 <= b < n ==> bufs[b] == Buf(0, 0, 0, false, false, false, blank)
      ensures |order| == n && forall i :: 0 <= i < n ==> order[i] == n - 1 - i
    {
      n := nbuf;
      bufs := seq(nbuf, i => Buf(0, 0, 0, false, false, false, blank));
      disk := blocks;
      order, loose := [], {};
      next, prev := seq(nbuf + 1, i => nbuf), seq(nbuf + 1, i => nbuf);
      new;
      assert Linked(Round(order, n), next, prev, 0);
      for b := 0 to n
        invariant |order| == b && forall i :: 0 <= i < b ==> order[i] == b - 1 - i
        invariant Ring(order, n, next, prev)
        invariant disk == blocks && loose == {} && bufs == seq(n, i => Buf(0, 0, 0, false, false, false, blank))
      {
        FrontOk(order, n, next, prev, b);
        var first := next[n];
        prev := prev[b := n][first := b];
        next := next[b := first][n := b];
        order := [b] + order;
      }
      forall b | 0 <= b < n ensures b in order {
        assert order[n - 1 - b] == b;
      }
    }

    // Look along the ring for the number.
    method Find(dev: nat, blockno: nat) returns (b: nat)
      requires Valid()
      ensures b <= n && (b < n ==> Hit(bufs, order, dev, blockno, b)) && (b == n ==> Miss(bufs, dev, blockno))
    {
      ghost var c := Round(order, n);
      ghost var i: nat := 0;
      assert Linked(c, next, prev, 0);
      b := next[n];
      while b != n
        invariant 0 <= i <= |order| && b == c[i + 1] && b <= n
        invariant forall j :: 0 <= j < i ==> !Is(bufs[order[j]], dev, blockno)
        decreases |order| - i
      {
        assert b == order[i];
        if bufs[b].dev == dev && bufs[b].blockno == blockno {
          HitAt(bufs, order, dev, blockno, i);
          return;
        }
        assert Linked(c, next, prev, i + 1);
        b := next[b];
        i := i + 1;
      }
      assert i == |order|;
      forall a | 0 <= a < n ensures !Is(bufs[a], dev, blockno) {
        assert a in order;
      }
    }

    // Look back along the ring for a buffer to reuse.
    method Victim() returns (b: nat)
      requires Valid()
      ensures b <= n && (b < n ==> Oldest(bufs, order, b)) && (b == n ==> AllBusy(bufs))
    {
      ghost var c := Round(order, n);
      ghost var i: nat := |order|;
      assert Linked(c, next, prev, |order|);
      b := prev[n];
      while b != n
        invariant 0 <= i <= |order| && b == c[i] && b <= n
        invariant forall j :: i <= j < |order| ==> !Reusable(bufs[order[j]])
        decreases i
      {
        assert i > 0 && b == order[i - 1];
        if bufs[b].refcnt == 0 && !bufs[b].dirty {
          OldestAt(bufs, order, i - 1);
          return;
        }
        assert Linked(c, next, prev, i - 1);
        b := prev[b];
        i := i - 1;
      }
      assert i == 0;
      forall a | 0 <= a < n ensures !Reusable(bufs[a]) {
        assert a in order;
      }
    }

    // One more reference to a buffer that was found.
    method Take(b: nat, dev: nat, blockno: nat)
      requires Valid() && Hit(bufs, order, dev, blockno, b)
      modifies this`bufs
      ensures Valid() && bufs == old(bufs)[b := old(bufs)[b].(refcnt := old(bufs)[b].refcnt + 1)]
    {
      var c := bufs[b].(refcnt := bufs[b].refcnt + 1);
      ghost var i :| 0 <= i < |order| && order[i] == b && NoneBefore(bufs, order, dev, blockno, i);
      LiveHit(bufs, order, i, c);
      bufs := bufs[b := c];
    }

    // A buffer that nobody uses is given a new number.
    method Recycle(b: nat, dev: nat, blockno: nat)
      requires Valid() && b < n && Reusable(bufs[b]) && Miss(bufs, dev, blockno)
      modifies this`bufs, this`loose
      ensures Valid() && bufs == old(bufs)[b := Buf(dev, blockno, 1, false, false, false, old(bufs)[b].data)] && loose == old(loose) - {b}
    {
      assert BufOk(bufs[b], disk);
      var c := Buf(dev, blockno, 1, false, false, bufs[b].locked, bufs[b].data);
      LiveFresh(bufs, order, b, c);
      bufs := bufs[b := c];
      loose := loose - {b};
    }

    /**
     The part of bget under bcache.lock: the buffer that carries the number, with one more
     reference; or the least recently used one that is unreferenced and clean, made to carry it;
     or a panic, given as n, when there is neither.
     */
    method Bget(dev: nat, blockno: nat) returns (b: nat)
      requires Valid()
      modifies this`bufs, this`loose
      ensures Valid() && b <= n
      ensures b == n <==> Miss(old(bufs), dev, blockno) && AllBusy(old(bufs))
      ensures b == n ==> bufs == old(bufs) && loose == old(loose)
      ensures b < n && !Miss(old(bufs), dev, blockno) ==>
        && Hit(old(bufs), order, dev, blockno, b) && loose == old(loose)
        && bufs == old(bufs)[b := old(bufs)[b].(refcnt := old(bufs)[b].refcnt + 1)]
      ensures b < n && Miss(old(bufs), dev, blockno) ==>
        && Oldest(old(bufs), order, b) && loose == old(loose) - {b}
        && bufs == old(bufs)[b := Buf(dev, blockno, 1, false, false, false, old(bufs)[b].data)]
    {
      b := Find(dev, blockno);
      if b < n {
        Take(b, dev, blockno);
        return;
      }
      b := Victim();
      if b < n {
        Recycle(b, dev, blockno);
      }
    }

    // acquiresleep, once the lock can be had.
    method Lock(b: nat)
      requires Valid() && b < n && bufs[b].refcnt > 0 && !bufs[b].locked
      modifies this`bufs
      ensures Valid() && bufs == old(bufs)[b := old(bufs)[b].(locked := true)]
    {
      var c := bufs[b].(locked := true);
      LiveSame(bufs, order, b, c);
      bufs := bufs[b := c];
    }

    // The holder changes the contents.
    method Store(b: nat, data: Block)
      requires Valid() && b < n && bufs[b].locked
      modifies this`bufs, this`loose
      ensures Valid() && bufs == old(bufs)[b := old(bufs)[b].(data := data)] && loose == old(loose) + {b}
    {
      var c := bufs[b].(data := data);
      LiveSame(bufs, order, b, c);
      bufs := bufs[b := c];
      loose := loose + {b};
    }

    // The flag log_write sets: the buffer may not be recycled until it is written.
    method Mark(b: nat)
      requires Valid() && b < n && bufs[b].locked
      modifies this`bufs, this`loose
      ensures Valid() && bufs == old(bufs)[b := old(bufs)[b].(dirty := true)] && loose == old(loose) - {b}
    {
      var c := bufs[b].(dirty := true);
      LiveSame(bufs, order, b, c);
      bufs := bufs[b := c];
      loose := loose - {b};
    }

    /**
     Write a dirty buffer to its block, or fill one that is not valid from it.  No other
     buffer disagrees with the disk afterwards, since none carries the same number.  It panics
     unless the caller has the lock, there is something to do, and the disk has the block.
     */
    method Iderw(b: nat) returns (panicked: bool)
      requires Valid() && b < n
      modifies this`bufs, this`disk, this`loose
      ensures Valid()
      ensures var o := old(bufs)[b]; panicked <==> !o.locked || (o.valid && !o.dirty) || !OnDisk(o.dev, o.blockno, old(disk))
      ensures panicked ==> bufs == old(bufs) && disk == old(disk) && loose == old(loose)
      ensures !panicked ==> loose == old(loose) - {b}
      ensures var o := old(bufs)[b]; !panicked ==>
        && disk == (if o.dirty then old(disk)[o.blockno := o.data] else old(disk))
        && bufs == old(bufs)[b := o.(valid := true, dirty := false, data := disk[o.blockno])]
    {
      if !bufs[b].locked || (bufs[b].valid && !bufs[b].dirty) || bufs[b].dev != DISK || bufs[b].blockno >= |disk| {
        return true;
      }
      ghost var was := bufs;
      assert BufOk(bufs[b], disk);
      var c := bufs[b].(valid := true, dirty := false);
      if bufs[b].dirty {
        disk := disk[c.blockno := c.data];
      } else {
        c := c.(data := disk[c.blockno]);
      }
      LiveSame(bufs, order, b, c);
      bufs := bufs[b := c];
      loose := loose - {b};
      forall a | 0 <= a < n && a !in loose ensures BufOk(bufs[a], disk) && Agrees(bufs[a], disk) {
        assert BufOk(was[a], old(disk));
        if a != b && was[a].valid {
          Unique(was, order, a, b);
        }
      }
      forall a | 0 <= a < n ensures BufOk(bufs[a], disk) {
        assert BufOk(was[a], old(disk));
      }
      return false;
    }

    /**
     The part of bread once the buffer's lock can be had: lock it, and fill it if it does not
     hold its block.  Then it has what its last holder left if that has not reached the disk, and
     what the disk has otherwise.
     */
    method Obtain(b: nat) returns (panicked: bool)
      requires Valid() && b < n && bufs[b].refcnt > 0 && !bufs[b].locked
      modifies this`bufs, this`disk, this`loose
      ensures Valid()
      ensures var o := old(bufs)[b];
        && (panicked <==> !OnDisk(o.dev, o.blockno, old(disk)))
        && (panicked || o.valid ==> bufs == old(bufs)[b := o.(locked := true)] && disk == old(disk) && loose == old(loose))
        && (!panicked && !o.valid ==>
             && disk == (if o.dirty then old(disk)[o.blockno := o.data] else old(disk)) && loose == old(loose) - {b}
             && bufs == old(bufs)[b := o.(locked := true, valid := true, dirty := false, data := disk[o.blockno])])
      ensures !panicked && !bufs[b].dirty && b !in loose ==> bufs[b].data == disk[bufs[b].blockno]
    {
      Lock(b);
      assert BufOk(bufs[b], disk);
      panicked := false;
      if !bufs[b].valid {
        panicked := Iderw(b);
      }
    }

    /**
     A locked buffer with the block's contents; or a place among those who wait for the buffer,
     when someone else has it locked (they go on with Obtain); or a panic, because there is no
     buffer to be had, given as n, or the disk has no such block.
     */
    method Bread(dev: nat, blockno: nat) returns (b: nat, out: Outcome)
      requires Valid()
      modifies this`bufs, this`disk, this`loose
      ensures Valid() && b <= n && (b == n <==> Miss(old(bufs), dev, blockno) && AllBusy(old(bufs)))
      ensures b == n ==> out == Panics && bufs == old(bufs) && disk == old(disk) && loose == old(loose)
      ensures b < n ==> if Miss(old(bufs), dev, blockno) then Oldest(old(bufs), order, b) else Hit(old(bufs), order, dev, blockno, b)
      ensures b < n ==> Is(bufs[b], dev, blockno) && bufs[b].refcnt == if Miss(old(bufs), dev, blockno) then 1 else old(bufs)[b].refcnt + 1
      ensures forall a :: 0 <= a < n && a != b ==> bufs[a] == old(bufs)[a]
      ensures b < n ==> (out == Waits <==> Is(old(bufs)[b], dev, blockno) && old(bufs)[b].locked)
      ensures b < n && out != Waits ==> bufs[b].locked && (out == Panics <==> !OnDisk(dev, blockno, old(disk)))
      ensures out == Waits ==> disk == old(disk) && loose == old(loose) && bufs[b] == old(bufs)[b].(refcnt := old(bufs)[b].refcnt + 1)
      ensures out == Has ==> bufs[b].valid
      ensures out == Has && !bufs[b].dirty && b !in loose ==> bufs[b].data == disk[blockno]
      ensures out == Has && old(bufs)[b].valid && Is(old(bufs)[b], dev, blockno) ==>
        disk == old(disk) && loose == old(loose) && bufs[b].data == old(bufs)[b].data && bufs[b].dirty == old(bufs)[b].dirty
      ensures out == Has && !(old(bufs)[b].valid && Is(old(bufs)[b], dev, blockno)) ==>
        loose == old(loose) - {b} && !bufs[b].dirty
      ensures b < n && !old(bufs)[b].dirty ==> disk == old(disk)
    {
      b := Bget(dev, blockno);
      if b == n {
        return b, Panics;
      }
      if bufs[b].locked {
        return b, Waits;
      }
      var panicked := Obtain(b);
      out := if panicked then Panics else Has;
    }

    // Write the holder's buffer through to its block.
    method Bwrite(b: nat) returns (panicked: bool)
      requires Valid() && b < n
      modifies this`bufs, this`disk, this`loose
      ensures Valid()
      ensures var o := old(bufs)[b]; panicked <==> !o.locked || !OnDisk(o.dev, o.blockno, old(disk))
      ensures panicked ==> disk == old(disk)
      ensures !panicked ==> loose == old(loose) - {b} && disk == old(disk)[old(bufs)[b].blockno := old(bufs)[b].data]
      ensures !panicked ==> bufs == old(bufs)[b := old(bufs)[b].(valid := true, dirty := false)]
    {
      if !bufs[b].locked {
        return true;
      }
      Mark(b);
      panicked := Iderw(b);
    }

    // The buffer goes to the front of the ring.
    method ToFront(b: nat, ghost k: nat)
      requires Valid() && k < |order| && order[k] == b && Live(bufs[b])
      modifies this`next, this`prev, this`order
      ensures Valid() && order == Fronted(old(order), k)
    {
      OutOk(order, n, next, prev, k);
      EveryoneFront(order, n, k, Fronted(order, k));
      LiveFront(bufs, order, k, Fronted(order, k));
      ghost var rest := Without(order, k);
      var nb, pb := next[b], prev[b];
      prev := prev[nb := pb];
      next := next[pb := nb];
      FrontOk(rest, n, next, prev, b);
      var first := next[n];
      prev := prev[b := n][first := b];
      next := next[b := first][n := b];
      order := Fronted(order, k);
    }

    // releasesleep: the lock is open, and the holder still has its reference.
    method Unlock(b: nat)
      requires Valid() && b < n && bufs[b].locked
      modifies this`bufs
      ensures Valid() && bufs == old(bufs)[b := old(bufs)[b].(locked := false)]
    {
      var c := bufs[b].(locked := false);
      LiveSame(bufs, order, b, c);
      bufs := bufs[b := c];
    }

    /**
     The part of brelse under bcache.lock: one reference less, the caller's, which is not that of
     a process that has the buffer locked by now.  If it was the last, the buffer becomes the most
     recently used.
     */
    method Drop(b: nat)
      requires Valid() && b < n && bufs[b].refcnt > if bufs[b].locked then 1 else 0
      modifies this`bufs, this`next, this`prev, this`order
      ensures Valid() && bufs == old(bufs)[b := old(bufs)[b].(refcnt := old(bufs)[b].refcnt - 1)]
      ensures old(bufs)[b].refcnt > 1 ==> order == old(order)
      ensures old(bufs)[b].refcnt == 1 ==> exists k :: 0 <= k < |old(order)| && old(order)[k] == b && order == Fronted(old(order), k)
    {
      if bufs[b].refcnt == 1 {
        assert b in order;
        ghost var k :| 0 <= k < |order| && order[k] == b;
        ToFront(b, k);
      }
      var c := bufs[b].(refcnt := bufs[b].refcnt - 1);
      LiveSame(bufs, order, b, c);
      bufs := bufs[b := c];
    }

    /**
     Give the buffer up, when nobody comes between the two parts; if nobody waits for it, it
     becomes the most recently used.  Panics exactly when the caller does not have the lock.
     */
    method Brelse(b: nat) returns (panicked: bool)
      requires Valid() && b < n
      modifies this`bufs, this`next, this`prev, this`order
      ensures Valid() && (panicked <==> !old(bufs)[b].locked)
      ensures panicked ==> bufs == old(bufs) && order == old(order)
      ensures !panicked ==> bufs == old(bufs)[b := old(bufs)[b].(locked := false, refcnt := old(bufs)[b].refcnt - 1)]
      ensures !panicked && old(bufs)[b].refcnt > 1 ==> order == old(order)
      ensures !panicked && old(bufs)[b].refcnt == 1 ==>
        exists k :: 0 <= k < |old(order)| && old(order)[k] == b && order == Fronted(old(order), k)
    {
      if !bufs[b].locked {
        return true;
      }
      assert BufOk(bufs[b], disk);
      Unlock(b);
      Drop(b);
      return false;
    }

    /**
     bread and then brelse.  Nobody's reference is lost or added, a buffer that was recycled for
     the block is left without one, and no lock is left; the block is in the cache now.
     */
    method Visit(dev: nat, blockno: nat) returns (b: nat, out: Outcome)
      requires Valid()
      modifies this
      ensures Valid() && b <= n
      ensures b < n ==> Is(bufs[b], dev, blockno)
      ensures b < n ==> if Miss(old(bufs), dev, blockno) then Oldest(old(bufs), old(order), b) else Hit(old(bufs), old(order), dev, blockno, b)
      ensures out == Has ==> b < n && bufs[b].valid && forall a :: 0 <= a < n ==> bufs[a].refcnt == old(bufs)[a].refcnt && bufs[a].locked == old(bufs)[a].locked
      ensures forall a :: 0 <= a < n && a != b ==> bufs[a] == old(bufs)[a]
      ensures out == Has ==> if old(bufs)[b].refcnt > 0 then order == old(order) else
        exists k :: 0 <= k < |old(order)| && old(order)[k] == b && order == Fronted(old(order), k)
      ensures out == Has && !Miss(old(bufs), dev, blockno) && old(bufs)[b].valid ==> bufs == old(bufs) && disk == old(disk) && loose == old(loose)
      ensures out != Has ==> order == old(order)
    {
      hide Ring, Everyone, LiveFirst, Hit, Oldest, Agrees, Miss;
      b, out := Bread(dev, blockno);
      if out == Has {
        assert BufOk(old(bufs)[b], old(disk));
        TookIs(old(bufs), old(order), dev, blockno, b);
        var panicked := Brelse(b);
      }
    }
  }
}
