/** The allocator of umalloc.c: a circular list threaded through the headers of the free blocks. */
module Umalloc {
  import opened FreeList

  const NULL: int := -1
  const HEADER: int := 8                  // sizeof(Header)
  const MORECORE: int := 4096             // units asked of sbrk at least
  const UINT: int := 0x1_0000_0000
  const INT: int := 0x8000_0000

  function Next(i: nat, n: nat): (j: nat)
    requires i < n
    ensures j < n
  {
    if i + 1 == n then 0 else i + 1
  }

  // The headers in memory spell the list, and the last points back to the base.
  ghost predicate Ring(bs: seq<Blk>, ptr: map<int, int>, size: map<int, int>) {
    forall i :: 0 <= i < |bs| ==> RingAt(bs, ptr, size, i)
  }

  ghost predicate LiveCovers(live: map<int, int>, u: int) {
    exists a :: a in live && a <= u < a + live[a]
  }

  // Blocks handed out keep clear of the free list, of each other and of the break.
  ghost predicate LiveOk(bs: seq<Blk>, size: map<int, int>, live: map<int, int>, brk: int) {
    && (forall a :: a in live ==>
          live[a] > 0 && a in size && size[a] == live[a] && BASE < a && a + live[a] <= brk && Apart(bs, a, live[a]))
    && (forall a, b :: a in live && b in live && a != b ==> a + live[a] <= b || b + live[b] <= a)
  }

  // Free and live blocks make up all the memory obtained.
  ghost predicate Partition(bs: seq<Blk>, live: map<int, int>, arena: iset<int>) {
    forall u :: u in arena <==> Covers(bs, u) || LiveCovers(live, u)
  }

  // nunits for a request, in 32-bit arithmetic.
  function Units(nbytes: int): (n: int)
    requires 0 <= nbytes < UINT
    ensures 0 < n <= UINT / HEADER
  {
    (nbytes + HEADER - 1) % UINT / HEADER + 1
  }

  // A block of that many units has room for the request behind its header, unless the sum wrapped.
  lemma HoldsRequest(nbytes: int)
    requires 0 <= nbytes < UINT
    ensures (Units(nbytes) - 1) * HEADER >= nbytes <==> nbytes + HEADER - 1 < UINT
  {
  }

  // The largest request wraps to a block of one unit, which is all header.
  lemma LargestWraps()
    ensures Units(UINT - 1) == 1 && (Units(UINT - 1) - 1) * HEADER == 0
  {
  }

  // ---------------------------------------------------------------- what sbrk is asked for

  // Units asked of sbrk when nu are needed.
  function Asked(nu: int): (n: int) { if nu < MORECORE then MORECORE else nu }

  // Those units in bytes, multiplied in 32 bits and passed as an int.
  function SbrkArg(nu: int): (arg: int)
    ensures -INT < arg + 1 <= INT
  {
    var bytes := Asked(nu) * HEADER % UINT;
    if bytes < INT then bytes else bytes - UINT
  }

  // sbrk is asked for what is needed exactly when that is less than 2^31 bytes; else for no growth.
  lemma AskedIff(nbytes: int)
    requires 0 <= nbytes < UINT
    ensures SbrkArg(Units(nbytes)) == Asked(Units(nbytes)) * HEADER <==> nbytes <= INT - 16 || nbytes + HEADER - 1 >= UINT
    ensures SbrkArg(Units(nbytes)) != Asked(Units(nbytes)) * HEADER ==> SbrkArg(Units(nbytes)) <= 0
  {
  }

  // A request that is computed right and asks sbrk for nothing.
  lemma HugeAsksNothing()
    ensures var nbytes := 0xFFFF_FFF8;
      (Units(nbytes) - 1) * HEADER >= nbytes && Asked(Units(nbytes)) * HEADER == UINT && SbrkArg(Units(nbytes)) == 0
  {
  }

  /**
   The kernel's answer: whether it grants the request, how far above the last break it starts
   (others may have taken memory), and by how much a request that is not for growth lowers it.
   */
  datatype Sbrk = Sbrk(grant: bool, gap: nat, lost: nat)

  // Asked for nothing, sbrk never fails.
  predicate Granted(os: Sbrk, nu: int) { os.grant || SbrkArg(nu) == 0 }

  // ---------------------------------------------------------------- the two changes to the ring

  // The headers once free has linked in the block at bp after block k.
  function PtrAfter(bs: seq<Blk>, ptr: map<int, int>, k: nat, bp: int, s: int): (r: map<int, int>)
    requires k < |bs| && bs[k].addr in ptr && (JoinsUp(bs, k, bp, s) ==> bs[k + 1].addr in ptr)
  {
    var p := bs[k].addr;
    var next := if JoinsUp(bs, k, bp, s) then ptr[bs[k + 1].addr] else ptr[p];
    ptr[bp := next][p := if JoinsDown(bs, k, bp) then next else bp]
  }

  function SizeAfter(bs: seq<Blk>, size: map<int, int>, k: nat, bp: int, s: int): (r: map<int, int>)
    requires k < |bs|
  {
    var m := s + (if JoinsUp(bs, k, bp, s) then bs[k + 1].size else 0);
    if JoinsDown(bs, k, bp) then size[bp := m][bs[k].addr := bs[k].size + m] else size[bp := m]
  }

  ghost predicate RingAt(bs: seq<Blk>, ptr: map<int, int>, size: map<int, int>, i: nat)
    requires i < |bs|
  {
    && bs[i].addr in ptr && bs[i].addr in size
    && size[bs[i].addr] == bs[i].size && ptr[bs[i].addr] == bs[Next(i, |bs|)].addr
  }

  // A block whose header and successor did not change is still linked.
  lemma KeptRing(bs: seq<Blk>, r: seq<Blk>, ptr: map<int, int>, size: map<int, int>, ptr': map<int, int>, size': map<int, int>,
                 j: nat, i: nat)
    requires j < |bs| && i < |r| && RingAt(bs, ptr, size, j)
    requires r[i] == bs[j] && r[Next(i, |r|)].addr == bs[Next(j, |bs|)].addr
    requires bs[j].addr in ptr' && ptr'[bs[j].addr] == ptr[bs[j].addr]
    requires bs[j].addr in size' && size'[bs[j].addr] == size[bs[j].addr]
    ensures RingAt(r, ptr', size', i)
  {
  }

  lemma RingFront(bs: seq<Blk>, ptr: map<int, int>, size: map<int, int>, k: nat, bp: int, s: int, i: nat)
    requires Ordered(bs) && Ring(bs, ptr, size) && After(bs, k, bp) && s > 0 && Apart(bs, bp, s)
    requires RingAt(bs, ptr, size, k) && (JoinsUp(bs, k, bp, s) ==> RingAt(bs, ptr, size, k + 1))
    requires i < |Inserted(bs, k, bp, s)|
    requires i < k
    ensures RingAt(Inserted(bs, k, bp, s), PtrAfter(bs, ptr, k, bp, s), SizeAfter(bs, size, k, bp, s), i)
  {
    var r := Inserted(bs, k, bp, s);
    InsertedAt(bs, k, bp, s, i);
    InsertedAt(bs, k, bp, s, Next(i, |r|));
    assert RingAt(bs, ptr, size, i) && bs[i].addr < bs[k].addr;
    KeptRing(bs, r, ptr, size, PtrAfter(bs, ptr, k, bp, s), SizeAfter(bs, size, k, bp, s), i, i);
  }

  // Only the headers of block k and of the block put in are written.
  lemma Untouched(bs: seq<Blk>, ptr: map<int, int>, size: map<int, int>, k: nat, bp: int, s: int, j: nat)
    requires Ordered(bs) && After(bs, k, bp) && k < j < |bs| && RingAt(bs, ptr, size, j)
    requires RingAt(bs, ptr, size, k) && (JoinsUp(bs, k, bp, s) ==> RingAt(bs, ptr, size, k + 1))
    ensures bs[j].addr in PtrAfter(bs, ptr, k, bp, s) && PtrAfter(bs, ptr, k, bp, s)[bs[j].addr] == ptr[bs[j].addr]
    ensures bs[j].addr in SizeAfter(bs, size, k, bp, s) && SizeAfter(bs, size, k, bp, s)[bs[j].addr] == size[bs[j].addr]
  {
    assert bs[k].addr < bs[j].addr && bs[k + 1].addr <= bs[j].addr;
  }

  // Past the block put in, successors are as before.
  lemma SameSuccessor(bs: seq<Blk>, k: nat, bp: int, s: int, i: nat, j: nat)
    requires Ordered(bs) && After(bs, k, bp) && s > 0 && Apart(bs, bp, s)
    requires j == i - (if JoinsDown(bs, k, bp) then 0 else 1) + (if JoinsUp(bs, k, bp, s) then 1 else 0)
    requires (if JoinsDown(bs, k, bp) then k else k + 1) < i < |Inserted(bs, k, bp, s)|
    ensures k < j < |bs| && Inserted(bs, k, bp, s)[i] == bs[j]
    ensures Inserted(bs, k, bp, s)[Next(i, |Inserted(bs, k, bp, s)|)].addr == bs[Next(j, |bs|)].addr
  {
    hide Apart, Merged, Inserted, JoinsUp, JoinsDown;
    var r := Inserted(bs, k, bp, s);
    InsertedAt(bs, k, bp, s, i);
    if i + 1 < |r| {
      InsertedAt(bs, k, bp, s, i + 1);
    } else {
      InsertedOrdered(bs, k, bp, s);
    }
  }

  lemma RingBack(bs: seq<Blk>, ptr: map<int, int>, size: map<int, int>, k: nat, bp: int, s: int, i: nat)
    requires Ordered(bs) && Ring(bs, ptr, size) && After(bs, k, bp) && s > 0 && Apart(bs, bp, s)
    requires RingAt(bs, ptr, size, k) && (JoinsUp(bs, k, bp, s) ==> RingAt(bs, ptr, size, k + 1))
    requires i < |Inserted(bs, k, bp, s)|
    requires i > if JoinsDown(bs, k, bp) then k else k + 1
    ensures RingAt(Inserted(bs, k, bp, s), PtrAfter(bs, ptr, k, bp, s), SizeAfter(bs, size, k, bp, s), i)
  {
    var j := i - (if JoinsDown(bs, k, bp) then 0 else 1) + (if JoinsUp(bs, k, bp, s) then 1 else 0);
    SameSuccessor(bs, k, bp, s, i, j);
    assert RingAt(bs, ptr, size, j);
    Untouched(bs, ptr, size, k, bp, s, j);
    KeptRing(bs, Inserted(bs, k, bp, s), ptr, size, PtrAfter(bs, ptr, k, bp, s), SizeAfter(bs, size, k, bp, s), j, i);
  }

  lemma RingMiddle(bs: seq<Blk>, ptr: map<int, int>, size: map<int, int>, k: nat, bp: int, s: int, i: nat)
    requires Ordered(bs) && Ring(bs, ptr, size) && After(bs, k, bp) && s > 0 && Apart(bs, bp, s)
    requires RingAt(bs, ptr, size, k) && (JoinsUp(bs, k, bp, s) ==> RingAt(bs, ptr, size, k + 1))
    requires i < |Inserted(bs, k, bp, s)|
    requires k <= i <= if JoinsDown(bs, k, bp) then k else k + 1
    ensures RingAt(Inserted(bs, k, bp, s), PtrAfter(bs, ptr, k, bp, s), SizeAfter(bs, size, k, bp, s), i)
  {
    var r := Inserted(bs, k, bp, s);
    InsertedAt(bs, k, bp, s, i);
    InsertedAt(bs, k, bp, s, Next(i, |r|));
  }

  lemma InsertedRing(bs: seq<Blk>, ptr: map<int, int>, size: map<int, int>, k: nat, bp: int, s: int)
    requires Ordered(bs) && Ring(bs, ptr, size) && After(bs, k, bp) && s > 0 && Apart(bs, bp, s)
    ensures RingAt(bs, ptr, size, k) && (JoinsUp(bs, k, bp, s) ==> RingAt(bs, ptr, size, k + 1))
    ensures Ring(Inserted(bs, k, bp, s), PtrAfter(bs, ptr, k, bp, s), SizeAfter(bs, size, k, bp, s))
  {
    assert RingAt(bs, ptr, size, k) && (JoinsUp(bs, k, bp, s) ==> RingAt(bs, ptr, size, k + 1));
    forall i | 0 <= i < |Inserted(bs, k, bp, s)|
      ensures RingAt(Inserted(bs, k, bp, s), PtrAfter(bs, ptr, k, bp, s), SizeAfter(bs, size, k, bp, s), i)
    {
      if i < k {
        RingFront(bs, ptr, size, k, bp, s, i);
      } else if i > if JoinsDown(bs, k, bp) then k else k + 1 {
        RingBack(bs, ptr, size, k, bp, s, i);
      } else {
        RingMiddle(bs, ptr, size, k, bp, s, i);
      }
    }
  }

  // No two blocks of the list have the same address.
  lemma OneIndex(bs: seq<Blk>, i: nat, j: nat)
    requires Ordered(bs) && i < |bs| && j < |bs|
    ensures bs[i].addr == bs[j].addr <==> i == j
  {
  }

  // Which blocks stand at j and after it in the list without block i.
  lemma UnlinkedNext(bs: seq<Blk>, i: nat, j: nat)
    requires 0 < i < |bs| && j < |bs| - 1 && bs[i].size > 0
    ensures var r := Taken(bs, i, bs[i].size); var k := if j < i then j else j + 1;
      |r| == |bs| - 1 && r[j] == bs[k] && r[Next(j, |r|)] == bs[Next(if j == i - 1 then i else k, |bs|)]
  {
  }

  // Unlinking block i whole.
  lemma UnlinkedRing(bs: seq<Blk>, ptr: map<int, int>, size: map<int, int>, i: nat)
    requires Ordered(bs) && Ring(bs, ptr, size) && 0 < i < |bs|
    ensures RingAt(bs, ptr, size, i)
    ensures Ring(Taken(bs, i, bs[i].size), ptr[bs[i - 1].addr := ptr[bs[i].addr]], size)
  {
    var r := Taken(bs, i, bs[i].size);
    assert RingAt(bs, ptr, size, i);
    var ptr' := ptr[bs[i - 1].addr := ptr[bs[i].addr]];
    forall j | 0 <= j < |r| ensures RingAt(r, ptr', size, j) {
      var k := if j < i then j else j + 1;
      UnlinkedNext(bs, i, j);
      OneIndex(bs, i - 1, k);
      assert RingAt(bs, ptr, size, k);
      hide Taken, Ordered, Ring, Next;
    }
  }

  // Cutting n units off the end of block i.
  lemma ShrunkRing(bs: seq<Blk>, ptr: map<int, int>, size: map<int, int>, i: nat, n: int)
    requires Ordered(bs) && Ring(bs, ptr, size) && 0 < i < |bs| && 0 < n < bs[i].size
    ensures Ring(Taken(bs, i, n), ptr, size[bs[i].addr := bs[i].size - n][TakenAt(bs, i, n) := n])
  {
    var r := Taken(bs, i, n);
    var size' := size[bs[i].addr := bs[i].size - n][TakenAt(bs, i, n) := n];
    forall j | 0 <= j < |r| ensures RingAt(r, ptr, size', j) {
      assert RingAt(bs, ptr, size, j);
      assert j < i ==> bs[j].addr < bs[i].addr;
      assert i < j ==> bs[i].addr + bs[i].size < bs[j].addr;
    }
  }

  // ---------------------------------------------------------------- what holds between calls

  ghost predicate Top(bs: seq<Blk>, brk: int) {
    BASE < brk && forall i :: 0 <= i < |bs| ==> bs[i].addr + bs[i].size <= brk
  }

  ghost predicate HeapOk(bs: seq<Blk>, size: map<int, int>, live: map<int, int>, brk: int, arena: iset<int>) {
    Ordered(bs) && LiveOk(bs, size, live, brk) && Top(bs, brk) && Partition(bs, live, arena)
  }

  ghost function Span(bp: int, s: int): (r: iset<int>) {
    iset u | In(Blk(bp, s), u)
  }

  lemma InsertedApart(bs: seq<Blk>, k: nat, bp: int, s: int, a: int, t: int)
    requires Ordered(bs) && After(bs, k, bp) && s > 0 && Apart(bs, bp, s)
    requires t > 0 && Apart(bs, a, t) && (a + t <= bp || bp + s <= a)
    ensures Apart(Inserted(bs, k, bp, s), a, t)
  {
    forall i | 0 <= i < |Inserted(bs, k, bp, s)|
      ensures var b := Inserted(bs, k, bp, s)[i]; b.addr + b.size <= a || a + t <= b.addr
    {
      InsertedAt(bs, k, bp, s, i);
    }
  }

  lemma InsertedLive(bs: seq<Blk>, size: map<int, int>, live: map<int, int>, brk: int, k: nat, bp: int, s: int)
    requires Ordered(bs) && LiveOk(bs, size, live, brk) && After(bs, k, bp) && s > 0 && Apart(bs, bp, s)
    requires forall a :: a in live && a != bp ==> a + live[a] <= bp || bp + s <= a
    ensures LiveOk(Inserted(bs, k, bp, s), SizeAfter(bs, size, k, bp, s), live - {bp}, brk)
  {
    hide Inserted;
    var r, size' := Inserted(bs, k, bp, s), SizeAfter(bs, size, k, bp, s);
    forall a | a in live - {bp} ensures Apart(r, a, live[a]) && a in size' && size'[a] == live[a] {
      InsertedApart(bs, k, bp, s, a, live[a]);
    }
  }

  lemma InsertedPartition(bs: seq<Blk>, live: map<int, int>, arena: iset<int>, k: nat, bp: int, s: int)
    requires Ordered(bs) && Partition(bs, live, arena) && After(bs, k, bp) && s > 0 && Apart(bs, bp, s)
    requires bp in live ==> live[bp] == s
    ensures Partition(Inserted(bs, k, bp, s), live - {bp}, arena + Span(bp, s))
  {
    hide Inserted, Covers, Ordered, Apart;
    var r := Inserted(bs, k, bp, s);
    forall u ensures u in arena + Span(bp, s) <==> Covers(r, u) || LiveCovers(live - {bp}, u) {
      InsertedCovers(bs, k, bp, s, u);
      if LiveCovers(live, u) && !(bp <= u < bp + s) {
        var a :| a in live && a <= u < a + live[a];
        assert a in live - {bp};
      }
    }
  }

  // Freeing a live block, or adding fresh memory (then `live` does not have it).
  lemma InsertedOk(bs: seq<Blk>, size: map<int, int>, live: map<int, int>, brk: int, arena: iset<int>, k: nat, bp: int, s: int)
    requires HeapOk(bs, size, live, brk, arena) && After(bs, k, bp) && s > 0 && Apart(bs, bp, s) && bp + s <= brk
    requires forall a :: a in live && a != bp ==> a + live[a] <= bp || bp + s <= a
    requires bp in live ==> live[bp] == s
    ensures HeapOk(Inserted(bs, k, bp, s), SizeAfter(bs, size, k, bp, s), live - {bp}, brk,
                   arena + Span(bp, s))
  {
    hide LiveOk, Partition, Ordered, Inserted, SizeAfter, Apart;
    InsertedOrdered(bs, k, bp, s);
    InsertedLive(bs, size, live, brk, k, bp, s);
    InsertedPartition(bs, live, arena, k, bp, s);
    var r := Inserted(bs, k, bp, s);
    forall i | 0 <= i < |r| ensures r[i].addr + r[i].size <= brk {
      InsertedAt(bs, k, bp, s, i);
    }
  }

  lemma TakenPartition(bs: seq<Blk>, live: map<int, int>, arena: iset<int>, i: nat, n: int)
    requires Ordered(bs) && Partition(bs, live, arena) && 0 < i < |bs| && 0 < n <= bs[i].size
    requires TakenAt(bs, i, n) !in live
    ensures Partition(Taken(bs, i, n), live[TakenAt(bs, i, n) := n], arena)
  {
    var a := TakenAt(bs, i, n);
    var live' := live[a := n];
    forall u ensures u in arena <==> Covers(Taken(bs, i, n), u) || LiveCovers(live', u) {
      TakenCovers(bs, i, n, u);
      if LiveCovers(live, u) {
        var b :| b in live && b <= u < b + live[b];
        assert b in live' && live'[b] == live[b];
      }
      if a <= u < a + n {
        assert a in live' && live'[a] == n;
      }
    }
  }

  lemma TakenApart(bs: seq<Blk>, i: nat, n: int, a: int, t: int)
    requires i < |bs| && 0 < n <= bs[i].size && Apart(bs, a, t)
    ensures Apart(Taken(bs, i, n), a, t)
  {
    forall j | 0 <= j < |Taken(bs, i, n)|
      ensures var b := Taken(bs, i, n)[j]; b.addr + b.size <= a || a + t <= b.addr
    {
      var m := TakenFrom(bs, i, n, j);
    }
  }

  // Either way of taking n units from block i leaves the rest linked.
  lemma TakenRing(bs: seq<Blk>, ptr: map<int, int>, size: map<int, int>, i: nat, n: int)
    requires Ordered(bs) && Ring(bs, ptr, size) && 0 < i < |bs| && 0 < n <= bs[i].size
    ensures RingAt(bs, ptr, size, i)
    ensures bs[i].size == n ==> Ring(Taken(bs, i, n), ptr[bs[i - 1].addr := ptr[bs[i].addr]], size)
    ensures bs[i].size != n ==> Ring(Taken(bs, i, n), ptr, size[bs[i].addr := bs[i].size - n][TakenAt(bs, i, n) := n])
    ensures i - 1 < |Taken(bs, i, n)| && Taken(bs, i, n)[i - 1] == bs[i - 1]
  {
    if bs[i].size == n {
      UnlinkedRing(bs, ptr, size, i);
    } else {
      ShrunkRing(bs, ptr, size, i, n);
    }
  }

  // What is left of the list lies where it lay, clear of the units taken.
  lemma TakenClear(bs: seq<Blk>, i: nat, n: int, j: nat)
    requires Ordered(bs) && 0 < i < |bs| && 0 < n <= bs[i].size && j < |Taken(bs, i, n)|
    ensures var b := Taken(bs, i, n)[j]; var a := TakenAt(bs, i, n);
      && (b.addr + b.size <= a || a + n <= b.addr)
      && exists m :: 0 <= m < |bs| && b.addr + b.size <= bs[m].addr + bs[m].size
  {
    var m := TakenFrom(bs, i, n, j);
    assert m < i ==> bs[m].addr + bs[m].size < bs[i].addr;
    assert i < m ==> bs[i].addr + bs[i].size < bs[m].addr;
  }

  lemma TakenLive(bs: seq<Blk>, size: map<int, int>, live: map<int, int>, brk: int, i: nat, n: int)
    requires Ordered(bs) && LiveOk(bs, size, live, brk) && 0 < i < |bs| && 0 < n <= bs[i].size && bs[i].addr + bs[i].size <= brk
    requires bs[i].addr in size && size[bs[i].addr] == bs[i].size
    ensures TakenAt(bs, i, n) !in live
    ensures var a := TakenAt(bs, i, n);
      LiveOk(Taken(bs, i, n), if bs[i].size == n then size else size[bs[i].addr := bs[i].size - n][a := n], live[a := n], brk)
  {
    var a := TakenAt(bs, i, n);
    var r := Taken(bs, i, n);
    assert BASE < bs[i].addr;
    forall b | b in live ensures Apart(r, b, live[b]) && (b + live[b] <= bs[i].addr || bs[i].addr + bs[i].size <= b) {
      TakenApart(bs, i, n, b, live[b]);
    }
    forall j | 0 <= j < |r| ensures r[j].addr + r[j].size <= a || a + n <= r[j].addr {
      TakenClear(bs, i, n, j);
    }
    hide Taken, Ordered;
  }

  lemma TakenOk(bs: seq<Blk>, size: map<int, int>, live: map<int, int>, brk: int, arena: iset<int>, i: nat, n: int)
    requires HeapOk(bs, size, live, brk, arena) && 0 < i < |bs| && 0 < n <= bs[i].size
    requires bs[i].addr in size && size[bs[i].addr] == bs[i].size
    ensures TakenAt(bs, i, n) !in live
    ensures var a := TakenAt(bs, i, n);
      HeapOk(Taken(bs, i, n), if bs[i].size == n then size else size[bs[i].addr := bs[i].size - n][a := n],
             live[a := n], brk, arena)
  {
    hide LiveOk, Partition, Ordered, Taken;
    TakenOrdered(bs, i, n);
    TakenLive(bs, size, live, brk, i, n);
    TakenPartition(bs, live, arena, i, n);
    var r := Taken(bs, i, n);
    forall j | 0 <= j < |r| ensures r[j].addr + r[j].size <= brk {
      TakenClear(bs, i, n, j);
    }
  }

  // Memory above the break meets nothing.
  lemma NewLive(bs: seq<Blk>, size: map<int, int>, live: map<int, int>, brk: int, hp: int, n: int)
    requires LiveOk(bs, size, live, brk) && brk <= hp && 0 < n
    ensures LiveOk(bs, size[hp := n], live, hp + n) && hp !in live && forall a :: a in live ==> a + live[a] <= hp
  {
  }

  lemma BelowBreak(bs: seq<Blk>, brk: int, i: nat)
    requires Ordered(bs) && Top(bs, brk) && i < |bs|
    ensures bs[i].addr < brk && bs[i].addr + bs[i].size <= brk
  {
  }

  lemma NewRing(bs: seq<Blk>, ptr: map<int, int>, size: map<int, int>, hp: int, n: int)
    requires Ring(bs, ptr, size) && forall i :: 0 <= i < |bs| ==> bs[i].addr != hp
    ensures Ring(bs, ptr, size[hp := n])
  {
    var size' := size[hp := n];
    forall i | 0 <= i < |bs| ensures RingAt(bs, ptr, size', i) {
      assert RingAt(bs, ptr, size, i);
    }
  }

  lemma NewMemory(bs: seq<Blk>, ptr: map<int, int>, size: map<int, int>, live: map<int, int>, brk: int, arena: iset<int>, hp: int, n: int)
    requires HeapOk(bs, size, live, brk, arena) && Ring(bs, ptr, size) && brk <= hp && 0 < n
    ensures HeapOk(bs, size[hp := n], live, hp + n, arena) && Ring(bs, ptr, size[hp := n])
    ensures BASE < hp && hp !in live && Apart(bs, hp, n) && (forall i :: 0 <= i < |bs| ==> bs[i].addr != hp)
    ensures forall a :: a in live ==> a + live[a] <= hp
  {
    NewLive(bs, size, live, brk, hp, n);
    forall i | 0 <= i < |bs| ensures bs[i].addr < hp && bs[i].addr + bs[i].size <= hp {
      BelowBreak(bs, brk, i);
    }
    NewRing(bs, ptr, size, hp, n);
  }

  // ---------------------------------------------------------------- the code

  lemma {:induction false} Predecessor(bs: seq<Blk>, bp: int, n: nat) returns (k: nat)
    requires Ordered(bs) && BASE < bp && 0 < n <= |bs| && (n < |bs| ==> bp < bs[n].addr)
    requires forall i :: 0 <= i < |bs| ==> bs[i].addr != bp
    ensures After(bs, k, bp)
    decreases n
  {
    if bs[n - 1].addr < bp {
      k := n - 1;
    } else {
      k := Predecessor(bs, bp, n - 1);
    }
  }

  // Blocks after block `at` up to block j, going round, are all smaller than n.
  ghost predicate AllSmall(bs: seq<Blk>, at: nat, j: nat, n: int) {
    forall i :: 0 <= i < |bs| && (if at <= j then at < i <= j else at < i || i <= j) ==> bs[i].size < n
  }

  lemma SmallMore(bs: seq<Blk>, at: nat, j: nat, n: int)
    requires at < |bs| && j < |bs| && AllSmall(bs, at, j, n) && bs[Next(j, |bs|)].size < n
    ensures Next(j, |bs|) != at ==> AllSmall(bs, at, Next(j, |bs|), n)
    ensures Next(j, |bs|) == at ==> NoneFits(bs, n)
  {
  }

  // Block i is the first large enough on the way round from block `at`.
  ghost predicate FirstAt(bs: seq<Blk>, at: nat, i: nat, n: int) {
    0 < i < |bs| && bs[i].size >= n && AllSmall(bs, at, i - 1, n)
  }

  // The tail of that block is taken, or all of it, and the next search starts from the block before it.
  ghost predicate TakesFirst(bs: seq<Blk>, at: nat, n: int, r: int, rest: seq<Blk>, left: nat) {
    n > 0 && exists i: nat :: FirstAt(bs, at, i, n) && r + n == bs[i].addr + bs[i].size && rest == Taken(bs, i, n) && left == i - 1
  }

  // Block bp of s units goes in after its predecessor, from which the next search starts.
  ghost predicate PutsIn(bs: seq<Blk>, bp: int, s: int, r: seq<Blk>, at: nat) {
    After(bs, at, bp) && r == Inserted(bs, at, bp, s)
  }

  // New memory goes in first.
  ghost predicate TakesNew(bs: seq<Blk>, bp: int, s: int, n: int, r: int, rest: seq<Blk>, left: nat) {
    exists more: seq<Blk>, k: nat :: PutsIn(bs, bp, s, more, k) && TakesFirst(more, k, n, r, rest, left)
  }

  ghost predicate NoneFits(bs: seq<Blk>, n: int) {
    forall k :: 0 <= k < |bs| ==> bs[k].size < n
  }

  // The memory obtained after a call that needed more or did not.
  ghost predicate Grown(before: iset<int>, brk: int, needed: bool, n: int, os: Sbrk, after: iset<int>) {
    after == if needed && Granted(os, n) then before + Span(brk + os.gap, Asked(n)) else before
  }

  ghost function Under(arena: iset<int>, top: int): (r: iset<int>) {
    iset u | u in arena && u < top
  }

  // Nothing was obtained at or above the break.
  lemma Above(bs: seq<Blk>, size: map<int, int>, live: map<int, int>, brk: int, arena: iset<int>, u: int)
    requires HeapOk(bs, size, live, brk, arena) && brk <= u
    ensures u !in arena
  {
  }

  class Allocator {
    var ptr: map<int, int>      // s.ptr of the header at each address
    var size: map<int, int>     // s.size
    var freep: int
    var brk: int                // where sbrk will put the next memory, or above it
    ghost var bs: seq<Blk>      // the free list
    ghost var at: nat           // freep is block `at` of it
    ghost var live: map<int, int>
    ghost var arena: iset<int>  // all units obtained from sbrk

    ghost predicate Linked()
      reads this`ptr, this`size, this`freep, this`bs, this`at
    {
      Ring(bs, ptr, size) && at < |bs| && freep == bs[at].addr
    }

    /**
     One circular list in address order, fully coalesced; it and the blocks handed out make up
     all the memory obtained, and no two of them meet.
     */
    ghost predicate Valid()
      reads this
    {
      && HeapOk(bs, size, live, brk, arena)
      && if freep == NULL then bs == [Blk(BASE, 0)] && live == map[] else Linked()
    }

    constructor (brk: int)
      requires BASE < brk
      ensures Valid() && live == map[] && arena == iset{}
    {
      this.ptr, this.size, freep, this.brk := map[], map[], NULL, brk;
      bs, at, live, arena := [Blk(BASE, 0)], 0, map[], iset{};
    }

    // The loop of free: walk round until bp lies just after p.
    method Search(bp: int) returns (p: int, ghost k: nat)
      requires Ordered(bs) && Linked() && BASE < bp && forall i :: 0 <= i < |bs| ==> bs[i].addr != bp
      ensures After(bs, k, bp) && p == bs[k].addr
    {
      ghost var goal := Predecessor(bs, bp, |bs|);
      p, k := freep, at;
      while !(bp > p && bp < ptr[p])
        invariant k < |bs| && p == bs[k].addr
        invariant RingAt(bs, ptr, size, k)
        decreases if k <= goal then goal - k else |bs| + goal - k
      {
        if p >= ptr[p] && (bp > p || bp < ptr[p]) {
          break;
        }
        p, k := ptr[p], Next(k, |bs|);
      }
    }

    // The part of free after the search: link bp in after p, joining what touches.
    method Link(bp: int, p: int, ghost k: nat)
      requires Ordered(bs) && Linked() && After(bs, k, bp) && p == bs[k].addr
      requires bp in size && size[bp] > 0 && Apart(bs, bp, size[bp])
      requires RingAt(bs, ptr, size, k) && (JoinsUp(bs, k, bp, size[bp]) ==> RingAt(bs, ptr, size, k + 1))
      modifies this`ptr, this`size, this`freep
      ensures ptr == PtrAfter(bs, old(ptr), k, bp, old(size[bp])) && size == SizeAfter(bs, old(size), k, bp, old(size[bp]))
      ensures freep == p
    {
      assert RingAt(bs, ptr, size, k) && RingAt(bs, ptr, size, Next(k, |bs|));
      ghost var s := size[bp];
      assert bp + s == ptr[p] <==> JoinsUp(bs, k, bp, s);
      if bp + size[bp] == ptr[p] {
        size := size[bp := size[bp] + size[ptr[p]]];
        ptr := ptr[bp := ptr[ptr[p]]];
      } else {
        ptr := ptr[bp := ptr[p]];
      }
      if p + size[p] == bp {
        size := size[p := size[p] + size[bp]];
        ptr := ptr[p := ptr[bp]];
      } else {
        ptr := ptr[p := bp];
      }
      freep := p;
    }

    // The whole of free, on a block that is live or fresh from sbrk.
    method PutIn(bp: int)
      requires HeapOk(bs, size, live, brk, arena) && Linked()
      requires bp in size && size[bp] > 0 && Apart(bs, bp, size[bp]) && BASE < bp && bp + size[bp] <= brk
      requires forall i :: 0 <= i < |bs| ==> bs[i].addr != bp
      requires forall a :: a in live && a != bp ==> a + live[a] <= bp || bp + size[bp] <= a
      requires bp in live ==> live[bp] == size[bp]
      modifies this`ptr, this`size, this`freep, this`bs, this`at, this`live, this`arena
      ensures HeapOk(bs, size, live, brk, arena) && Linked() && freep != NULL
      ensures live == old(live) - {bp} && arena == old(arena) + Span(bp, old(size[bp])) && PutsIn(old(bs), bp, old(size[bp]), bs, at)
      ensures exists i :: 0 < i < |bs| && bs[i].size >= old(size[bp])
    {
      hide LiveOk, Partition, Top, Ring, Apart;
      var p;
      ghost var k;
      p, k := Search(bp);
      ghost var s := size[bp];
      InsertedOk(bs, size, live, brk, arena, k, bp, s);
      InsertedRing(bs, ptr, size, k, bp, s);
      Link(bp, p, k);
      ghost var r := Inserted(bs, k, bp, s);
      ghost var m := if JoinsDown(bs, k, bp) then k else k + 1;
      InsertedAt(bs, k, bp, s, k);
      InsertedAt(bs, k, bp, s, m);
      assert r[m].size >= s;
      bs, at, live, arena := r, k, live - {bp}, arena + Span(bp, s);
    }

    // Give back a block: its units become free and nothing else changes hands.
    method Free(bp: int)
      requires Valid() && bp in live
      modifies this`ptr, this`size, this`freep, this`bs, this`at, this`live, this`arena
      ensures Valid() && live == old(live) - {bp} && arena == old(arena) && PutsIn(old(bs), bp, old(live)[bp], bs, at)
    {
      forall u | u in Span(bp, size[bp]) ensures u in arena {
        assert LiveCovers(live, u);
      }
      PutIn(bp);
      assert arena == old(arena);
    }

    // n new units at hp go on the list.
    method AddMemory(hp: int, n: int)
      requires HeapOk(bs, size, live, brk, arena) && Linked() && freep != NULL && brk <= hp && 0 < n
      modifies this`ptr, this`size, this`freep, this`bs, this`at, this`live, this`arena, this`brk
      ensures HeapOk(bs, size, live, brk, arena) && Linked() && freep != NULL && live == old(live)
      ensures arena == old(arena) + Span(hp, n) && PutsIn(old(bs), hp, n, bs, at) && exists i :: 0 < i < |bs| && bs[i].size >= n
    {
      hide LiveOk, Partition, Top, Ring, Ordered, Apart;
      NewMemory(bs, ptr, size, live, brk, arena, hp, n);
      brk := hp + n;
      size := size[hp := n];
      PutIn(hp);
    }

    /**
     Ask sbrk for at least nu units and free them.  If the bytes asked for come out as no growth
     and sbrk grants that, the break has not gone up, and the code goes on to store a header
     just above it: `wild`.
     */
    method Morecore(nu: int, os: Sbrk) returns (p: int, wild: bool)
      requires HeapOk(bs, size, live, brk, arena) && Linked() && freep != NULL && 0 < nu <= UINT / HEADER
      modifies this`ptr, this`size, this`freep, this`bs, this`at, this`live, this`arena, this`brk
      ensures wild <==> Granted(os, nu) && SbrkArg(nu) <= 0
      ensures wild ==> arena <= old(arena) && old(brk) + os.gap !in arena
      ensures !wild ==> HeapOk(bs, size, live, brk, arena) && Linked() && freep != NULL && live == old(live)
      ensures !wild && !Granted(os, nu) ==> p == NULL && bs == old(bs) && arena == old(arena) && at == old(at)
      ensures !wild && Granted(os, nu) ==> p == freep && arena == old(arena) + Span(old(brk) + os.gap, Asked(nu))
      ensures !wild && Granted(os, nu) ==> PutsIn(old(bs), old(brk) + os.gap, Asked(nu), bs, at)
      ensures !wild && Granted(os, nu) ==> exists i :: 0 < i < |bs| && bs[i].size >= Asked(nu)
    {
      var n := if nu < MORECORE then MORECORE else nu;
      if !Granted(os, nu) {
        return NULL, false;
      }
      var hp := brk + os.gap;
      if SbrkArg(nu) <= 0 {
        Above(bs, size, live, brk, arena, hp);
        arena := Under(arena, hp - if SbrkArg(nu) == 0 then 0 else os.lost);
        return hp, true;
      }
      AddMemory(hp, n);
      return freep, false;
    }

    // The part of malloc that unlinks a block or cuts its tail off.
    method Cut(prevp: int, p: int, n: int, ghost i: nat) returns (r: int)
      requires 0 < i < |bs| && RingAt(bs, ptr, size, i) && p == bs[i].addr && 0 < n <= bs[i].size
      modifies this`ptr, this`size, this`freep
      ensures r == TakenAt(bs, i, n) && freep == prevp
      ensures ptr == if bs[i].size == n then old(ptr)[prevp := old(ptr)[p]] else old(ptr)
      ensures size == if bs[i].size == n then old(size) else old(size)[p := bs[i].size - n][r := n]
    {
      r := p;
      if size[p] == n {
        ptr := ptr[prevp := ptr[p]];
      } else {
        size := size[p := size[p] - n];
        r := p + size[p];
        size := size[r := n];
      }
      freep := prevp;
    }

    // Hand out n units from the block at p, whose predecessor is prevp.
    method Take(prevp: int, p: int, n: int, ghost i: nat) returns (r: int)
      requires HeapOk(bs, size, live, brk, arena) && Linked()
      requires 0 < i < |bs| && p == bs[i].addr && prevp == bs[i - 1].addr && 0 < n <= bs[i].size
      modifies this`ptr, this`size, this`freep, this`bs, this`at, this`live
      ensures HeapOk(bs, size, live, brk, arena) && Linked() && freep != NULL
      ensures BASE <= r && r !in old(live) && live == old(live)[r := n]
      ensures r == TakenAt(old(bs), i, n) && bs == Taken(old(bs), i, n) && at == i - 1
    {
      hide LiveOk, Partition, Top, Ring;
      TakenRing(bs, ptr, size, i, n);
      TakenOk(bs, size, live, brk, arena, i, n);
      ghost var rest := Taken(bs, i, n);
      r := Cut(prevp, p, n, i);
      bs, at, live := rest, i - 1, live[r := n];
    }

    // The search of malloc: from freep round to freep, for the first block of n units or more.
    method FirstFit(n: int) returns (prevp: int, p: int, found: bool, ghost i: nat)
      requires Ordered(bs) && Linked() && n > 0
      ensures found ==> FirstAt(bs, at, i, n) && p == bs[i].addr && prevp == bs[i - 1].addr
      ensures found <==> !NoneFits(bs, n)
    {
      assert RingAt(bs, ptr, size, at);
      prevp := freep;
      p := ptr[prevp];
      ghost var j: nat := at;
      while true
        invariant j < |bs| && prevp == bs[j].addr && p == bs[Next(j, |bs|)].addr && AllSmall(bs, at, j, n)
        decreases if at <= j then |bs| + at - j else at - j
      {
        i := Next(j, |bs|);
        assert RingAt(bs, ptr, size, i);
        if size[p] >= n {
          return prevp, p, true, i;
        }
        SmallMore(bs, at, j, n);
        if p == freep {
          OneIndex(bs, i, at);
          return prevp, p, false, i;
        }
        j := i;
        prevp := p;
        p := ptr[p];
      }
    }

    // malloc's first call: the base alone, linked to itself.
    method Start()
      requires Valid()
      modifies this`ptr, this`size, this`freep, this`at
      ensures HeapOk(bs, size, live, brk, arena) && Linked() && freep != NULL && (old(freep) != NULL ==> at == old(at))
    {
      if freep == NULL {
        ptr, freep, size := ptr[BASE := BASE], BASE, size[BASE := 0];
        at := 0;
        assert RingAt(bs, ptr, size, 0);
      }
    }

    // The loop of malloc: search, and if nothing fits get more memory and search again.
    method Fit(n: int, os: Sbrk) returns (prevp: int, p: int, wild: bool, ghost i: nat)
      requires HeapOk(bs, size, live, brk, arena) && Linked() && freep != NULL && 0 < n <= UINT / HEADER
      modifies this`ptr, this`size, this`freep, this`bs, this`at, this`live, this`arena, this`brk
      ensures wild <==> NoneFits(old(bs), n) && Granted(os, n) && SbrkArg(n) <= 0
      ensures wild ==> arena <= old(arena) && old(brk) + os.gap !in arena
      ensures !wild ==> HeapOk(bs, size, live, brk, arena) && Linked() && freep != NULL && live == old(live)
      ensures !wild ==> Grown(old(arena), old(brk), NoneFits(old(bs), n), n, os, arena)
      ensures !wild ==> (p == NULL <==> NoneFits(old(bs), n) && !Granted(os, n))
      ensures !wild && p != NULL ==> FirstAt(bs, at, i, n) && p == bs[i].addr && prevp == bs[i - 1].addr
      ensures !wild && !NoneFits(old(bs), n) ==> bs == old(bs) && at == old(at)
      ensures !wild && p != NULL && NoneFits(old(bs), n) ==> PutsIn(old(bs), old(brk) + os.gap, Asked(n), bs, at)
    {
      hide LiveOk, Partition, Top;
      wild := false;
      var found;
      prevp, p, found, i := FirstFit(n);
      if !found {
        p, wild := Morecore(n, os);
        if wild || p == NULL {
          return;
        }
        prevp, p, found, i := FirstFit(n);
        assert found;
      }
    }

    /**
     First fit.  A block of exactly the units the request needs, out of memory that was free or,
     if no free block was large enough, new; nothing exactly when none was large enough and
     sbrk refused.  The search goes round once, and once more after sbrk has granted memory, and
     then it finds a block.  `wild` is when it needs more memory and asks for none.
     */
    method Malloc(nbytes: int, os: Sbrk) returns (r: int, wild: bool)
      requires Valid() && 0 <= nbytes < UINT
      modifies this
      ensures wild <==> NoneFits(old(bs), Units(nbytes)) && Granted(os, Units(nbytes)) && SbrkArg(Units(nbytes)) <= 0
      ensures wild ==> INT - 16 < nbytes && nbytes + HEADER - 1 < UINT
      ensures wild ==> arena <= old(arena) && old(brk) + os.gap !in arena
      ensures !wild ==> Valid() && Grown(old(arena), old(brk), NoneFits(old(bs), Units(nbytes)), Units(nbytes), os, arena)
      ensures !wild ==> (r == NULL <==> NoneFits(old(bs), Units(nbytes)) && !Granted(os, Units(nbytes)))
      ensures !wild && r == NULL ==> live == old(live)
      ensures !wild && r != NULL ==> r - 1 !in old(live) && live == old(live)[r - 1 := Units(nbytes)]
      ensures !wild && !NoneFits(old(bs), Units(nbytes)) ==> TakesFirst(old(bs), old(at), Units(nbytes), r - 1, bs, at)
      ensures !wild && r != NULL && NoneFits(old(bs), Units(nbytes)) ==>
        TakesNew(old(bs), old(brk) + os.gap, Asked(Units(nbytes)), Units(nbytes), r - 1, bs, at)
    {
      hide LiveOk, Partition, Top, Ordered, Ring;
      var nunits := Units(nbytes);
      AskedIff(nbytes);
      Start();
      var prevp, p;
      ghost var i;
      prevp, p, wild, i := Fit(nunits, os);
      if wild || p == NULL {
        return NULL, wild;
      }
      ghost var from, k := bs, at;
      r := Take(prevp, p, nunits, i);
      assert TakesFirst(from, k, nunits, r, bs, at);
      r := r + 1;
    }
  }
}
