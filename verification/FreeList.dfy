/**
 The free list of umalloc.c as a value: blocks in address order, the static header `base`
 first.  Addresses and sizes are counted in headers.
 */
module FreeList {

  // The address of the static header; the program break lies above it.
  const BASE: int := 0

  datatype Blk = Blk(addr: int, size: int)

  /**
   Address-ordered and fully coalesced: between one block and the next there is always a gap.
   Only the base is empty.
   */
  ghost predicate Ordered(bs: seq<Blk>) {
    && |bs| > 0 && bs[0] == Blk(BASE, 0)
    && (forall i :: 0 < i < |bs| ==> bs[i].size > 0)
    && (forall i, j :: 0 <= i < j < |bs| ==> bs[i].addr + bs[i].size < bs[j].addr)
  }

  ghost predicate In(b: Blk, u: int) { b.addr <= u < b.addr + b.size }

  ghost predicate Covers(bs: seq<Blk>, u: int) {
    exists i :: 0 <= i < |bs| && In(bs[i], u)
  }

  // bp follows block k and precedes the next.
  ghost predicate After(bs: seq<Blk>, k: nat, bp: int) {
    k < |bs| && bs[k].addr < bp && (k + 1 < |bs| ==> bp < bs[k + 1].addr)
  }

  // The s units at bp do not meet any block.
  ghost predicate Apart(bs: seq<Blk>, bp: int, s: int) {
    forall i :: 0 <= i < |bs| ==> bs[i].addr + bs[i].size <= bp || bp + s <= bs[i].addr
  }

  // ---------------------------------------------------------------- putting a block in

  predicate JoinsUp(bs: seq<Blk>, k: nat, bp: int, s: int) {
    k + 1 < |bs| && bp + s == bs[k + 1].addr
  }

  predicate JoinsDown(bs: seq<Blk>, k: nat, bp: int) {
    k < |bs| && bs[k].addr + bs[k].size == bp
  }

  function Merged(bs: seq<Blk>, k: nat, bp: int, s: int): (b: Blk)
    requires k < |bs|
  {
    Blk(if JoinsDown(bs, k, bp) then bs[k].addr else bp,
        (if JoinsDown(bs, k, bp) then bs[k].size else 0) + s + (if JoinsUp(bs, k, bp, s) then bs[k + 1].size else 0))
  }

  // The list with the s units at bp put in after block k, joined to its neighbours if they touch.
  function Inserted(bs: seq<Blk>, k: nat, bp: int, s: int): (r: seq<Blk>)
    requires k < |bs|
  {
    bs[..if JoinsDown(bs, k, bp) then k else k + 1]
    + [Merged(bs, k, bp, s)]
    + bs[if JoinsUp(bs, k, bp, s) then k + 2 else k + 1..]
  }

  // The three parts of the new list, index by index.
  lemma InsertedAt(bs: seq<Blk>, k: nat, bp: int, s: int, i: nat)
    requires k < |bs| && i < |Inserted(bs, k, bp, s)|
    ensures var down := if JoinsDown(bs, k, bp) then 0 else 1; var up := if JoinsUp(bs, k, bp, s) then 1 else 0;
      && |Inserted(bs, k, bp, s)| == |bs| + down - up
      && Inserted(bs, k, bp, s)[i] ==
         if i < k + down then bs[i] else if i == k + down then Merged(bs, k, bp, s) else bs[i - down + up]
  {
  }

  lemma InsertedOrdered(bs: seq<Blk>, k: nat, bp: int, s: int)
    requires Ordered(bs) && After(bs, k, bp) && s > 0 && Apart(bs, bp, s)
    ensures Ordered(Inserted(bs, k, bp, s))
  {
    var r := Inserted(bs, k, bp, s);
    forall i, j | 0 <= i < j < |r| ensures r[i].addr + r[i].size < r[j].addr {
      InsertedAt(bs, k, bp, s, i);
      InsertedAt(bs, k, bp, s, j);
    }
    forall i | 0 < i < |r| ensures r[i].size > 0 {
      InsertedAt(bs, k, bp, s, i);
    }
  }

  lemma MergedCovers(bs: seq<Blk>, k: nat, bp: int, s: int, u: int)
    requires Ordered(bs) && After(bs, k, bp) && s > 0 && Apart(bs, bp, s)
    ensures In(Merged(bs, k, bp, s), u) <==>
      || bp <= u < bp + s
      || (JoinsDown(bs, k, bp) && In(bs[k], u))
      || (JoinsUp(bs, k, bp, s) && In(bs[k + 1], u))
  {
  }

  lemma CoversIn(bs: seq<Blk>, k: nat, bp: int, s: int, u: int)
    requires Ordered(bs) && After(bs, k, bp) && s > 0 && Apart(bs, bp, s)
    requires Covers(Inserted(bs, k, bp, s), u)
    ensures Covers(bs, u) || bp <= u < bp + s
  {
    var r := Inserted(bs, k, bp, s);
    var i :| 0 <= i < |r| && In(r[i], u);
    InsertedAt(bs, k, bp, s, i);
    MergedCovers(bs, k, bp, s, u);
  }

  // Where block i of the old list, or the block put in, is in the new one.
  lemma CoversOut(bs: seq<Blk>, k: nat, bp: int, s: int, u: int)
    requires Ordered(bs) && After(bs, k, bp) && s > 0 && Apart(bs, bp, s)
    requires Covers(bs, u) || bp <= u < bp + s
    ensures Covers(Inserted(bs, k, bp, s), u)
  {
    MergedCovers(bs, k, bp, s, u);
    var i := if Covers(bs, u) then CoveredBy(bs, u) else k;
    Moved(bs, k, bp, s, i);
  }

  lemma Moved(bs: seq<Blk>, k: nat, bp: int, s: int, i: nat)
    requires k < |bs| && i < |bs|
    ensures Merged(bs, k, bp, s) in Inserted(bs, k, bp, s)
    ensures bs[i] in Inserted(bs, k, bp, s) || (i == k && JoinsDown(bs, k, bp)) || (i == k + 1 && JoinsUp(bs, k, bp, s))
  {
    var r := Inserted(bs, k, bp, s);
    var down := if JoinsDown(bs, k, bp) then 0 else 1;
    var up := if JoinsUp(bs, k, bp, s) then 1 else 0;
    assert |r| == |bs| + down - up && r[k + down] == Merged(bs, k, bp, s);
    if i < k + down {
      assert r[i] == bs[i];
    } else if i > k + up {
      assert r[i + down - up] == bs[i];
    }
  }

  ghost function CoveredBy(bs: seq<Blk>, u: int): (i: nat)
    requires Covers(bs, u)
    ensures i < |bs| && In(bs[i], u)
  {
    var i :| 0 <= i < |bs| && In(bs[i], u); i
  }

  // The list then covers what it did and the block put in.
  lemma InsertedCovers(bs: seq<Blk>, k: nat, bp: int, s: int, u: int)
    requires Ordered(bs) && After(bs, k, bp) && s > 0 && Apart(bs, bp, s)
    ensures Covers(Inserted(bs, k, bp, s), u) <==> Covers(bs, u) || bp <= u < bp + s
  {
    if Covers(Inserted(bs, k, bp, s), u) {
      CoversIn(bs, k, bp, s, u);
    }
    if Covers(bs, u) || bp <= u < bp + s {
      CoversOut(bs, k, bp, s, u);
    }
  }

  // ---------------------------------------------------------------- taking units out

  // n units from block i: the whole block, or its tail.
  function Taken(bs: seq<Blk>, i: nat, n: int): (r: seq<Blk>)
    requires i < |bs|
  {
    if bs[i].size == n then bs[..i] + bs[i + 1..] else bs[i := Blk(bs[i].addr, bs[i].size - n)]
  }

  // The address handed out.
  function TakenAt(bs: seq<Blk>, i: nat, n: int): (a: int)
    requires i < |bs|
  {
    bs[i].addr + bs[i].size - n
  }

  lemma TakenOrdered(bs: seq<Blk>, i: nat, n: int)
    requires Ordered(bs) && 0 < i < |bs| && 0 < n <= bs[i].size
    ensures Ordered(Taken(bs, i, n))
  {
    var r := Taken(bs, i, n);
    if bs[i].size == n {
      forall j | 0 <= j < |r| ensures r[j] == bs[if j < i then j else j + 1] {
      }
    }
  }

  // Where a block of the shorter list comes from.
  lemma TakenFrom(bs: seq<Blk>, i: nat, n: int, j: nat) returns (m: nat)
    requires i < |bs| && j < |Taken(bs, i, n)|
    ensures m < |bs|
    ensures Taken(bs, i, n)[j] == if m == i then Blk(bs[i].addr, bs[i].size - n) else bs[m]
    ensures m == i ==> bs[i].size != n
  {
    m := if bs[i].size == n && j >= i then j + 1 else j;
  }

  lemma TakenTo(bs: seq<Blk>, i: nat, n: int, m: nat)
    requires i < |bs| && m < |bs|
    ensures m != i ==> bs[m] in Taken(bs, i, n)
    ensures bs[i].size != n ==> Blk(bs[i].addr, bs[i].size - n) in Taken(bs, i, n)
  {
    var r := Taken(bs, i, n);
    if bs[i].size == n {
      if m != i {
        assert r[if m < i then m else m - 1] == bs[m];
      }
    } else {
      assert r[i] == Blk(bs[i].addr, bs[i].size - n);
      assert m != i ==> r[m] == bs[m];
    }
  }

  // What is left and what was taken are apart, and make up what there was.
  lemma TakenCovers(bs: seq<Blk>, i: nat, n: int, u: int)
    requires Ordered(bs) && 0 < i < |bs| && 0 < n <= bs[i].size
    ensures Covers(bs, u) <==> Covers(Taken(bs, i, n), u) || TakenAt(bs, i, n) <= u < TakenAt(bs, i, n) + n
    ensures !(Covers(Taken(bs, i, n), u) && TakenAt(bs, i, n) <= u < TakenAt(bs, i, n) + n)
  {
    if Covers(bs, u) {
      TakenTo(bs, i, n, CoveredBy(bs, u));
    }
    if Covers(Taken(bs, i, n), u) {
      var m := TakenFrom(bs, i, n, CoveredBy(Taken(bs, i, n), u));
      assert In(bs[m], u);
    }
    assert TakenAt(bs, i, n) <= u < TakenAt(bs, i, n) + n ==> In(bs[i], u);
  }
}
