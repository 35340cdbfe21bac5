/**
 Two-level page tables over the page allocator, as a value.  Every physical page the allocator
 was given has one owner; each primitive below moves one page from one owner to another.
 */
module PageTables {

  const NENTRIES: nat := 1024
  const KERN: nat := 0x80000        // KERNBASE, in pages
  const TOP: nat := 0x100000        // the end of the address space, in pages
  const NOTABLE: int := 0           // no page: page 0 is never given to the allocator

  datatype Pte = Absent | Present(pa: int, user: bool, writable: bool)

  // Held: allocated, and in the hands of the kernel code that is running.
  datatype Owner = Free | Held | Dir | Table(dir: int, i: nat) | User(dir: int, v: nat)

  datatype VM = VM(free: seq<int>, dirs: map<int, seq<int>>, tables: map<int, seq<Pte>>, owner: map<int, Owner>)

  // What page v of address space d is mapped to.
  function Lookup(m: VM, d: int, v: nat): (pte: Pte) {
    if d in m.dirs && |m.dirs[d]| == NENTRIES && v < TOP && m.dirs[d][v / NENTRIES] in m.tables
       && |m.tables[m.dirs[d][v / NENTRIES]]| == NENTRIES
    then m.tables[m.dirs[d][v / NENTRIES]][v % NENTRIES] else Absent
  }

  ghost predicate DirsOk(m: VM) {
    forall d :: d in m.dirs ==> |m.dirs[d]| == NENTRIES && d in m.owner && m.owner[d] == Dir
  }

  ghost predicate TablesOk(m: VM) {
    && (forall d, i :: d in m.dirs && 0 <= i < |m.dirs[d]| && m.dirs[d][i] != NOTABLE ==>
          m.dirs[d][i] in m.tables && m.dirs[d][i] in m.owner && m.owner[m.dirs[d][i]] == Table(d, i))
    && (forall t :: t in m.tables ==> |m.tables[t]| == NENTRIES && t in m.owner && m.owner[t].Table?)
    && NOTABLE !in m.tables
  }

  // A page mapped in user space is owned by that mapping.
  ghost predicate UsersOk(m: VM) {
    forall d, v :: 0 <= v < KERN && Lookup(m, d, v).Present? ==>
      Lookup(m, d, v).pa in m.owner && m.owner[Lookup(m, d, v).pa] == User(d, v)
  }

  ghost predicate FreeOk(m: VM) {
    && (forall k :: 0 <= k < |m.free| ==> m.free[k] in m.owner && m.owner[m.free[k]] == Free)
    && (forall j, k :: 0 <= j < k < |m.free| ==> m.free[j] != m.free[k])
  }

  // Every page is where its owner says it is.
  ghost predicate Found(m: VM, x: int)
    requires x in m.owner
  {
    match m.owner[x]
    case Free => x in m.free
    case Held => true
    case Dir => x in m.dirs
    case Table(d, i) => d in m.dirs && i < |m.dirs[d]| && m.dirs[d][i] == x && x != NOTABLE
    case User(d, v) => v < KERN && Lookup(m, d, v).Present? && Lookup(m, d, v).pa == x
  }

  ghost predicate Owned(m: VM) {
    && DirsOk(m) && TablesOk(m) && UsersOk(m) && FreeOk(m)
    && forall x :: x in m.owner ==> Found(m, x)
  }

  // All address spaces map what they did.
  ghost predicate SameMaps(m: VM, n: VM) {
    forall d, v :: Lookup(n, d, v) == Lookup(m, d, v)
  }

  // ---------------------------------------------------------------- the page allocator

  function Kallocked(m: VM): (n: VM)
    requires |m.free| > 0
  {
    m.(free := m.free[1..], owner := m.owner[m.free[0] := Held])
  }

  function Kfreed(m: VM, x: int): (n: VM) {
    m.(free := [x] + m.free, owner := m.owner[x := Free])
  }

  lemma KallocOk(m: VM)
    requires Owned(m) && |m.free| > 0
    ensures var n := Kallocked(m); var x := m.free[0];
      Owned(n) && SameMaps(m, n) && n.owner.Keys == m.owner.Keys && x in m.owner && m.owner[x] == Free
  {
    var n := Kallocked(m);
    assert SameMaps(m, n);
    assert forall k :: 0 <= k < |n.free| ==> n.free[k] == m.free[k + 1];
    forall x | x in n.owner ensures Found(n, x) {
      assert x in m.owner ==> Found(m, x);
    }
  }

  lemma KfreeOk(m: VM, x: int)
    requires Owned(m) && x in m.owner && m.owner[x] == Held
    ensures Owned(Kfreed(m, x)) && SameMaps(m, Kfreed(m, x)) && Kfreed(m, x).owner.Keys == m.owner.Keys
  {
    var n := Kfreed(m, x);
    assert SameMaps(m, n);
    forall y | y in n.owner ensures Found(n, y) {
      assert Found(m, y);
      if m.owner[y] == Free {
        var k :| 0 <= k < |m.free| && m.free[k] == y;
        assert n.free[k + 1] == y;
      }
      assert n.free[0] == x;
    }
  }

  // ---------------------------------------------------------------- directories and tables

  // A page of zeros: no entry present.
  function NoTables(): (r: seq<int>)
    ensures |r| == NENTRIES && forall i :: 0 <= i < NENTRIES ==> r[i] == NOTABLE
  {
    seq(NENTRIES, i => NOTABLE)
  }

  function NoPages(): (r: seq<Pte>)
    ensures |r| == NENTRIES && forall i :: 0 <= i < NENTRIES ==> r[i] == Absent
  {
    seq(NENTRIES, i => Absent)
  }

  function WithDir(m: VM, x: int): (n: VM) {
    m.(dirs := m.dirs[x := NoTables()], owner := m.owner[x := Dir])
  }

  lemma WithDirOk(m: VM, x: int)
    requires Owned(m) && x in m.owner && m.owner[x] == Held
    ensures Owned(WithDir(m, x)) && SameMaps(m, WithDir(m, x)) && WithDir(m, x).owner.Keys == m.owner.Keys
    ensures x !in m.dirs && forall v :: Lookup(WithDir(m, x), x, v) == Absent
  {
    var n := WithDir(m, x);
    assert x !in m.dirs;
    forall d: int, v: nat ensures Lookup(n, d, v) == Lookup(m, d, v) {
      assert d == x ==> Lookup(m, d, v) == Absent;
    }
    forall y | y in n.owner ensures Found(n, y) {
      assert Found(m, y);
    }
  }

  function WithTable(m: VM, d: int, i: nat, t: int): (n: VM)
    requires d in m.dirs && i < |m.dirs[d]|
  {
    m.(dirs := m.dirs[d := m.dirs[d][i := t]], tables := m.tables[t := NoPages()], owner := m.owner[t := Table(d, i)])
  }

  // A fresh table maps nothing, as no table did before.
  lemma WithTableMaps(m: VM, d: int, i: nat, t: int)
    requires Owned(m) && d in m.dirs && i < NENTRIES && m.dirs[d][i] == NOTABLE
    requires t in m.owner && m.owner[t] == Held && t != NOTABLE
    ensures SameMaps(m, WithTable(m, d, i, t))
  {
    var n := WithTable(m, d, i, t);
    assert t !in m.tables;
    forall e: int, v: nat ensures Lookup(n, e, v) == Lookup(m, e, v) {
      if e in m.dirs && v < TOP && (e != d || v / NENTRIES != i) {
        assert m.dirs[e][v / NENTRIES] != t;
      }
    }
  }

  lemma WithTableOk(m: VM, d: int, i: nat, t: int)
    requires Owned(m) && d in m.dirs && i < NENTRIES && m.dirs[d][i] == NOTABLE
    requires t in m.owner && m.owner[t] == Held && t != NOTABLE
    ensures var n := WithTable(m, d, i, t);
      Owned(n) && SameMaps(m, n) && n.owner.Keys == m.owner.Keys
  {
    var n := WithTable(m, d, i, t);
    WithTableMaps(m, d, i, t);
    assert t !in m.tables && t !in m.dirs;
    forall y | y in n.owner ensures Found(n, y) {
      assert Found(m, y);
    }
  }

  // ---------------------------------------------------------------- page table entries

  ghost predicate HasTable(m: VM, d: int, v: nat) {
    d in m.dirs && v < TOP && |m.dirs[d]| == NENTRIES && m.dirs[d][v / NENTRIES] in m.tables
  }

  function WithPte(m: VM, d: int, v: nat, pte: Pte): (n: VM)
    requires d in m.dirs && v < TOP && |m.dirs[d]| == NENTRIES && m.dirs[d][v / NENTRIES] in m.tables
    requires |m.tables[m.dirs[d][v / NENTRIES]]| == NENTRIES
  {
    var t := m.dirs[d][v / NENTRIES];
    m.(tables := m.tables[t := m.tables[t][v % NENTRIES := pte]])
  }

  // Only page v of address space d is mapped differently.
  ghost predicate OnlyMap(m: VM, n: VM, d: int, v: nat, pte: Pte) {
    forall e: int, u: nat :: Lookup(n, e, u) == if e == d && u == v then pte else Lookup(m, e, u)
  }

  lemma WithPteMaps(m: VM, d: int, v: nat, pte: Pte)
    requires DirsOk(m) && TablesOk(m) && HasTable(m, d, v)
    ensures OnlyMap(m, WithPte(m, d, v, pte), d, v, pte)
  {
    var n := WithPte(m, d, v, pte);
    var t := m.dirs[d][v / NENTRIES];
    forall e: int, u: nat ensures Lookup(n, e, u) == if e == d && u == v then pte else Lookup(m, e, u) {
      if e in m.dirs && u < TOP && m.dirs[e][u / NENTRIES] == t {
        assert m.owner[t] == Table(e, u / NENTRIES) == Table(d, v / NENTRIES);
        assert u == v || u % NENTRIES != v % NENTRIES;
      }
    }
  }

  // Changing an entry, and who owns the page it maps, moves no table.
  lemma WithPteTables(m: VM, d: int, v: nat, pte: Pte, owner: map<int, Owner>)
    requires DirsOk(m) && TablesOk(m) && HasTable(m, d, v)
    requires owner.Keys == m.owner.Keys && forall x :: x in owner && (m.owner[x].Dir? || m.owner[x].Table?) ==> owner[x] == m.owner[x]
    ensures DirsOk(WithPte(m, d, v, pte).(owner := owner)) && TablesOk(WithPte(m, d, v, pte).(owner := owner))
  {
  }

  function MappedUser(m: VM, d: int, v: nat, pte: Pte): (n: VM)
    requires d in m.dirs && v < TOP && |m.dirs[d]| == NENTRIES && m.dirs[d][v / NENTRIES] in m.tables
    requires |m.tables[m.dirs[d][v / NENTRIES]]| == NENTRIES && pte.Present?
  {
    WithPte(m, d, v, pte).(owner := m.owner[pte.pa := User(d, v)])
  }

  lemma MappedUserOk(m: VM, d: int, v: nat, pte: Pte)
    requires Owned(m) && HasTable(m, d, v) && v < KERN && Lookup(m, d, v) == Absent
    requires pte.Present? && pte.pa in m.owner && m.owner[pte.pa] == Held
    ensures var n := MappedUser(m, d, v, pte);
      Owned(n) && OnlyMap(m, n, d, v, pte) && n.owner.Keys == m.owner.Keys
  {
    var n := MappedUser(m, d, v, pte);
    WithPteMaps(m, d, v, pte);
    WithPteTables(m, d, v, pte, n.owner);
    assert forall e: int, u: nat :: Lookup(n, e, u) == Lookup(WithPte(m, d, v, pte), e, u);
    forall y | y in n.owner ensures Found(n, y) {
      assert Found(m, y);
    }
  }

  // The kernel's own mappings own nothing.
  lemma MappedKernelOk(m: VM, d: int, v: nat, pte: Pte)
    requires Owned(m) && HasTable(m, d, v) && KERN <= v
    ensures var n := WithPte(m, d, v, pte); Owned(n) && OnlyMap(m, n, d, v, pte)
  {
    var n := WithPte(m, d, v, pte);
    WithPteMaps(m, d, v, pte);
    WithPteTables(m, d, v, pte, m.owner);
    forall y | y in n.owner ensures Found(n, y) {
      assert Found(m, y);
    }
  }

  function Unmapped(m: VM, d: int, v: nat): (n: VM)
    requires d in m.dirs && v < TOP && |m.dirs[d]| == NENTRIES && m.dirs[d][v / NENTRIES] in m.tables
    requires |m.tables[m.dirs[d][v / NENTRIES]]| == NENTRIES && Lookup(m, d, v).Present?
  {
    WithPte(m, d, v, Absent).(owner := m.owner[Lookup(m, d, v).pa := Held])
  }

  lemma UnmappedOk(m: VM, d: int, v: nat)
    requires Owned(m) && HasTable(m, d, v) && v < KERN && Lookup(m, d, v).Present?
    ensures var n := Unmapped(m, d, v);
      Owned(n) && OnlyMap(m, n, d, v, Absent) && n.owner.Keys == m.owner.Keys
      && n.owner[Lookup(m, d, v).pa] == Held
  {
    var n := Unmapped(m, d, v);
    WithPteMaps(m, d, v, Absent);
    WithPteTables(m, d, v, Absent, n.owner);
    assert forall e: int, u: nat :: Lookup(n, e, u) == Lookup(WithPte(m, d, v, Absent), e, u);
    forall y | y in n.owner ensures Found(n, y) {
      assert Found(m, y);
    }
  }

  // ---------------------------------------------------------------- taking an address space apart

  function DroppedTable(m: VM, d: int, i: nat): (n: VM)
    requires d in m.dirs && i < |m.dirs[d]|
  {
    var t := m.dirs[d][i];
    m.(dirs := m.dirs[d := m.dirs[d][i := NOTABLE]], tables := m.tables - {t}, owner := m.owner[t := Held])
  }

  lemma DroppedTableMaps(m: VM, d: int, i: nat)
    requires Owned(m) && d in m.dirs && i < NENTRIES && m.dirs[d][i] != NOTABLE
    ensures forall e: int, u: nat :: Lookup(DroppedTable(m, d, i), e, u) == if e == d && u / NENTRIES == i then Absent else Lookup(m, e, u)
  {
    var n := DroppedTable(m, d, i);
    var t := m.dirs[d][i];
    forall e: int, u: nat ensures Lookup(n, e, u) == if e == d && u / NENTRIES == i then Absent else Lookup(m, e, u) {
      if e in m.dirs && u < TOP && m.dirs[e][u / NENTRIES] == t {
        assert m.owner[t] == Table(e, u / NENTRIES) == Table(d, i);
      }
    }
  }

  lemma DroppedTableOk(m: VM, d: int, i: nat)
    requires Owned(m) && d in m.dirs && i < NENTRIES && m.dirs[d][i] != NOTABLE
    requires forall v :: 0 <= v < KERN && v / NENTRIES == i ==> Lookup(m, d, v) == Absent
    ensures var n := DroppedTable(m, d, i);
      Owned(n) && n.owner.Keys == m.owner.Keys && m.dirs[d][i] in n.owner && n.owner[m.dirs[d][i]] == Held
  {
    var n := DroppedTable(m, d, i);
    var t := m.dirs[d][i];
    DroppedTableMaps(m, d, i);
    forall e, j | e in n.dirs && 0 <= j < |n.dirs[e]| && n.dirs[e][j] != NOTABLE
      ensures n.dirs[e][j] in n.tables && n.dirs[e][j] in n.owner && n.owner[n.dirs[e][j]] == Table(e, j)
    {
      assert n.dirs[e][j] == m.dirs[e][j];
    }
    forall y | y in n.owner ensures Found(n, y) {
      assert Found(m, y);
    }
  }

  function DroppedDir(m: VM, d: int): (n: VM) {
    m.(dirs := m.dirs - {d}, owner := m.owner[d := Held])
  }

  lemma DroppedDirOk(m: VM, d: int)
    requires Owned(m) && d in m.dirs && forall i :: 0 <= i < NENTRIES ==> m.dirs[d][i] == NOTABLE
    ensures var n := DroppedDir(m, d);
      Owned(n) && SameMaps(m, n) && n.owner.Keys == m.owner.Keys && d in n.owner && n.owner[d] == Held
  {
    var n := DroppedDir(m, d);
    forall e: int, u: nat ensures Lookup(n, e, u) == Lookup(m, e, u) {
    }
    forall y | y in n.owner ensures Found(n, y) {
      assert Found(m, y);
    }
  }

  // No page backs two user mappings, in one address space or in two.
  lemma NoSharing(m: VM, d: int, v: nat, e: int, u: nat)
    requires Owned(m) && v < KERN && u < KERN && Lookup(m, d, v).Present? && Lookup(m, e, u).Present?
    requires Lookup(m, d, v).pa == Lookup(m, e, u).pa
    ensures d == e && v == u && Lookup(m, d, v).pa !in m.free && Lookup(m, d, v).pa !in m.tables && Lookup(m, d, v).pa !in m.dirs
  {
    assert m.owner[Lookup(m, d, v).pa] == User(d, v);
    assert m.owner[Lookup(m, e, u).pa] == User(e, u);
  }

  // ---------------------------------------------------------------- ranges

  // The physical pages mapped at lo .. hi, in order.
  function Pages(m: VM, d: int, lo: nat, hi: nat): (r: seq<int>)
    decreases hi
  {
    if lo >= hi then []
    else if Lookup(m, d, hi - 1).Present? then Pages(m, d, lo, hi - 1) + [Lookup(m, d, hi - 1).pa]
    else Pages(m, d, lo, hi - 1)
  }

  // The free list once these pages have been freed one after another.
  function Pushed(free: seq<int>, ps: seq<int>): (r: seq<int>) {
    if ps == [] then free else [ps[|ps| - 1]] + Pushed(free, ps[..|ps| - 1])
  }

  // A stretch with nothing mapped adds no page.
  lemma {:induction false} NoPagesIn(m: VM, d: int, lo: nat, k: nat, hi: nat)
    requires lo <= k <= hi && forall u :: k <= u < hi ==> Lookup(m, d, u) == Absent
    ensures Pages(m, d, lo, hi) == Pages(m, d, lo, k)
    decreases hi
  {
    if k < hi {
      NoPagesIn(m, d, lo, k, hi - 1);
    }
  }

  // Freeing one more page.
  lemma PushedOne(free: seq<int>, ps: seq<int>, x: int)
    ensures Pushed(free, ps + [x]) == [x] + Pushed(free, ps)
  {
    assert (ps + [x])[..|ps + [x]| - 1] == ps;
  }

  // Page k adds itself, if it is mapped, and the unmapped pages after it add nothing.
  lemma PagesStep(m: VM, d: int, lo: nat, k: nat, hi: nat, free: seq<int>)
    requires lo <= k < hi && forall u :: k < u < hi ==> Lookup(m, d, u) == Absent
    ensures Pushed(free, Pages(m, d, lo, hi)) ==
      var r := Pushed(free, Pages(m, d, lo, k)); if Lookup(m, d, k).Present? then [Lookup(m, d, k).pa] + r else r
  {
    NoPagesIn(m, d, lo, k + 1, hi);
    if Lookup(m, d, k).Present? {
      PushedOne(free, Pages(m, d, lo, k), Lookup(m, d, k).pa);
    }
  }
}
