/** kalloc.c and vm.c, on the free list and the page tables they update in place. */
module Vm {
  import opened PageTables

  const PGSIZE: nat := 4096
  const KERNBASE: nat := KERN * PGSIZE

  // Pages needed to reach address a: PGROUNDUP, in pages.
  function Up(a: nat): (r: nat) { (a + PGSIZE - 1) / PGSIZE }

  // ---------------------------------------------------------------- the kernel's part

  const EXTPAGES: nat := 0x100          // EXTMEM
  const PHYSPAGES: nat := 0xE000        // PHYSTOP
  const DEVPAGES: nat := 0xFE000        // DEVSPACE

  // What every address space maps at v, the kernel's data starting at physical page `data`.
  function KernelMap(data: nat, v: nat): (pte: Pte) {
    if KERN <= v < KERN + EXTPAGES then Present(v - KERN, false, true)
    else if KERN + EXTPAGES <= v < KERN + data then Present(v - KERN, false, false)
    else if KERN + data <= v < KERN + PHYSPAGES then Present(v - KERN, false, true)
    else if DEVPAGES <= v < TOP then Present(v, false, true)
    else Absent
  }

  // The rows of kmap: virtual page, number of pages, physical page, permission.
  datatype Row = Row(virt: nat, count: nat, phys: nat, writable: bool)

  const NROWS: nat := 4

  function Kmap(data: nat, k: nat): (row: Row)
    requires EXTPAGES < data < PHYSPAGES && k < NROWS
  {
    if k == 0 then Row(KERN, EXTPAGES, 0, true)
    else if k == 1 then Row(KERN + EXTPAGES, data - EXTPAGES, EXTPAGES, false)
    else if k == 2 then Row(KERN + data, PHYSPAGES - data, data, true)
    else Row(DEVPAGES, TOP - DEVPAGES, DEVPAGES, true)
  }

  // What the first k rows map at v.
  function RowsMap(data: nat, k: nat, v: nat): (pte: Pte)
    requires EXTPAGES < data < PHYSPAGES && k <= NROWS
  {
    if k == 0 then Absent
    else
      var row := Kmap(data, k - 1);
      if row.virt <= v < row.virt + row.count then Present(row.phys + v - row.virt, false, row.writable)
      else RowsMap(data, k - 1, v)
  }

  // No row maps a page that an earlier row maps.
  lemma RowsApart(data: nat, k: nat)
    requires EXTPAGES < data < PHYSPAGES && k < NROWS
    ensures var row := Kmap(data, k); forall u :: row.virt <= u < row.virt + row.count ==> RowsMap(data, k, u) == Absent
  {
    var row := Kmap(data, k);
    forall u | row.virt <= u < row.virt + row.count ensures RowsMap(data, k, u) == Absent {
      RowsBelow(data, k, u);
    }
  }

  lemma {:induction false} RowsBelow(data: nat, k: nat, u: nat)
    requires EXTPAGES < data < PHYSPAGES && k <= NROWS && forall j :: 0 <= j < k ==> Kmap(data, j).virt + Kmap(data, j).count <= u
    ensures RowsMap(data, k, u) == Absent
  {
    if k > 0 {
      RowsBelow(data, k - 1, u);
    }
  }

  lemma RowsAll(data: nat, u: nat)
    requires EXTPAGES < data < PHYSPAGES
    ensures RowsMap(data, NROWS, u) == KernelMap(data, u)
  {
    assert RowsMap(data, 1, u) == if KERN <= u < KERN + EXTPAGES then Present(u - KERN, false, true) else Absent;
    assert RowsMap(data, 2, u) == if KERN <= u < KERN + EXTPAGES then Present(u - KERN, false, true)
      else if KERN + EXTPAGES <= u < KERN + data then Present(u - KERN, false, false) else Absent;
  }

  // Page x, owned by o, belongs to address space d.
  ghost predicate PartOf(o: Owner, x: int, d: int) {
    (o.Dir? && x == d) || (o.Table? && o.dir == d) || (o.User? && o.dir == d)
  }

  // Page a starts below sz exactly when it is one of the pages that hold sz bytes.
  lemma PageBelow(a: nat, sz: nat)
    ensures a * PGSIZE < sz <==> a < Up(sz)
    ensures sz <= KERNBASE ==> Up(sz) <= KERN
  {
  }

  // The first page of the next table.
  function NextTable(k: nat): (r: nat)
    ensures k < r && forall u :: k <= u < r ==> u / NENTRIES == k / NENTRIES
  {
    (k / NENTRIES + 1) * NENTRIES
  }

  // What came of mapping a page: done, no page for a table, or mapped already.
  datatype Mapping = Mapped | NoTable | Remap

  // How many of the pages v .. hi are in user space.
  function InUser(v: nat, hi: nat): (k: int)
    requires v <= hi
  {
    if hi <= KERN then hi - v else if v < KERN then KERN - v else 0
  }

  // From m to n pages have been taken from the free list and none put back.
  ghost predicate Takes(m: VM, n: VM) {
    forall x :: x in n.owner && n.owner[x].Free? ==> x in m.owner && m.owner[x].Free?
  }

  // The pages in hand in n are those of m, without x.
  ghost predicate HeldBut(m: VM, n: VM, x: int) {
    forall y :: y in n.owner ==> (n.owner[y].Held? <==> y in m.owner && m.owner[y].Held? && y != x)
  }

  // The same, without the k pages from pa on.
  ghost predicate HeldRun(m: VM, n: VM, pa: int, k: int) {
    forall y :: y in n.owner ==> (n.owner[y].Held? <==> y in m.owner && m.owner[y].Held? && !(pa <= y < pa + k))
  }

  // In n, pages lo .. hi of d map consecutive physical pages from pa; other mappings are as in m.
  ghost predicate MapsRun(m: VM, n: VM, d: int, lo: nat, hi: nat, pa: int, user: bool, writable: bool) {
    forall e: int, u: nat :: Lookup(n, e, u) ==
      if e == d && lo <= u < hi then Present(pa + u - lo, user, writable) else Lookup(m, e, u)
  }

  // What a missing table and an entry of a table say of page a.
  lemma NoTableThere(m: VM, d: int, a: nat)
    requires Owned(m) && d in m.dirs && a < TOP
    ensures |m.dirs[d]| == NENTRIES
    ensures m.dirs[d][a / NENTRIES] == NOTABLE ==> Lookup(m, d, a) == Absent
  {
  }

  lemma DirSize(m: VM, d: int)
    requires Owned(m) && d in m.dirs
    ensures |m.dirs[d]| == NENTRIES
  {
  }

  lemma TableEntry(m: VM, d: int, a: nat)
    requires Owned(m) && HasTable(m, d, a)
    ensures var t := m.dirs[d][a / NENTRIES]; |m.tables[t]| == NENTRIES && Lookup(m, d, a) == m.tables[t][a % NENTRIES]
  {
  }

  lemma PresentTable(m: VM, d: int, a: nat)
    requires Owned(m) && d in m.dirs && a < TOP && Lookup(m, d, a).Present?
    ensures |m.dirs[d]| == NENTRIES && m.dirs[d][a / NENTRIES] != NOTABLE
  {
  }

  // In n page mem, if it is one, is in hand besides those of m.
  ghost predicate HandHas(m: VM, n: VM, mem: int) {
    && n.owner.Keys == m.owner.Keys && (mem == NOTABLE || (mem in n.owner && n.owner[mem] == Held && !m.owner[mem].Held?))
    && forall y :: y in n.owner ==> (n.owner[y].Held? <==> m.owner[y].Held? || y == mem)
  }

  // Address space d is gone, and of its pages each is free or where it was: so each is free.
  lemma AllFreed(m: VM, n: VM, d: int, x: int)
    requires Owned(n) && d !in n.dirs && x in n.owner && x in m.owner
    requires n.owner[x] == m.owner[x] || (n.owner[x].Free? && PartOf(m.owner[x], x, d))
    ensures n.owner[x] == if PartOf(m.owner[x], x, d) then Free else m.owner[x]
  {
    assert Found(n, x);
  }

  // No page of lo .. hi is mapped in d.
  ghost predicate Vacant(m: VM, d: int, lo: nat, hi: nat) {
    forall u :: lo <= u < hi ==> Lookup(m, d, u) == Absent
  }

  lemma VacantNone(m: VM, d: int, lo: nat)
    ensures Vacant(m, d, lo, lo)
  {
  }

  lemma VacantMore(m: VM, d: int, lo: nat, a: nat)
    requires Vacant(m, d, lo, a) && !Lookup(m, d, a).Present?
    ensures Vacant(m, d, lo, a + 1)
  {
    hide Lookup;
  }

  // ---------------------------------------------------------------- what mapping costs

  // The tables that directory dir lacks over pages lo .. hi.
  function Missing(dir: seq<int>, lo: nat, hi: nat): (s: set<nat>)
    requires |dir| == NENTRIES
  {
    set i: nat | i < NENTRIES && lo < hi && lo / NENTRIES <= i <= (hi - 1) / NENTRIES && dir[i] == NOTABLE
  }

  // The pages needed to back lo .. hi: one each, and one for each missing table.
  function Cost(dir: seq<int>, lo: nat, hi: nat): (n: nat)
    requires |dir| == NENTRIES && lo <= hi
  {
    hi - lo + |Missing(dir, lo, hi)|
  }

  // From dir to now the tables in s were made, and no other table came or went.
  ghost predicate Made(dir: seq<int>, now: seq<int>, s: set<nat>) {
    |dir| == |now| == NENTRIES && forall i: nat :: i < NENTRIES ==> (now[i] == NOTABLE <==> dir[i] == NOTABLE && i !in s)
  }

  // Whether page a needs a table.
  function Fresh(dir: seq<int>, a: nat): (n: nat)
    requires |dir| == NENTRIES && a < TOP
  {
    if dir[a / NENTRIES] == NOTABLE then 1 else 0
  }

  lemma MissingNone(dir: seq<int>, lo: nat)
    requires |dir| == NENTRIES
    ensures Missing(dir, lo, lo) == {} && Made(dir, dir, {})
  {
  }

  // One more page, for which the table is there or has just been made.
  lemma MissingMore(dir: seq<int>, now: seq<int>, lo: nat, a: nat)
    requires lo <= a < TOP && |dir| == NENTRIES && Made(dir, now, Missing(dir, lo, a))
    ensures |Missing(dir, lo, a + 1)| == |Missing(dir, lo, a)| + Fresh(now, a)
    ensures forall next :: Made(now, next, {a / NENTRIES}) ==> Made(dir, next, Missing(dir, lo, a + 1))
  {
    var i, s, t := a / NENTRIES, Missing(dir, lo, a), Missing(dir, lo, a + 1);
    assert t == if now[i] == NOTABLE then s + {i} else s;
  }

  lemma MissingGrows(dir: seq<int>, lo: nat, a: nat, hi: nat)
    requires |dir| == NENTRIES && lo <= a <= hi
    ensures |Missing(dir, lo, a)| <= |Missing(dir, lo, hi)|
  {
    var s, t := Missing(dir, lo, a), Missing(dir, lo, hi);
    assert s <= t;
    Subset(s, t);
  }

  lemma Subset(s: set<nat>, t: set<nat>)
    requires s <= t
    ensures |s| <= |t|
  {
    assert t == s + (t - s);
  }

  lemma DropDrop<T>(s: seq<T>, j: nat, k: nat)
    requires j + k <= |s|
    ensures s[j..][k..] == s[j + k..]
  {
  }

  // From m to n the tables that d lacked over lo .. a were made, and they and k pages more were
  // taken off the free list.
  ghost predicate Spent(m: VM, n: VM, d: int, lo: nat, a: nat, k: nat) {
    && d in m.dirs && d in n.dirs && |m.dirs[d]| == NENTRIES && Made(m.dirs[d], n.dirs[d], Missing(m.dirs[d], lo, a))
    && var cost := k + |Missing(m.dirs[d], lo, a)|; cost <= |m.free| && n.free == m.free[cost..]
  }

  lemma SpentNone(m: VM, d: int, lo: nat)
    requires d in m.dirs && |m.dirs[d]| == NENTRIES
    ensures Spent(m, m, d, lo, lo, 0)
  {
    MissingNone(m.dirs[d], lo);
  }

  lemma SpentMore(m: VM, n: VM, r: VM, d: int, lo: nat, a: nat, k: nat, j: nat)
    requires lo <= a < TOP && Spent(m, n, d, lo, a, k) && d in r.dirs && Made(n.dirs[d], r.dirs[d], {a / NENTRIES})
    requires j + Fresh(n.dirs[d], a) <= |n.free| && r.free == n.free[j + Fresh(n.dirs[d], a)..]
    ensures Spent(m, r, d, lo, a + 1, k + j)
  {
    MissingMore(m.dirs[d], n.dirs[d], lo, a);
    hide Missing, Made, Fresh;
    DropDrop(m.free, k + |Missing(m.dirs[d], lo, a)|, j + Fresh(n.dirs[d], a));
  }

  lemma SpentOne(m: VM, n: VM, d: int, a: nat)
    requires a < TOP && Spent(m, n, d, a, a + 1, 0)
    ensures var need := Fresh(m.dirs[d], a);
      need <= |m.free| && n.free == m.free[need..] && Made(m.dirs[d], n.dirs[d], {a / NENTRIES})
  {
    var i := a / NENTRIES;
    assert Missing(m.dirs[d], a, a + 1) == if m.dirs[d][i] == NOTABLE then {i} else {};
  }

  lemma SpentIs(m: VM, n: VM, d: int, lo: nat, a: nat)
    requires lo <= a && Spent(m, n, d, lo, a, a - lo)
    ensures |m.free| >= Cost(m.dirs[d], lo, a) && n.free == m.free[Cost(m.dirs[d], lo, a)..]
  {
  }

  // With nothing left, or one page where two are needed, there was not enough.
  lemma Short(m: VM, n: VM, d: int, lo: nat, a: nat, hi: nat)
    requires lo <= a < hi && a < TOP && Spent(m, n, d, lo, a, a - lo) && (n.free == [] || (|n.free| == 1 && Fresh(n.dirs[d], a) == 1))
    ensures |m.free| < Cost(m.dirs[d], lo, hi)
  {
    MissingMore(m.dirs[d], n.dirs[d], lo, a);
    MissingGrows(m.dirs[d], lo, a + 1, hi);
    hide Missing, Made, Fresh;
  }

  // Page u of lo .. hi is the first that is mapped already, and there is memory to get to it.
  ghost predicate Bars(m: VM, d: int, lo: nat, hi: nat, u: nat)
    requires d in m.dirs && |m.dirs[d]| == NENTRIES
  {
    lo <= u < hi && Lookup(m, d, u).Present? && Vacant(m, d, lo, u) && |m.free| > Cost(m.dirs[d], lo, u)
  }

  lemma BarsNot(m: VM, n: VM, d: int, lo: nat, a: nat, hi: nat, u: nat)
    requires lo <= a < hi && a < TOP && Spent(m, n, d, lo, a, a - lo) && Vacant(m, d, lo, a)
    requires n.free == [] || (|n.free| == 1 && Fresh(n.dirs[d], a) == 1 && !Lookup(m, d, a).Present?)
    ensures !Bars(m, d, lo, hi, u)
  {
    if a < u {
      Short(m, n, d, lo, a, u);
    }
    hide Missing, Made, Lookup;
  }

  // ---------------------------------------------------------------- mapping a run of pages

  /**
   From m to n pages v .. a of d, where nothing was mapped, came to map consecutive physical pages
   from pa; those in user space left the hand, and the free list lost what tables were missing.
   */
  ghost predicate RunsTo(m: VM, n: VM, d: int, v: nat, a: nat, pa: int, user: bool, writable: bool)
    requires v <= a
  {
    && Vacant(m, d, v, a) && MapsRun(m, n, d, v, a, pa, user, writable) && HeldRun(m, n, pa, InUser(v, a))
    && Takes(m, n) && Spent(m, n, d, v, a, 0) && n.owner.Keys == m.owner.Keys
  }

  lemma RunNone(m: VM, d: int, v: nat, pa: int, user: bool, writable: bool)
    requires d in m.dirs && |m.dirs[d]| == NENTRIES
    ensures RunsTo(m, m, d, v, v, pa, user, writable)
  {
    SpentNone(m, d, v);
  }

  // The next page is as it was, and so is what is to be mapped there.
  lemma RunAt(m: VM, n: VM, d: int, v: nat, a: nat, pa: int, user: bool, writable: bool)
    requires v <= a && RunsTo(m, n, d, v, a, pa, user, writable)
    ensures Lookup(n, d, a) == Lookup(m, d, a)
    ensures a < KERN && pa + a - v in m.owner && m.owner[pa + a - v].Held? ==> pa + a - v in n.owner && n.owner[pa + a - v].Held?
  {
    hide Lookup, Spent;
  }

  // One more page of the run is mapped.
  lemma RunMore(m: VM, n: VM, r: VM, d: int, v: nat, a: nat, pa: int, user: bool, writable: bool)
    requires v <= a < TOP && r.owner.Keys == n.owner.Keys && NOTABLE !in r.owner && d in r.dirs
    requires RunsTo(m, n, d, v, a, pa, user, writable) && OnlyMap(n, r, d, a, Present(pa + a - v, user, writable)) && !Lookup(n, d, a).Present?
    requires HeldBut(n, r, if a < KERN then pa + a - v else NOTABLE) && Takes(n, r)
    requires Made(n.dirs[d], r.dirs[d], {a / NENTRIES})
    requires Fresh(n.dirs[d], a) <= |n.free| && r.free == n.free[Fresh(n.dirs[d], a)..]
    ensures RunsTo(m, r, d, v, a + 1, pa, user, writable)
  {
    SpentMore(m, n, r, d, v, a, 0, 0);
    RunAt(m, n, d, v, a, pa, user, writable);
    hide Lookup, Spent, Made, Fresh;
    VacantMore(m, d, v, a);
  }

  // ---------------------------------------------------------------- what a new space costs

  // The tables over pages lo .. hi.
  function Over(lo: nat, hi: nat): (s: set<nat>) { Missing(NoTables(), lo, hi) }

  // The tables over the first k rows of kmap.
  function RowTables(data: nat, k: nat): (s: set<nat>)
    requires EXTPAGES < data < PHYSPAGES && k <= NROWS
  {
    if k == 0 then {} else var row := Kmap(data, k - 1); RowTables(data, k - 1) + Over(row.virt, row.virt + row.count)
  }

  const KTABLES: nat := 64

  lemma {:induction false} RangeSize(lo: nat, hi: nat, s: set<nat>)
    requires lo <= hi && forall i: nat :: i in s <==> lo <= i < hi
    ensures |s| == hi - lo
    decreases hi
  {
    if lo == hi {
      assert s == {};
    } else {
      RangeSize(lo, hi - 1, s - {hi - 1});
      assert s == s - {hi - 1} + {hi - 1};
    }
  }

  // The first three rows are one stretch, and the last is apart from them.
  lemma LowTables(data: nat, i: nat)
    requires EXTPAGES < data < PHYSPAGES
    ensures i in RowTables(data, 3) <==> 512 <= i < 568
    ensures i in Over(DEVPAGES, TOP) <==> 1016 <= i < 1024
  {
    var none, one, two, three := RowTables(data, 0), RowTables(data, 1), RowTables(data, 2), RowTables(data, 3);
    assert none == {} && one == none + Over(KERN, KERN + EXTPAGES) && two == one + Over(KERN + EXTPAGES, KERN + data);
    assert three == two + Over(KERN + data, KERN + PHYSPAGES);
    hide RowTables;
    assert i in Over(KERN, KERN + EXTPAGES) <==> i == 512;
    assert i in one <==> i == 512;
    assert i in two <==> 512 <= i <= (KERN + data - 1) / NENTRIES;
  }

  // All rows together need 64 tables, wherever the kernel's data starts.
  lemma RowTablesSize(data: nat)
    requires EXTPAGES < data < PHYSPAGES
    ensures |RowTables(data, NROWS)| == KTABLES
  {
    var low, high := RowTables(data, 3), Over(DEVPAGES, TOP);
    assert RowTables(data, NROWS) == low + high;
    hide RowTables, Over;
    forall i: nat ensures (i in low <==> 512 <= i < 568) && (i in high <==> 1016 <= i < 1024) {
      LowTables(data, i);
    }
    RangeSize(512, 568, low);
    RangeSize(1016, 1024, high);
    assert low !! high;
  }

  lemma {:induction false} RowTablesGrow(data: nat, j: nat, k: nat)
    requires EXTPAGES < data < PHYSPAGES && j <= k <= NROWS
    ensures RowTables(data, j) <= RowTables(data, k)
    decreases k
  {
    if j < k {
      RowTablesGrow(data, j, k - 1);
    }
  }

  // From m to n the tables in s were made for d, which had none, with pages off the free list.
  ghost predicate Paid(m: VM, n: VM, d: int, s: set<nat>) {
    && d in m.dirs && d in n.dirs && m.dirs[d] == NoTables() && Made(m.dirs[d], n.dirs[d], s)
    && |s| <= |m.free| && n.free == m.free[|s|..]
  }

  lemma PaidNone(m: VM, d: int, data: nat)
    requires EXTPAGES < data < PHYSPAGES && d in m.dirs && m.dirs[d] == NoTables()
    ensures Paid(m, m, d, RowTables(data, 0))
  {
  }

  lemma NoRows(data: nat)
    requires EXTPAGES < data < PHYSPAGES
    ensures forall u: nat :: RowsMap(data, 0, u) == Absent
  {
  }

  lemma PaidAll(m: VM, n: VM, d: int, data: nat)
    requires EXTPAGES < data < PHYSPAGES && Paid(m, n, d, RowTables(data, NROWS))
    ensures |m.free| >= KTABLES && n.free == m.free[KTABLES..]
  {
    RowTablesSize(data);
  }

  lemma PaidMore(m: VM, n: VM, r: VM, d: int, s: set<nat>, lo: nat, hi: nat)
    requires Paid(m, n, d, s) && Spent(n, r, d, lo, hi, 0) && hi <= TOP
    ensures Paid(m, r, d, s + Over(lo, hi))
  {
    var t := Missing(n.dirs[d], lo, hi);
    assert t == Over(lo, hi) - s;
    assert s + Over(lo, hi) == s + t;
    DropDrop(m.free, |s|, |t|);
  }

  // With nothing left and a table to make, there was not enough for all.
  lemma PaidShort(m: VM, n: VM, d: int, s: set<nat>, a: nat, all: set<nat>)
    requires Paid(m, n, d, s) && n.free == [] && a < TOP && Fresh(n.dirs[d], a) == 1 && s <= all && a / NENTRIES in all
    ensures |m.free| < |all|
  {
    assert a / NENTRIES !in s;
    Subset(s + {a / NENTRIES}, all);
  }

  lemma RowShort(m: VM, n: VM, d: int, data: nat, k: nat, a: nat)
    requires EXTPAGES < data < PHYSPAGES && k < NROWS && var row := Kmap(data, k); row.virt <= a < row.virt + row.count <= TOP
    requires Paid(m, n, d, RowTables(data, k) + Over(Kmap(data, k).virt, a)) && n.free == [] && Fresh(n.dirs[d], a) == 1
    ensures |m.free| < KTABLES
  {
    var row := Kmap(data, k);
    RowTablesGrow(data, k + 1, NROWS);
    RowTablesSize(data);
    assert Over(row.virt, a) <= Over(row.virt, row.virt + row.count) && a / NENTRIES in Over(row.virt, row.virt + row.count);
    hide Paid, Over;
    PaidShort(m, n, d, RowTables(data, k) + Over(row.virt, a), a, RowTables(data, NROWS));
  }

  // In n, directory d maps the first k rows of kmap and nothing else; other spaces are as in m.
  ghost predicate MapsRows(m: VM, n: VM, d: int, data: nat, k: nat)
    requires EXTPAGES < data < PHYSPAGES && k <= NROWS
  {
    forall e: int, u: nat :: Lookup(n, e, u) == if e == d then RowsMap(data, k, u) else Lookup(m, e, u)
  }

  // Row k was mapped as far as page a.
  lemma RowTo(m: VM, n: VM, r: VM, d: int, data: nat, k: nat, a: nat)
    requires EXTPAGES < data < PHYSPAGES && k < NROWS && MapsRows(m, n, d, data, k)
    requires var row := Kmap(data, k); row.virt <= a <= row.virt + row.count && MapsRun(n, r, d, row.virt, a, row.phys, false, row.writable)
    ensures var row := Kmap(data, k);
      && (a < row.virt + row.count ==> Lookup(n, d, a) == Absent)
      && (forall e: int, u: nat :: e != d ==> Lookup(r, e, u) == Lookup(m, e, u))
      && (a == row.virt + row.count ==> MapsRows(m, r, d, data, k + 1))
  {
    RowsApart(data, k);
    hide Lookup;
  }

  lemma RowPaid(m: VM, n: VM, r: VM, d: int, data: nat, k: nat, a: nat)
    requires EXTPAGES < data < PHYSPAGES && k < NROWS && Paid(m, n, d, RowTables(data, k))
    requires var row := Kmap(data, k); row.virt <= a <= row.virt + row.count && Spent(n, r, d, row.virt, a, 0)
    ensures var row := Kmap(data, k);
      Paid(m, r, d, RowTables(data, k) + Over(row.virt, a)) && (a == row.virt + row.count ==> Paid(m, r, d, RowTables(data, k + 1)))
  {
    hide Paid, Over, Spent;
    PaidMore(m, n, r, d, RowTables(data, k), Kmap(data, k).virt, a);
  }

  // ---------------------------------------------------------------- growing

  // In n, pages lo .. hi of d map pages that were free in m; other mappings are as in m.
  ghost predicate Grows(m: VM, n: VM, d: int, lo: nat, hi: nat) {
    forall e: int, u: nat ::
      if e == d && lo <= u < hi
      then var pte := Lookup(n, e, u); pte.Present? && pte.user && pte.writable && pte.pa in m.owner && m.owner[pte.pa].Free?
      else Lookup(n, e, u) == Lookup(m, e, u)
  }

  // In n, nothing is mapped at lo .. hi of d; other mappings are as in m.
  ghost predicate Clears(m: VM, n: VM, d: int, lo: nat, hi: nat) {
    forall e: int, u: nat :: Lookup(n, e, u) == if e == d && lo <= u < hi then Absent else Lookup(m, e, u)
  }

  // From m to n pages lo .. a of d, where nothing was mapped, were backed with pages that were free.
  ghost predicate Grown(m: VM, n: VM, d: int, lo: nat, a: nat) {
    && lo <= a && n.owner.Keys == m.owner.Keys && Takes(m, n) && HeldBut(m, n, NOTABLE)
    && Grows(m, n, d, lo, a) && Vacant(m, d, lo, a) && Spent(m, n, d, lo, a, a - lo)
  }

  lemma GrownNone(m: VM, d: int, lo: nat)
    requires d in m.dirs && |m.dirs[d]| == NENTRIES && NOTABLE !in m.owner
    ensures Grown(m, m, d, lo, lo)
  {
    SpentNone(m, d, lo);
  }

  lemma GrownMore(m: VM, n: VM, r: VM, d: int, lo: nat, a: nat, mem: int)
    requires a < TOP && Grown(m, n, d, lo, a) && r.owner.Keys == n.owner.Keys && d in r.dirs && NOTABLE !in r.owner
    requires mem in n.owner && n.owner[mem].Free? && OnlyMap(n, r, d, a, Present(mem, true, true)) && !Lookup(n, d, a).Present?
    requires HeldBut(n, r, NOTABLE) && Takes(n, r) && Made(n.dirs[d], r.dirs[d], {a / NENTRIES})
    requires 1 + Fresh(n.dirs[d], a) <= |n.free| && r.free == n.free[1 + Fresh(n.dirs[d], a)..]
    ensures Grown(m, r, d, lo, a + 1)
  {
    SpentMore(m, n, r, d, lo, a, a - lo, 1);
    hide Lookup, Spent, Made, Fresh;
    assert Lookup(n, d, a) == Lookup(m, d, a);
    VacantMore(m, d, lo, a);
  }

  // A page that is mapped already, with a free page at hand.
  lemma GrownBars(m: VM, n: VM, d: int, lo: nat, a: nat, hi: nat)
    requires Grown(m, n, d, lo, a) && a < hi && Lookup(n, d, a).Present? && n.free != []
    ensures Bars(m, d, lo, hi, a)
  {
    SpentIs(m, n, d, lo, a);
    hide Lookup, Spent, Missing;
    assert Lookup(n, d, a) == Lookup(m, d, a);
  }

  // Growing failed at page a for want of memory: there was not enough, and no page stood in the way.
  lemma GrownFails(m: VM, n: VM, d: int, lo: nat, a: nat, hi: nat)
    requires Grown(m, n, d, lo, a) && a < hi && a < TOP
    requires n.free == [] || (|n.free| == 1 && Fresh(n.dirs[d], a) == 1 && !Lookup(n, d, a).Present?)
    ensures |m.free| < Cost(m.dirs[d], lo, hi) && forall u :: !Bars(m, d, lo, hi, u)
  {
    Short(m, n, d, lo, a, hi);
    hide Lookup, Spent, Missing, Fresh, Bars;
    assert Lookup(n, d, a) == Lookup(m, d, a);
    forall u: nat ensures !Bars(m, d, lo, hi, u) {
      BarsNot(m, n, d, lo, a, hi, u);
    }
  }

  lemma GrownAll(m: VM, n: VM, d: int, lo: nat, hi: nat)
    requires Grown(m, n, d, lo, hi)
    ensures Grows(m, n, d, lo, hi) && Vacant(m, d, lo, hi) && |m.free| >= Cost(m.dirs[d], lo, hi) && n.free == m.free[Cost(m.dirs[d], lo, hi)..]
    ensures n.owner.Keys == m.owner.Keys && HeldBut(m, n, NOTABLE) && forall u :: !Bars(m, d, lo, hi, u)
  {
    SpentIs(m, n, d, lo, hi);
    hide Lookup, Spent, Missing;
  }

  lemma ClearsIff(m: VM, n: VM, d: int, lo: nat, hi: nat)
    requires Clears(m, n, d, lo, hi)
    ensures SameMaps(m, n) <==> Vacant(m, d, lo, hi)
  {
    hide Lookup;
    if SameMaps(m, n) {
      forall u | lo <= u < hi ensures Lookup(m, d, u) == Absent {
        assert Lookup(n, d, u) == Lookup(m, d, u);
      }
    }
  }

  // ---------------------------------------------------------------- unmapping

  // From m to n pages lo .. hi of d are unmapped and on the free list, the last first.
  ghost predicate Unmaps(m: VM, n: VM, d: int, lo: nat, hi: nat) {
    && n.free == Pushed(m.free, Pages(m, d, lo, hi))
    && forall e: int, u: nat :: Lookup(n, e, u) == if e == d && lo <= u < hi then Absent else Lookup(m, e, u)
  }

  // Page a, and the stretch up to hi in which nothing is mapped.
  lemma UnmapsMore(m: VM, n: VM, r: VM, d: int, lo: nat, a: nat, hi: nat)
    requires lo <= a < hi && Unmaps(m, n, d, lo, a) && OnlyMap(n, r, d, a, Absent)
    requires forall u :: a < u < hi ==> Lookup(r, d, u) == Absent
    requires r.free == if Lookup(n, d, a).Present? then [Lookup(n, d, a).pa] + n.free else n.free
    ensures Unmaps(m, r, d, lo, hi)
  {
    hide Lookup, Pages, Pushed;
    assert forall u :: a < u < hi ==> Lookup(m, d, u) == Absent by {
      forall u | a < u < hi ensures Lookup(m, d, u) == Absent {
        assert Lookup(r, d, u) == Lookup(n, d, u) == Lookup(m, d, u);
      }
    }
    PagesStep(m, d, lo, a, hi, m.free);
  }

  lemma PagesNone(m: VM, d: int, lo: nat)
    ensures Pushed(m.free, Pages(m, d, lo, lo)) == m.free
  {
  }

  class Memory {
    var free: seq<int>
    var dirs: map<int, seq<int>>
    var tables: map<int, seq<Pte>>
    ghost var owner: map<int, Owner>

    ghost function State(): (m: VM)
      reads this
    {
      VM(free, dirs, tables, owner)
    }

    // One owner for every page; page numbers are what the allocator was given.
    ghost predicate Valid()
      reads this
    {
      Owned(State()) && NOTABLE !in owner
    }

    // All mappings are as in m, and so is the set of pages.
    ghost predicate Keeps(m: VM)
      reads this
    {
      SameMaps(m, State()) && owner.Keys == m.owner.Keys
    }

    // Of the pages of address space d some have become free; no other page has moved.
    ghost predicate Releases(m: VM, d: int)
      reads this
    {
      owner.Keys == m.owner.Keys &&
      forall x :: x in owner ==> owner[x] == m.owner[x] || (owner[x].Free? && PartOf(m.owner[x], x, d))
    }

    // freerange at boot: these pages, all free.
    constructor (pages: seq<int>)
      requires NOTABLE !in pages && forall j, k :: 0 <= j < k < |pages| ==> pages[j] != pages[k]
      ensures Valid() && free == pages && dirs == map[]
    {
      free := pages;
      dirs, tables := map[], map[];
      owner := map x | x in pages :: Free;
    }

    method Kalloc() returns (x: int)
      requires Valid()
      modifies this`free, this`owner
      ensures Valid() && Keeps(old(State()))
      ensures old(free) == [] ==> x == NOTABLE && State() == old(State())
      ensures old(free) != [] ==>
        x == old(free[0]) && free == old(free)[1..] && x in owner && owner == old(owner)[x := Held] && old(owner)[x] == Free
    {
      if free == [] {
        return NOTABLE;
      }
      KallocOk(State());
      x := free[0];
      free := free[1..];
      owner := owner[x := Held];
    }

    method Kfree(x: int)
      requires Valid() && x in owner && owner[x] == Held
      modifies this`free, this`owner
      ensures Valid() && Keeps(old(State())) && free == [x] + old(free) && owner == old(owner)[x := Free]
    {
      KfreeOk(State(), x);
      free := [x] + free;
      owner := owner[x := Free];
    }

    /**
     The table for page v of d, made if it is missing and `alloc` is set.  No mapping changes.
     */
    method Walkpgdir(d: int, v: nat, alloc: bool) returns (t: int)
      requires Valid() && d in dirs && v < TOP
      modifies this`free, this`dirs, this`tables, this`owner
      ensures Valid() && Keeps(old(State())) && dirs.Keys == old(dirs.Keys)
      ensures t != NOTABLE ==> HasTable(State(), d, v) && t == dirs[d][v / NENTRIES]
      ensures t != NOTABLE ==> var need := Fresh(old(dirs[d]), v);
        need <= |old(free)| && free == old(free)[need..] && Made(old(dirs[d]), dirs[d], {v / NENTRIES})
      ensures t == NOTABLE ==> State() == old(State()) && dirs[d][v / NENTRIES] == NOTABLE && (alloc ==> free == [])
      ensures !alloc || old(dirs[d][v / NENTRIES]) != NOTABLE ==> State() == old(State())
      ensures Takes(old(State()), State()) && HeldBut(old(State()), State(), NOTABLE)
    {
      t := dirs[d][v / NENTRIES];
      if t == NOTABLE {
        if !alloc { return; }
        t := Kalloc();
        if t == NOTABLE { return; }
        WithTableOk(State(), d, v / NENTRIES, t);
        dirs := dirs[d := dirs[d][v / NENTRIES := t]];
        tables := tables[t := NoPages()];
        owner := owner[t := Table(d, v / NENTRIES)];
      }
    }

    // One turn of the loop of mappages: page a of d.
    method MapOne(d: int, a: nat, pte: Pte) returns (out: Mapping)
      requires Valid() && d in dirs && a < TOP
      requires pte.Present? && (a < KERN ==> pte.pa in owner && owner[pte.pa] == Held)
      modifies this`free, this`dirs, this`tables, this`owner
      ensures Valid() && owner.Keys == old(owner.Keys) && dirs.Keys == old(dirs.Keys)
      ensures out.Remap? <==> old(Lookup(State(), d, a)).Present?
      ensures out.Mapped? ==> OnlyMap(old(State()), State(), d, a, pte)
      ensures !out.Mapped? ==> State() == old(State())
      ensures out.NoTable? ==> free == [] && Fresh(dirs[d], a) == 1
      ensures out.Mapped? ==> var need := Fresh(old(dirs[d]), a);
        need <= |old(free)| && free == old(free)[need..] && Made(old(dirs[d]), dirs[d], {a / NENTRIES})
      ensures Takes(old(State()), State()) && HeldBut(old(State()), State(), if out.Mapped? && a < KERN then pte.pa else NOTABLE)
    {
      hide Owned, Lookup;
      ghost var m := State();
      var t := Walkpgdir(d, a, true);
      if t == NOTABLE {
        NoTableThere(m, d, a);
        return NoTable;
      }
      TableEntry(State(), d, a);
      if tables[t][a % NENTRIES].Present? {
        PresentTable(m, d, a);
        return Remap;
      }
      Enter(d, a, t, pte);
      return Mapped;
    }

    // Fill entry a of d, which is empty, in table t.
    method Enter(d: int, a: nat, t: int, pte: Pte)
      requires Valid() && HasTable(State(), d, a) && t == dirs[d][a / NENTRIES] && Lookup(State(), d, a) == Absent
      requires pte.Present? && (a < KERN ==> pte.pa in owner && owner[pte.pa] == Held)
      modifies this`tables, this`owner
      ensures Valid() && owner.Keys == old(owner.Keys) && OnlyMap(old(State()), State(), d, a, pte)
      ensures Takes(old(State()), State()) && HeldBut(old(State()), State(), if a < KERN then pte.pa else NOTABLE)
    {
      ghost var m := State();
      if a < KERN {
        MappedUserOk(m, d, a, pte);
        owner := owner[pte.pa := User(d, a)];
      } else {
        MappedKernelOk(m, d, a, pte);
      }
      hide Lookup, UsersOk, FreeOk, Found, DirsOk;
      tables := tables[t := tables[t][a % NENTRIES := pte]];
    }

    // The same, after pages v .. a were mapped since m.
    method MapNext(d: int, a: nat, pte: Pte, ghost v: nat, ghost m: VM) returns (out: Mapping)
      requires Valid() && d in dirs && v <= a < TOP && pte.Present?
      requires RunsTo(m, State(), d, v, a, pte.pa - (a - v), pte.user, pte.writable)
      requires a < KERN ==> pte.pa in m.owner && m.owner[pte.pa] == Held
      modifies this`free, this`dirs, this`tables, this`owner
      ensures Valid() && owner.Keys == old(owner.Keys) && dirs.Keys == old(dirs.Keys)
      ensures out.Remap? <==> Lookup(m, d, a).Present?
      ensures out.Mapped? ==> RunsTo(m, State(), d, v, a + 1, pte.pa - (a - v), pte.user, pte.writable)
      ensures !out.Mapped? ==> State() == old(State())
      ensures out.NoTable? ==> free == [] && Fresh(dirs[d], a) == 1
    {
      hide Owned, Lookup, RunsTo, Takes, HeldBut, Made, Fresh, OnlyMap;
      ghost var was := State();
      RunAt(m, was, d, v, a, pte.pa - (a - v), pte.user, pte.writable);
      out := MapOne(d, a, pte);
      if out.Mapped? {
        RunMore(m, was, State(), d, v, a, pte.pa - (a - v), pte.user, pte.writable);
      }
    }

    /**
     Map n pages from v on to consecutive physical pages, of which those mapped in user space are
     in hand, and belong to their mapping afterwards.  It stops at the first page that is mapped
     already, which is a panic, or for which a table cannot be made; the pages before it stay
     mapped.
     */
    method Mappages(d: int, v: nat, n: nat, pa: int, user: bool, writable: bool) returns (out: Mapping, ghost reached: nat)
      requires Valid() && d in dirs && 0 < n && v + n <= TOP
      requires forall x :: pa <= x < pa + InUser(v, v + n) ==> x in owner && owner[x] == Held
      modifies this`free, this`dirs, this`tables, this`owner
      ensures Valid() && owner.Keys == old(owner.Keys) && dirs.Keys == old(dirs.Keys)
      ensures v <= reached <= v + n && (out.Mapped? <==> reached == v + n)
      ensures reached < v + n ==> (out.Remap? <==> old(Lookup(State(), d, reached)).Present?)
      ensures RunsTo(old(State()), State(), d, v, reached, pa, user, writable)
      ensures out.NoTable? ==> free == [] && Fresh(dirs[d], reached) == 1
      ensures reached == v ==> State() == old(State())
    {
      hide Owned, Lookup, RunsTo, Fresh;
      ghost var m := State();
      DirSize(m, d);
      RunNone(m, d, v, pa, user, writable);
      var a := v;
      while true
        invariant v <= a < v + n && Valid() && d in dirs && (a == v ==> State() == m)
        invariant owner.Keys == m.owner.Keys && dirs.Keys == m.dirs.Keys
        invariant RunsTo(m, State(), d, v, a, pa, user, writable)
        decreases v + n - a
      {
        assert a < KERN ==> m.owner[pa + a - v] == Held;
        out := MapNext(d, a, Present(pa + a - v, user, writable), v, m);
        if !out.Mapped? {
          return out, a;
        }
        if a == v + n - 1 { break; }
        a := a + 1;
      }
      return Mapped, v + n;
    }

    // One turn of the loop of setupkvm.
    method MapRow(d: int, data: nat, k: nat, ghost m: VM) returns (ok: bool)
      requires Valid() && d in dirs && EXTPAGES < data < PHYSPAGES && k < NROWS && MapsRows(m, State(), d, data, k)
      requires Paid(m, State(), d, RowTables(data, k))
      modifies this`free, this`dirs, this`tables, this`owner
      ensures Valid() && owner.Keys == old(owner.Keys) && dirs.Keys == old(dirs.Keys)
      ensures ok ==> MapsRows(m, State(), d, data, k + 1) && Paid(m, State(), d, RowTables(data, k + 1))
      ensures !ok ==> free == [] && |m.free| < KTABLES && forall e: int, u: nat :: e != d ==> Lookup(State(), e, u) == Lookup(m, e, u)
    {
      hide Owned, Lookup, Paid, Vacant, MapsRun, HeldRun, Takes, Spent, Fresh, RowTables, MapsRows, Over;
      var row := Kmap(data, k);
      var out;
      ghost var reached;
      ghost var was := State();
      out, reached := Mappages(d, row.virt, row.count, row.phys, false, row.writable);
      RowTo(m, was, State(), d, data, k, reached);
      RowPaid(m, was, State(), d, data, k, reached);
      ok := out.Mapped?;
      if !ok {
        RowShort(m, State(), d, data, k, reached);
      }
    }

    // A zeroed page to serve as a directory.
    method NewDir() returns (d: int)
      requires Valid()
      modifies this`free, this`dirs, this`owner
      ensures Valid() && Keeps(old(State()))
      ensures d == NOTABLE <==> old(free) == []
      ensures d == NOTABLE ==> free == [] && dirs == old(dirs)
      ensures d != NOTABLE ==> free == old(free)[1..] && d !in old(dirs) && dirs == old(dirs)[d := NoTables()] && forall u: nat :: Lookup(State(), d, u) == Absent
    {
      d := Kalloc();
      if d == NOTABLE { return; }
      WithDirOk(State(), d);
      dirs := dirs[d := NoTables()];
      owner := owner[d := Dir];
    }

    /**
     A directory with the kernel's mappings and nothing else, or nothing when memory runs out;
     then the pages already taken stay taken.  It takes 65 pages, and fails if and only if there
     are fewer.  No other address space changes.
     */
    method Setupkvm(data: nat) returns (d: int)
      requires Valid() && EXTPAGES < data < PHYSPAGES
      modifies this`free, this`dirs, this`tables, this`owner
      ensures Valid() && owner.Keys == old(owner.Keys)
      ensures forall e: int, u: nat :: e in old(dirs) ==> e in dirs && Lookup(State(), e, u) == old(Lookup(State(), e, u))
      ensures d == NOTABLE <==> |old(free)| < 1 + KTABLES
      ensures free == if d == NOTABLE then [] else old(free)[1 + KTABLES..]
      ensures d != NOTABLE ==> d in dirs && d !in old(dirs) && forall u: nat :: Lookup(State(), d, u) == KernelMap(data, u)
    {
      hide Owned, Lookup, Paid, RowsMap, RowTables, Made;
      d := NewDir();
      if d == NOTABLE { return; }
      ghost var m := State();
      PaidNone(m, d, data);
      NoRows(data);
      var k := 0;
      while k < NROWS
        invariant 0 <= k <= NROWS && Valid() && d in dirs && dirs.Keys == m.dirs.Keys && owner.Keys == old(owner.Keys)
        invariant MapsRows(m, State(), d, data, k) && Paid(m, State(), d, RowTables(data, k))
      {
        var ok := MapRow(d, data, k, m);
        if !ok {
          return NOTABLE;
        }
        k := k + 1;
      }
      forall u: nat ensures Lookup(State(), d, u) == KernelMap(data, u) {
        RowsAll(data, u);
      }
      PaidAll(m, State(), d, data);
    }

    // The first page of the kernel's part is physical page 0, as in every space setupkvm makes.
    ghost predicate KernelFirst(d: int)
      reads this
    {
      Lookup(State(), d, KERN).Present? && Lookup(State(), d, KERN).pa == NOTABLE
    }

    // One turn of the loop of deallocuvm: page k, or the whole table that is missing there.  At the
    // kernel's first page it panics, because physical page 0 cannot be freed.
    method DropPage(d: int, k: nat) returns (next: nat, panicked: bool)
      requires Valid() && d in dirs && (k < KERN || (k == KERN && KernelFirst(d)))
      modifies this`free, this`tables, this`owner
      ensures Valid() && Releases(old(State()), d) && (panicked <==> k == KERN)
      ensures panicked ==> State() == old(State())
      ensures !panicked ==> k < next <= KERN && OnlyMap(old(State()), State(), d, k, Absent)
      ensures !panicked ==> forall u :: k < u < next ==> Lookup(State(), d, u) == Absent
      ensures var pte := old(Lookup(State(), d, k)); !panicked ==> free == if pte.Present? then [pte.pa] + old(free) else old(free)
    {
      next := k + 1;
      panicked := false;
      var t := dirs[d][k / NENTRIES];
      if t == NOTABLE {
        next := NextTable(k);
      } else {
        var pte := tables[t][k % NENTRIES];
        assert pte == Lookup(State(), d, k) && (pte.Present? && k < KERN ==> pte.pa in owner);
        if pte.Present? {
          if pte.pa == NOTABLE {
            return next, true;
          }
          UnmappedOk(State(), d, k);
          tables := tables[t := tables[t][k % NENTRIES := Absent]];
          owner := owner[pte.pa := Held];
          Kfree(pte.pa);
        }
      }
    }

    /**
     Unmap the pages between newsz and oldsz, each going to the free list in turn, stepping
     over tables that are missing.  Nothing else is unmapped and no other page moves.  If the range
     runs into the kernel's part it panics there, with all user pages of it unmapped.
     */
    method Deallocuvm(d: int, oldsz: nat, newsz: nat) returns (r: nat, panicked: bool)
      requires Valid() && d in dirs
      requires newsz >= oldsz || oldsz <= KERNBASE || (newsz <= KERNBASE && KernelFirst(d))
      modifies this`free, this`tables, this`owner
      ensures Valid() && Releases(old(State()), d) && (panicked <==> newsz < oldsz && oldsz > KERNBASE)
      ensures !panicked ==> r == if newsz >= oldsz then oldsz else newsz
      ensures newsz >= oldsz ==> State() == old(State())
      ensures newsz < oldsz ==> Unmaps(old(State()), State(), d, Up(newsz), if panicked then KERN else Up(oldsz))
    {
      if newsz >= oldsz {
        return oldsz, false;
      }
      hide Owned, Lookup, Pages, Pushed;
      var a := Up(newsz);
      ghost var lo := a;
      ghost var hi := if oldsz > KERNBASE then KERN else Up(oldsz);
      ghost var m := State();
      PageBelow(a, newsz);
      PagesNone(m, d, lo);
      while a * PGSIZE < oldsz
        invariant lo <= a <= KERN && Valid() && Releases(m, d) && Lookup(State(), d, KERN) == Lookup(m, d, KERN)
        invariant Unmaps(m, State(), d, lo, if a < hi then a else hi)
        decreases KERN - a
      {
        PageBelow(a, oldsz);
        ghost var was := State();
        var next;
        next, panicked := DropPage(d, a);
        if panicked {
          return newsz, true;
        }
        UnmapsMore(m, was, State(), d, lo, a, if next < hi then next else hi);
        a := next;
      }
      PageBelow(a, oldsz);
      return newsz, false;
    }

    // One turn of the loop of allocuvm: a page for page a, which is in hand if it is not mapped.
    method GrowOne(d: int, a: nat) returns (mem: int, out: Mapping)
      requires Valid() && d in dirs && a < KERN
      modifies this`free, this`dirs, this`tables, this`owner
      ensures Valid() && owner.Keys == old(owner.Keys) && dirs.Keys == old(dirs.Keys) && Takes(old(State()), State())
      ensures (mem == NOTABLE <==> old(free) == []) && (mem == NOTABLE ==> out == NoTable && State() == old(State()))
      ensures mem != NOTABLE ==> mem in owner && old(owner)[mem] == Free && mem == old(free)[0]
      ensures out.NoTable? ==> free == [] && (mem != NOTABLE ==> |old(free)| == 1 && Fresh(old(dirs[d]), a) == 1)
      ensures out.Mapped? ==> var need := 1 + Fresh(old(dirs[d]), a);
        need <= |old(free)| && free == old(free)[need..] && Made(old(dirs[d]), dirs[d], {a / NENTRIES})
      ensures out.Remap? <==> mem != NOTABLE && old(Lookup(State(), d, a)).Present?
      ensures out.Mapped? ==> OnlyMap(old(State()), State(), d, a, Present(mem, true, true)) && HeldBut(old(State()), State(), NOTABLE)
      ensures !out.Mapped? && mem != NOTABLE ==> Keeps(old(State())) && owner == old(owner)[mem := Held]
    {
      hide Owned, Lookup, Spent, Made, Fresh;
      out := NoTable;
      mem := Kalloc();
      if mem != NOTABLE {
        ghost var reached;
        ghost var m := State();
        out, reached := Mappages(d, a, 1, mem, true, true);
        if out.Mapped? {
          SpentOne(m, State(), d, a);
          DropDrop(old(free), 1, Fresh(m.dirs[d], a));
        }
      }
    }

    // The same, after pages lo .. a were backed since m.
    method GrowNext(d: int, a: nat, ghost lo: nat, ghost m: VM) returns (mem: int, out: Mapping)
      requires Valid() && d in dirs && a < KERN && Grown(m, State(), d, lo, a)
      modifies this`free, this`dirs, this`tables, this`owner
      ensures Valid() && dirs.Keys == old(dirs.Keys) && owner.Keys == m.owner.Keys
      ensures out.Mapped? ==> Grown(m, State(), d, lo, a + 1)
      ensures out.Remap? ==> old(free) != [] && old(Lookup(State(), d, a)).Present?
      ensures out.NoTable? ==>
        && (old(free) == [] || (|old(free)| == 1 && Fresh(old(dirs[d]), a) == 1 && !old(Lookup(State(), d, a)).Present?))
        && Grows(m, State(), d, lo, a) && HandHas(m, State(), mem)
    {
      hide Owned, Lookup, Made, Fresh, Spent;
      ghost var was := State();
      mem, out := GrowOne(d, a);
      if out.Mapped? {
        GrownMore(m, was, State(), d, lo, a, mem);
      }
    }

    // The way out of allocuvm when page a could not be had; mem may be in hand.
    method GiveBack(d: int, oldsz: nat, newsz: nat, mem: int, ghost a: nat, ghost m: VM)
      requires Valid() && d in dirs && oldsz < newsz <= KERNBASE && owner.Keys == m.owner.Keys
      requires Up(oldsz) <= a <= Up(newsz) && Grows(m, State(), d, Up(oldsz), a)
      requires HandHas(m, State(), mem)
      modifies this`free, this`tables, this`owner
      ensures Valid() && owner.Keys == m.owner.Keys && Clears(m, State(), d, Up(oldsz), Up(newsz)) && HeldBut(m, State(), NOTABLE)
    {
      hide Owned, Lookup, Pages, Pushed;
      var _, _ := Deallocuvm(d, newsz, oldsz);
      if mem != NOTABLE {
        Kfree(mem);
      }
    }

    /**
     Grow from oldsz to newsz with pages that were free, one for each page of the range, or fail
     with nothing mapped in the range; a page that is mapped already is a panic.  It succeeds if and
     only if no page of the range was mapped and there is a page for each and for every table that
     is missing over the range.  Failing leaves every mapping of every address space as it was
     exactly when none was in the range.  No page is left in hand.
     */
    method Allocuvm(d: int, oldsz: nat, newsz: nat) returns (r: nat, panicked: bool)
      requires Valid() && d in dirs
      modifies this`free, this`dirs, this`tables, this`owner
      ensures Valid() && owner.Keys == old(owner.Keys) && dirs.Keys == old(dirs.Keys) && |old(dirs[d])| == NENTRIES
      ensures !panicked ==> HeldBut(old(State()), State(), NOTABLE)
      ensures newsz >= KERNBASE ==> r == 0 && !panicked && State() == old(State())
      ensures newsz < KERNBASE && newsz < oldsz ==> r == oldsz && !panicked && State() == old(State())
      ensures oldsz <= newsz < KERNBASE ==> Up(oldsz) <= Up(newsz) && (panicked <==> exists u :: Bars(old(State()), d, Up(oldsz), Up(newsz), u))
      ensures oldsz <= newsz < KERNBASE && !panicked ==>
        (r == newsz <==> Vacant(old(State()), d, Up(oldsz), Up(newsz)) && |old(free)| >= Cost(old(dirs[d]), Up(oldsz), Up(newsz)))
      ensures oldsz <= newsz < KERNBASE && !panicked && r == newsz ==>
        Grows(old(State()), State(), d, Up(oldsz), Up(newsz)) && free == old(free)[Cost(old(dirs[d]), Up(oldsz), Up(newsz))..]
      ensures oldsz <= newsz < KERNBASE && !panicked && r != newsz ==>
        && r == 0 && Clears(old(State()), State(), d, Up(oldsz), Up(newsz))
        && (Keeps(old(State())) <==> Vacant(old(State()), d, Up(oldsz), Up(newsz)))
    {
      hide Owned, Lookup, Bars, Grown, Vacant, Cost;
      ghost var m := State();
      DirSize(m, d);
      panicked := false;
      if newsz >= KERNBASE {
        return 0, false;
      }
      if newsz < oldsz {
        return oldsz, false;
      }
      var a := Up(oldsz);
      ghost var lo, hi := a, Up(newsz);
      PageBelow(lo, oldsz);
      GrownNone(m, d, lo);
      while a * PGSIZE < newsz
        invariant lo <= a && (a == lo || a <= hi) && Valid() && dirs.Keys == m.dirs.Keys && Grown(m, State(), d, lo, a)
        decreases hi - a
      {
        PageBelow(a, newsz);
        ghost var was := State();
        var mem, out := GrowNext(d, a, lo, m);
        if out.Remap? {
          GrownBars(m, was, d, lo, a, hi);
          return 0, true;
        }
        if !out.Mapped? {
          GrownFails(m, was, d, lo, a, hi);
          GiveBack(d, oldsz, newsz, mem, a, m);
          ClearsIff(m, State(), d, lo, hi);
          return 0, false;
        }
        a := a + 1;
      }
      PageBelow(a, newsz);
      GrownAll(m, State(), d, lo, hi);
      return newsz, false;
    }

    // Table i of d, if there is one, goes to the free list.
    method DropTable(d: int, i: nat)
      requires Valid() && d in dirs && i < NENTRIES
      requires forall v: nat :: v < KERN ==> Lookup(State(), d, v) == Absent
      modifies this`free, this`dirs, this`tables, this`owner
      ensures Valid() && Releases(old(State()), d) && dirs == old(dirs)[d := old(dirs)[d][i := NOTABLE]]
      ensures forall e: int, u: nat :: Lookup(State(), e, u) == if e == d && u / NENTRIES == i then Absent else old(Lookup(State(), e, u))
    {
      var t := dirs[d][i];
      if t != NOTABLE {
        DroppedTableOk(State(), d, i);
        DroppedTableMaps(State(), d, i);
        dirs := dirs[d := dirs[d][i := NOTABLE]];
        tables := tables - {t};
        owner := owner[t := Held];
        Kfree(t);
      } else {
        assert dirs[d][i := NOTABLE] == dirs[d];
      }
    }

    // A directory with no tables goes to the free list.
    method DropDir(d: int)
      requires Valid() && d in dirs && forall i :: 0 <= i < NENTRIES ==> dirs[d][i] == NOTABLE
      modifies this`free, this`dirs, this`owner
      ensures Valid() && Releases(old(State()), d) && dirs.Keys == old(dirs.Keys) - {d}
      ensures forall e: int, u: nat :: Lookup(State(), e, u) == old(Lookup(State(), e, u))
    {
      DroppedDirOk(State(), d);
      dirs := dirs - {d};
      owner := owner[d := Held];
      Kfree(d);
    }

    /**
     Take address space d apart: its user pages, its tables and its directory become free, and
     no other page moves and no other address space changes.
     */
    method Freevm(d: int)
      requires Valid() && d in dirs
      modifies this`free, this`dirs, this`tables, this`owner
      ensures Valid() && dirs.Keys == old(dirs.Keys) - {d} && owner.Keys == old(owner.Keys)
      ensures forall e: int, u: nat :: e != d ==> Lookup(State(), e, u) == old(Lookup(State(), e, u))
      ensures forall x :: x in owner ==> owner[x] == if PartOf(old(owner)[x], x, d) then Free else old(owner)[x]
    {
      hide TablesOk, UsersOk, FreeOk, Found, Lookup, Pages, Pushed;
      ghost var m := State();
      var _, _ := Deallocuvm(d, KERNBASE, 0);
      var i := 0;
      while i < NENTRIES
        invariant 0 <= i <= NENTRIES && Valid() && Releases(m, d) && dirs.Keys == m.dirs.Keys
        invariant forall j :: 0 <= j < i ==> dirs[d][j] == NOTABLE
        invariant forall v: nat :: v < KERN ==> Lookup(State(), d, v) == Absent
        invariant forall e: int, u: nat :: e != d ==> Lookup(State(), e, u) == Lookup(m, e, u)
      {
        DropTable(d, i);
        i := i + 1;
      }
      DropDir(d);
      forall x | x in owner ensures owner[x] == if PartOf(m.owner[x], x, d) then Free else m.owner[x] {
        AllFreed(m, State(), d, x);
      }
    }
  }

  /**
   A space with its second page mapped and no memory left: growing it from nothing to two pages
   fails, and unmaps that page.
   */
  method FailedGrowthUnmaps() returns (mem: Memory, d: int, r: nat, panicked: bool, ghost before: VM)
    ensures mem.Valid() && !panicked && r == 0 && Lookup(before, d, 1).Present? && Lookup(mem.State(), d, 1) == Absent
    ensures !mem.Keeps(before)
  {
    hide Owned, Lookup;
    mem := new Memory([1, 2, 3]);
    d := mem.NewDir();
    assert mem.free == [2, 3];
    var page := mem.Kalloc();
    assert mem.free == [3];
    var out := mem.MapOne(d, 1, Present(page, true, true));
    assert mem.free == [];
    before := mem.State();
    r, panicked := mem.Allocuvm(d, 0, 2 * PGSIZE);
  }
}
