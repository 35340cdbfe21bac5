/** How the machine lays out blocks of bytes, of bits and of inodes as 32-bit words. */
module DiskCoding {
  import opened FileTree
  import opened FileLogs
  import opened FileCrash
  import opened Words

  const HALF: int := 0x1_0000

  // ---------------------------------------------------------------- bytes

  function BytesOut(b: Block): (r: seq<int>) {
    seq(NINDIRECT, i requires 0 <= i < NINDIRECT => GetWord(b, i))
  }

  function Four(a: Octet, b: Octet, c: Octet, d: Octet): (v: int) {
    a as int + 0x100 * (b as int + 0x100 * (c as int + 0x100 * d as int))
  }

  // The bytes of a word are determined by it.
  lemma SameDigits(a: Octet, b: Octet, c: Octet, d: Octet, e: Octet, f: Octet, g: Octet, h: Octet)
    requires Four(a, b, c, d) == Four(e, f, g, h)
    ensures a == e && b == f && c == g && d == h
  {
    var u, v := b as int + 0x100 * (c as int + 0x100 * d as int), f as int + 0x100 * (g as int + 0x100 * h as int);
    LowDigit(a, u, e, v);
    LowDigit(b, c as int + 0x100 * d as int, f, g as int + 0x100 * h as int);
    LowDigit(c, d, g, h);
  }

  lemma LowDigit(a: Octet, u: int, e: Octet, v: int)
    requires a as int + 0x100 * u == e as int + 0x100 * v
    ensures a == e && u == v
  {
  }

  lemma BytesBack(a: Block, b: Block)
    requires |a| == |b| == BSIZE && BytesOut(a) == BytesOut(b)
    ensures a == b
  {
    forall k | 0 <= k < BSIZE ensures a[k] == b[k] {
      var i := k / 4;
      assert BytesOut(a)[i] == BytesOut(b)[i];
      SameDigits(a[4 * i], a[4 * i + 1], a[4 * i + 2], a[4 * i + 3], b[4 * i], b[4 * i + 1], b[4 * i + 2], b[4 * i + 3]);
      assert k == 4 * i || k == 4 * i + 1 || k == 4 * i + 2 || k == 4 * i + 3;
    }
  }

  // ---------------------------------------------------------------- bits

  // The n bits from position t on, the first of them least significant.
  function WordOf(bits: seq<bool>, t: nat, n: nat): (v: nat)
    decreases n
  {
    if n == 0 then 0 else (if t < |bits| && bits[t] then 1 else 0) + 2 * WordOf(bits, t + 1, n - 1)
  }

  function BitsOut(bits: seq<bool>): (r: seq<int>) {
    seq(NINDIRECT, i requires 0 <= i < NINDIRECT => WordOf(bits, 32 * i, 32))
  }

  // The bits of a word are determined by it.
  lemma {:induction false} WordBack(a: seq<bool>, b: seq<bool>, t: nat, n: nat, k: nat)
    requires |a| == |b| && WordOf(a, t, n) == WordOf(b, t, n) && t <= k < t + n && k < |a|
    ensures a[k] == b[k]
    decreases n
  {
    if k > t {
      WordBack(a, b, t + 1, n - 1, k);
    }
  }

  lemma BitsBack(a: seq<bool>, b: seq<bool>)
    requires |a| == |b| == BPB && BitsOut(a) == BitsOut(b)
    ensures a == b
  {
    forall k | 0 <= k < BPB ensures a[k] == b[k] {
      assert BitsOut(a)[k / 32] == BitsOut(b)[k / 32];
      WordBack(a, b, 32 * (k / 32), 32, k);
    }
  }

  // ---------------------------------------------------------------- inodes

  const WORDS: nat := 16      // sizeof(struct dinode), in words

  // Two 16-bit fields in one word.
  function Halves(lo: Short, hi: Short): (v: int) { lo as int % HALF + HALF * (hi as int % HALF) }

  lemma SameHalves(a: Short, b: Short, c: Short, d: Short)
    requires Halves(a, b) == Halves(c, d)
    ensures a == c && b == d
  {
  }

  // Word t of struct dinode: type and major, minor and nlink, size, and then the addresses.
  function InodeWord(ip: Inode, t: nat): (v: int) {
    if t == 0 then Halves(ip.kind.typ, ip.kind.major)
    else if t == 1 then Halves(ip.kind.minor, ip.kind.nlink)
    else if t == 2 then ip.size
    else if t - 3 < |ip.addrs| then ip.addrs[t - 3]
    else 0
  }

  function InodesOut(xs: seq<Inode>): (r: seq<int>) {
    seq(IPB * WORDS, i requires 0 <= i < IPB * WORDS => if i / WORDS < |xs| then InodeWord(xs[i / WORDS], i % WORDS) else 0)
  }

  lemma InodeBack(x: Inode, y: Inode)
    requires Formed(x) && Formed(y) && forall t :: 0 <= t < WORDS ==> InodeWord(x, t) == InodeWord(y, t)
    ensures x == y
  {
    assert InodeWord(x, 0) == InodeWord(y, 0) && InodeWord(x, 1) == InodeWord(y, 1) && InodeWord(x, 2) == InodeWord(y, 2);
    SameHalves(x.kind.typ, x.kind.major, y.kind.typ, y.kind.major);
    SameHalves(x.kind.minor, x.kind.nlink, y.kind.minor, y.kind.nlink);
    forall j | 0 <= j < |x.addrs| ensures x.addrs[j] == y.addrs[j] {
      assert InodeWord(x, j + 3) == InodeWord(y, j + 3);
    }
    assert x.addrs == y.addrs;
  }

  lemma InodesBack(xs: seq<Inode>, ys: seq<Inode>)
    requires |xs| == |ys| == IPB && AllFormed(xs) && AllFormed(ys) && InodesOut(xs) == InodesOut(ys)
    ensures xs == ys
  {
    forall j | 0 <= j < IPB ensures xs[j] == ys[j] {
      forall t | 0 <= t < WORDS ensures InodeWord(xs[j], t) == InodeWord(ys[j], t) {
        var i := j * WORDS + t;
        assert i / WORDS == j && i % WORDS == t;
        assert InodesOut(xs)[i] == InodesOut(ys)[i];
      }
      InodeBack(xs[j], ys[j]);
    }
  }

  // ---------------------------------------------------------------- the three together

  function Machine(): (k: Coding) {
    Coding(b => BytesOut(b), bits => BitsOut(bits), xs => InodesOut(xs))
  }

  // Every block is as many words, and what the machine writes it can read back.
  lemma MachineReadable()
    ensures Readable(Machine())
    ensures forall b, bits, xs :: |Machine().data(b)| == |Machine().bits(bits)| == |Machine().inodes(xs)| == NINDIRECT
  {
    var k := Machine();
    forall a: Block, b: Block | |a| == |b| == BSIZE && k.data(a) == k.data(b) ensures a == b {
      BytesBack(a, b);
    }
    forall a, b | |a| == |b| == BPB && k.bits(a) == k.bits(b) ensures a == b {
      BitsBack(a, b);
    }
    forall a, b | |a| == |b| == IPB && AllFormed(a) && AllFormed(b) && k.inodes(a) == k.inodes(b) ensures a == b {
      InodesBack(a, b);
    }
  }
}
