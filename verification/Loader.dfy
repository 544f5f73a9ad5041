/** Loading a program: the image that the segments of an ELF file leave, and the process made of it. */
module Loader {
  import opened Bytes
  import opened Memory

  const MAGIC := 0x464C457F
  const PT_LOAD := 1
  const PHDR := 32
  const EHDR := 52

  datatype Seg = Seg(kind: word, offset: word, vaddr: word, filesz: word, memsz: word)

  // ----- The file -----

  function SegAt(f: seq<byte>, a: nat): Seg
    requires a + PHDR <= |f|
  {
    Seg(Get32(f, a), Get32(f, a + 4), Get32(f, a + 8), Get32(f, a + 16), Get32(f, a + 20))
  }

  /** The first `n` program headers, from `at` on. */
  function Segs(f: seq<byte>, at: nat, n: nat): (r: seq<Seg>)
    requires at + PHDR * n <= |f|
    ensures |r| == n && forall i :: 0 <= i < n ==> r[i] == SegAt(f, at + PHDR * i)
  {
    seq(n, i requires 0 <= i < n => SegAt(f, at + PHDR * i))
  }

  function Entry(f: seq<byte>): word
    requires Tabled(f)
  {
    Get32(f, 24)
  }

  /** The file has its header and its program headers. */
  predicate Tabled(f: seq<byte>) {
    EHDR <= |f| && Get32(f, 28) + PHDR * Get16(f, 44) <= |f|
  }

  function Program(f: seq<byte>): seq<Seg>
    requires Tabled(f)
  {
    Segs(f, Get32(f, 28), Get16(f, 44))
  }

  /** A segment to load has its bytes in the file, and its end can be rounded up to a page. */
  predicate Loadable(f: seq<byte>, s: Seg) {
    s.kind == PT_LOAD ==>
      s.filesz <= s.memsz && s.offset + s.filesz <= |f| && s.vaddr + s.memsz <= UINT_MAX - (BLKSIZE - 1)
  }

  ghost predicate AllLoadable(f: seq<byte>)
    requires Tabled(f)
  {
    forall s :: s in Program(f) ==> Loadable(f, s)
  }

  ghost predicate Elf(f: seq<byte>) {
    Tabled(f) && Get32(f, 0) == MAGIC && AllLoadable(f)
  }

  // ----- The layout -----

  function Least(ss: seq<Seg>, n: nat): word
    requires n <= |ss|
  {
    if n == 0 then UINT_MAX
    else if ss[n - 1].kind == PT_LOAD && ss[n - 1].vaddr < Least(ss, n - 1) then ss[n - 1].vaddr
    else Least(ss, n - 1)
  }

  function Greatest(ss: seq<Seg>, n: nat): nat
    requires n <= |ss|
  {
    if n == 0 then 0
    else if ss[n - 1].kind == PT_LOAD && ss[n - 1].vaddr + ss[n - 1].memsz > Greatest(ss, n - 1) then
      ss[n - 1].vaddr + ss[n - 1].memsz
    else Greatest(ss, n - 1)
  }

  /** The lowest page, and the size of the image in whole pages. Without any segment the bounds
      cross, and the 32-bit difference is one page. */
  function Bottom(ss: seq<Seg>): (r: word)
    ensures r % BLKSIZE == 0
  {
    Least(ss, |ss|) - Least(ss, |ss|) % BLKSIZE
  }

  function Top(ss: seq<Seg>): nat {
    (Greatest(ss, |ss|) + BLKSIZE - 1) / BLKSIZE * BLKSIZE
  }

  function Span(ss: seq<Seg>): word {
    (Top(ss) - Bottom(ss)) % RAM_SIZE
  }

  lemma {:induction false} Bounds(ss: seq<Seg>, n: nat, i: nat)
    requires i < n <= |ss| && ss[i].kind == PT_LOAD
    ensures Least(ss, n) <= ss[i].vaddr && ss[i].vaddr + ss[i].memsz <= Greatest(ss, n)
    decreases n
  {
    if i < n - 1 { Bounds(ss, n - 1, i); }
  }

  lemma {:induction false} GreatestFits(f: seq<byte>, ss: seq<Seg>, n: nat)
    requires n <= |ss| && forall s :: s in ss ==> Loadable(f, s)
    ensures Greatest(ss, n) <= UINT_MAX - (BLKSIZE - 1)
    decreases n
  {
    if n > 0 {
      GreatestFits(f, ss, n - 1);
      assert ss[n - 1] in ss;
    }
  }

  /** Every segment lies inside the image, which is at least a page long. */
  lemma {:induction false} Inside(f: seq<byte>, ss: seq<Seg>, i: nat)
    requires (forall s :: s in ss ==> Loadable(f, s)) && i < |ss| && ss[i].kind == PT_LOAD
    ensures Bottom(ss) <= ss[i].vaddr && ss[i].vaddr - Bottom(ss) + ss[i].memsz <= Span(ss)
  {
    Bounds(ss, |ss|, i);
    GreatestFits(f, ss, |ss|);
    Rounding(Least(ss, |ss|), Greatest(ss, |ss|));
  }

  /** The image is no larger than that: its first page and its last have a part in some segment. A file
      without segments gets a page. */
  lemma {:induction false} Tight(f: seq<byte>, ss: seq<Seg>)
    requires forall s :: s in ss ==> Loadable(f, s)
    ensures (exists i :: ToLoad(ss, i)) ==>
              && (exists i :: ToLoad(ss, i) && ss[i].vaddr < Bottom(ss) + 4096)
              && (Span(ss) > 0 ==>
                    exists i :: ToLoad(ss, i) && Bottom(ss) + Span(ss) - 4096 < ss[i].vaddr + ss[i].memsz)
    ensures (forall i :: !ToLoad(ss, i)) ==> Span(ss) == 4096
  {
    hide Loadable;
    Extremes(ss, |ss|);
    GreatestFits(f, ss, |ss|);
    if i :| ToLoad(ss, i) {
      Bounds(ss, |ss|, i);
      Rounding(Least(ss, |ss|), Greatest(ss, |ss|));
    }
  }

  predicate ToLoad(ss: seq<Seg>, i: int) {
    0 <= i < |ss| && ss[i].kind == PT_LOAD
  }

  lemma {:induction false} Extremes(ss: seq<Seg>, n: nat)
    requires n <= |ss|
    ensures (exists i :: ToLoad(ss, i) && i < n) ==>
              && (exists i :: ToLoad(ss, i) && i < n && ss[i].vaddr == Least(ss, n))
              && (Greatest(ss, n) > 0 ==>
                    exists i :: ToLoad(ss, i) && i < n && ss[i].vaddr + ss[i].memsz == Greatest(ss, n))
    ensures (forall i :: ToLoad(ss, i) ==> i >= n) ==> Least(ss, n) == UINT_MAX && Greatest(ss, n) == 0
    decreases n
  {
    if n > 0 {
      Extremes(ss, n - 1);
      var k := n - 1;
      assert ToLoad(ss, k) <==> ss[k].kind == PT_LOAD;
    }
  }

  lemma Rounding(lo: word, hi: nat)
    requires lo <= hi <= UINT_MAX - (BLKSIZE - 1)
    ensures var a, b := lo - lo % BLKSIZE, (hi + BLKSIZE - 1) / BLKSIZE * BLKSIZE;
            0 <= a <= lo && hi <= b < RAM_SIZE && (b - a) % RAM_SIZE == b - a
  {
  }

  // ----- The image -----

  /** What a segment puts in memory: its bytes of the file, then zeros. */
  function Body(f: seq<byte>, s: Seg): (b: seq<byte>)
    requires s.kind == PT_LOAD && Loadable(f, s)
    ensures |b| == s.memsz && forall k :: 0 <= k < s.memsz ==> b[k] == if k < s.filesz then f[s.offset + k] else 0
  {
    f[s.offset..s.offset + s.filesz] + Zeros(s.memsz - s.filesz)
  }

  /** The segments fit an image of `size` bytes that starts at address `lo`. */
  ghost predicate Fits(f: seq<byte>, ss: seq<Seg>, lo: nat, size: nat) {
    forall s :: s in ss ==> Loadable(f, s) && (s.kind == PT_LOAD ==> lo <= s.vaddr && s.vaddr - lo + s.memsz <= size)
  }

  /** The first `n` segments laid one over the other. */
  ghost function Paint(img: seq<byte>, f: seq<byte>, ss: seq<Seg>, lo: nat, n: nat): (r: seq<byte>)
    requires n <= |ss| && Fits(f, ss, lo, |img|)
    ensures |r| == |img|
  {
    if n == 0 then img
    else
      var r := Paint(img, f, ss, lo, n - 1);
      if ss[n - 1].kind != PT_LOAD then r else Splice(r, ss[n - 1].vaddr - lo, Body(f, ss[n - 1]))
  }

  predicate Covers(s: Seg, v: int) {
    s.kind == PT_LOAD && s.vaddr <= v < s.vaddr + s.memsz
  }

  /** Index of the last of the first `n` segments that covers address `v`, or -1. */
  function LastOver(ss: seq<Seg>, v: int, n: nat): (r: int)
    requires n <= |ss|
    ensures r == -1 || (0 <= r < n && Covers(ss[r], v))
    ensures forall j :: 0 <= j < n && j > r ==> !Covers(ss[j], v)
  {
    if n == 0 then -1 else if Covers(ss[n - 1], v) then n - 1 else LastOver(ss, v, n - 1)
  }

  /** Each byte of the image is the file byte or the zero of the last segment over it; a byte under
      no segment is what the memory held. */
  lemma {:induction false} PaintByte(img: seq<byte>, f: seq<byte>, ss: seq<Seg>, lo: nat, n: nat, k: nat)
    requires n <= |ss| && Fits(f, ss, lo, |img|) && k < |img|
    ensures var j := LastOver(ss, lo + k, n);
            Paint(img, f, ss, lo, n)[k] ==
            if j == -1 then img[k]
            else if lo + k - ss[j].vaddr < ss[j].filesz then f[ss[j].offset + (lo + k - ss[j].vaddr)] else 0
    decreases n
  {
    hide Fits, Loadable, Covers;
    PaintNone(img, f, ss, lo);
    if n > 0 {
      PaintByte(img, f, ss, lo, n - 1, k);
      PaintNext(img, f, ss, lo, n - 1);
      SplicedByte(Paint(img, f, ss, lo, n - 1), f, ss[n - 1], lo, k);
      hide Paint;
    }
  }

  /** A segment covers just the addresses where it puts its body. */
  lemma SplicedByte(r: seq<byte>, f: seq<byte>, s: Seg, lo: nat, k: nat)
    requires Loadable(f, s) && k < |r| && (s.kind == PT_LOAD ==> lo <= s.vaddr && s.vaddr - lo + s.memsz <= |r|)
    ensures if Covers(s, lo + k) then
              && s.kind == PT_LOAD && (lo + k - s.vaddr < s.filesz ==> s.offset + (lo + k - s.vaddr) < |f|)
              && Splice(r, s.vaddr - lo, Body(f, s))[k] ==
                 if lo + k - s.vaddr < s.filesz then f[s.offset + (lo + k - s.vaddr)] else 0
            else s.kind == PT_LOAD ==> Splice(r, s.vaddr - lo, Body(f, s))[k] == r[k]
  {
  }

  /** The image of a well-formed file fits the memory asked for. */
  lemma {:induction false} ImageFits(f: seq<byte>)
    requires Elf(f)
    ensures var ss := Program(f); Fits(f, ss, Bottom(ss), Span(ss))
  {
    hide Program, Span, Bottom;
    var ss := Program(f);
    forall s | s in ss && s.kind == PT_LOAD
      ensures Bottom(ss) <= s.vaddr && s.vaddr - Bottom(ss) + s.memsz <= Span(ss) {
      var i :| 0 <= i < |ss| && ss[i] == s;
      Inside(f, ss, i);
    }
  }

  // ----- The entry point -----

  /** Where the code starts the process, and where the image has its entry. */
  function Started(base: nat, f: seq<byte>): word
    requires Tabled(f)
  {
    (base + Entry(f)) % RAM_SIZE
  }

  function Intended(base: nat, f: seq<byte>): nat
    requires Tabled(f)
  {
    (base + Entry(f) - Bottom(Program(f))) % RAM_SIZE
  }

  /** The process starts at its entry exactly when the lowest page is page 0. */
  lemma EntryRightIff(base: nat, f: seq<byte>)
    requires Tabled(f)
    ensures Started(base, f) == Intended(base, f) <==> Bottom(Program(f)) == 0
  {
    hide Program, Bottom, Tabled, Get32, Get16;
    var x: nat, lo := base + Entry(f), Bottom(Program(f));
    assert Intended(base, f) == (x - lo) % RAM_SIZE;
    Shifted(x, lo);
  }

  lemma Shifted(x: nat, lo: word)
    ensures x % RAM_SIZE == (x - lo) % RAM_SIZE <==> lo == 0
  {
    var q := x / RAM_SIZE;
    var r := x % RAM_SIZE;
    assert x == q * RAM_SIZE + r;
    if lo <= r {
      Residue(x - lo, q, r - lo);
    } else {
      Residue(x - lo, q - 1, r - lo + RAM_SIZE);
    }
  }

  // ----- Loading -----

  /** The file `f` lies at `p`. */
  ghost predicate Lies(m: seq<byte>, p: nat, f: seq<byte>) {
    p + |f| <= |m| && m[p..p + |f|] == f
  }

  lemma WordAt(m: seq<byte>, p: nat, f: seq<byte>, k: nat)
    requires Lies(m, p, f) && k + 4 <= |f|
    ensures Get32(m, p + k) == Get32(f, k) && Get16(m, p + k) == Get16(f, k)
  {
    assert forall i :: k <= i < k + 4 ==> m[p + i] == m[p..p + |f|][i] == f[i];
  }

  lemma SegmentAt(m: seq<byte>, p: nat, f: seq<byte>, k: nat)
    requires Lies(m, p, f) && k + PHDR <= |f|
    ensures SegAt(m, p + k) == SegAt(f, k)
  {
    hide Get32, Lies;
    AtFits(m, p, f);
    WordAt(m, p, f, k);
    WordAt(m, p, f, k + 4);
    WordAt(m, p, f, k + 8);
    WordAt(m, p, f, k + 16);
    WordAt(m, p, f, k + 20);
  }

  lemma AtFits(m: seq<byte>, p: nat, f: seq<byte>)
    requires Lies(m, p, f)
    ensures p + |f| <= |m|
  {
  }

  /** Program header `i`, read from memory. */
  method Header(ram: array<byte>, p: nat, i: nat, ghost f: seq<byte>) returns (s: Seg)
    requires Lies(ram[..], p, f) && Elf(f) && i < |Program(f)|
    ensures s == Program(f)[i] && s in Program(f)
  {
    hide Lies, Get32, SegAt;
    AtFits(ram[..], p, f);
    WordAt(ram[..], p, f, 28);
    SegmentAt(ram[..], p, f, Get32(f, 28) + PHDR * i);
    s := SegAt(ram[..], p + Get32(ram[..], p + 28) + PHDR * i);
  }

  /** The first loop: the page-rounded bounds of the segments to load. */
  method Measure(ram: array<byte>, p: nat, ghost f: seq<byte>) returns (min: word, max: word)
    requires Lies(ram[..], p, f) && Elf(f)
    ensures min == Bottom(Program(f)) && max == Top(Program(f))
  {
    hide Lies, Program, Get32, Get16, Bottom, Top, Tabled, AllLoadable;
    ghost var ss := Program(f);
    var phnum := Count(ram, p, f);
    var lo: word, hi: nat := UINT_MAX, 0;
    var i := 0;
    while i < phnum
      invariant 0 <= i <= phnum && lo == Least(ss, i) && hi == Greatest(ss, i)
    {
      var ph := Header(ram, p, i, f);
      ElfLoadable(f, ph);
      if ph.kind == PT_LOAD {
        if ph.vaddr < lo { lo := ph.vaddr; }
        if ph.vaddr + ph.memsz > hi { hi := ph.vaddr + ph.memsz; }
      }
      i := i + 1;
    }
    MeasuredBounds(f);
    min := lo - lo % BLKSIZE;
    max := (hi + BLKSIZE - 1) / BLKSIZE * BLKSIZE;
  }

  lemma ElfLoadable(f: seq<byte>, s: Seg)
    requires Elf(f) && s in Program(f)
    ensures Loadable(f, s)
  {
  }

  lemma MeasuredBounds(f: seq<byte>)
    requires Elf(f)
    ensures var ss := Program(f); var lo, hi := Least(ss, |ss|), Greatest(ss, |ss|);
                                  && Bottom(ss) == lo - lo % BLKSIZE
                                  && Top(ss) == (hi + BLKSIZE - 1) / BLKSIZE * BLKSIZE < RAM_SIZE
  {
    hide Program, Tabled;
    GreatestFits(f, Program(f), |Program(f)|);
  }

  method Count(ram: array<byte>, p: nat, ghost f: seq<byte>) returns (n: nat)
    requires Lies(ram[..], p, f) && Elf(f)
    ensures n == |Program(f)|
  {
    hide Get32, Get16, SegAt;
    WordAt(ram[..], p, f, 44);
    n := Get16(ram[..], p + 44);
  }

  /** Memory is apart from the file. */
  predicate Beside(base: nat, size: nat, p: nat, n: nat) {
    base + size <= p || p + n <= base
  }

  lemma SameAtFirst(m: seq<byte>, lo: int, hi: int)
    ensures Same(m, m, lo, hi)
  {
  }

  lemma SameThrough(a: seq<byte>, b: seq<byte>, c: seq<byte>, lo: int, hi: int)
    requires Same(a, b, lo, hi) && Same(b, c, lo, hi)
    ensures Same(a, c, lo, hi)
  {
  }

  /** The second loop: every segment copied and its rest cleared. */
  method Place(ram: array<byte>, p: nat, base: nat, lo: word, ghost size: nat, ghost f: seq<byte>)
    requires ram.Length == RAM_SIZE && Lies(ram[..], p, f) && Elf(f) && lo == Bottom(Program(f))
    requires size == Span(Program(f))
    requires base + size <= RAM_SIZE && Beside(base, size, p, |f|)
    modifies ram
    ensures Fits(f, Program(f), lo, size)
    ensures ram[base..base + size] == Paint(old(ram[base..base + size]), f, Program(f), lo, |Program(f)|)
    ensures Same(old(ram[..]), ram[..], 0, base) && Same(old(ram[..]), ram[..], base + size, RAM_SIZE)
    ensures Lies(ram[..], p, f)
  {
    hide Lies, Program, Get32, Get16, Tabled, AllLoadable, Bottom, Span, Fits, Paint, Same, Splice, Body;
    ghost var ss, img, m := Program(f), ram[base..base + size], ram[..];
    SameAtFirst(m, 0, base);
    SameAtFirst(m, base + size, RAM_SIZE);
    ImageFits(f);
    var phnum := Count(ram, p, f);
    var i := 0;
    PaintNone(img, f, ss, lo);
    while i < phnum
      invariant 0 <= i <= phnum && Lies(ram[..], p, f) && ram[base..base + size] == Paint(img, f, ss, lo, i)
      invariant Same(m, ram[..], 0, base) && Same(m, ram[..], base + size, RAM_SIZE)
    {
      var ph := Header(ram, p, i, f);
      PaintNext(img, f, ss, lo, i);
      if ph.kind == PT_LOAD {
        ghost var was := ram[..];
        PlaceOne(ram, p, base, lo, ph, size, f);
        SameThrough(m, was, ram[..], 0, base);
        SameThrough(m, was, ram[..], base + size, RAM_SIZE);
      }
      i := i + 1;
    }
  }

  lemma PaintNone(img: seq<byte>, f: seq<byte>, ss: seq<Seg>, lo: nat)
    requires Fits(f, ss, lo, |img|)
    ensures Paint(img, f, ss, lo, 0) == img
  {
  }

  lemma PaintNext(img: seq<byte>, f: seq<byte>, ss: seq<Seg>, lo: nat, i: nat)
    requires Fits(f, ss, lo, |img|) && i < |ss|
    ensures Loadable(f, ss[i])
    ensures (ss[i].kind == PT_LOAD ==> lo <= ss[i].vaddr && ss[i].vaddr - lo + ss[i].memsz <= |img|)
    ensures Paint(img, f, ss, lo, i + 1) ==
            if ss[i].kind != PT_LOAD then Paint(img, f, ss, lo, i)
            else Splice(Paint(img, f, ss, lo, i), ss[i].vaddr - lo, Body(f, ss[i]))
  {
    assert ss[i] in ss;
  }

  method Zero(ram: array<byte>, at: nat, n: nat)
    requires at + n <= ram.Length
    modifies ram
    ensures ram[..] == Splice(old(ram[..]), at, Zeros(n))
  {
    Fill(ram, at, 0, n);
    assert seq(n, _ => 0 as byte) == Zeros(n);
  }

  /** One segment goes to its place: its bytes from the file, and zeros for the rest of its memory. */
  method PlaceOne(ram: array<byte>, p: nat, base: nat, lo: word, s: Seg, ghost size: nat, ghost f: seq<byte>)
    requires ram.Length == RAM_SIZE && Lies(ram[..], p, f) && base + size <= RAM_SIZE && Beside(base, size, p, |f|)
    requires s.kind == PT_LOAD && Loadable(f, s) && lo <= s.vaddr && s.vaddr - lo + s.memsz <= size
    modifies ram
    ensures ram[base..base + size] == Splice(old(ram[base..base + size]), s.vaddr - lo, Body(f, s))
    ensures Same(old(ram[..]), ram[..], 0, base) && Same(old(ram[..]), ram[..], base + size, RAM_SIZE)
    ensures Lies(ram[..], p, f)
  {
    hide Copied, CopySource, Splice, Body;
    ghost var m := ram[..];
    var dst := base + s.vaddr - lo;
    Ncopy(ram, dst, p + s.offset, s.filesz);
    ghost var m1 := ram[..];
    CopiedSplice(m, m1, dst, p + s.offset, s.filesz);
    Zero(ram, dst + s.filesz, s.memsz - s.filesz);
    Laid(m, m1, ram[..], p, base, dst, s, size, f);
  }

  lemma Laid(m: seq<byte>, m1: seq<byte>, r: seq<byte>, p: nat, base: nat, dst: nat, s: Seg, size: nat, f: seq<byte>)
    requires Lies(m, p, f) && base + size <= |m| && Beside(base, size, p, |f|)
    requires s.kind == PT_LOAD && Loadable(f, s) && base <= dst && dst + s.memsz <= base + size
    requires m1 == Splice(m, dst, m[p + s.offset..p + s.offset + s.filesz])
    requires r == Splice(m1, dst + s.filesz, Zeros(s.memsz - s.filesz))
    ensures r[base..base + size] == Splice(m[base..base + size], dst - base, Body(f, s))
    ensures Same(m, r, 0, base) && Same(m, r, base + size, |m|) && Lies(r, p, f)
  {
    hide Splice, Body;
    assert forall k :: 0 <= k < |f| ==> m[p + k] == m[p..p + |f|][k] == f[k];
    var x, y := r[base..base + size], Splice(m[base..base + size], dst - base, Body(f, s));
    forall k | 0 <= k < size ensures x[k] == y[k] {
      assert x[k] == r[base + k];
    }
    assert forall k :: p <= k < p + |f| ==> r[k] == m[k];
    assert r[p..p + |f|] == m[p..p + |f|];
  }
}
