/** Bytes, 32-bit words and the physical address space, with the four memory
    primitives of the kernel's utility file. */
module Bytes {

  type byte = x: int | 0 <= x < 256
  type word = x: int | 0 <= x < 0x1_0000_0000

  /** Size of the physical address space. */
  const RAM_SIZE := 0x1_0000_0000
  const UINT_MAX := 0xFFFF_FFFF

  /** `m` with `d` written at address `at`. */
  function Splice(m: seq<byte>, at: nat, d: seq<byte>): (r: seq<byte>)
    requires at + |d| <= |m|
    ensures |r| == |m|
    ensures forall i :: 0 <= i < |m| ==> r[i] == if at <= i < at + |d| then d[i - at] else m[i]
  {
    m[..at] + d + m[at + |d|..]
  }

  function Zeros(n: nat): (z: seq<byte>)
    ensures |z| == n && forall i :: 0 <= i < n ==> z[i] == 0
  {
    seq(n, _ => 0)
  }

  function Le(b0: int, b1: int, b2: int, b3: int): int {
    b0 + 0x100 * (b1 + 0x100 * (b2 + 0x100 * b3))
  }

  /** Little-endian load of four bytes. */
  function Get32(m: seq<byte>, a: nat): word
    requires a + 4 <= |m|
  {
    Le(m[a], m[a + 1], m[a + 2], m[a + 3])
  }

  function Enc32(w: word): (b: seq<byte>)
    ensures |b| == 4 && Get32(b, 0) == w
  {
    [w % 0x100, w / 0x100 % 0x100, w / 0x100 / 0x100 % 0x100, w / 0x100 / 0x100 / 0x100]
  }

  /** Little-endian load of two bytes. */
  function Get16(m: seq<byte>, a: nat): (r: nat)
    requires a + 2 <= |m|
    ensures r < 0x1_0000
  {
    Le(m[a], m[a + 1], 0, 0)
  }

  /** `a` and `b` hold the same bytes on [lo, hi). */
  ghost predicate Same(a: seq<byte>, b: seq<byte>, lo: int, hi: int) {
    |a| == |b| && forall i :: 0 <= i < |a| && lo <= i < hi ==> a[i] == b[i]
  }

  lemma SameSlice(a: seq<byte>, b: seq<byte>, lo: nat, hi: nat)
    requires Same(a, b, lo, hi) && lo <= hi <= |a|
    ensures a[lo..hi] == b[lo..hi]
  {
  }

  lemma SameLoad(a: seq<byte>, b: seq<byte>, lo: int, hi: int, at: nat)
    requires Same(a, b, lo, hi) && lo <= at && at + 4 <= hi && at + 4 <= |a|
    ensures Get32(a, at) == Get32(b, at)
  {
  }

  /** An address as the 32-bit machine computes it: past the top it starts again at 0. */
  function Wrap(a: nat): (r: nat)
    requires a < 2 * RAM_SIZE
    ensures r < RAM_SIZE && (a < RAM_SIZE ==> r == a)
  {
    if a < RAM_SIZE then a else a - RAM_SIZE
  }

  /** Quotient and remainder are determined by what they stand for. */
  lemma Residue(y: int, q: int, r: int)
    requires y == q * RAM_SIZE + r && 0 <= r < RAM_SIZE
    ensures y % RAM_SIZE == r
  {
  }

  /** The byte that step `k` of an ascending copy reads, the target being `r` by then. */
  ghost function CopySource(m: seq<byte>, r: seq<byte>, dst: nat, src: nat, k: nat): byte
    requires |m| == |r| == RAM_SIZE && src <= RAM_SIZE && k < RAM_SIZE
  {
    var a := Wrap(src + k);
    if dst <= a < dst + k then r[a] else m[a]
  }

  /** The memory after the ascending byte loop of `ncopy`: a source byte that the loop has
      already overwritten is read back in its new value. */
  ghost predicate Copied(m: seq<byte>, r: seq<byte>, dst: nat, src: nat, n: nat) {
    && |m| == |r| == RAM_SIZE && dst + n <= RAM_SIZE && src <= RAM_SIZE && n <= RAM_SIZE
    && (forall i :: 0 <= i < RAM_SIZE && !(dst <= i < dst + n) ==> r[i] == m[i])
    && (forall i :: dst <= i < dst + n ==> r[i] == CopySource(m, r, dst, src, i - dst))
  }

  /** A source range that the copy does not run into from below arrives unchanged; this covers
      disjoint ranges and the downward shift of overlapping ones. */
  lemma CopiedPrefix(m: seq<byte>, r: seq<byte>, dst: nat, src: nat, n: nat, k: nat)
    requires Copied(m, r, dst, src, n) && k <= n && src + k <= RAM_SIZE
    requires dst <= src || src + k <= dst
    ensures r[dst..dst + k] == m[src..src + k]
  {
    assert forall i :: dst <= i < dst + k ==> r[i] == m[src + (i - dst)];
  }

  lemma CopiedSplice(m: seq<byte>, r: seq<byte>, dst: nat, src: nat, n: nat)
    requires Copied(m, r, dst, src, n) && src + n <= RAM_SIZE
    requires dst <= src || src + n <= dst
    ensures r == Splice(m, dst, m[src..src + n])
  {
    CopiedPrefix(m, r, dst, src, n, n);
    forall i | 0 <= i < RAM_SIZE ensures r[i] == Splice(m, dst, m[src..src + n])[i] {
      if dst <= i < dst + n { assert r[i] == r[dst..dst + n][i - dst]; }
    }
  }

  method Fill(ram: array<byte>, ptr: nat, chr: byte, len: nat)
    requires ptr + len <= ram.Length
    modifies ram
    ensures ram[..] == Splice(old(ram[..]), ptr, seq(len, _ => chr))
  {
    var i := 0;
    while i < len
      invariant 0 <= i <= len
      invariant forall k :: 0 <= k < ram.Length ==>
                              ram[k] == if ptr <= k < ptr + i then chr else old(ram[k])
    {
      ram[ptr + i] := chr;
      i := i + 1;
    }
  }

  method Ncopy(ram: array<byte>, dst: nat, src: nat, len: nat)
    requires ram.Length == RAM_SIZE && dst + len <= RAM_SIZE && src <= RAM_SIZE
    modifies ram
    ensures Copied(old(ram[..]), ram[..], dst, src, len)
  {
    var i := 0;
    while i < len
      invariant 0 <= i <= len
      invariant forall k :: 0 <= k < RAM_SIZE && !(dst <= k < dst + i) ==> ram[k] == old(ram[k])
      invariant forall k :: dst <= k < dst + i ==>
                              ram[k] == CopySource(old(ram[..]), ram[..], dst, src, k - dst)
    {
      ghost var was := ram[..];
      ram[dst + i] := ram[Wrap(src + i)];
      assert forall k :: 0 <= k < i ==>
                           CopySource(old(ram[..]), ram[..], dst, src, k) == CopySource(old(ram[..]), was, dst, src, k);
      i := i + 1;
    }
  }

  /** `ncopy` from a caller's buffer that lies outside the modelled memory. */
  method CopyIn(ram: array<byte>, dst: nat, src: seq<byte>)
    requires dst + |src| <= ram.Length
    modifies ram
    ensures ram[..] == Splice(old(ram[..]), dst, src)
  {
    var i := 0;
    while i < |src|
      invariant 0 <= i <= |src|
      invariant forall k :: 0 <= k < ram.Length ==>
                              ram[k] == if dst <= k < dst + i then src[k - dst] else old(ram[k])
    {
      ram[dst + i] := src[i];
      i := i + 1;
    }
  }

  method Store32(ram: array<byte>, a: nat, w: word)
    requires a + 4 <= ram.Length
    modifies ram
    ensures ram[..] == Splice(old(ram[..]), a, Enc32(w))
    ensures Get32(ram[..], a) == w
    ensures forall b: nat :: b + 4 <= ram.Length && (b + 4 <= a || a + 4 <= b) ==>
                               Get32(ram[..], b) == old(Get32(ram[..], b))
  {
    var b := Enc32(w);
    ram[a], ram[a + 1], ram[a + 2], ram[a + 3] := b[0], b[1], b[2], b[3];
    assert forall k :: 0 <= k < ram.Length ==> ram[k] == if a <= k < a + 4 then b[k - a] else old(ram[k]);
  }
}
