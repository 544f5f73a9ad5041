/** The context switch routine, one statement per instruction, over byte-addressed memory. */
module Switch {
  import opened Bytes

  /** The saved registers of a process, in the order of the structure the routine indexes. */
  datatype Ctx = Ctx(
    eax: word, ebx: word, ecx: word, edx: word, esi: word, edi: word,
    esp: word, ebp: word, eip: word, eflags: word, cr3: word)

  const CTX_SIZE := 44

  function CtxAt(m: seq<byte>, a: nat): Ctx
    requires a + CTX_SIZE <= |m|
  {
    Ctx(Get32(m, a), Get32(m, a + 4), Get32(m, a + 8), Get32(m, a + 12), Get32(m, a + 16), Get32(m, a + 20),
        Get32(m, a + 24), Get32(m, a + 28), Get32(m, a + 32), Get32(m, a + 36), Get32(m, a + 40))
  }

  lemma CtxSame(m: seq<byte>, r: seq<byte>, a: nat)
    requires a + CTX_SIZE <= |m| && Same(m, r, a, a + CTX_SIZE)
    ensures CtxAt(m, a) == CtxAt(r, a)
  {
    assert forall b: nat :: a <= b && b + 4 <= a + CTX_SIZE ==> Get32(m, b) == Get32(r, b);
  }

  predicate Apart(a: nat, n: nat, b: nat, k: nat) {
    a + n <= b || b + k <= a
  }

  /** The outgoing stack frame with 40 free bytes below the stack pointer, the two records, the
      word under the incoming stack pointer `top` and the scratch word `tmp` are pairwise apart, except
      that the frame may lie over that word: a caller may be on the stack that is switched in. */
  predicate Clear(esp: word, tmp: word, old_: word, next: word, top: word) {
    && 40 <= esp && esp + 12 <= RAM_SIZE && tmp + 4 <= RAM_SIZE && 4 <= top
    && old_ + CTX_SIZE <= RAM_SIZE && next + CTX_SIZE <= RAM_SIZE
    && Apart(esp - 40, 52, old_, CTX_SIZE) && Apart(esp - 40, 52, next, CTX_SIZE)
    && Apart(esp - 40, 52, tmp, 4)
    && Apart(old_, CTX_SIZE, next, CTX_SIZE) && Apart(old_, CTX_SIZE, tmp, 4) && Apart(old_, CTX_SIZE, top - 4, 4)
    && Apart(next, CTX_SIZE, tmp, 4) && Apart(next, CTX_SIZE, top - 4, 4) && Apart(tmp, 4, top - 4, 4)
  }

  /** What the routine needs of memory when it is entered. */
  predicate Layout(m: seq<byte>, esp: word, tmp: word, old_: word, next: word) {
    && |m| == RAM_SIZE && next + CTX_SIZE <= RAM_SIZE && Clear(esp, tmp, old_, next, Get32(m, next + 24))
    && Get32(m, esp + 4) == old_ && Get32(m, esp + 8) == next
  }

  /** Byte `i` may be written by a switch. */
  predicate Touched(m: seq<byte>, i: nat, esp: word, tmp: word, old_: word, next: word)
    requires Layout(m, esp, tmp, old_, next)
  {
    || esp - 40 <= i < esp
    || old_ <= i < old_ + CTX_SIZE
    || tmp <= i < tmp + 4
    || Get32(m, next + 24) - 4 <= i < Get32(m, next + 24)
  }

  /** The register record the caller would see if the call had just returned. */
  function Returned(c: Ctx, m: seq<byte>): Ctx
    requires c.esp + 4 < |m| == RAM_SIZE
  {
    c.(esp := c.esp + 4, eip := Get32(m, c.esp))
  }

  // ----- Where the routine returns to -----

  /** The four bytes of a word, the lowest first. */
  ghost function Parts(w: word): (b: seq<byte>)
    ensures |b| == 4 && Le(b[0], b[1], b[2], b[3]) == w
  {
    assert |Enc32(w)| == 4 && Get32(Enc32(w), 0) == w;
    var b: seq<byte> :| |b| == 4 && Le(b[0], b[1], b[2], b[3]) == w;
    b
  }

  ghost function ByteOf(ws: seq<word>, i: nat): byte {
    if ws == [] then 0 else if i < 4 then Parts(ws[0])[i] else ByteOf(ws[1..], i - 4)
  }

  /** The pushed frame once the incoming record is in it; nothing is stored in the place of the stacked
      stack pointer, word 5. */
  function FrameWords(n: Ctx): seq<word> {
    [n.cr3, n.eflags, n.edi, n.esi, n.ebp, 0, n.ebx, n.edx, n.ecx, n.eax]
  }

  /** Byte `i` of memory at the end of a switch whose frame begins at `base`, when the incoming
      instruction pointer was put at `n.esp - 4` before the frame was filled: the frame comes last. */
  ghost function LandByte(n: Ctx, base: nat, i: nat): byte
    requires n.esp <= i + 4 && i < n.esp
  {
    if base <= i < base + 40 && !(base + 20 <= i < base + 24) then ByteOf(FrameWords(n), i - base)
    else Parts(n.eip)[i + 4 - n.esp]
  }

  /** The address that the final `ret` takes from there. */
  ghost function LandsAt(n: Ctx, base: nat): word
    requires 4 <= n.esp
  {
    var a := n.esp - 4;
    Le(LandByte(n, base, a), LandByte(n, base, a + 1), LandByte(n, base, a + 2), LandByte(n, base, a + 3))
  }

  /** The frame misses the word under the incoming stack pointer, or leaves it alone. */
  predicate Misses(n: Ctx, base: nat)
    requires 4 <= n.esp
  {
    Apart(base, 40, n.esp - 4, 4) || n.esp - 4 == base + 20
  }

  /** A word has only these bytes. */
  lemma OnlyParts(w: word, b0: byte, b1: byte, b2: byte, b3: byte)
    requires w == Le(b0, b1, b2, b3)
    ensures Parts(w) == [b0, b1, b2, b3]
  {
    var p: seq<int> := Parts(w);
    var c: int := b1;
    SameLow(b0, c + 0x100 * (b2 + 0x100 * b3), p[0], p[1] + 0x100 * (p[2] + 0x100 * p[3]));
    SameLow(b1, b2 + 0x100 * b3, p[1], p[2] + 0x100 * p[3]);
    SameLow(b2, b3, p[2], p[3]);
  }

  lemma SameLow(b: byte, q: nat, c: byte, r: nat)
    requires b + 0x100 * q == c + 0x100 * r
    ensures b == c && q == r
  {
  }

  lemma MissesLands(n: Ctx, base: nat)
    requires 4 <= n.esp && Misses(n, base)
    ensures LandsAt(n, base) == n.eip
  {
    hide Parts, ByteOf, FrameWords;
  }

  /** For stack pointers a whole number of words apart: the routine returns to the saved instruction
      pointer exactly when the frame misses its place, or happens to put the same word there. */
  lemma ReturnsRightIff(n: Ctx, base: nat, j: int)
    requires 4 <= n.esp && n.esp - 4 == base + 4 * j
    ensures LandsAt(n, base) == n.eip <==> Misses(n, base) || FrameWords(n)[j] == n.eip
    ensures !Misses(n, base) ==> LandsAt(n, base) == FrameWords(n)[j]
  {
    assert |FrameWords(n)| == 10;
    hide FrameWords, LandsAt;
    if Misses(n, base) { MissesLands(n, base); } else { LandsOn(n, base, j); }
  }

  /** A frame whose fifth word lies there: the routine returns to the saved EBP. */
  lemma ReturnLost(n: Ctx)
    requires n.esp == 6000
    ensures LandsAt(n, 6032 - 52) == n.ebp
  {
    LandsOn(n, 6032 - 52, 4);
  }

  lemma LandsOn(n: Ctx, base: nat, j: nat)
    requires 4 <= n.esp && n.esp - 4 == base + 4 * j && j < 10 && j != 5
    ensures |FrameWords(n)| == 10 && LandsAt(n, base) == FrameWords(n)[j]
  {
    var ws := FrameWords(n);
    assert |ws| == 10;
    hide Parts, ByteOf, FrameWords;
    var a, p := n.esp - 4, Parts(ws[j]);
    forall k | 0 <= k < 4 ensures LandByte(n, base, a + k) == p[k] { WordIn(ws, j, k); }
    assert LandByte(n, base, a + 0) == p[0] && LandByte(n, base, a + 1) == p[1];
    assert LandByte(n, base, a + 2) == p[2] && LandByte(n, base, a + 3) == p[3];
  }

  lemma {:induction false} WordIn(ws: seq<word>, j: nat, k: nat)
    requires j < |ws| && k < 4
    ensures ByteOf(ws, 4 * j + k) == Parts(ws[j])[k]
    decreases j
  {
    hide Parts;
    if j > 0 { WordIn(ws[1..], j - 1, k); }
  }

  /** "Swap two register records": the processor takes over record `next`, the caller's state as
      of its return goes to record `old_`, and nothing else of importance changes. Where the frame lies
      over the word under the incoming stack pointer, the routine returns to what the frame holds there. */
  ghost predicate Swapped(c: Ctx, m: seq<byte>, c': Ctx, m': seq<byte>, tmp: word, old_: word, next: word)
    requires Layout(m, c.esp, tmp, old_, next)
  {
    && |m'| == |m|
    && CtxAt(m', next) == CtxAt(m, next)
    && c' == CtxAt(m, next).(eip := LandsAt(CtxAt(m, next), c.esp - 40))
    && CtxAt(m', old_) == Returned(c, m)
    && forall i :: 0 <= i < |m| && !Touched(m, i, c.esp, tmp, old_, next) ==> m'[i] == m[i]
  }

  /** The ten words that the entry sequence pushes, lowest address first. */
  datatype Frame = Frame(
    cr3: word, eflags: word, edi: word, esi: word, ebp: word, esp: word, ebx: word, edx: word, ecx: word, eax: word)

  function FrameAt(m: seq<byte>, a: nat): Frame
    requires a + 40 <= |m|
  {
    Frame(Get32(m, a), Get32(m, a + 4), Get32(m, a + 8), Get32(m, a + 12), Get32(m, a + 16), Get32(m, a + 20),
          Get32(m, a + 24), Get32(m, a + 28), Get32(m, a + 32), Get32(m, a + 36))
  }

  ghost predicate Stored(m: seq<byte>, r: seq<byte>, a: nat, w: word)
    requires a + 4 <= |m|
  {
    && |r| == |m| && Get32(r, a) == w
    && (forall b: nat {:trigger Get32(r, b)} :: b + 4 <= |m| && (b + 4 <= a || a + 4 <= b) ==>
                                                  Get32(r, b) == Get32(m, b))
    && (forall i {:trigger r[i]} :: 0 <= i < |m| && !(a <= i < a + 4) ==> r[i] == m[i])
  }

  /** `r` differs from `m` at most on [a, a + n) and [b, b + k). */
  ghost predicate Kept(m: seq<byte>, r: seq<byte>, a: nat, n: nat, b: nat, k: nat) {
    |r| == |m| && forall i {:trigger r[i]} :: 0 <= i < |m| && !(a <= i < a + n) && !(b <= i < b + k) ==> r[i] == m[i]
  }

  function Load(ram: array<byte>, a: int): word
    requires 0 <= a && a + 4 <= ram.Length
    reads ram
  {
    Get32(ram[..], a)
  }

  method Store(ram: array<byte>, a: nat, w: word)
    requires a + 4 <= ram.Length
    modifies ram
    ensures Stored(old(ram[..]), ram[..], a, w)
  {
    Store32(ram, a, w);
  }

  method Push(ram: array<byte>, esp: word, w: word) returns (top: word)
    requires 4 <= esp <= ram.Length
    modifies ram
    ensures top == esp - 4 && Stored(old(ram[..]), ram[..], top, w)
  {
    top := esp - 4;
    Store(ram, top, w);
  }

  /** The first half of `pusha`. */
  method PushUpper(ram: array<byte>, c: Ctx) returns (esp: word)
    requires ram.Length == RAM_SIZE && 40 <= c.esp
    modifies ram
    ensures esp == c.esp - 20 && Kept(old(ram[..]), ram[..], esp, 20, 0, 0)
    ensures Load(ram, esp) == c.esp && Load(ram, esp + 4) == c.ebx && Load(ram, esp + 8) == c.edx
    ensures Load(ram, esp + 12) == c.ecx && Load(ram, esp + 16) == c.eax
  {
    hide Get32, Enc32, Splice;
    esp := Push(ram, c.esp, c.eax);
    esp := Push(ram, esp, c.ecx);
    esp := Push(ram, esp, c.edx);
    esp := Push(ram, esp, c.ebx);
    esp := Push(ram, esp, c.esp);
  }

  /** The second half of `pusha`, then `pushf; mov %cr3, %eax; push %eax`. */
  method PushLower(ram: array<byte>, top: word, c: Ctx) returns (esp: word)
    requires ram.Length == RAM_SIZE && 20 <= top <= c.esp
    modifies ram
    ensures esp == top - 20 && Kept(old(ram[..]), ram[..], esp, 20, 0, 0)
    ensures Load(ram, esp) == c.cr3 && Load(ram, esp + 4) == c.eflags && Load(ram, esp + 8) == c.edi
    ensures Load(ram, esp + 12) == c.esi && Load(ram, esp + 16) == c.ebp
  {
    hide Get32, Enc32, Splice;
    esp := Push(ram, top, c.ebp);
    esp := Push(ram, esp, c.esi);
    esp := Push(ram, esp, c.edi);
    esp := Push(ram, esp, c.eflags);
    var eax := c.cr3;
    esp := Push(ram, esp, eax);
  }

  /** The whole entry sequence. */
  method Enter(ram: array<byte>, c: Ctx) returns (r: Ctx)
    requires ram.Length == RAM_SIZE && 40 <= c.esp
    modifies ram
    ensures r == c.(esp := c.esp - 40, eax := c.cr3)
    ensures FrameAt(ram[..], r.esp) ==
            Frame(c.cr3, c.eflags, c.edi, c.esi, c.ebp, c.esp, c.ebx, c.edx, c.ecx, c.eax)
    ensures Kept(old(ram[..]), ram[..], r.esp, 40, 0, 0)
  {
    hide Get32;
    var esp := PushUpper(ram, c);
    ghost var m := ram[..];
    esp := PushLower(ram, esp, c);
    KeptLoads(m, ram[..], esp, 20, 0, 0);
    r := c.(esp := esp, eax := c.cr3);
  }

  /** From `mov 44(%esp), %eax` to `mov %edi, 20(%eax)`: the registers that are still live. */
  method SaveLive(ram: array<byte>, c: Ctx) returns (r: Ctx)
    requires ram.Length == RAM_SIZE && c.esp + 52 <= RAM_SIZE
    requires Load(ram, c.esp + 44) + CTX_SIZE <= RAM_SIZE && Apart(c.esp, 52, Load(ram, c.esp + 44), CTX_SIZE)
    modifies ram
    ensures r == c.(eax := old(Load(ram, c.esp + 44)))
    ensures Kept(old(ram[..]), ram[..], r.eax, CTX_SIZE, 0, 0)
    ensures Load(ram, r.eax + 4) == c.ebx && Load(ram, r.eax + 8) == c.ecx && Load(ram, r.eax + 12) == c.edx
    ensures Load(ram, r.eax + 16) == c.esi && Load(ram, r.eax + 20) == c.edi
  {
    hide Get32, Splice, Enc32;
    var Ctx(eax, ebx, ecx, edx, esi, edi, esp, ebp, eip, eflags, cr3) := c;
    eax := Load(ram, esp + 44);
    Store(ram, eax + 4, ebx);
    Store(ram, eax + 8, ecx);
    Store(ram, eax + 12, edx);
    Store(ram, eax + 16, esi);
    Store(ram, eax + 20, edi);
    r := Ctx(eax, ebx, ecx, edx, esi, edi, esp, ebp, eip, eflags, cr3);
  }

  /** From `mov 36(%esp), %ebx` to `push %ebx`: the registers that only the stack still holds. The
      flags that `add` leaves behind are arbitrary. */
  method SaveStacked(ram: array<byte>, c: Ctx) returns (r: Ctx)
    requires ram.Length == RAM_SIZE && c.esp + 52 <= RAM_SIZE && c.eax + CTX_SIZE <= RAM_SIZE
    requires Apart(c.esp, 52, c.eax, CTX_SIZE) && Load(ram, c.esp + 20) + 4 < RAM_SIZE
    modifies ram
    ensures r.esp == c.esp && r.eax == c.eax
    ensures Kept(old(ram[..]), ram[..], c.eax, CTX_SIZE, c.esp, 4)
    ensures CtxAt(ram[..], c.eax) ==
            var f, o := old(FrameAt(ram[..], c.esp)), old(CtxAt(ram[..], c.eax));
            Ctx(f.eax, o.ebx, o.ecx, o.edx, o.esi, o.edi, f.esp + 4, f.ebp, old(Load(ram, c.esp + 40)), f.eflags, f.cr3)
  {
    hide Get32, Splice, Enc32;
    var Ctx(eax, ebx, ecx, edx, esi, edi, esp, ebp, eip, eflags, cr3) := c;
    ebx := Load(ram, esp + 36);
    ecx := Load(ram, esp + 40);
    edx := Load(ram, esp + 20);
    edx, eflags := edx + 4, *;
    esi := Load(ram, esp + 16);
    edi := Load(ram, esp + 4);
    ghost var m := ram[..];
    Store(ram, eax, ebx);
    Store(ram, eax + 24, edx);
    Store(ram, eax + 28, esi);
    Store(ram, eax + 32, ecx);
    Store(ram, eax + 36, edi);
    assert Kept(m, ram[..], eax, CTX_SIZE, 0, 0);
    ebx, esp := Load(ram, esp), esp + 4;
    Store(ram, eax + 40, ebx);
    esp := Push(ram, esp, ebx);
    r := Ctx(eax, ebx, ecx, edx, esi, edi, esp, ebp, eip, eflags, cr3);
  }

  /** From `mov 48(%esp), %eax` to `mov %ebx, tmp`: put the return address on the incoming stack
      and remember where. */
  method Aim(ram: array<byte>, tmp: word, c: Ctx) returns (r: Ctx)
    requires ram.Length == RAM_SIZE && c.esp + 52 <= RAM_SIZE && tmp + 4 <= RAM_SIZE
    requires Load(ram, c.esp + 48) + CTX_SIZE <= RAM_SIZE && 4 <= Load(ram, Load(ram, c.esp + 48) + 24)
    requires Apart(tmp, 4, Load(ram, Load(ram, c.esp + 48) + 24) - 4, 4)
    modifies ram
    ensures r.esp == c.esp && r.eax == old(Load(ram, c.esp + 48))
    ensures var n := old(CtxAt(ram[..], Load(ram, c.esp + 48)));
            && Load(ram, tmp) == n.esp - 4 && Load(ram, n.esp - 4) == n.eip
            && Kept(old(ram[..]), ram[..], n.esp - 4, 4, tmp, 4)
  {
    hide Get32, Splice, Enc32;
    var Ctx(eax, ebx, ecx, edx, esi, edi, esp, ebp, eip, eflags, cr3) := c;
    eax := Load(ram, esp + 48);
    ebx := Load(ram, eax + 24);
    ebx, eflags := ebx - 4, *;
    ecx := Load(ram, eax + 32);
    Store(ram, ebx, ecx);
    Store(ram, tmp, ebx);
    r := Ctx(eax, ebx, ecx, edx, esi, edi, esp, ebp, eip, eflags, cr3);
  }

  /** From `mov 40(%eax), %ebx` to `mov %edi, 32(%esp)`: stage 1 of overwriting the pushed frame
      with the incoming record. */
  method FetchFirst(ram: array<byte>, c: Ctx) returns (r: Ctx)
    requires ram.Length == RAM_SIZE && c.esp + 40 <= RAM_SIZE && c.eax + CTX_SIZE <= RAM_SIZE
    requires Apart(c.esp, 40, c.eax, CTX_SIZE)
    modifies ram
    ensures r.esp == c.esp && r.eax == c.eax && Kept(old(ram[..]), ram[..], c.esp, 8, c.esp + 24, 16)
    ensures var n := old(CtxAt(ram[..], c.eax));
            && Load(ram, c.esp) == n.cr3 && Load(ram, c.esp + 4) == n.eflags && Load(ram, c.esp + 36) == n.eax
            && Load(ram, c.esp + 24) == n.ebx && Load(ram, c.esp + 32) == n.ecx
  {
    hide Get32, Splice, Enc32;
    var Ctx(eax, ebx, ecx, edx, esi, edi, esp, ebp, eip, eflags, cr3) := c;
    ebx := Load(ram, eax + 40);
    ecx := Load(ram, eax + 36);
    edx := Load(ram, eax);
    esi := Load(ram, eax + 4);
    edi := Load(ram, eax + 8);
    Store(ram, esp, ebx);
    Store(ram, esp + 4, ecx);
    Store(ram, esp + 36, edx);
    Store(ram, esp + 24, esi);
    Store(ram, esp + 32, edi);
    r := Ctx(eax, ebx, ecx, edx, esi, edi, esp, ebp, eip, eflags, cr3);
  }

  /** From `mov 12(%eax), %ebx` to `mov %esi, 16(%esp)`: stage 2. */
  method FetchSecond(ram: array<byte>, c: Ctx) returns (r: Ctx)
    requires ram.Length == RAM_SIZE && c.esp + 40 <= RAM_SIZE && c.eax + CTX_SIZE <= RAM_SIZE
    modifies ram
    ensures r.esp == c.esp && Kept(old(ram[..]), ram[..], c.esp + 8, 12, c.esp + 28, 4)
    ensures var n := old(CtxAt(ram[..], c.eax));
            && Load(ram, c.esp + 28) == n.edx && Load(ram, c.esp + 12) == n.esi && Load(ram, c.esp + 8) == n.edi
            && Load(ram, c.esp + 16) == n.ebp
  {
    hide Get32, Splice, Enc32;
    var Ctx(eax, ebx, ecx, edx, esi, edi, esp, ebp, eip, eflags, cr3) := c;
    ebx := Load(ram, eax + 12);
    ecx := Load(ram, eax + 16);
    edx := Load(ram, eax + 20);
    esi := Load(ram, eax + 28);
    Store(ram, esp + 28, ebx);
    Store(ram, esp + 12, ecx);
    Store(ram, esp + 8, edx);
    Store(ram, esp + 16, esi);
    r := Ctx(eax, ebx, ecx, edx, esi, edi, esp, ebp, eip, eflags, cr3);
  }

  /** Both stages: everything but the stacked stack pointer is replaced. */
  method Fetch(ram: array<byte>, c: Ctx) returns (r: Ctx)
    requires ram.Length == RAM_SIZE && c.esp + 40 <= RAM_SIZE && c.eax + CTX_SIZE <= RAM_SIZE
    requires Apart(c.esp, 40, c.eax, CTX_SIZE)
    modifies ram
    ensures r.esp == c.esp && Kept(old(ram[..]), ram[..], c.esp, 20, c.esp + 24, 16)
    ensures var n, f := old(CtxAt(ram[..], c.eax)), FrameAt(ram[..], c.esp);
            f == Frame(n.cr3, n.eflags, n.edi, n.esi, n.ebp, f.esp, n.ebx, n.edx, n.ecx, n.eax)
  {
    hide Get32;
    ghost var m := ram[..];
    r := FetchFirst(ram, c);
    ghost var m1 := ram[..];
    KeptLoads(m, m1, c.esp, 8, c.esp + 24, 16);
    r := FetchSecond(ram, r);
    KeptLoads(m1, ram[..], c.esp + 8, 12, c.esp + 28, 4);
  }

  /** `pop %eax; mov %eax, %cr3; popf; popa; mov tmp, %esp; ret`. `popa` discards the stacked
      stack pointer. */
  method Leave(ram: array<byte>, tmp: word, c: Ctx) returns (r: Ctx)
    requires ram.Length == RAM_SIZE && c.esp + 40 < RAM_SIZE && tmp + 4 <= RAM_SIZE
    requires Load(ram, tmp) + 4 < RAM_SIZE
    ensures var f, s := FrameAt(ram[..], c.esp), Load(ram, tmp);
            r == Ctx(f.eax, f.ebx, f.ecx, f.edx, f.esi, f.edi, s + 4, f.ebp, Load(ram, s), f.eflags, f.cr3)
  {
    hide Get32;
    var Ctx(eax, ebx, ecx, edx, esi, edi, esp, ebp, eip, eflags, cr3) := c;
    eax, esp := Load(ram, esp), esp + 4;
    cr3 := eax;
    eflags, esp := Load(ram, esp), esp + 4;
    edi, esi, ebp := Load(ram, esp), Load(ram, esp + 4), Load(ram, esp + 8);
    ebx, edx, ecx, eax := Load(ram, esp + 16), Load(ram, esp + 20), Load(ram, esp + 24), Load(ram, esp + 28);
    esp := esp + 32;
    esp := Load(ram, tmp);
    eip, esp := Load(ram, esp), esp + 4;
    r := Ctx(eax, ebx, ecx, edx, esi, edi, esp, ebp, eip, eflags, cr3);
  }

  lemma KeptLoads(m: seq<byte>, r: seq<byte>, a: nat, n: nat, b: nat, k: nat)
    requires Kept(m, r, a, n, b, k)
    ensures forall x: nat {:trigger Get32(r, x)} :: x + 4 <= |m| && Apart(x, 4, a, n) && Apart(x, 4, b, k) ==>
                                                      Get32(r, x) == Get32(m, x)
  {
  }

  /** What is under the incoming stack pointer after the frame has been filled. */
  lemma Landed(m: seq<byte>, r: seq<byte>, n: Ctx, base: nat)
    requires 4 <= n.esp <= |m| && base + 40 <= |m| && Get32(m, n.esp - 4) == n.eip
    requires Kept(m, r, base, 20, base + 24, 16)
    requires var f := FrameAt(r, base);
             f == Frame(n.cr3, n.eflags, n.edi, n.esi, n.ebp, f.esp, n.ebx, n.edx, n.ecx, n.eax)
    ensures Get32(r, n.esp - 4) == LandsAt(n, base)
  {
    hide Parts, ByteOf, FrameWords;
    var a := n.esp - 4;
    OnlyParts(n.eip, m[a], m[a + 1], m[a + 2], m[a + 3]);
    forall i | a <= i < a + 4 ensures r[i] == LandByte(n, base, i) {
      if base <= i < base + 40 && !(base + 20 <= i < base + 24) {
        LandedByte(r, n, base, (i - base) / 4, (i - base) % 4);
      }
    }
  }

  lemma LandedByte(r: seq<byte>, n: Ctx, base: nat, j: nat, k: nat)
    requires base + 40 <= |r| && j < 10 && j != 5 && k < 4
    requires var f := FrameAt(r, base);
             f == Frame(n.cr3, n.eflags, n.edi, n.esi, n.ebp, f.esp, n.ebx, n.edx, n.ecx, n.eax)
    ensures r[base + 4 * j + k] == ByteOf(FrameWords(n), 4 * j + k)
  {
    hide Parts, ByteOf;
    var a, w := base + 4 * j, FrameWords(n)[j];
    assert Get32(r, a) == w by { hide Get32; }
    OnlyParts(w, r[a], r[a + 1], r[a + 2], r[a + 3]);
    WordIn(FrameWords(n), j, k);
  }

  /** The processor: its register file, its memory, and the scratch word of the routine. */
  class Cpu {
    const ram: array<byte>
    const tmp: word
    var regs: Ctx

    constructor (ram: array<byte>, tmp: word, regs: Ctx)
      ensures this.ram == ram && this.tmp == tmp && this.regs == regs
    {
      this.ram, this.tmp, this.regs := ram, tmp, regs;
    }

    /** Up to `push %ebx`: the outgoing half. */
    method SwitchOut(ghost old_: word) returns (c: Ctx)
      requires ram.Length == RAM_SIZE && 40 <= regs.esp && regs.esp + 12 <= RAM_SIZE
      requires Load(ram, regs.esp + 4) == old_ && old_ + CTX_SIZE <= RAM_SIZE
      requires Apart(regs.esp - 40, 52, old_, CTX_SIZE)
      modifies ram
      ensures c.esp == regs.esp - 40
      ensures CtxAt(ram[..], old_) == old(Returned(regs, ram[..]))
      ensures Kept(old(ram[..]), ram[..], regs.esp - 40, 40, old_, CTX_SIZE)
    {
      hide Get32;
      ghost var m, e := ram[..], regs.esp;
      c := Enter(ram, regs);
      ghost var m1 := ram[..];
      KeptLoads(m, m1, e - 40, 40, 0, 0);
      c := SaveLive(ram, c);
      KeptLoads(m1, ram[..], old_, CTX_SIZE, 0, 0);
      c := SaveStacked(ram, c);
    }

    /** From `mov 48(%esp), %eax` on: the incoming half. */
    method SwitchIn(c: Ctx, ghost next: word, ghost n: Ctx) returns (r: Ctx)
      requires ram.Length == RAM_SIZE && c.esp + 52 <= RAM_SIZE && tmp + 4 <= RAM_SIZE && next + CTX_SIZE <= RAM_SIZE
      requires Load(ram, c.esp + 48) == next && CtxAt(ram[..], next) == n && 4 <= n.esp
      requires Apart(c.esp, 40, next, CTX_SIZE) && Apart(c.esp, 40, tmp, 4)
      requires Apart(next, CTX_SIZE, tmp, 4) && Apart(next, CTX_SIZE, n.esp - 4, 4) && Apart(tmp, 4, n.esp - 4, 4)
      modifies ram
      ensures r == n.(eip := LandsAt(n, c.esp))
      ensures forall i {:trigger ram[i]} :: 0 <= i < RAM_SIZE ==>
                                              || (c.esp <= i < c.esp + 40) || (tmp <= i < tmp + 4)
                                              || (n.esp - 4 <= i < n.esp) || ram[i] == old(ram[i])
    {
      hide Get32;
      ghost var m := ram[..];
      r := Aim(ram, tmp, c);
      ghost var m1 := ram[..];
      KeptLoads(m, m1, n.esp - 4, 4, tmp, 4);
      r := Fetch(ram, r);
      KeptLoads(m1, ram[..], c.esp, 20, c.esp + 24, 16);
      Landed(m1, ram[..], n, c.esp);
      r := Leave(ram, tmp, r);
    }

    /** The whole routine, entered with the return address and its two arguments on the stack. */
    method MultitaskSwi(ghost old_: word, ghost next: word)
      requires ram.Length == RAM_SIZE && Layout(ram[..], regs.esp, tmp, old_, next)
      modifies this, ram
      ensures Swapped(old(regs), old(ram[..]), regs, ram[..], tmp, old_, next)
    {
      hide Get32, LandsAt;
      ghost var m, e, n := ram[..], regs.esp, CtxAt(ram[..], next);
      var c := SwitchOut(old_);
      ghost var m1 := ram[..];
      KeptLoads(m, m1, e - 40, 40, old_, CTX_SIZE);
      c := SwitchIn(c, next, n);
      CtxSame(m1, ram[..], old_);
      CtxSame(m1, ram[..], next);
      regs := c;
    }
  }
}
