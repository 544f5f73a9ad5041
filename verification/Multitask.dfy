/** The multitasking system: process slots in a table of their own, context records in memory,
    stacks from the allocator, and the switch routine. */
module Multitask {
  import opened Bytes
  import opened Switch
  import opened Memory
  import opened Schedule
  import opened Isolation

  const SIZEOF_PROC := 76
  const CTX_OFFSET := 16
  const VECTOR_SIZE := 2432  // PROCLIMIT * SIZEOF_PROC

  /** Address of a context record: the kernel has a record of its own. */
  function CtxAddr(kernel: nat, base: nat, i: nat): nat {
    if i == 0 then kernel else base + SIZEOF_PROC * i + CTX_OFFSET
  }

  /** The process vector and the kernel's record do not overlap. */
  predicate RecordsFit(kernel: nat, base: nat) {
    kernel + CTX_SIZE <= RAM_SIZE && base + VECTOR_SIZE <= RAM_SIZE && Apart(kernel, CTX_SIZE, base, VECTOR_SIZE)
  }

  function Ctxs(m: seq<byte>, kernel: nat, base: nat): (r: seq<Ctx>)
    requires |m| == RAM_SIZE && RecordsFit(kernel, base)
    ensures |r| == PROCLIMIT && forall i :: 0 <= i < PROCLIMIT ==> r[i] == CtxAt(m, CtxAddr(kernel, base, i))
  {
    seq(PROCLIMIT, i requires 0 <= i < PROCLIMIT => CtxAt(m, CtxAddr(kernel, base, i)))
  }

  /** Byte `i` belongs to a context record. */
  predicate InRecords(kernel: nat, base: nat, i: int) {
    kernel <= i < kernel + CTX_SIZE || base <= i < base + VECTOR_SIZE
  }

  lemma CtxsKept(m: seq<byte>, r: seq<byte>, kernel: nat, base: nat)
    requires |m| == |r| == RAM_SIZE && RecordsFit(kernel, base)
    requires forall i :: 0 <= i < RAM_SIZE && InRecords(kernel, base, i) ==> r[i] == m[i]
    ensures Ctxs(r, kernel, base) == Ctxs(m, kernel, base)
  {
    hide Ctxs, CtxAt;
    forall i | 0 <= i < PROCLIMIT ensures CtxAt(r, CtxAddr(kernel, base, i)) == CtxAt(m, CtxAddr(kernel, base, i)) {
      CtxSame(r, m, CtxAddr(kernel, base, i));
    }
  }

  /** Writing one record replaces one record. */
  lemma CtxsUpdated(m: seq<byte>, r: seq<byte>, kernel: nat, base: nat, p: nat)
    requires |m| == |r| == RAM_SIZE && RecordsFit(kernel, base) && p < PROCLIMIT
    requires var a := CtxAddr(kernel, base, p);
             forall i :: 0 <= i < RAM_SIZE && InRecords(kernel, base, i) && !(a <= i < a + CTX_SIZE) ==> r[i] == m[i]
    ensures Ctxs(r, kernel, base) == Ctxs(m, kernel, base)[p := CtxAt(r, CtxAddr(kernel, base, p))]
  {
    hide Ctxs, CtxAt;
    forall i | 0 <= i < PROCLIMIT && i != p
      ensures CtxAt(r, CtxAddr(kernel, base, i)) == CtxAt(m, CtxAddr(kernel, base, i))
    {
      CtxSame(r, m, CtxAddr(kernel, base, i));
    }
  }

  lemma SavedEsp(m: seq<byte>, a: nat)
    requires a + CTX_SIZE <= |m|
    ensures CtxAt(m, a).esp == Get32(m, a + 24)
  {
  }

  lemma ZeroCtx(m: seq<byte>, a: nat)
    requires a + CTX_SIZE <= |m| && forall i :: a <= i < a + CTX_SIZE ==> m[i] == 0
    ensures CtxAt(m, a) == ZERO_CTX
  {
  }

  /** The process vector is one live run, apart from every stack; the stacks are in order whoever
      has the processor. */
  ghost predicate Steady(c: Site, base: nat, s: Sched) {
    && Shaped(s) && RunLen(s.table, s.space, base) == 1 && Owned(s) && Placed(c, s)
    && forall p :: Alive(s, p) ==> s.procs[p].stack != base
  }

  /** The stack in use is apart from the context records and the scratch word. */
  ghost predicate Grounded(c: Site, kernel: nat, base: nat, here: Band) {
    && here.lo <= here.hi < RAM_SIZE && Disjoint(here, Band(c.tmp, c.tmp + 4))
    && Disjoint(here, Band(kernel, kernel + CTX_SIZE)) && Disjoint(here, Band(base, base + VECTOR_SIZE))
  }

  /** Whoever waits has his stack pointer in the stack he was saved on, and that stack, like the one in
      use, is apart from records and scratch word. Nothing is asked about whose slot a context is in. */
  ghost predicate Docked(c: Site, kernel: nat, base: nat, u: Sys)
    requires Shaped(u.sc)
  {
    && |u.saved| == PROCLIMIT && Grounded(c, kernel, base, u.here)
    && forall q :: 0 <= q < PROCLIMIT && Present(u.sc, q) && q != u.sc.focus ==> DockedAt(c, kernel, base, u, q)
  }

  ghost predicate DockedAt(c: Site, kernel: nat, base: nat, u: Sys, q: int)
    requires Shaped(u.sc) && |u.saved| == PROCLIMIT && 0 <= q < PROCLIMIT
  {
    Grounded(c, kernel, base, u.saved[q]) && u.saved[q].lo + 4 <= u.sc.ctxs[q].esp <= u.saved[q].hi
  }

  /** The linker keeps the kernel's record away from the pool, the kernel stack and `tmp`. */
  ghost predicate Linked(c: Site, kernel: nat, s: Sched) {
    && (kernel + CTX_SIZE <= s.space || s.space + BLKSIZE * |s.table| <= kernel)
    && (kernel + CTX_SIZE <= c.kLo || c.kHi <= kernel) && Apart(kernel, CTX_SIZE, c.tmp, 4)
  }

  lemma ShapedOfSteady(c: Site, base: nat, s: Sched)
    requires Steady(c, base, s)
    ensures Shaped(s) && WellFormed(s.table) && Blocks(STACKSIZE) <= |s.table|
  {
  }

  lemma IsolatedShaped(c: Site, u: Sys)
    requires Isolated(c, u)
    ensures Shaped(u.sc) && |u.mem| == RAM_SIZE
  {
  }

  /** A vector of empty slots is in order. */
  lemma EmptySteady(c: Site, base: nat, u: Sys)
    requires Shaped(u.sc) && u.sc.focus == 0 && WellFormed(u.sc.table) && RunLen(u.sc.table, u.sc.space, base) == 1
    requires (forall p :: 0 <= p < PROCLIMIT ==> !u.sc.procs[p].active && !u.sc.procs[p].freeze) && Placed(c, u.sc)
    requires |u.mem| == RAM_SIZE
    requires u.here == Band(c.kLo, c.kHi) && |u.saved| == PROCLIMIT
    ensures Steady(c, base, u.sc) && Isolated(c, u)
  {
    hide RunLen, WellFormed;
    assert forall p :: !Alive(u.sc, p);
  }

  lemma SpawnSteady(c: Site, base: nat, s: Sched, d: Defaults, name: seq<byte>, prog: word)
    requires Steady(c, base, s)
    ensures Steady(c, base, SpawnOf(s, d, name, prog).s)
  {
    hide RunLen, MallocOf, NameField;
    var r := SpawnOf(s, d, name, prog);
    MallocAdds(s.table, s.space, STACKSIZE);
    SpawnOwned(s, d, name, prog);
    forall p | Alive(r.s, p) ensures r.s.procs[p].stack != base {
      if p != r.pid { assert Alive(s, p); }
    }
  }

  lemma SpawnAnswer(c: Site, base: nat, s: Sched, d: Defaults, name: seq<byte>, prog: word)
    requires Steady(c, base, s)
    ensures Shaped(s)
    ensures var r := SpawnOf(s, d, name, prog);
            && (r.pid != -1 <==> CanSpawn(s, prog))
            && (r.pid != -1 ==> Founded(s, r.s, d, name, prog, r.pid))
  {
    hide CanSpawn, Founded, SpawnOf;
    ShapedOfSteady(c, base, s);
    SpawnsIff(s, d, name, prog);
  }

  lemma KillSteady(c: Site, base: nat, s: Sched, pid: int)
    requires Steady(c, base, s)
    ensures Steady(c, base, KillOf(s, pid))
  {
    hide RunLen, FreeOf;
    var r := KillOf(s, pid);
    if Alive(s, pid) { KillReleasesStack(s, pid); }
    KillOwned(s, pid);
    forall p | Alive(r, p) ensures r.procs[p].stack != base {
      assert Alive(s, p);
    }
  }

  /** No stack overlaps a context record. */
  lemma StackClear(c: Site, kernel: nat, base: nat, s: Sched, q: int)
    requires Owned(s) && Placed(c, s) && Linked(c, kernel, s) && RecordsFit(kernel, base)
    requires RunLen(s.table, s.space, base) == 1 && (forall p :: Alive(s, p) ==> s.procs[p].stack != base)
    requires 0 <= q < PROCLIMIT && Present(s, q)
    ensures Hi(c, s, q) <= kernel || kernel + CTX_SIZE <= Lo(c, s, q)
    ensures Hi(c, s, q) <= base || base + VECTOR_SIZE <= Lo(c, s, q)
    ensures c.tmp + 4 <= base || base + VECTOR_SIZE <= c.tmp
    ensures c.tmp + 4 <= Lo(c, s, q) || Hi(c, s, q) <= c.tmp
    ensures Hi(c, s, q) < RAM_SIZE
  {
    RunInside(s.table, s.space, base);
    if q != 0 {
      RunInside(s.table, s.space, s.procs[q].stack);
      RunsApart(s.table, s.space, s.procs[q].stack, base);
    }
  }

  lemma VectorClear(c: Site, base: nat, s: Sched)
    requires Steady(c, base, s)
    ensures (c.tmp + 4 <= base || base + VECTOR_SIZE <= c.tmp) && c.tmp + 4 <= RAM_SIZE
  {
    hide RunLen, Owned;
    ShapedOfSteady(c, base, s);
    RunInside(s.table, s.space, base);
  }

  /** A caller on the stack in use and a waiting context give the switch the room it needs. */
  lemma SwitchClear(c: Site, kernel: nat, base: nat, u: Sys, n: int, esp: word, top: word)
    requires Steady(c, base, u.sc) && Linked(c, kernel, u.sc) && RecordsFit(kernel, base) && Docked(c, kernel, base, u)
    requires 0 <= n < PROCLIMIT && Present(u.sc, n) && n != u.sc.focus && top == u.sc.ctxs[n].esp
    requires u.here.lo + 52 <= esp <= u.here.hi
    ensures Clear(esp - 12, c.tmp, CtxAddr(kernel, base, u.sc.focus), CtxAddr(kernel, base, n), top)
    ensures forall i :: InRecords(kernel, base, i) ==>
                          !(esp - 52 <= i < esp) && !(c.tmp <= i < c.tmp + 4) && !(top - 4 <= i < top)
  {
    hide RunLen, Clear, InRecords, Grounded, RecordsFit, Placed, Owned;
    VectorClear(c, base, u.sc);
    assert DockedAt(c, kernel, base, u, n);
    ClearOf(c, kernel, base, u.here, u.saved[n], u.sc.focus, n, esp, top);
  }

  lemma ClearOf(c: Site, kernel: nat, base: nat, here: Band, there: Band, i: nat, n: nat, esp: word, top: word)
    requires RecordsFit(kernel, base) && i < PROCLIMIT && n < PROCLIMIT && i != n && c.tmp + 4 <= RAM_SIZE
    requires Grounded(c, kernel, base, here) && Grounded(c, kernel, base, there)
    requires here.lo + 52 <= esp <= here.hi && there.lo + 4 <= top <= there.hi
    requires (c.tmp + 4 <= base || base + VECTOR_SIZE <= c.tmp) && Apart(kernel, CTX_SIZE, c.tmp, 4)
    ensures Clear(esp - 12, c.tmp, CtxAddr(kernel, base, i), CtxAddr(kernel, base, n), top)
    ensures forall k :: InRecords(kernel, base, k) ==>
                          !(esp - 52 <= k < esp) && !(c.tmp <= k < c.tmp + 4) && !(top - 4 <= k < top)
  {
    hide CtxAddr;
    RecordsApart(kernel, base, i, n);
    assert i in {i, n} && n in {i, n};
  }

  lemma RecordsApart(kernel: nat, base: nat, i: nat, j: nat)
    requires RecordsFit(kernel, base) && i < PROCLIMIT && j < PROCLIMIT && i != j
    ensures Apart(CtxAddr(kernel, base, i), CTX_SIZE, CtxAddr(kernel, base, j), CTX_SIZE)
    ensures forall k :: k in {i, j} ==>
                          var a := CtxAddr(kernel, base, k);
                          a == kernel || (base <= a && a + CTX_SIZE <= base + VECTOR_SIZE)
  {
  }

  /** Who is next in line was there before the sentry and before an `exit`. */
  lemma NextPresent(s0: Sched, s: Sched, n: int)
    requires Shaped(s0) && (s == s0 || s == KillOf(s0, s0.focus)) && s.focus == s0.focus
    requires n == NextPid(s) && n != 0
    ensures Alive(s0, n) && n != s0.focus && SentryOf(s, s.focus).ctxs[n] == s0.ctxs[n]
  {
    hide FreeOf, InStack;
  }

  lemma ShapedYield(s: Sched, at: Ctx)
    requires Shaped(s)
    ensures |SentryOf(s, s.focus).procs| == |SentryOf(s, s.focus).ctxs| == PROCLIMIT
    ensures NextPid(s) != s.focus ==>
              YieldOf(s, at) == SentryOf(s, s.focus).(
              ctxs := SentryOf(s, s.focus).ctxs[s.focus := at], focus := NextPid(s))
  {
  }

  lemma YieldSteady(c: Site, base: nat, s: Sched, at: Ctx)
    requires Steady(c, base, s)
    ensures Steady(c, base, YieldOf(s, at))
  {
    hide RunLen, FreeOf, InStack;
    if Alive(s, s.focus) && !InStack(s, s.focus) { KillSteady(c, base, s, s.focus); }
    var s1, r := SentryOf(s, s.focus), YieldOf(s, at);
    assert Owned(r.(focus := 0)) by {
      assert forall p :: Alive(r.(focus := 0), p) <==> Alive(s1.(focus := 0), p);
    }
    assert forall p :: Alive(r, p) ==> Alive(s1, p) && r.procs[p] == s1.procs[p];
  }

  /** The switch goes to a process, or to the kernel, that waits in good order. */
  lemma NextReady(c: Site, kernel: nat, base: nat, s0: Sys, s: Sched)
    requires Shaped(s0.sc) && Docked(c, kernel, base, s0) && (s == s0.sc || s == KillOf(s0.sc, s0.sc.focus))
    requires s.focus == s0.sc.focus && (NextPid(s) != 0 || s.focus != 0)
    ensures var n := NextPid(s);
            && n < PROCLIMIT && n != s.focus && Present(s0.sc, n)
            && SentryOf(s, s.focus).ctxs[n] == s0.sc.ctxs[n] && DockedAt(c, kernel, base, s0, n)
  {
    hide FreeOf, InStack, RunLen, NextFrom, DockedAt;
    var n := NextPid(s);
    if n != 0 { NextPresent(s0.sc, s, n); }
  }

  /** What `spawn` and `kill` do to memory is confined to one record, which no stack overlaps: they
      are calls in the sense of the whole machine. */
  lemma RecordWriteIsCall(c: Site, kernel: nat, base: nat, s: Sys, r: Sys, e: Event, pid: nat)
    requires Steady(c, base, s.sc) && Linked(c, kernel, s.sc) && RecordsFit(kernel, base)
    requires (e.Spawn? || e.Kill?) && r.sc == Next(s.sc, e) && r.regs == s.regs && r.here == s.here && Fresh(c, s, r)
    requires pid < PROCLIMIT
    requires Kept(s.mem, r.mem, CtxAddr(kernel, base, pid), CTX_SIZE, 0, 0)
    ensures Call(c, s, r) && Scheduled(c, kernel, base, s, r)
  {
    hide RunLen, WellFormed, Next, Owned, Placed, Linked, Fresh;
    ShapedOfSteady(c, base, s.sc);
    assert Legal(s.sc, e);
    forall q, i | OnStack(c, s.sc, q, i) && i < |s.mem| ensures r.mem[i] == s.mem[i] {
      RecordOffStack(c, kernel, base, s.sc, q, pid);
    }
  }

  lemma RecordOffStack(c: Site, kernel: nat, base: nat, s: Sched, q: int, pid: nat)
    requires Owned(s) && Steady(c, base, s) && Linked(c, kernel, s) && RecordsFit(kernel, base)
    requires 0 <= q < PROCLIMIT && Present(s, q) && pid < PROCLIMIT
    ensures var a := CtxAddr(kernel, base, pid); Hi(c, s, q) <= a || a + CTX_SIZE <= Lo(c, s, q)
  {
    hide RunLen, WellFormed, Owned, Linked;
    StackClear(c, kernel, base, s, q);
  }

  /** Everything a switch writes: the records, the caller's frame, the scratch word, and the word under
      the stack pointer that is switched in. Every other byte of memory is as it was. */
  ghost predicate Framed(c: Site, kernel: nat, base: nat, s: Sys, r: Sys) {
    |r.mem| == |s.mem| && forall i :: 0 <= i < |s.mem| ==>
                                        || InRecords(kernel, base, i) || s.regs.esp - 52 <= i < s.regs.esp
                                        || c.tmp <= i < c.tmp + 4
                                        || r.regs.esp - 4 <= i < r.regs.esp || r.mem[i] == s.mem[i]
  }

  /** What one call of `spawn`, `kill`, `yield` or `exit` does to the machine. */
  ghost predicate Scheduled(c: Site, kernel: nat, base: nat, s: Sys, r: Sys)
    requires Shaped(s.sc)
  {
    || (Call(c, s, r) && exists pid :: 0 <= pid < PROCLIMIT
                                       && Kept(s.mem, r.mem, CtxAddr(kernel, base, pid), CTX_SIZE, 0, 0))
    || (Framed(c, kernel, base, s, r) && exists ret :: Handover(c, s, r, ret))
  }

  /** A `spawn` gives a stack to the process it makes. */
  lemma SpawnFresh(c: Site, s: Sys, r: Sys, d: Defaults, name: seq<byte>, prog: word, pid: int)
    requires Shaped(s.sc) && |s.saved| == PROCLIMIT && Spawned(pid, r.sc) == SpawnOf(s.sc, d, name, prog)
    requires pid == -1 ==> r.saved == s.saved
    requires pid != -1 ==> 0 < pid < PROCLIMIT && r.saved == s.saved[pid := Stack(c, r.sc, pid)]
    ensures Fresh(c, s, r)
  {
    hide MallocOf, NameField;
  }

  lemma KillFresh(c: Site, s: Sys, r: Sys, pid: int)
    requires Shaped(s.sc) && |s.saved| == PROCLIMIT && r.sc == KillOf(s.sc, pid) && r.saved == s.saved
    ensures Fresh(c, s, r)
  {
    hide FreeOf;
  }

  lemma StackGrounded(c: Site, kernel: nat, base: nat, s: Sched, q: int)
    requires Steady(c, base, s) && Linked(c, kernel, s) && RecordsFit(kernel, base) && 0 <= q < PROCLIMIT
    requires Present(s, q)
    ensures Grounded(c, kernel, base, Stack(c, s, q))
  {
    hide RunLen, Owned;
    StackClear(c, kernel, base, s, q);
    InMemory(c, s, q);
  }

  class Multitask {
    const cpu: Cpu
    const heap: Heap
    const kernelCtx: nat
    const kLo: nat
    const kHi: nat
    var initLock: bool
    var inStream: bool
    var focus: int
    var procBase: nat
    var procV: array<Proc>
    var defRegs: Defaults
    ghost var here: Band
    ghost var saved: seq<Band>

    constructor (cpu: Cpu, heap: Heap, kernelCtx: nat, kLo: nat, kHi: nat)
      requires cpu.ram == heap.ram && heap.Valid()
      ensures this.cpu == cpu && this.heap == heap && this.kernelCtx == kernelCtx && this.kLo == kLo && this.kHi == kHi
      ensures !initLock && Valid()
    {
      this.cpu, this.heap, this.kernelCtx, this.kLo, this.kHi := cpu, heap, kernelCtx, kLo, kHi;
      initLock, inStream, focus, procBase := false, false, 0, 0;
      procV := new Proc[0];
      defRegs := Defaults(0, 0);
      here, saved := Band(kLo, kHi), [];
    }

    function Where(): Site { Site(cpu.tmp, kLo, kHi) }

    ghost predicate Valid()
      reads this, procV, heap, heap.blockV, cpu, cpu.ram
    {
      && cpu.ram == heap.ram && heap.Valid() && (!initLock ==> focus == 0)
      && (initLock ==>
            && heap.Good() && procV.Length == PROCLIMIT && RecordsFit(kernelCtx, procBase)
            && Linked(Where(), kernelCtx, State()) && Steady(Where(), procBase, State())
            && |saved| == PROCLIMIT && Grounded(Where(), kernelCtx, procBase, here))
    }

    ghost function State(): Sched
      requires cpu.ram == heap.ram && heap.Good() && RecordsFit(kernelCtx, procBase)
      reads this, procV, heap, heap.blockV, cpu.ram
    {
      Sched(procV[..], Ctxs(cpu.ram[..], kernelCtx, procBase), focus, heap.Table(), heap.space)
    }

    ghost function View(): Sys
      requires cpu.ram == heap.ram && heap.Good() && RecordsFit(kernelCtx, procBase)
      reads this, procV, heap, heap.blockV, cpu, cpu.ram
    {
      Sys(State(), cpu.regs, cpu.ram[..], here, saved)
    }

    /** The memory map the linker and the boot code provide. */
    ghost predicate Mapped()
      reads this, heap
    {
      var end := heap.space + BLKSIZE * heap.blockC;
      && end < RAM_SIZE && kHi < RAM_SIZE && cpu.tmp + 4 <= RAM_SIZE && kLo <= kHi && kernelCtx + CTX_SIZE <= RAM_SIZE
      && (kHi <= heap.space || end <= kLo)
      && (cpu.tmp + 4 <= heap.space || end <= cpu.tmp) && (cpu.tmp + 4 <= kLo || kHi <= cpu.tmp)
      && (kernelCtx + CTX_SIZE <= heap.space || end <= kernelCtx)
      && (kernelCtx + CTX_SIZE <= kLo || kHi <= kernelCtx) && Apart(kernelCtx, CTX_SIZE, cpu.tmp, 4)
    }

    lemma KernelGrounded(base: nat)
      requires Mapped() && heap.Good() && heap.space <= base && base + BLKSIZE <= heap.space + BLKSIZE * heap.blockC
      ensures Grounded(Where(), kernelCtx, base, Band(kLo, kHi))
    {
    }

    lemma MappedPlaced(c: Site, kernel: nat, s: Sched)
      requires Mapped() && c == Where() && kernel == kernelCtx && s.space == heap.space && |s.table| == heap.blockC
      ensures Placed(c, s) && Linked(c, kernel, s)
    {
    }

    /** A cleared run for the vector, or 0. */
    method TakeVector() returns (p: nat)
      requires Valid() && heap.Good() && Mapped() && !initLock
      modifies heap.blockV, cpu.ram
      ensures heap.Good() && Alloc(p, heap.Table()) == MallocOf(old(heap.Table()), heap.space, VECTOR_SIZE)
      ensures p == 0 ==> cpu.ram[..] == old(cpu.ram[..]) && heap.Table() == old(heap.Table())
      ensures p != 0 ==> RunLen(heap.Table(), heap.space, p) == 1 && heap.space <= p
      ensures p != 0 ==> p + BLKSIZE <= heap.space + BLKSIZE * heap.blockC
      ensures p != 0 ==> Kept(old(cpu.ram[..]), cpu.ram[..], p, VECTOR_SIZE, 0, 0)
    {
      hide FreeOf, RunLen, WellFormed, MallocOf;
      MallocAdds(heap.Table(), heap.space, VECTOR_SIZE);
      p := heap.Malloc(VECTOR_SIZE);
      if p != 0 {
        RunInside(heap.Table(), heap.space, p);
        Fill(cpu.ram, p, 0, VECTOR_SIZE);
      }
    }

    /** A false result stands for the panic when no block is left for the vector. */
    method Init() returns (ok: bool)
      requires Valid() && heap.Good() && Mapped()
      modifies this, heap.blockV, cpu.ram
      ensures old(initLock) ==> ok && unchanged(this) && unchanged(heap.blockV) && unchanged(cpu.ram)
      ensures !old(initLock) ==> (ok <==> MallocOf(old(heap.Table()), heap.space, VECTOR_SIZE).ptr != 0)
      ensures !old(initLock) && !ok ==>
                !initLock && heap.Table() == old(heap.Table()) && cpu.ram[..] == old(cpu.ram[..])
      ensures !old(initLock) && ok ==> Kept(old(cpu.ram[..]), cpu.ram[..], procBase, VECTOR_SIZE, 0, 0)
      ensures !old(initLock) && ok ==>
                && initLock && Valid() && focus == 0 && Isolated(Where(), View())
                && (forall p :: !Alive(State(), p)) && defRegs == Defaults(cpu.regs.eflags, cpu.regs.cr3)
                && Alloc(procBase, heap.Table()) == MallocOf(old(heap.Table()), heap.space, VECTOR_SIZE)
                && fresh(procV) && here == Band(kLo, kHi)
    {
      hide FreeOf, RunLen, WellFormed, Steady, Ctxs, MallocOf, Owned, Placed, Isolated, Grounded, Linked;
      if initLock { return true; }
      var p := TakeVector();
      if p == 0 { return false; }
      procBase := p;
      procV := new Proc[PROCLIMIT](_ => Proc(Zeros(NAMELIMIT), 0, 0, false, false, false));
      defRegs := Defaults(cpu.regs.eflags, cpu.regs.cr3);
      initLock := true;
      here, saved := Band(kLo, kHi), seq(PROCLIMIT, _ => Band(kLo, kHi));
      MappedPlaced(Where(), kernelCtx, State());
      KernelGrounded(procBase);
      EmptySteady(Where(), procBase, View());
      return true;
    }

    method WriteLow(a: nat)
      requires a + CTX_SIZE <= cpu.ram.Length == RAM_SIZE
      modifies cpu.ram
      ensures Kept(old(cpu.ram[..]), cpu.ram[..], a, 24, 0, 0)
      ensures var c := CtxAt(cpu.ram[..], a); c.eax == c.ebx == c.ecx == c.edx == c.esi == c.edi == 0
    {
      hide Get32, Splice, Enc32;
      Store(cpu.ram, a, 0);
      Store(cpu.ram, a + 4, 0);
      Store(cpu.ram, a + 8, 0);
      Store(cpu.ram, a + 12, 0);
      Store(cpu.ram, a + 16, 0);
      Store(cpu.ram, a + 20, 0);
    }

    /** The record of a new process; the EBP word is not written. */
    method WriteCtx(a: nat, eip: word, esp: word)
      requires a + CTX_SIZE <= cpu.ram.Length == RAM_SIZE
      modifies cpu.ram
      ensures Kept(old(cpu.ram[..]), cpu.ram[..], a, CTX_SIZE, 0, 0)
      ensures CtxAt(cpu.ram[..], a) ==
              Ctx(0, 0, 0, 0, 0, 0, esp, old(CtxAt(cpu.ram[..], a)).ebp, eip, defRegs.eflags, defRegs.cr3)
    {
      hide Get32, Splice, Enc32;
      ghost var m := cpu.ram[..];
      WriteLow(a);
      KeptLoads(m, cpu.ram[..], a, 24, 0, 0);
      Store(cpu.ram, a + 36, defRegs.eflags);
      Store(cpu.ram, a + 32, eip);
      Store(cpu.ram, a + 40, defRegs.cr3);
      Store(cpu.ram, a + 24, esp);
    }

    method FindSlot() returns (pid: int)
      requires procV.Length == PROCLIMIT
      ensures pid == FreeSlot(procV[..], 1)
    {
      pid := 0;
      var i := 1;
      while i < PROCLIMIT && pid == 0
        invariant 1 <= i <= PROCLIMIT
        invariant pid == 0 ==> FreeSlot(procV[..], 1) == FreeSlot(procV[..], i)
        invariant pid != 0 ==> pid == FreeSlot(procV[..], 1)
        decreases PROCLIMIT - i, pid == 0
      {
        if !procV[i].active { pid := i; } else { i := i + 1; }
      }
    }

    /** Fill the slot and the record of a new process. */
    method Occupy(pid: nat, stack: nat, name: seq<byte>, prog: word)
      requires 0 < pid < procV.Length == PROCLIMIT && cpu.ram.Length == RAM_SIZE && RecordsFit(kernelCtx, procBase)
      modifies procV, cpu.ram
      ensures procV[..] == old(procV[..])[pid := Proc(NameField(name), stack, 0, false, false, true)]
      ensures Kept(old(cpu.ram[..]), cpu.ram[..], CtxAddr(kernelCtx, procBase, pid), CTX_SIZE, 0, 0)
      ensures var c := old(Ctxs(cpu.ram[..], kernelCtx, procBase));
              Ctxs(cpu.ram[..], kernelCtx, procBase) ==
              c[pid := Ctx(0, 0, 0, 0, 0, 0, (stack + STACKSIZE) % RAM_SIZE, c[pid].ebp, prog, defRegs.eflags,
                           defRegs.cr3)]
    {
      hide Ctxs, CtxAt;
      ghost var m := cpu.ram[..];
      var field := Zeros(NAMELIMIT);
      if |name| < NAMELIMIT {
        field := name + Zeros(NAMELIMIT - |name|);
      } else {
        field := name[..NAMELIMIT - 1] + [0];
      }
      procV[pid] := procV[pid].(stack := stack, name := field, parent := 0);
      WriteCtx(CtxAddr(kernelCtx, procBase, pid), prog, (stack + STACKSIZE) % RAM_SIZE);
      procV[pid] := procV[pid].(freeze := false, active := true, file := false);
      CtxsUpdated(m, cpu.ram[..], kernelCtx, procBase, pid);
    }

    /** A null name is the text "[Unknown]". */
    method Spawn(name: seq<byte>, prog: word) returns (pid: int)
      requires Valid()
      modifies this`saved, procV, heap.blockV, cpu.ram
      ensures Valid() && (pid == -1 ==> saved == old(saved))
      ensures pid != -1 ==> 0 < pid < PROCLIMIT == procV.Length == |old(saved)| &&
                            saved == old(saved)[pid := Band(procV[pid].stack, procV[pid].stack + STACKSIZE)]
      ensures !initLock ==> pid == -1 && procV[..] == old(procV[..]) && heap.Table() == old(heap.Table())
      ensures initLock ==> Spawned(pid, State()) == SpawnOf(old(State()), defRegs, name, prog)
      ensures initLock ==> (pid != -1 <==> CanSpawn(old(State()), prog))
      ensures initLock && pid != -1 ==> Founded(old(State()), State(), defRegs, name, prog, pid)
      ensures pid == -1 ==> cpu.ram[..] == old(cpu.ram[..]) && heap.Table() == old(heap.Table())
      ensures pid != -1 ==>
                0 < pid && Kept(old(cpu.ram[..]), cpu.ram[..], CtxAddr(kernelCtx, procBase, pid), CTX_SIZE, 0, 0)
    {
      hide Steady, RunLen, MallocOf, WellFormed, Ctxs, CtxAt, Placed, Kept, CanSpawn, Founded;
      if !initLock { return -1; }
      SpawnAnswer(Where(), procBase, State(), defRegs, name, prog);
      if prog == 0 { return -1; }
      pid := FindSlot();
      if pid == 0 { return -1; }
      ghost var s := State();
      ShapedOfSteady(Where(), procBase, s);
      SpawnSteady(Where(), procBase, s, defRegs, name, prog);
      ShapedOfSteady(Where(), procBase, SpawnOf(s, defRegs, name, prog).s);
      var stack := heap.Malloc(STACKSIZE);
      if stack == 0 {
        procV[pid] := procV[pid].(stack := 0);
        MallocAdds(s.table, s.space, STACKSIZE);
        assert State() == SpawnOf(s, defRegs, name, prog).s;
        return -1;
      }
      Occupy(pid, stack, name, prog);
      saved := saved[pid := Band(stack, stack + STACKSIZE)];
      assert heap.Table() == SpawnOf(s, defRegs, name, prog).s.table;
      assert State() == SpawnOf(s, defRegs, name, prog).s;
    }

    /** Clear the slot and the record of a dead process. */
    method Vacate(pid: nat)
      requires 0 < pid < procV.Length == PROCLIMIT && cpu.ram.Length == RAM_SIZE && RecordsFit(kernelCtx, procBase)
      modifies procV, cpu.ram
      ensures procV[..] == old(procV[..])[pid := old(procV[pid]).(name := BlankName(), active := false)]
      ensures Kept(old(cpu.ram[..]), cpu.ram[..], CtxAddr(kernelCtx, procBase, pid), CTX_SIZE, 0, 0)
      ensures Ctxs(cpu.ram[..], kernelCtx, procBase) == old(Ctxs(cpu.ram[..], kernelCtx, procBase))[pid := ZERO_CTX]
    {
      hide Ctxs, CtxAt;
      ghost var m := cpu.ram[..];
      procV[pid] := procV[pid].(name := Zeros(NAMELIMIT));
      Fill(cpu.ram, CtxAddr(kernelCtx, procBase, pid), 0, CTX_SIZE);
      procV[pid] := procV[pid].(active := false);
      ZeroCtx(cpu.ram[..], CtxAddr(kernelCtx, procBase, pid));
      CtxsUpdated(m, cpu.ram[..], kernelCtx, procBase, pid);
    }

    method Kill(pid: int) returns (r: int)
      requires Valid()
      modifies procV, heap.blockV, cpu.ram
      ensures Valid()
      ensures !initLock ==> r == -1 && procV[..] == old(procV[..]) && heap.Table() == old(heap.Table())
      ensures initLock ==> State() == KillOf(old(State()), pid) && r == if old(Alive(State(), pid)) then 0 else -1
      ensures r == -1 ==> cpu.ram[..] == old(cpu.ram[..])
      ensures r == 0 ==>
                && 0 < pid < PROCLIMIT
                && Kept(old(cpu.ram[..]), cpu.ram[..], CtxAddr(kernelCtx, procBase, pid), CTX_SIZE, 0, 0)
    {
      hide Steady, RunLen, WellFormed, Ctxs, CtxAt, FreeOf, Placed, Kept;
      if !initLock { return -1; }
      ghost var s := State();
      ShapedOfSteady(Where(), procBase, s);
      if pid <= 0 || pid >= PROCLIMIT || !procV[pid].active { return -1; }
      KillSteady(Where(), procBase, s, pid);
      ShapedOfSteady(Where(), procBase, KillOf(s, pid));
      heap.Free(procV[pid].stack);
      Vacate(pid);
      assert heap.Table() == KillOf(s, pid).table;
      assert State() == KillOf(s, pid);
      r := 0;
    }

    /** `kill` never refuses here, so the branch that would freeze an undying process is dead. */
    method Sentry(pid: int)
      requires Valid()
      modifies procV, heap.blockV, cpu.ram
      ensures Valid()
      ensures !initLock ==>
                procV[..] == old(procV[..]) && heap.Table() == old(heap.Table()) && cpu.ram[..] == old(cpu.ram[..])
      ensures initLock ==> State() == SentryOf(old(State()), pid)
      ensures initLock && old(Alive(State(), pid)) ==>
                (Alive(State(), pid) <==>
                 old(State().procs[pid].stack < State().ctxs[pid].esp <= State().procs[pid].stack + 4096))
      ensures initLock ==> forall i :: 0 <= i < RAM_SIZE ==>
                                         InRecords(kernelCtx, procBase, i) || cpu.ram[i] == old(cpu.ram[i])
    {
      hide Steady, RunLen, WellFormed, KillOf, FreeOf, Placed, Get32, Ctxs;
      if !initLock { return; }
      ghost var s := State();
      ShapedOfSteady(Where(), procBase, s);
      if pid < 1 || pid >= PROCLIMIT || !procV[pid].active { return; }
      var esp := Load(cpu.ram, CtxAddr(kernelCtx, procBase, pid) + 24);
      assert esp == s.ctxs[pid].esp;
      var execution := true;
      if esp <= procV[pid].stack {
      } else if esp > procV[pid].stack + STACKSIZE {
      } else {
        execution := false;
      }
      assert execution <==> !InStack(s, pid);
      SentryIff(s, pid);
      if execution {
        var r := Kill(pid);
        if r == -1 {
          assert false;
        }
      }
    }

    /** `call multitask_swi` with its two arguments, the caller's side of a switch. */
    method CallSwitch(ret: word, old_: nat, next: nat, ghost top: word)
      requires cpu.ram.Length == RAM_SIZE && 52 <= cpu.regs.esp && RecordsFit(kernelCtx, procBase)
      requires old_ < PROCLIMIT && next < PROCLIMIT && old_ != next
      requires Clear(cpu.regs.esp - 12, cpu.tmp, CtxAddr(kernelCtx, procBase, old_), CtxAddr(kernelCtx, procBase, next),
                     top)
      requires Ctxs(cpu.ram[..], kernelCtx, procBase)[next].esp == top
      requires forall i :: InRecords(kernelCtx, procBase, i) ==>
                             && !(cpu.regs.esp - 52 <= i < cpu.regs.esp) && !(cpu.tmp <= i < cpu.tmp + 4)
                             && !(top - 4 <= i < top)
      modifies cpu, cpu.ram
      ensures Ctxs(cpu.ram[..], kernelCtx, procBase) ==
              old(Ctxs(cpu.ram[..], kernelCtx, procBase))[old_ := old(At(cpu.regs, ret))]
      ensures Resumed(old(Ctxs(cpu.ram[..], kernelCtx, procBase))[next], old(cpu.regs.esp), cpu.regs)
      ensures forall i :: 0 <= i < RAM_SIZE ==>
                            InRecords(kernelCtx, procBase, i) || old(cpu.regs.esp) - 52 <= i < old(cpu.regs.esp) ||
                            cpu.tmp <= i < cpu.tmp + 4 || top - 4 <= i < top || cpu.ram[i] == old(cpu.ram[i])
    {
      hide Get32, Ctxs, CtxAt, LandsAt;
      ghost var m, esp := cpu.ram[..], cpu.regs.esp;
      var oldctx, nextctx := CtxAddr(kernelCtx, procBase, old_), CtxAddr(kernelCtx, procBase, next);
      Arguments(ret, oldctx, nextctx);
      ghost var m1 := cpu.ram[..];
      CtxsKept(m, m1, kernelCtx, procBase);
      SavedEsp(m1, nextctx);
      cpu.MultitaskSwi(oldctx, nextctx);
      CtxsUpdated(m1, cpu.ram[..], kernelCtx, procBase, old_);
    }

    method Arguments(ret: word, oldctx: word, nextctx: word)
      requires cpu.ram.Length == RAM_SIZE && 52 <= cpu.regs.esp
      modifies cpu, cpu.ram
      ensures cpu.regs == old(cpu.regs).(esp := old(cpu.regs.esp) - 12)
      ensures Kept(old(cpu.ram[..]), cpu.ram[..], cpu.regs.esp, 12, 0, 0)
      ensures Load(cpu.ram, cpu.regs.esp) == ret && Load(cpu.ram, cpu.regs.esp + 4) == oldctx
      ensures Load(cpu.ram, cpu.regs.esp + 8) == nextctx
    {
      hide Get32, Splice, Enc32;
      var esp := Push(cpu.ram, cpu.regs.esp, nextctx);
      esp := Push(cpu.ram, esp, oldctx);
      esp := Push(cpu.ram, esp, ret);
      cpu.regs := cpu.regs.(esp := esp);
    }

    /** Registers, stacks and focus are as the running process left them in `s0`, on its own stack. */
    ghost predicate Left(s0: Sys)
      reads this, procV, heap, heap.blockV, cpu, cpu.ram
    {
      && Valid() && initLock && Steady(Where(), procBase, s0.sc) && Docked(Where(), kernelCtx, procBase, s0)
      && Linked(Where(), kernelCtx, s0.sc) && |s0.mem| == RAM_SIZE
      && focus == s0.sc.focus && cpu.regs == s0.regs
      && (forall i :: 0 <= i < RAM_SIZE ==> InRecords(kernelCtx, procBase, i) || cpu.ram[i] == s0.mem[i])
      && here == s0.here && saved == s0.saved && here.lo + 52 <= cpu.regs.esp <= here.hi
    }

    /** The first half of `yield`: the sentry looks at the caller, then the next process is chosen. */
    method Choose() returns (next: nat)
      requires Valid() && initLock
      modifies procV, heap.blockV, cpu.ram
      ensures Valid() && State() == SentryOf(old(State()), focus) && next == NextPid(old(State()))
      ensures forall i :: 0 <= i < RAM_SIZE ==> InRecords(kernelCtx, procBase, i) || cpu.ram[i] == old(cpu.ram[i])
    {
      hide Steady, RunLen, WellFormed, Ctxs, CtxAt, FreeOf, Placed, KillOf, InStack, Owned;
      ShapedOfSteady(Where(), procBase, State());
      Sentry(focus);
      if focus == 0 {
        next := Scan(1);
      } else {
        next := Scan(focus + 1);
      }
    }

    /** The sentry has looked at state `s`, which is that of `s0` or has the caller killed in it. */
    ghost predicate Chosen(s: Sched, s0: Sys, next: nat)
      requires Left(s0)
      reads this, procV, heap, heap.blockV, cpu, cpu.ram
    {
      && Steady(Where(), procBase, s) && Shaped(s) && s.focus == focus && (s == s0.sc || s == KillOf(s0.sc, focus))
      && State() == SentryOf(s, focus) && next == NextPid(s) && next + focus != 0
    }

    ghost predicate Departed(s: Sched, s0: Sys, ret: word)
      reads this, procV, heap, heap.blockV, cpu, cpu.ram
    {
      && Valid() && initLock && Shaped(s) && Shaped(s0.sc) && |s0.mem| == RAM_SIZE && 52 <= s0.regs.esp
      && State() == YieldOf(s, At(s0.regs, ret)) && Resumed(State().ctxs[focus], s0.regs.esp, cpu.regs) && Moved(s0)
    }

    /** The switch has run: its frame, and the stacks that change places. */
    ghost predicate Moved(s0: Sys)
      requires Valid() && initLock
      reads this, procV, heap, heap.blockV, cpu, cpu.ram
    {
      && Framed(Where(), kernelCtx, procBase, s0, View())
      && |s0.saved| == PROCLIMIT && 0 <= s0.sc.focus < PROCLIMIT && 0 <= focus < PROCLIMIT
      && here == s0.saved[focus] && saved == s0.saved[s0.sc.focus := s0.here]
    }

    /** The second half: the focus moves and the switch runs. `s` is the state before the sentry. */
    method Depart(ret: word, next: nat, ghost s: Sched, ghost s0: Sys)
      requires Left(s0) && Chosen(s, s0, next)
      modifies this`focus, this`here, this`saved, cpu, cpu.ram
      ensures focus == next != old(focus) && Departed(s, s0, ret)
    {
      hide Steady, RunLen, WellFormed, Ctxs, CtxAt, FreeOf, Placed, KillOf, InStack, Owned, SentryOf, NextPid, Clear;
      hide Present, Grounded, Docked, LandsAt;
      ShapedYield(s, At(s0.regs, ret));
      ShapedOfSteady(Where(), procBase, s0.sc);
      SavedStacks(s0);
      NextReady(Where(), kernelCtx, procBase, s0, s);
      ghost var s1 := State();
      ghost var top := s1.ctxs[next].esp;
      SwitchClear(Where(), kernelCtx, procBase, s0, next, s0.regs.esp, top);
      YieldSteady(Where(), procBase, s, At(s0.regs, ret));
      ShapedOfSteady(Where(), procBase, YieldOf(s, At(s0.regs, ret)));
      var old_ := focus;
      focus := next;
      saved, here := saved[old_ := here], saved[next];
      CallSwitch(ret, old_, next, top);
      assert State() == YieldOf(s, At(s0.regs, ret));
    }

    /** `yield`, also as the tail of `exit`. A true result stands for the panic of a kernel that has
        nobody to run. The range check on the focus never fires. */
    method YieldFrom(ret: word, ghost s0: Sys) returns (panic: bool)
      requires Left(s0) && (State() == s0.sc || State() == KillOf(s0.sc, focus))
      modifies this`inStream, this`focus, this`here, this`saved, procV, heap.blockV, cpu, cpu.ram
      ensures panic <==> old(focus) == 0 && forall p :: !Runnable(old(State()), p)
      ensures Valid() && inStream && (!panic ==> focus != old(focus) && Departed(old(State()), s0, ret))
      ensures !panic ==> Successor(old(State()), focus)
    {
      hide Steady, RunLen, WellFormed, Ctxs, CtxAt, FreeOf, Placed, KillOf, InStack, Owned, SentryOf, NextPid, YieldOf;
      inStream := true;
      ghost var s := State();
      ShapedOfSteady(Where(), procBase, s);
      NextIsSuccessor(s);
      var next := Choose();
      if focus == 0 && next == 0 { return true; }
      Depart(ret, next, s, s0);
      return false;
    }

    method Scan(i: nat) returns (next: nat)
      requires 0 < i <= procV.Length
      ensures next == NextFrom(procV[..], i)
    {
      next := 0;
      var j := i;
      while j < procV.Length && next == 0
        invariant i <= j <= procV.Length
        invariant next == 0 ==> NextFrom(procV[..], i) == NextFrom(procV[..], j)
        invariant next != 0 ==> next == NextFrom(procV[..], i)
        decreases procV.Length - j, next == 0
      {
        if procV[j].active && !procV[j].freeze { next := j; } else { j := j + 1; }
      }
    }

    lemma SavedStacks(s0: Sys)
      requires Shaped(s0.sc) && Docked(Where(), kernelCtx, procBase, s0)
      ensures |s0.saved| == PROCLIMIT
    {
    }

    /** The frame of a switch is more than a handover asks for: the stacks are apart from the records. */
    lemma FrameIsHandover(s: Sys, r: Sys)
      requires Steady(Where(), procBase, s.sc) && Linked(Where(), kernelCtx, s.sc)
      requires RecordsFit(kernelCtx, procBase)
      requires Framed(Where(), kernelCtx, procBase, s, r)
      ensures forall q, i :: OnStack(Where(), s.sc, q, i) && i < |s.mem| ==>
                               || s.regs.esp - 52 <= i < s.regs.esp || cpu.tmp <= i < cpu.tmp + 4
                               || r.regs.esp - 4 <= i < r.regs.esp || r.mem[i] == s.mem[i]
    {
      hide RunLen, Owned;
      forall q, i | OnStack(Where(), s.sc, q, i) ensures !InRecords(kernelCtx, procBase, i) {
        StackClear(Where(), kernelCtx, procBase, s.sc, q);
      }
    }

    /** The running code has room on its stack for the call, and the others wait in good order. */
    ghost predicate MayCall()
      requires Valid() && initLock
      reads this, procV, heap, heap.blockV, cpu, cpu.ram
    {
      Docked(Where(), kernelCtx, procBase, View()) && here.lo + 52 <= cpu.regs.esp <= here.hi
    }

    method Yield(ret: word) returns (panic: bool)
      requires Valid() && (initLock ==> MayCall())
      modifies this`inStream, this`focus, this`here, this`saved, procV, heap.blockV, cpu, cpu.ram
      ensures Valid()
      ensures !initLock ==>
                && !panic && unchanged(this) && unchanged(procV) && unchanged(heap.blockV) && unchanged(cpu)
                && unchanged(cpu.ram)
      ensures initLock ==> (panic <==> old(focus) == 0 && forall p :: !Runnable(old(State()), p))
      ensures initLock && !panic ==> Successor(old(State()), focus)
      ensures initLock && !panic ==> State() == YieldOf(old(State()), At(old(cpu.regs), ret))
      ensures initLock && !panic ==>
                Handover(Where(), old(View()), View(), ret) && Framed(Where(), kernelCtx, procBase, old(View()), View())
    {
      hide Docked, Framed, RunLen, WellFormed, Ctxs, CtxAt, Placed, KillOf, InStack, SentryOf, NextPid, YieldOf;
      hide Steady, LandsAt, Successor;
      if !initLock { return false; }
      ghost var s0 := View();
      panic := YieldFrom(ret, s0);
      if !panic {
        FrameIsHandover(s0, View());
        ShapedOfSteady(Where(), procBase, s0.sc);
        ShapedOfSteady(Where(), procBase, State());
        assert Legal(s0.sc, Event.Yield(At(s0.regs, ret)));
        assert View().sc == Next(s0.sc, Event.Yield(At(s0.regs, ret)));
      }
    }

    method Exit(ret: word) returns (panic: bool)
      requires Valid() && (initLock ==> MayCall())
      modifies this`inStream, this`focus, this`here, this`saved, procV, heap.blockV, cpu, cpu.ram
      ensures Valid() && !panic
      ensures !initLock || old(focus) == 0 || !old(inStream) ==>
                unchanged(this) && unchanged(procV) && unchanged(heap.blockV) && unchanged(cpu) && unchanged(cpu.ram)
      ensures initLock && old(focus) != 0 && old(inStream) ==> State() == ExitOf(old(State()), At(old(cpu.regs), ret))
      ensures initLock && old(focus) != 0 && old(inStream) ==>
                !Alive(State(), old(focus)) && Successor(old(State()), focus)
      ensures initLock && old(focus) != 0 && old(inStream) ==>
                Handover(Where(), old(View()), View(), ret) && Framed(Where(), kernelCtx, procBase, old(View()), View())
    {
      hide Docked, Framed, RunLen, WellFormed, Ctxs, CtxAt, Placed, KillOf, InStack, SentryOf, NextPid, YieldOf;
      hide Steady, LandsAt, Successor;
      if !initLock || focus == 0 || !inStream { return false; }
      ghost var s0 := View();
      var r := Kill(focus);
      panic := YieldFrom(ret, s0);
      FrameIsHandover(s0, View());
      ShapedOfSteady(Where(), procBase, s0.sc);
      ShapedOfSteady(Where(), procBase, State());
      ExitGoesOn(s0.sc, At(s0.regs, ret));
      assert Legal(s0.sc, Event.Exit(At(s0.regs, ret)));
      assert View().sc == Next(s0.sc, Event.Exit(At(s0.regs, ret)));
    }
  }
}
