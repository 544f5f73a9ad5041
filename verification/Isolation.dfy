/** Whole-machine runs: the scheduler together with the registers and the memory. The result is
    that a process which is switched out finds everything as it left it. */
module Isolation {
  import opened Bytes
  import opened Switch
  import opened Memory
  import opened Schedule

  datatype Band = Band(lo: nat, hi: nat)

  /** The machine between scheduler calls. `here` is the stack the running code is on, and `saved`
      the stack that the context in each record belongs to. A process that has killed itself goes on
      running on the stack it had. */
  datatype Sys = Sys(sc: Sched, regs: Ctx, mem: seq<byte>, here: Band, saved: seq<Band>)

  /** Addresses fixed by the linker: the switch's scratch word and the kernel's own stack. */
  datatype Site = Site(tmp: nat, kLo: nat, kHi: nat)

  /** The kernel (pid 0) or an active process. */
  predicate Present(s: Sched, p: int) {
    p == 0 || Alive(s, p)
  }

  function Lo(c: Site, s: Sched, p: int): nat
    requires 0 <= p < |s.procs|
  {
    if p == 0 then c.kLo else s.procs[p].stack
  }

  function Hi(c: Site, s: Sched, p: int): nat
    requires 0 <= p < |s.procs|
  {
    if p == 0 then c.kHi else s.procs[p].stack + STACKSIZE
  }

  function Stack(c: Site, s: Sched, p: int): Band
    requires 0 <= p < |s.procs|
  {
    Band(Lo(c, s, p), Hi(c, s, p))
  }

  predicate Disjoint(a: Band, b: Band) {
    a.hi <= b.lo || b.hi <= a.lo
  }

  /** Pool, kernel stack and scratch word lie apart below the top of memory. */
  ghost predicate Placed(c: Site, s: Sched) {
    var end := s.space + BLKSIZE * |s.table|;
    && end < RAM_SIZE && c.kHi < RAM_SIZE && c.tmp + 4 <= RAM_SIZE && c.kLo <= c.kHi
    && (c.kHi <= s.space || end <= c.kLo)
    && (c.tmp + 4 <= s.space || end <= c.tmp) && (c.tmp + 4 <= c.kLo || c.kHi <= c.tmp)
  }

  /** The saved stack pointer of a waiting process lies in its stack. */
  ghost predicate Ready(c: Site, s: Sched, p: int)
    requires Shaped(s)
  {
    0 <= p < PROCLIMIT && Present(s, p) && p != s.focus ==> Lo(c, s, p) + 4 <= s.ctxs[p].esp <= Hi(c, s, p)
  }

  /** Process `q` waits with its own stack, and the running code is on another, unless `q` was
      spawned on the stack that its spawner had given up, and has not run yet. */
  ghost predicate Waits(c: Site, s: Sys, q: int)
    requires Shaped(s.sc) && |s.saved| == PROCLIMIT
  {
    0 <= q < PROCLIMIT && Present(s.sc, q) && q != s.sc.focus ==>
      && s.saved[q] == Stack(c, s.sc, q)
      && (Disjoint(s.here, Stack(c, s.sc, q)) || (s.here == Stack(c, s.sc, q) && s.sc.ctxs[q].esp == s.here.hi))
  }

  /** A block of the pool. */
  predicate PoolBlock(space: nat, b: Band) {
    space <= b.lo && (b.lo - space) % BLKSIZE == 0 && b.hi == b.lo + STACKSIZE
  }

  /** The running code is on the stack of its slot, or its slot is empty. */
  ghost predicate Standing(c: Site, s: Sys)
    requires Shaped(s.sc)
  {
    && |s.saved| == PROCLIMIT && s.here.lo <= s.here.hi < RAM_SIZE && Disjoint(s.here, Band(c.tmp, c.tmp + 4))
    && (Present(s.sc, s.sc.focus) ==> s.here == Stack(c, s.sc, s.sc.focus))
    && (s.sc.focus != 0 ==> PoolBlock(s.sc.space, s.here))
    && forall q :: Waits(c, s, q)
  }

  ghost predicate Isolated(c: Site, s: Sys) {
    Owned(s.sc) && |s.mem| == RAM_SIZE && Placed(c, s.sc) && (forall p :: Ready(c, s.sc, p)) && Standing(c, s)
  }

  /** Byte `i` belongs to the stack of `q`. */
  predicate OnStack(c: Site, s: Sched, q: int, i: int) {
    0 <= q < |s.procs| && Present(s, q) && Lo(c, s, q) <= i < Hi(c, s, q)
  }

  // ----- Steps -----

  /** Anything the running process does between scheduler calls, as long as it writes no stack but
      the one it is on and gives up nobody's stack. */
  ghost predicate Work(c: Site, s: Sys, r: Sys)
    requires Shaped(s.sc)
  {
    && r.sc == s.sc.(table := r.sc.table) && Legal(s.sc, Other(r.sc.table)) && |r.mem| == |s.mem|
    && r.here == s.here && r.saved == s.saved
    && forall q, i :: OnStack(c, s.sc, q, i) && !(s.here.lo <= i < s.here.hi) && i < |s.mem| ==> r.mem[i] == s.mem[i]
  }

  /** `spawn` and `kill` touch no stack; the records they write are part of `sc`. */
  ghost predicate Call(c: Site, s: Sys, r: Sys)
    requires Shaped(s.sc)
  {
    && |r.mem| == |s.mem| && r.regs == s.regs && r.here == s.here && Fresh(c, s, r)
    && (forall q, i :: OnStack(c, s.sc, q, i) && i < |s.mem| ==> r.mem[i] == s.mem[i])
    && exists e: Event :: (e.Spawn? || e.Kill?) && Legal(s.sc, e) && r.sc == Next(s.sc, e)
  }

  /** A spawned process is given a stack; the others keep theirs. */
  ghost predicate Fresh(c: Site, s: Sys, r: Sys) {
    && |r.saved| == |s.saved| <= |r.sc.procs|
    && forall q :: 0 <= q < |s.saved| ==>
                     r.saved[q] == if Alive(r.sc, q) && !Alive(s.sc, q) then Stack(c, r.sc, q) else s.saved[q]
  }

  /** The caller's registers as of the return from the switch: the two arguments are still on its stack. */
  function At(c: Ctx, ret: word): Ctx
    requires c.esp >= 8
  {
    c.(esp := c.esp - 8, eip := ret)
  }

  /** A call of `yield` or `exit` that changes the focus, with 52 free bytes below the stack
      pointer: arguments and return address are pushed, then the switch runs. The registers are those
      of the record that is switched in, and the routine returns where its own frame lets it. */
  ghost predicate Handover(c: Site, s: Sys, r: Sys, ret: word)
    requires Shaped(s.sc)
  {
    var esp := s.regs.esp;
    && s.here.lo + 52 <= esp <= s.here.hi
    && (exists e: Event :: (e == Yield(At(s.regs, ret)) || e == Exit(At(s.regs, ret))) && Legal(s.sc, e)
                           && r.sc == Next(s.sc, e))
    && Shaped(r.sc) && r.sc.focus != s.sc.focus
    && Resumed(r.sc.ctxs[r.sc.focus], esp, r.regs) && |r.mem| == |s.mem|
    && |s.saved| == PROCLIMIT && r.here == s.saved[r.sc.focus] && r.saved == s.saved[s.sc.focus := s.here]
    && forall q, i :: OnStack(c, s.sc, q, i) && i < |s.mem| ==>
                        || esp - 52 <= i < esp || c.tmp <= i < c.tmp + 4
                        || r.regs.esp - 4 <= i < r.regs.esp || r.mem[i] == s.mem[i]
  }

  /** What a caller with stack pointer `esp` leaves in the registers when it switches to `n`. */
  ghost predicate Resumed(n: Ctx, esp: word, regs: Ctx)
    requires 52 <= esp
  {
    4 <= n.esp && regs == n.(eip := LandsAt(n, esp - 52))
  }

  ghost predicate Step(c: Site, s: Sys, r: Sys) {
    Shaped(s.sc) && (Work(c, s, r) || Call(c, s, r) || exists ret :: Handover(c, s, r, ret))
  }

  ghost predicate Run(c: Site, u: seq<Sys>) {
    |u| > 0 && Isolated(c, u[0]) && forall k :: 0 <= k < |u| - 1 ==> Step(c, u[k], u[k + 1])
  }

  /** A process that has killed itself spawns another into its own slot. */
  predicate Takeover(s: Sched, r: Sched) {
    s.focus == r.focus && !Present(s, s.focus) && Present(r, s.focus)
  }

  /** No takeover up to state `k`. */
  predicate Loyal(u: seq<Sys>, k: nat) {
    forall x :: 0 <= x < k && x + 1 < |u| ==> !Takeover(u[x].sc, u[x + 1].sc)
  }

  // ----- The invariant over every run -----

  lemma StacksApart(c: Site, s: Sched, p: int, q: int)
    requires Owned(s) && Placed(c, s) && 0 <= p < PROCLIMIT && 0 <= q < PROCLIMIT && p != q && Present(s, p)
    requires Present(s, q)
    ensures Hi(c, s, p) <= Lo(c, s, q) || Hi(c, s, q) <= Lo(c, s, p)
    ensures c.tmp + 4 <= Lo(c, s, p) || Hi(c, s, p) <= c.tmp
    ensures c.tmp + 4 <= Lo(c, s, q) || Hi(c, s, q) <= c.tmp
    ensures Hi(c, s, p) < RAM_SIZE && Hi(c, s, q) < RAM_SIZE
  {
    if p != 0 { RunInside(s.table, s.space, s.procs[p].stack); }
    if q != 0 { RunInside(s.table, s.space, s.procs[q].stack); }
    if p != 0 && q != 0 { RunsApart(s.table, s.space, s.procs[p].stack, s.procs[q].stack); }
  }

  lemma StepMoves(c: Site, s: Sys, r: Sys)
    requires Step(c, s, r)
    ensures Moves(s.sc, r.sc)
  {
    if Work(c, s, r) {
      assert r.sc == Next(s.sc, Other(r.sc.table));
    }
  }

  lemma MovesOwned(s: Sched, r: Sched)
    requires Owned(s) && Moves(s, r)
    ensures Owned(r) && r.space == s.space && |r.table| == |s.table|
  {
    var e :| Legal(s, e) && r == Next(s, e);
    StepOwned(s, e);
  }

  lemma KernelKept(s: Sched, r: Sched)
    requires Moves(s, r) && (s.focus != 0 || r.focus == 0)
    ensures r.ctxs[0] == s.ctxs[0]
  {
    hide FreeOf, InStack, MallocOf, WellFormed, RunLen;
    var e :| Legal(s, e) && r == Next(s, e);
  }

  /** A waiting process keeps its record and its stack bounds. */
  lemma WaitingKept(c: Site, s: Sched, r: Sched, p: int)
    requires Moves(s, r) && 0 <= p < PROCLIMIT && Present(s, p) && Present(r, p) && p != s.focus
    ensures r.ctxs[p] == s.ctxs[p] && Lo(c, r, p) == Lo(c, s, p) && Hi(c, r, p) == Hi(c, s, p)
  {
    if p == 0 { KernelKept(s, r); } else { RecordKept(s, r, p); }
  }

  /** Who becomes present is a spawned process, with a stack pointer at the top of its stack. */
  lemma NewcomerReady(c: Site, s: Sched, r: Sched, p: int)
    requires Owned(s) && Moves(s, r) && Placed(c, s) && 0 < p < PROCLIMIT && !Alive(s, p) && Alive(r, p)
    ensures r.ctxs[p].esp == r.procs[p].stack + STACKSIZE
  {
    hide FreeOf, InStack, WellFormed, NameField, NextFrom, RunLen, MallocOf;
    OwnedShaped(s);
    var e :| Legal(s, e) && r == Next(s, e);
    match e
    case Spawn(d, name, prog) =>
      MallocAdds(s.table, s.space, STACKSIZE);
      RunInside(MallocOf(s.table, s.space, STACKSIZE).table, s.space, MallocOf(s.table, s.space, STACKSIZE).ptr);
    case Yield(at) => YieldDead(s, at, p);
    case Exit(at) => if s.focus != 0 { YieldDead(KillOf(s, s.focus), at, p); }
    case _ =>
  }

  /** The record of the process that gives up the processor holds its state at the call. */
  lemma LeaverRecorded(c: Site, s: Sys, r: Sys, ret: word)
    requires Shaped(s.sc) && Handover(c, s, r, ret) && Present(r.sc, s.sc.focus)
    ensures r.sc.ctxs[s.sc.focus] == At(s.regs, ret)
    ensures Lo(c, r.sc, s.sc.focus) == Lo(c, s.sc, s.sc.focus) && Hi(c, r.sc, s.sc.focus) == Hi(c, s.sc, s.sc.focus)
  {
    hide FreeOf, InStack, RunLen;
    if s.sc.focus != 0 {
      var e: Event :| (e == Yield(At(s.regs, ret)) || e == Exit(At(s.regs, ret))) && Legal(s.sc, e)
                      && r.sc == Next(s.sc, e);
    }
  }

  lemma HandoverMoves(c: Site, s: Sys, r: Sys, ret: word)
    requires Shaped(s.sc) && Handover(c, s, r, ret)
    ensures Step(c, s, r) && Moves(s.sc, r.sc)
  {
    StepMoves(c, s, r);
  }

  /** A step keeps the machine in order unless it is a takeover. */
  lemma IsolatedStep(c: Site, s: Sys, r: Sys)
    requires Isolated(c, s) && Step(c, s, r) && !Takeover(s.sc, r.sc)
    ensures Isolated(c, r)
  {
    hide Owned, Moves, Alive, RunLen, Standing;
    StepMoves(c, s, r);
    MovesOwned(s.sc, r.sc);
    forall p ensures Ready(c, r.sc, p) {
      if 0 <= p < PROCLIMIT && Present(r.sc, p) && p != r.sc.focus {
        if !Present(s.sc, p) {
          NewcomerReady(c, s.sc, r.sc, p);
        } else if p != s.sc.focus {
          assert Ready(c, s.sc, p);
          WaitingKept(c, s.sc, r.sc, p);
        } else {
          FocusLeft(c, s, r);
        }
      }
    }
    if Work(c, s, r) || Call(c, s, r) { StandsOn(c, s, r); } else { StandsAnew(c, s, r); }
  }

  /** While the processor is not handed over. */
  lemma StandsOn(c: Site, s: Sys, r: Sys)
    requires Isolated(c, s) && (Work(c, s, r) || Call(c, s, r)) && !Takeover(s.sc, r.sc) && Owned(r.sc)
    ensures Standing(c, r)
  {
    hide Owned, Moves, RunLen, Work, Call;
    OwnedShaped(s.sc);
    OwnedShaped(r.sc);
    StepMoves(c, s, r);
    MovesOwned(s.sc, r.sc);
    SameFocus(c, s, r);
    SavedOn(c, s, r);
    if Present(r.sc, r.sc.focus) { FocusStack(c, s.sc, r.sc); }
    forall q ensures Waits(c, r, q) {
      if 0 <= q < PROCLIMIT && Present(r.sc, q) && q != r.sc.focus {
        if Present(s.sc, q) {
          assert Waits(c, s, q);
          WaitingKept(c, s.sc, r.sc, q);
        } else {
          NewcomerReady(c, s.sc, r.sc, q);
          NewStack(c, s, r.sc, q);
        }
      }
    }
  }

  /** A new stack is a block of the pool: not the kernel's, and not part of another. */
  lemma NewStack(c: Site, s: Sys, r: Sched, q: int)
    requires Isolated(c, s) && Owned(r) && 0 < q < PROCLIMIT && Alive(r, q) && r.space == s.sc.space
    requires |r.table| == |s.sc.table|
    ensures Disjoint(s.here, Stack(c, r, q)) || s.here == Stack(c, r, q)
  {
    hide Waits;
    StackIsBlock(c, r, q);
    if s.sc.focus != 0 { BlocksMeet(r.space, s.here, Stack(c, r, q)); }
  }

  lemma StackIsBlock(c: Site, s: Sched, q: int)
    requires Owned(s) && Alive(s, q)
    ensures PoolBlock(s.space, Stack(c, s, q)) && Hi(c, s, q) <= s.space + BLKSIZE * |s.table|
  {
  }

  lemma BlocksMeet(space: nat, a: Band, b: Band)
    requires PoolBlock(space, a) && PoolBlock(space, b)
    ensures Disjoint(a, b) || a == b
  {
  }

  lemma SavedOn(c: Site, s: Sys, r: Sys)
    requires Shaped(s.sc) && (Work(c, s, r) || Call(c, s, r)) && |s.saved| == PROCLIMIT
    ensures r.here == s.here && |r.saved| == PROCLIMIT
    ensures forall q :: 0 <= q < PROCLIMIT ==>
                          r.saved[q] == if q < |r.sc.procs| && Alive(r.sc, q) && !Alive(s.sc, q) then
                            Stack(c, r.sc, q) else s.saved[q]
  {
  }

  lemma FocusStack(c: Site, s: Sched, r: Sched)
    requires Moves(s, r) && Shaped(r) && r.focus == s.focus && Present(s, s.focus) && Present(r, s.focus)
    ensures Stack(c, r, s.focus) == Stack(c, s, s.focus)
  {
    if s.focus != 0 { RecordKept(s, r, s.focus); }
  }

  /** When it is. */
  lemma StandsAnew(c: Site, s: Sys, r: Sys)
    requires Isolated(c, s) && Owned(r.sc) && exists ret :: Handover(c, s, r, ret)
    ensures Standing(c, r)
  {
    hide Owned, Moves, RunLen, Handover, Waits;
    OwnedShaped(s.sc);
    OwnedShaped(r.sc);
    var ret :| Handover(c, s, r, ret);
    IncomingWaits(c, s, r, ret);
    HandoverSaves(c, s, r, ret);
    forall q ensures Waits(c, r, q) {
      OtherWaits(c, s, r, ret, q);
    }
  }

  lemma HandoverSaves(c: Site, s: Sys, r: Sys, ret: word)
    requires Shaped(s.sc) && Handover(c, s, r, ret)
    ensures |s.saved| == PROCLIMIT && r.saved == s.saved[s.sc.focus := s.here]
    ensures 0 <= r.sc.focus < PROCLIMIT && r.here == s.saved[r.sc.focus]
  {
  }

  lemma OtherWaits(c: Site, s: Sys, r: Sys, ret: word, q: int)
    requires Isolated(c, s) && Owned(r.sc) && Handover(c, s, r, ret) && |r.saved| == PROCLIMIT
    ensures Waits(c, r, q)
  {
    hide Owned, Moves, RunLen, Handover;
    OwnedShaped(s.sc);
    OwnedShaped(r.sc);
    var n := r.sc.focus;
    if 0 <= q < PROCLIMIT && Present(r.sc, q) && q != n {
      HandoverMoves(c, s, r, ret);
      IncomingWaits(c, s, r, ret);
      HandoverSaves(c, s, r, ret);
      StillPresent(c, s, r, ret, q);
      StacksApart(c, s.sc, n, q);
      if q == s.sc.focus { LeaverRecorded(c, s, r, ret); } else { WaitingKept(c, s.sc, r.sc, q); }
      assert Waits(c, s, q);
    }
  }

  /** Who is switched in was waiting, with its record and its stack. */
  lemma IncomingWaits(c: Site, s: Sys, r: Sys, ret: word)
    requires Isolated(c, s) && Owned(r.sc) && Handover(c, s, r, ret)
    ensures var n := r.sc.focus;
            && 0 <= n < PROCLIMIT && Present(s.sc, n) && Present(r.sc, n)
            && r.here == Stack(c, s.sc, n) == Stack(c, r.sc, n)
            && (n != 0 ==> PoolBlock(s.sc.space, r.here)) && r.sc.space == s.sc.space
            && r.regs.esp == s.sc.ctxs[n].esp && r.here.lo <= r.here.hi < RAM_SIZE
            && Disjoint(r.here, Band(c.tmp, c.tmp + 4))
  {
    hide RunLen, Next, Legal, YieldOf;
    var n := r.sc.focus;
    HandoverMoves(c, s, r, ret);
    HandoverTo(c, s, r, ret);
    MovesOwned(s.sc, r.sc);
    if n != 0 {
      FocusWasAlive(c, s, r, ret);
      StackIsBlock(c, s.sc, n);
    }
    WaitingKept(c, s.sc, r.sc, n);
    assert Waits(c, s, n);
    InMemory(c, s.sc, n);
  }

  lemma InMemory(c: Site, s: Sched, p: int)
    requires Owned(s) && Placed(c, s) && 0 <= p < PROCLIMIT && Present(s, p)
    ensures Lo(c, s, p) <= Hi(c, s, p) < RAM_SIZE && Disjoint(Stack(c, s, p), Band(c.tmp, c.tmp + 4))
  {
    if p != 0 { RunInside(s.table, s.space, s.procs[p].stack); }
  }

  lemma StillPresent(c: Site, s: Sys, r: Sys, ret: word, q: int)
    requires Shaped(s.sc) && Handover(c, s, r, ret) && Present(r.sc, q)
    ensures Present(s.sc, q)
  {
    hide RunLen, Next, Legal, YieldOf;
    var e: Event :| (e == Yield(At(s.regs, ret)) || e == Exit(At(s.regs, ret))) && r.sc == Next(s.sc, e);
    if q != 0 { NobodyRises(s.sc, r.sc, At(s.regs, ret), q); }
  }

  lemma FocusLeft(c: Site, s: Sys, r: Sys)
    requires Isolated(c, s) && Step(c, s, r) && Shaped(r.sc) && Present(r.sc, s.sc.focus) && r.sc.focus != s.sc.focus
    ensures Ready(c, r.sc, s.sc.focus)
  {
    hide FreeOf, InStack, RunLen, Owned;
    var ret :| Handover(c, s, r, ret);
    LeaverRecorded(c, s, r, ret);
    StillPresent(c, s, r, ret, s.sc.focus);
  }

  /** Over any run of work, spawns, kills and handovers, processes that kill themselves included, the
      machine stays in order as long as nobody spawns into his own slot. */
  lemma {:induction false} RunIsolated(c: Site, u: seq<Sys>, k: nat)
    requires Run(c, u) && k < |u| && Loyal(u, k)
    ensures Isolated(c, u[k])
  {
    hide Isolated, Step, Takeover;
    if k > 0 {
      RunIsolated(c, u, k - 1);
      assert Step(c, u[k - 1], u[k - 1 + 1]) && !Takeover(u[k - 1].sc, u[k - 1 + 1].sc);
      IsolatedStep(c, u[k - 1], u[k]);
    }
  }

  // ----- Resuming -----

  /** Process `p` waits with record `rec`, and its stack still reads as in `m` outside [esp - 52, esp). */
  ghost predicate Parked(c: Site, s: Sys, p: int, rec: Ctx, m: seq<byte>, lo: nat, hi: nat, esp: nat) {
    && Shaped(s.sc) && 0 <= p < PROCLIMIT && Present(s.sc, p)
    && s.sc.ctxs[p] == rec && Lo(c, s.sc, p) == lo && Hi(c, s.sc, p) == hi && |s.mem| == |m| && hi <= |m|
    && (s.sc.focus != p ==> Disjoint(s.here, Band(lo, hi)))
    && forall i :: lo <= i < hi && !(esp - 52 <= i < esp) ==> s.mem[i] == m[i]
  }

  lemma SameFocus(c: Site, s: Sys, r: Sys)
    requires Shaped(s.sc) && (Work(c, s, r) || Call(c, s, r))
    ensures r.sc.focus == s.sc.focus
  {
    hide FreeOf, MallocOf, RunLen;
  }

  lemma NobodyRises(s: Sched, r: Sched, at: Ctx, p: int)
    requires Shaped(s) && (r == Next(s, Yield(at)) || r == Next(s, Exit(at))) && Alive(r, p)
    ensures Alive(s, p)
  {
    hide YieldOf;
    if !Alive(s, p) {
      YieldDead(s, at, p);
      YieldDead(KillOf(s, s.focus), at, p);
    }
  }

  /** The return address goes just under the saved stack pointer of the process that is switched
      in, inside its own stack. */
  lemma SlotInside(c: Site, s: Sys, r: Sys, ret: word)
    requires Isolated(c, s) && Owned(r.sc) && Handover(c, s, r, ret)
    ensures var n := r.sc.focus;
            0 <= n < PROCLIMIT && Present(s.sc, n) && Lo(c, s.sc, n) <= r.regs.esp - 4 && r.regs.esp <= Hi(c, s.sc, n)
  {
    hide RunLen, Next, Legal, YieldOf, Handover;
    IncomingWaits(c, s, r, ret);
    HandoverTo(c, s, r, ret);
    assert Ready(c, s.sc, r.sc.focus);
  }

  lemma HandoverTo(c: Site, s: Sys, r: Sys, ret: word)
    requires Shaped(s.sc) && Handover(c, s, r, ret)
    ensures Shaped(r.sc) && r.sc.focus != s.sc.focus && s.here.lo + 52 <= s.regs.esp <= s.here.hi
    ensures Resumed(r.sc.ctxs[r.sc.focus], s.regs.esp, r.regs) && r.regs.esp == r.sc.ctxs[r.sc.focus].esp
  {
  }

  /** Where everybody waits on his own stack the frame is in nobody's way. */
  lemma HandoverLoads(c: Site, s: Sys, r: Sys, ret: word)
    requires Isolated(c, s) && Owned(r.sc) && Handover(c, s, r, ret)
    ensures r.regs == r.sc.ctxs[r.sc.focus]
  {
    hide RunLen, Owned, Handover, LandsAt;
    var n := r.sc.focus;
    OwnedShaped(s.sc);
    IncomingWaits(c, s, r, ret);
    HandoverTo(c, s, r, ret);
    HandoverMoves(c, s, r, ret);
    WaitingKept(c, s.sc, r.sc, n);
    assert Ready(c, s.sc, n) && Waits(c, s, n);
    MissesLands(r.sc.ctxs[n], s.regs.esp - 52);
  }

  lemma FocusWasAlive(c: Site, s: Sys, r: Sys, ret: word)
    requires Shaped(s.sc) && Handover(c, s, r, ret) && r.sc.focus != 0
    ensures Alive(s.sc, r.sc.focus) && Alive(r.sc, r.sc.focus)
  {
    hide RunLen, Legal, InStack, FreeOf;
    var e: Event :| (e == Yield(At(s.regs, ret)) || e == Exit(At(s.regs, ret))) && r.sc == Next(s.sc, e);
    NobodyRises(s.sc, r.sc, At(s.regs, ret), r.sc.focus);
  }

  /** A switch between others leaves the stack of `p` alone; a switch to `p` writes only the word
      under its saved stack pointer. */
  lemma HandoverSpares(c: Site, s: Sys, r: Sys, ret: word, p: int)
    requires Isolated(c, s) && Owned(r.sc) && Handover(c, s, r, ret)
    requires 0 <= p < PROCLIMIT && Present(s.sc, p) && p != s.sc.focus && Disjoint(s.here, Stack(c, s.sc, p))
    ensures forall i :: Lo(c, s.sc, p) <= i < Hi(c, s.sc, p) && 0 <= i < |s.mem| ==>
                          r.mem[i] == s.mem[i] || (p == r.sc.focus && r.regs.esp - 4 <= i < r.regs.esp)
  {
    hide RunLen, Next, Legal, Owned;
    OwnedShaped(s.sc);
    InMemory(c, s.sc, p);
    SlotInside(c, s, r, ret);
    if r.sc.focus != p { StacksApart(c, s.sc, r.sc.focus, p); }
    forall i | Lo(c, s.sc, p) <= i < Hi(c, s.sc, p) && 0 <= i < |s.mem|
      ensures r.mem[i] == s.mem[i] || (p == r.sc.focus && r.regs.esp - 4 <= i < r.regs.esp)
    {
      assert OnStack(c, s.sc, p, i);
    }
  }

  lemma ParkedStep(c: Site, s: Sys, r: Sys, p: int, rec: Ctx, m: seq<byte>, lo: nat, hi: nat, esp: nat)
    requires Isolated(c, s) && Owned(r.sc) && Step(c, s, r) && Parked(c, s, p, rec, m, lo, hi, esp)
    requires p != s.sc.focus && Present(r.sc, p) && rec.esp == esp - 8
    ensures Parked(c, r, p, rec, m, lo, hi, esp)
    ensures r.sc.focus == p ==> r.regs == rec
  {
    hide Owned, Moves, RunLen;
    StepMoves(c, s, r);
    WaitingKept(c, s.sc, r.sc, p);
    if Work(c, s, r) || Call(c, s, r) {
      SameFocus(c, s, r);
      forall i | lo <= i < hi ensures r.mem[i] == s.mem[i] { assert OnStack(c, s.sc, p, i); }
    } else {
      var ret :| Handover(c, s, r, ret);
      HandoverSpares(c, s, r, ret, p);
      HandoverLoads(c, s, r, ret);
      IncomingWaits(c, s, r, ret);
      if r.sc.focus != p { StacksApart(c, s.sc, r.sc.focus, p); }
    }
  }

  lemma {:induction false} StaysParked(c: Site, u: seq<Sys>, p: int, i: nat, k: nat, rec: Ctx, m: seq<byte>, lo: nat,
                                       hi: nat, esp: nat)
    requires Run(c, u) && i < k < |u| && rec.esp == esp - 8 && Loyal(u, k)
    requires forall x :: i < x < k ==> u[x].sc.focus != p
    requires forall x :: i <= x <= k ==> Present(u[x].sc, p)
    requires Parked(c, u[i + 1], p, rec, m, lo, hi, esp)
    ensures Parked(c, u[k], p, rec, m, lo, hi, esp)
    ensures k > i + 1 && u[k].sc.focus == p ==> u[k].regs == rec
    decreases k
  {
    hide Parked, Standing, Ready, Step, Present, Takeover, Owned;
    if k > i + 1 {
      StaysParked(c, u, p, i, k - 1, rec, m, lo, hi, esp);
      RunIsolated(c, u, k - 1);
      RunIsolated(c, u, k);
      assert Step(c, u[k - 1], u[k - 1 + 1]);
      ParkedStep(c, u[k - 1], u[k], p, rec, m, lo, hi, esp);
    }
  }

  lemma ParksAtHandover(c: Site, s: Sys, r: Sys, ret: word)
    requires Isolated(c, s) && Owned(r.sc) && Handover(c, s, r, ret) && Present(r.sc, s.sc.focus)
    ensures Parked(c, r, s.sc.focus, At(s.regs, ret), s.mem, Lo(c, s.sc, s.sc.focus), Hi(c, s.sc, s.sc.focus),
                   s.regs.esp)
  {
    hide RunLen, Next, Legal, Owned;
    OwnedShaped(s.sc);
    LeaverRecorded(c, s, r, ret);
    StillPresent(c, s, r, ret, s.sc.focus);
    SlotInside(c, s, r, ret);
    IncomingWaits(c, s, r, ret);
    StacksApart(c, s.sc, s.sc.focus, r.sc.focus);
    var p := s.sc.focus;
    forall i | Lo(c, s.sc, p) <= i < Hi(c, s.sc, p) && !(s.regs.esp - 52 <= i < s.regs.esp)
      ensures r.mem[i] == s.mem[i]
    {
      assert OnStack(c, s.sc, p, i);
    }
  }

  /** Over any run of work, spawns, kills, yields and exits in which nobody spawns into his own slot:
      a process (or the kernel) that gives up the processor at state `i` and has it again at state `j`
      finds every register as its own call left it, with the call returned, and its stack unchanged but
      for the 52 bytes that the call itself used below its stack pointer. */
  lemma ResumesAsLeft(c: Site, u: seq<Sys>, p: int, i: nat, j: nat, ret: word)
    requires Run(c, u) && i + 1 < j < |u| && 0 <= p < PROCLIMIT && Shaped(u[i].sc) && Loyal(u, j)
    requires u[i].sc.focus == p && Handover(c, u[i], u[i + 1], ret)
    requires forall x :: i < x < j ==> u[x].sc.focus != p
    requires forall x :: i <= x <= j ==> Present(u[x].sc, p)
    requires u[j].sc.focus == p
    ensures u[j].regs == At(u[i].regs, ret)
    ensures Parked(c, u[j], p, At(u[i].regs, ret), u[i].mem, Lo(c, u[i].sc, p), Hi(c, u[i].sc, p), u[i].regs.esp)
  {
    hide Parked, Standing, Ready, Handover, Owned, Takeover;
    RunIsolated(c, u, i);
    RunIsolated(c, u, i + 1);
    HandoverTo(c, u[i], u[i + 1], ret);
    ParksAtHandover(c, u[i], u[i + 1], ret);
    StaysParked(c, u, p, i, j, At(u[i].regs, ret), u[i].mem, Lo(c, u[i].sc, p), Hi(c, u[i].sc, p), u[i].regs.esp);
  }

  // ----- Every run, takeovers included -----

  /** The processor comes to `p` at state `x`. */
  predicate Enters(u: seq<Sys>, p: int, x: int) {
    0 < x < |u| && u[x - 1].sc.focus != p && u[x].sc.focus == p
  }

  /** It does so in a handover. */
  lemma EntersBy(c: Site, u: seq<Sys>, p: int, x: int) returns (ret: word)
    requires Run(c, u) && Enters(u, p, x) && Shaped(u[x - 1].sc)
    ensures Handover(c, u[x - 1], u[x], ret)
    ensures Shaped(u[x].sc) && 52 <= u[x - 1].regs.esp && Resumed(u[x].sc.ctxs[p], u[x - 1].regs.esp, u[x].regs)
  {
    hide Isolated, Handover, LandsAt;
    ret := LeavesBy(c, u, x - 1);
    HandoverTo(c, u[x - 1], u[x], ret);
  }

  /** The stack of a context: the kernel's, or a block of the pool. */
  predicate Berth(c: Site, s: Sched, p: int, b: Band) {
    if p == 0 then b == Band(c.kLo, c.kHi) else PoolBlock(s.space, b)
  }

  /** What even a takeover keeps: whoever runs or waits does so on such a stack. */
  ghost predicate Berthed(c: Site, s: Sys) {
    && Owned(s.sc) && Placed(c, s.sc) && |s.saved| == PROCLIMIT && Berth(c, s.sc, s.sc.focus, s.here)
    && forall q :: 0 <= q < PROCLIMIT && Present(s.sc, q) && q != s.sc.focus ==> Berth(c, s.sc, q, s.saved[q])
  }

  lemma IsolatedBerthed(c: Site, s: Sys)
    requires Isolated(c, s)
    ensures Berthed(c, s)
  {
    hide RunLen, Owned;
    OwnedShaped(s.sc);
    forall q | 0 <= q < PROCLIMIT && Present(s.sc, q) && q != s.sc.focus ensures Berth(c, s.sc, q, s.saved[q]) {
      assert Waits(c, s, q);
      if q != 0 { StackIsBlock(c, s.sc, q); }
    }
  }

  lemma BerthedStep(c: Site, s: Sys, r: Sys)
    requires Berthed(c, s) && Step(c, s, r)
    ensures Berthed(c, r)
  {
    hide RunLen, Owned, Moves, Work, Call, Handover, PoolBlock;
    OwnedShaped(s.sc);
    StepMoves(c, s, r);
    MovesOwned(s.sc, r.sc);
    OwnedShaped(r.sc);
    if Work(c, s, r) || Call(c, s, r) {
      SameFocus(c, s, r);
      SavedOn(c, s, r);
      forall q | 0 < q < PROCLIMIT && Alive(r.sc, q) && !Alive(s.sc, q) ensures Berth(c, r.sc, q, r.saved[q]) {
        StackIsBlock(c, r.sc, q);
      }
    } else {
      var ret :| Handover(c, s, r, ret);
      HandoverSaves(c, s, r, ret);
      HandoverTo(c, s, r, ret);
      if r.sc.focus != 0 { FocusWasAlive(c, s, r, ret); }
      forall q | Present(r.sc, q) ensures Present(s.sc, q) { StillPresent(c, s, r, ret, q); }
    }
  }

  lemma {:induction false} RunBerthed(c: Site, u: seq<Sys>, k: nat)
    requires Run(c, u) && k < |u|
    ensures Berthed(c, u[k]) && Shaped(u[k].sc)
  {
    hide Step, Isolated, Berthed, Owned;
    if k == 0 {
      IsolatedBerthed(c, u[0]);
    } else {
      RunBerthed(c, u, k - 1);
      assert Step(c, u[k - 1], u[k - 1 + 1]);
      BerthedStep(c, u[k - 1], u[k]);
    }
    BerthedShaped(c, u[k]);
  }

  lemma BerthedShaped(c: Site, s: Sys)
    requires Berthed(c, s)
    ensures Shaped(s.sc) && Owned(s.sc) && Placed(c, s.sc)
  {
  }

  /** A record stays as it is while its process waits, in any run. */
  lemma {:induction false} RecordWaits(c: Site, u: seq<Sys>, p: int, i: nat, j: nat)
    requires Run(c, u) && i <= j < |u| && 0 < p < PROCLIMIT && Shaped(u[i].sc)
    requires forall x :: i <= x < j ==> u[x].sc.focus != p
    requires forall x :: i <= x <= j ==> Alive(u[x].sc, p)
    ensures Shaped(u[j].sc) && u[j].sc.ctxs[p] == u[i].sc.ctxs[p]
    ensures u[j].sc.procs[p].stack == u[i].sc.procs[p].stack
    decreases j
  {
    hide Step, Isolated, Alive;
    if i < j {
      RecordWaits(c, u, p, i, j - 1);
      assert Step(c, u[j - 1], u[j - 1 + 1]);
      StepMoves(c, u[j - 1], u[j]);
      RecordKept(u[j - 1].sc, u[j].sc, p);
      MovesShaped(u[j - 1].sc, u[j].sc);
    }
  }

  lemma MovesShaped(s: Sched, r: Sched)
    requires Moves(s, r)
    ensures Shaped(r)
  {
    hide FreeOf, MallocOf, InStack, WellFormed, RunLen, NameField, NextFrom, Blocks;
    var e :| Legal(s, e) && r == Next(s, e);
  }

  /** From state `k` on, `p` is an active process that `spawn` has just made. */
  ghost predicate Spawned(u: seq<Sys>, p: int, k: nat) {
    && k + 1 < |u| && 0 < p < PROCLIMIT && Shaped(u[k].sc) && Shaped(u[k + 1].sc)
    && !Alive(u[k].sc, p) && Alive(u[k + 1].sc, p)
  }

  /** Its first turn begins at `j`. */
  predicate FirstTurn(u: seq<Sys>, p: int, k: nat, j: nat) {
    k + 1 < j && Enters(u, p, j) && forall x :: k + 1 < x < j ==> !Enters(u, p, x)
  }

  /** In any run, a process whose slot was not its spawner's starts with the record that `spawn` wrote:
      its stack pointer is at the very top of its stack, above the frame of any caller on it. */
  lemma StartsAsSpawned(c: Site, u: seq<Sys>, p: int, k: nat, j: nat)
    requires Run(c, u) && Spawned(u, p, k) && FirstTurn(u, p, k, j) && u[k].sc.focus != p
    requires forall x :: k < x <= j ==> Alive(u[x].sc, p)
    ensures u[j].regs == u[k + 1].sc.ctxs[p]
  {
    hide Step, Isolated, Alive, Berthed, Handover, Resumed;
    SpawnKeepsFocus(c, u, p, k);
    NotBefore(u, p, k + 1, j);
    SpawnedTop(c, u, p, k);
    RecordWaits(c, u, p, k + 1, j);
    RunBerthed(c, u, j - 1);
    var ret := EntersBy(c, u, p, j);
    RunBerthed(c, u, j);
    TopLoads(c, u[j - 1], u[j], ret, p);
  }

  lemma SpawnedTop(c: Site, u: seq<Sys>, p: int, k: nat)
    requires Run(c, u) && Spawned(u, p, k)
    ensures u[k + 1].sc.ctxs[p].esp == u[k + 1].sc.procs[p].stack + STACKSIZE
  {
    hide Step, Isolated, Berthed, Owned;
    RunBerthed(c, u, k);
    BerthedShaped(c, u[k]);
    assert Step(c, u[k], u[k + 1]);
    StepMoves(c, u[k], u[k + 1]);
    NewcomerReady(c, u[k].sc, u[k + 1].sc, p);
  }

  lemma TopLoads(c: Site, s: Sys, r: Sys, ret: word, p: int)
    requires Berthed(c, s) && Berthed(c, r) && Handover(c, s, r, ret) && r.sc.focus == p && Alive(r.sc, p)
    requires r.sc.ctxs[p].esp == r.sc.procs[p].stack + STACKSIZE
    ensures r.regs == r.sc.ctxs[p]
  {
    hide RunLen, Owned, Handover, LandsAt, PoolBlock;
    BerthedShaped(c, s);
    BerthedShaped(c, r);
    HandoverTo(c, s, r, ret);
    HandoverMoves(c, s, r, ret);
    MovesOwned(s.sc, r.sc);
    StackIsBlock(c, r.sc, p);
    var b := Stack(c, r.sc, p);
    if s.sc.focus != 0 { BlocksMeet(s.sc.space, s.here, b); } else { BlockInPool(c, r.sc, p); }
    MissesLands(r.sc.ctxs[p], s.regs.esp - 52);
  }

  lemma BlockInPool(c: Site, s: Sched, p: int)
    requires Owned(s) && Alive(s, p)
    ensures s.space <= Lo(c, s, p) && Hi(c, s, p) <= s.space + BLKSIZE * |s.table|
  {
    RunInside(s.table, s.space, s.procs[p].stack);
  }

  lemma SpawnKeepsFocus(c: Site, u: seq<Sys>, p: int, k: nat)
    requires Run(c, u) && Spawned(u, p, k)
    ensures u[k + 1].sc.focus == u[k].sc.focus
  {
    hide Isolated;
    assert Step(c, u[k], u[k + 1]);
    if Work(c, u[k], u[k + 1]) || Call(c, u[k], u[k + 1]) {
      SameFocus(c, u[k], u[k + 1]);
    } else {
      var ret :| Handover(c, u[k], u[k + 1], ret);
      StillPresent(c, u[k], u[k + 1], ret, p);
    }
  }

  lemma {:induction false} NotBefore(u: seq<Sys>, p: int, i: nat, j: nat)
    requires i < j < |u| && u[i].sc.focus != p && forall x :: i < x < j ==> !Enters(u, p, x)
    ensures forall x :: i <= x < j ==> u[x].sc.focus != p
    decreases j
  {
    if i < j - 1 {
      NotBefore(u, p, i, j - 1);
      assert !Enters(u, p, j - 1);
    }
  }

  /** A process spawned into its spawner's own slot never does. Its first turn has the registers that its
      spawner had in the call that gave up the processor; it is that call's return, except where the
      frame of the switch that enters it lies over the return address. */
  lemma StartsAsSpawner(c: Site, u: seq<Sys>, p: int, k: nat, j: nat) returns (i: nat, ret: word)
    requires Run(c, u) && Spawned(u, p, k) && FirstTurn(u, p, k, j) && u[k].sc.focus == p
    requires forall x :: k < x <= j ==> Alive(u[x].sc, p)
    ensures k < i < j && Shaped(u[i].sc) && u[i].sc.focus == p && Handover(c, u[i], u[i + 1], ret)
    ensures var n := At(u[i].regs, ret);
            && 4 <= n.esp && 52 <= u[j - 1].regs.esp && u[j].regs == n.(eip := LandsAt(n, u[j - 1].regs.esp - 52))
            && (Misses(n, u[j - 1].regs.esp - 52) ==> u[j].regs == n)
  {
    hide Step, Isolated, Alive, Handover, LandsAt;
    SpawnKeepsFocus(c, u, p, k);
    i := Leaves(u, p, k + 1, j);
    RunShaped(c, u, i);
    ret := LeavesBy(c, u, i);
    HandoverTo(c, u[i], u[i + 1], ret);
    LeaverRecorded(c, u[i], u[i + 1], ret);
    NotBefore(u, p, i + 1, j);
    RecordWaits(c, u, p, i + 1, j);
    RunShaped(c, u, j - 1);
    var r := EntersBy(c, u, p, j);
    var n := At(u[i].regs, ret);
    if Misses(n, u[j - 1].regs.esp - 52) { MissesLands(n, u[j - 1].regs.esp - 52); }
  }

  lemma {:induction false} Leaves(u: seq<Sys>, p: int, i: nat, j: nat) returns (k: nat)
    requires i < j < |u| && u[i].sc.focus == p && Enters(u, p, j)
    ensures i <= k && k + 1 < j && u[k].sc.focus == p && u[k + 1].sc.focus != p
    decreases j - i
  {
    if u[i + 1].sc.focus != p { k := i; } else { k := Leaves(u, p, i + 1, j); }
  }

  lemma LeavesBy(c: Site, u: seq<Sys>, i: nat) returns (ret: word)
    requires Run(c, u) && i + 1 < |u| && u[i + 1].sc.focus != u[i].sc.focus && Shaped(u[i].sc)
    ensures Handover(c, u[i], u[i + 1], ret)
  {
    hide Isolated, Handover;
    assert Step(c, u[i], u[i + 1]);
    if Work(c, u[i], u[i + 1]) || Call(c, u[i], u[i + 1]) { SameFocus(c, u[i], u[i + 1]); }
    ret :| Handover(c, u[i], u[i + 1], ret);
  }

  lemma {:induction false} RunShaped(c: Site, u: seq<Sys>, k: nat)
    requires Run(c, u) && k < |u|
    ensures Shaped(u[k].sc)
  {
    hide Step;
    if k > 0 {
      RunShaped(c, u, k - 1);
      assert Step(c, u[k - 1], u[k - 1 + 1]);
      StepMoves(c, u[k - 1], u[k]);
      MovesShaped(u[k - 1].sc, u[k].sc);
    }
  }

  /** So a spawned process starts at its program exactly when its spawner was not in its slot. */
  lemma StartsAtProgramIff(c: Site, u: seq<Sys>, p: int, k: nat, j: nat)
    requires Run(c, u) && Spawned(u, p, k) && FirstTurn(u, p, k, j)
    requires forall x :: k < x <= j ==> Alive(u[x].sc, p)
    ensures u[j].regs == u[k + 1].sc.ctxs[p] <==> u[k].sc.focus != p
  {
    hide Run, Handover, Alive, Berthed, LandsAt;
    if u[k].sc.focus != p {
      StartsAsSpawned(c, u, p, k, j);
    } else {
      var i, ret := StartsAsSpawner(c, u, p, k, j);
      SpawnedTop(c, u, p, k);
      RunBerthed(c, u, i);
      RunBerthed(c, u, k + 1);
      NotTop(c, u, p, k, i, ret);
    }
  }

  /** The spawner's stack pointer is inside a block, the newcomer's at the top of one. */
  lemma NotTop(c: Site, u: seq<Sys>, p: int, k: nat, i: nat, ret: word)
    requires Run(c, u) && k + 1 <= i && i + 1 < |u| && 0 < p < PROCLIMIT && Berthed(c, u[k + 1]) && Berthed(c, u[i])
    requires Alive(u[k + 1].sc, p) && u[i].sc.focus == p && Shaped(u[i].sc) && Handover(c, u[i], u[i + 1], ret)
    ensures At(u[i].regs, ret).esp != u[k + 1].sc.procs[p].stack + STACKSIZE
  {
    hide RunLen, Owned, Handover, PoolBlock, Run;
    BerthedShaped(c, u[k + 1]);
    HandoverTo(c, u[i], u[i + 1], ret);
    SameSpace(c, u, k + 1, i);
    var b := Stack(c, u[k + 1].sc, p);
    StackIsBlock(c, u[k + 1].sc, p);
    BlocksMeet(u[i].sc.space, u[i].here, b);
    BlockSize(u[i].sc.space, u[i].here);
    BlockSize(u[i].sc.space, b);
  }

  lemma BlockSize(space: nat, b: Band)
    requires PoolBlock(space, b)
    ensures b.hi == b.lo + STACKSIZE
  {
  }

  lemma {:induction false} SameSpace(c: Site, u: seq<Sys>, i: nat, j: nat)
    requires Run(c, u) && i <= j < |u|
    ensures u[j].sc.space == u[i].sc.space
    decreases j
  {
    hide Step, Isolated, Berthed, Owned;
    if i < j {
      SameSpace(c, u, i, j - 1);
      RunBerthed(c, u, j - 1);
      BerthedShaped(c, u[j - 1]);
      assert Step(c, u[j - 1], u[j - 1 + 1]);
      StepMoves(c, u[j - 1], u[j]);
      MovesOwned(u[j - 1].sc, u[j].sc);
    }
  }
}
