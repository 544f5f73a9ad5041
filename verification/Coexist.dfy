/** The scheduler and the file system in one memory: no scheduler call touches a file, and no file call
    a stack in use. */
module Coexist {
  import opened Bytes
  import opened Switch
  import opened Memory
  import opened FsSpec
  import opened Store
  import opened Schedule
  import opened Isolation
  import opened Multitask

  /** What the linker and the initialisation fix: stacks and scratch word, the kernel's record, the
      process vector. */
  datatype Fixed = Fixed(c: Site, kernel: nat, base: nat)

  /** The file system's share of a machine state; `ptrs` are its entries. */
  function Disk(u: Sys, ptrs: seq<nat>): Fs {
    Fs(u.sc.table, u.sc.space, ptrs, u.mem)
  }

  /** The run at `q`. */
  function RunBand(s: Sched, q: nat): Band {
    Band(q, q + BLKSIZE * RunLen(s.table, s.space, q))
  }

  /** A stack that shares no byte with an entry. */
  ghost predicate OffFiles(s: Sched, ptrs: seq<nat>, b: Band) {
    forall q :: q in ptrs && q != 0 ==> Disjoint(b, RunBand(s, q))
  }

  /** Context `q` waits. */
  predicate Idles(s: Sched, q: int) {
    0 <= q < PROCLIMIT && Present(s, q) && q != s.focus
  }

  /** No stack in use shares a byte with an entry. */
  ghost predicate Moored(u: Sys, ptrs: seq<nat>)
    requires Shaped(u.sc)
  {
    && |u.saved| == PROCLIMIT && OffFiles(u.sc, ptrs, u.here)
    && forall q :: Idles(u.sc, q) ==> OffFiles(u.sc, ptrs, u.saved[q])
  }

  /** No entry is the process vector or a stack. */
  ghost predicate Separate(f: Fs, s: Sched, vector: nat) {
    && vector !in f.ptrs && forall p :: Alive(s, p) ==> s.procs[p].stack !in f.ptrs
  }

  ghost predicate Quiet(w: Fixed, u: Sys, ptrs: seq<nat>) {
    && Steady(w.c, w.base, u.sc) && Linked(w.c, w.kernel, u.sc) && RecordsFit(w.kernel, w.base) && |u.mem| == RAM_SIZE
    && Docked(w.c, w.kernel, w.base, u)
    && Consistent(Disk(u, ptrs)) && Separate(Disk(u, ptrs), u.sc, w.base) && Moored(u, ptrs)
  }

  /** The running process computes on the stack it is on. */
  ghost predicate Computes(u: Sys, v: Sys) {
    v == u.(regs := v.regs, mem := v.mem) && |v.mem| == |u.mem| &&
    forall i :: 0 <= i < |u.mem| && !(u.here.lo <= i < u.here.hi) ==> v.mem[i] == u.mem[i]
  }

  ghost predicate Turn(w: Fixed, u: Sys, v: Sys) {
    Shaped(u.sc) && (Computes(u, v) || Scheduled(w.c, w.kernel, w.base, u, v))
  }

  // ----- The allocator's table -----

  /** A scheduler call changes no run but stacks. */
  lemma EventRuns(s: Sched, e: Event, q: int)
    requires Owned(s) && Legal(s, e) && !e.Other? && RunLen(s.table, s.space, q) > 0
    requires forall p :: Alive(s, p) ==> s.procs[p].stack != q
    ensures RunLen(Next(s, e).table, s.space, q) == RunLen(s.table, s.space, q)
  {
    hide RunLen, MallocOf, FreeOf, WellFormed, InStack, NameField, NextFrom;
    OwnedShaped(s);
    match e
    case Spawn(d, name, prog) => MallocAdds(s.table, s.space, STACKSIZE);
    case Kill(pid) => if Alive(s, pid) { KillReleasesStack(s, pid); }
    case _ => if Alive(s, s.focus) { KillReleasesStack(s, s.focus); }
  }

  /** A stack is an old one or a fresh run. */
  lemma EventStacks(s: Sched, e: Event, p: int)
    requires Owned(s) && Legal(s, e) && !e.Other? && Alive(Next(s, e), p)
    ensures var r := Next(s, e);
            (Alive(s, p) && r.procs[p].stack == s.procs[p].stack) || RunLen(s.table, s.space, r.procs[p].stack) == 0
  {
    hide RunLen, MallocOf, FreeOf, WellFormed, InStack, NameField, NextFrom;
    OwnedShaped(s);
    match e
    case Spawn(d, name, prog) => MallocAdds(s.table, s.space, STACKSIZE);
    case _ =>
  }

  lemma EventSteady(c: Site, base: nat, s: Sched, e: Event)
    requires Steady(c, base, s) && !e.Other?
    ensures Steady(c, base, Next(s, e)) && Next(s, e).space == s.space && |Next(s, e).table| == |s.table|
  {
    hide Steady, Owned, SpawnOf, KillOf, YieldOf;
    ShapedOfSteady(c, base, s);
    match e {
      case Spawn(d, name, prog) => SpawnSteady(c, base, s, d, name, prog);
      case Kill(pid) => KillSteady(c, base, s, pid);
      case Yield(at) => YieldSteady(c, base, s, at);
      case Exit(at) =>
        if s.focus != 0 {
          KillSteady(c, base, s, s.focus);
          YieldSteady(c, base, KillOf(s, s.focus), at);
        }
    }
    SameTable(s, e);
  }

  lemma SameTable(s: Sched, e: Event)
    requires Shaped(s) && !e.Other?
    ensures Next(s, e).space == s.space && |Next(s, e).table| == |s.table|
  {
    hide RunLen, MallocOf, FreeOf, InStack, NameField, NextFrom;
  }

  /** The event of a scheduler call. */
  lemma EventOf(w: Fixed, u: Sys, v: Sys) returns (e: Event)
    requires Shaped(u.sc) && Scheduled(w.c, w.kernel, w.base, u, v)
    ensures Legal(u.sc, e) && !e.Other? && v.sc == Next(u.sc, e)
  {
    hide Legal, Next;
    if Call(w.c, u, v) {
      e :| (e.Spawn? || e.Kill?) && Legal(u.sc, e)
           && v.sc == Next(u.sc, e);
    } else {
      var ret :| Handover(w.c, u, v, ret);
      e :| (e == Event.Yield(At(u.regs, ret)) || e == Event.Exit(At(u.regs, ret))) && Legal(u.sc, e)
           && v.sc == Next(u.sc, e);
    }
  }

  // ----- Memory -----

  /** An entry's run lies in the pool, apart from the vector and from every stack. */
  lemma EntryApart(w: Fixed, u: Sys, ptrs: seq<nat>, q: nat)
    requires Quiet(w, u, ptrs) && q in ptrs && q != 0
    ensures RunLen(u.sc.table, u.sc.space, q) > 0 && q != w.base
    ensures forall p :: Alive(u.sc, p) ==> u.sc.procs[p].stack != q
    ensures var b := RunBand(u.sc, q);
            && u.sc.space <= b.lo && b.hi <= u.sc.space + BLKSIZE * |u.sc.table|
            && Disjoint(b, Band(w.base, w.base + VECTOR_SIZE))
  {
    hide Moored, WellFormed, Owned, RunLen;
    ShapedOfSteady(w.c, w.base, u.sc);
    var j :| 0 <= j < |ptrs| && ptrs[j] == q;
    ShapeOf(Disk(u, ptrs));
    EntryHoused(Disk(u, ptrs), j);
    RunInside(u.sc.table, u.sc.space, q);
    RunsApart(u.sc.table, u.sc.space, w.base, q);
  }

  /** A computation and a scheduler call leave the bytes of every entry alone. */
  lemma EntryBytes(w: Fixed, u: Sys, v: Sys, ptrs: seq<nat>, q: nat)
    requires Quiet(w, u, ptrs) && Turn(w, u, v) && q in ptrs && q != 0
    ensures |v.mem| == |u.mem| && Same(u.mem, v.mem, q, RunBand(u.sc, q).hi)
  {
    hide RunLen, Owned, Consistent, Placed;
    EntryApart(w, u, ptrs, q);
    assert Disjoint(u.here, RunBand(u.sc, q));
    if !Computes(u, v) {
      PlacedOf(w, u, ptrs);
      if Call(w.c, u, v) && exists pid ::
           0 <= pid < PROCLIMIT && Kept(u.mem, v.mem, CtxAddr(w.kernel, w.base, pid), CTX_SIZE, 0, 0) {
        var pid :| 0 <= pid < PROCLIMIT && Kept(u.mem, v.mem, CtxAddr(w.kernel, w.base, pid), CTX_SIZE, 0, 0);
      } else {
        var ret :| Handover(w.c, u, v, ret);
        FrameOffEntry(w, u, v, ptrs, ret, q);
      }
    }
  }

  lemma PlacedOf(w: Fixed, u: Sys, ptrs: seq<nat>)
    requires Quiet(w, u, ptrs)
    ensures Placed(w.c, u.sc) && Owned(u.sc)
  {
  }

  /** What a switch writes, byte by byte. */
  lemma FrameOffEntry(w: Fixed, u: Sys, v: Sys, ptrs: seq<nat>, ret: word, q: nat)
    requires Quiet(w, u, ptrs) && Handover(w.c, u, v, ret) && Framed(w.c, w.kernel, w.base, u, v) && q in ptrs && q != 0
    ensures Same(u.mem, v.mem, q, RunBand(u.sc, q).hi)
  {
    hide RunLen, Owned, Consistent, Next, Legal;
    EntryApart(w, u, ptrs, q);
    PlacedOf(w, u, ptrs);
    Incoming(w, u, v, ptrs, ret);
    assert Disjoint(u.here, RunBand(u.sc, q)) && Disjoint(v.here, RunBand(u.sc, q));
  }

  /** The context that is switched in was waiting on a stack that is off the files. */
  lemma Incoming(w: Fixed, u: Sys, v: Sys, ptrs: seq<nat>, ret: word)
    requires Quiet(w, u, ptrs) && Handover(w.c, u, v, ret)
    ensures var n := v.sc.focus;
            && 0 <= n < PROCLIMIT && Present(u.sc, n) && n != u.sc.focus && v.here == u.saved[n]
            && v.regs.esp == u.sc.ctxs[n].esp
            && v.here.lo + 4 <= v.regs.esp <= v.here.hi && OffFiles(u.sc, ptrs, v.here)
  {
    hide RunLen, Owned, Consistent, Next, Legal, OffFiles;
    var n := v.sc.focus;
    HandoverMoves(w.c, u, v, ret);
    HandoverTo(w.c, u, v, ret);
    if n != 0 { FocusWasAlive(w.c, u, v, ret); }
    WaitingKept(w.c, u.sc, v.sc, n);
    assert Idles(u.sc, n) && DockedAt(w.c, w.kernel, w.base, u, n);
  }

  // ----- One turn -----

  /** The runs of the entries keep their length and their bytes: the files are what they were. */
  lemma TurnFiles(w: Fixed, u: Sys, v: Sys, ptrs: seq<nat>)
    requires Quiet(w, u, ptrs) && Turn(w, u, v)
    ensures Steady(w.c, w.base, v.sc) && v.sc.space == u.sc.space && |v.sc.table| == |u.sc.table| && |v.mem| == RAM_SIZE
    ensures Consistent(Disk(v, ptrs)) && View(Disk(v, ptrs)) == View(Disk(u, ptrs))
    ensures forall q :: q in ptrs && q != 0 ==> RunBand(v.sc, q) == RunBand(u.sc, q)
  {
    hide RunLen, Owned, Consistent, Scheduled, Moored, Separate, WellFormed;
    ShapedOfSteady(w.c, w.base, u.sc);
    ShapeOf(Disk(u, ptrs));
    if Computes(u, v) {
      forall q | q in ptrs && q != 0 ensures SameRun(Disk(u, ptrs), Disk(v, ptrs), q) { EntryBytes(w, u, v, ptrs, q); }
      TurnLength(u, v);
    } else {
      var e := EventOf(w, u, v);
      EventSteady(w.c, w.base, u.sc, e);
      SteadyOwned(w.c, w.base, u.sc);
      ScheduledLength(w, u, v);
      forall q | q in ptrs && q != 0 ensures SameRun(Disk(u, ptrs), Disk(v, ptrs), q) {
        EntryApart(w, u, ptrs, q);
        EventRuns(u.sc, e, q);
        EntryBytes(w, u, v, ptrs, q);
      }
    }
    ShapedOfSteady(w.c, w.base, v.sc);
    EntriesKept(Disk(u, ptrs), Disk(v, ptrs));
  }

  lemma SteadyOwned(c: Site, base: nat, s: Sched)
    requires Steady(c, base, s)
    ensures Owned(s) && Placed(c, s)
  {
  }

  lemma TurnLength(u: Sys, v: Sys)
    requires Computes(u, v)
    ensures |v.mem| == |u.mem| && v.sc == u.sc && v.here == u.here && v.saved == u.saved
  {
  }

  lemma ScheduledLength(w: Fixed, u: Sys, v: Sys)
    requires Shaped(u.sc) && Scheduled(w.c, w.kernel, w.base, u, v)
    ensures |v.mem| == |u.mem|
  {
  }

  lemma EntriesKept(f: Fs, g: Fs)
    requires Consistent(f) && Shape(g) && g.ptrs == f.ptrs && g.space == f.space
    requires forall q :: q in f.ptrs && q != 0 ==> SameRun(f, g, q)
    ensures Consistent(g) && View(g) == View(f)
    ensures forall q :: q in f.ptrs && q != 0 ==> RunLen(g.table, g.space, q) == RunLen(f.table, f.space, q)
  {
    hide RunLen, Consistent;
    ShapeOf(f);
    assert forall j :: 0 <= j < ENTCOUNT && f.ptrs[j] != 0 ==> f.ptrs[j] in f.ptrs;
    AllKept(f, g);
  }

  /** No stack becomes an entry. */
  lemma TurnSeparate(w: Fixed, u: Sys, v: Sys, ptrs: seq<nat>)
    requires Quiet(w, u, ptrs) && Turn(w, u, v)
    ensures Separate(Disk(v, ptrs), v.sc, w.base)
  {
    hide RunLen, Owned, Consistent, Scheduled, Moored, WellFormed;
    if !Computes(u, v) {
      var e := EventOf(w, u, v);
      SteadyOwned(w.c, w.base, u.sc);
      forall p | Alive(v.sc, p) ensures v.sc.procs[p].stack !in ptrs {
        EventStacks(u.sc, e, p);
        StackPositive(w, u, v, ptrs, p);
        if v.sc.procs[p].stack in ptrs { EntryApart(w, u, ptrs, v.sc.procs[p].stack); }
      }
    }
  }

  lemma StackPositive(w: Fixed, u: Sys, v: Sys, ptrs: seq<nat>, p: int)
    requires Quiet(w, u, ptrs) && Turn(w, u, v) && Alive(v.sc, p)
    ensures v.sc.procs[p].stack != 0
  {
    hide Turn, Consistent, Separate, Moored;
    TurnFiles(w, u, v, ptrs);
    SteadyOwned(w.c, w.base, v.sc);
    assert RunLen(v.sc.table, v.sc.space, v.sc.procs[p].stack) == 1;
  }

  /** The stacks stay off the files, whoever is spawned, killed or switched in. */
  lemma TurnMoored(w: Fixed, u: Sys, v: Sys, ptrs: seq<nat>)
    requires Quiet(w, u, ptrs) && Turn(w, u, v)
    ensures Shaped(v.sc) && Moored(v, ptrs)
  {
    hide RunLen, Owned, Consistent, Separate, WellFormed, OffFiles;
    TurnFiles(w, u, v, ptrs);
    ShapedOfSteady(w.c, w.base, v.sc);
    SameBands(u.sc, v.sc, ptrs);
    if Computes(u, v) {
      TurnLength(u, v);
    } else if exists ret :: Handover(w.c, u, v, ret) {
      var ret :| Handover(w.c, u, v, ret);
      HandMoored(w, u, v, ptrs, ret);
    } else {
      CallMoored(w, u, v, ptrs);
    }
  }

  lemma SameBands(s: Sched, r: Sched, ptrs: seq<nat>)
    requires forall q :: q in ptrs && q != 0 ==> RunBand(r, q) == RunBand(s, q)
    ensures forall b :: OffFiles(r, ptrs, b) <==> OffFiles(s, ptrs, b)
  {
  }

  lemma HandMoored(w: Fixed, u: Sys, v: Sys, ptrs: seq<nat>, ret: word)
    requires Quiet(w, u, ptrs) && Handover(w.c, u, v, ret) && Shaped(v.sc)
    requires forall b :: OffFiles(v.sc, ptrs, b) <==> OffFiles(u.sc, ptrs, b)
    ensures Moored(v, ptrs)
  {
    hide RunLen, Owned, Consistent, Separate, OffFiles, Next, Legal;
    Incoming(w, u, v, ptrs, ret);
    HandoverSaves(w.c, u, v, ret);
    HandoverMoves(w.c, u, v, ret);
    forall q | Idles(v.sc, q) ensures OffFiles(v.sc, ptrs, v.saved[q]) {
      StillPresent(w.c, u, v, ret, q);
      assert q == u.sc.focus || Idles(u.sc, q);
    }
  }

  /** Who gives up the processor, and who waits on, does so in good order. */
  lemma HandDocked(w: Fixed, u: Sys, v: Sys, ptrs: seq<nat>, ret: word)
    requires Quiet(w, u, ptrs) && Handover(w.c, u, v, ret) && Shaped(v.sc)
    ensures Docked(w.c, w.kernel, w.base, v)
  {
    hide RunLen, Owned, Consistent, Separate, Moored, Next, Legal, Grounded;
    Incoming(w, u, v, ptrs, ret);
    HandoverSaves(w.c, u, v, ret);
    HandoverMoves(w.c, u, v, ret);
    assert DockedAt(w.c, w.kernel, w.base, u, v.sc.focus);
    forall q | 0 <= q < PROCLIMIT && Present(v.sc, q) && q != v.sc.focus ensures DockedAt(w.c, w.kernel, w.base, v, q) {
      StillPresent(w.c, u, v, ret, q);
      if q == u.sc.focus {
        LeaverRecorded(w.c, u, v, ret);
      } else {
        WaitingKept(w.c, u.sc, v.sc, q);
        assert DockedAt(w.c, w.kernel, w.base, u, q);
      }
    }
  }

  lemma CallDocked(w: Fixed, u: Sys, v: Sys, ptrs: seq<nat>)
    requires Quiet(w, u, ptrs) && Call(w.c, u, v) && Steady(w.c, w.base, v.sc) && v.sc.space == u.sc.space
    requires |v.sc.table| == |u.sc.table|
    ensures Docked(w.c, w.kernel, w.base, v)
  {
    hide RunLen, Owned, Consistent, Separate, Moored, Call, Grounded, Placed;
    CallSaves(w.c, u, v);
    CallMoves(w.c, u, v);
    SteadyOwned(w.c, w.base, u.sc);
    forall q | 0 <= q < PROCLIMIT && Present(v.sc, q) && q != v.sc.focus ensures DockedAt(w.c, w.kernel, w.base, v, q) {
      if Present(u.sc, q) {
        WaitingKept(w.c, u.sc, v.sc, q);
        assert DockedAt(w.c, w.kernel, w.base, u, q);
      } else {
        NewcomerReady(w.c, u.sc, v.sc, q);
        StackGrounded(w.c, w.kernel, w.base, v.sc, q);
      }
    }
  }

  lemma TurnDocked(w: Fixed, u: Sys, v: Sys, ptrs: seq<nat>)
    requires Quiet(w, u, ptrs) && Turn(w, u, v)
    ensures Shaped(v.sc) && Docked(w.c, w.kernel, w.base, v)
  {
    hide RunLen, Owned, Consistent, Separate, Moored, Call, Handover, Grounded, Framed, Placed;
    TurnFiles(w, u, v, ptrs);
    ShapedOfSteady(w.c, w.base, v.sc);
    TurnKinds(w, u, v);
    if Computes(u, v) {
      forall q | 0 <= q < PROCLIMIT && Present(v.sc, q) && q != v.sc.focus
        ensures DockedAt(w.c, w.kernel, w.base, v, q) {
        assert DockedAt(w.c, w.kernel, w.base, u, q);
      }
    } else if ret: word :| Handover(w.c, u, v, ret) {
      HandDocked(w, u, v, ptrs, ret);
    } else {
      CallDocked(w, u, v, ptrs);
    }
  }

  lemma CallMoored(w: Fixed, u: Sys, v: Sys, ptrs: seq<nat>)
    requires Quiet(w, u, ptrs) && Call(w.c, u, v) && Turn(w, u, v) && Shaped(v.sc)
    requires forall b :: OffFiles(v.sc, ptrs, b) <==> OffFiles(u.sc, ptrs, b)
    ensures Moored(v, ptrs)
  {
    hide RunLen, Owned, Consistent, Separate, OffFiles, Call, Turn, Placed;
    CallSaves(w.c, u, v);
    CallMoves(w.c, u, v);
    forall q | Idles(v.sc, q) ensures OffFiles(v.sc, ptrs, v.saved[q]) {
      if Present(u.sc, q) {
        assert Idles(u.sc, q);
      } else {
        StackOffFiles(w, u, v, ptrs, q);
      }
    }
  }

  lemma CallSaves(c: Site, u: Sys, v: Sys)
    requires Shaped(u.sc) && Call(c, u, v)
    ensures v.here == u.here && Fresh(c, u, v)
  {
  }

  lemma CallMoves(c: Site, u: Sys, v: Sys)
    requires Shaped(u.sc) && Call(c, u, v)
    ensures Moves(u.sc, v.sc) && v.sc.focus == u.sc.focus
  {
    StepMoves(c, u, v);
    SameFocus(c, u, v);
  }

  lemma StackOffFiles(w: Fixed, u: Sys, v: Sys, ptrs: seq<nat>, p: int)
    requires Quiet(w, u, ptrs) && Turn(w, u, v) && 0 < p < PROCLIMIT && Alive(v.sc, p)
    ensures OffFiles(v.sc, ptrs, Stack(w.c, v.sc, p))
  {
    hide Turn, Consistent, Moored, WellFormed;
    TurnFiles(w, u, v, ptrs);
    TurnSeparate(w, u, v, ptrs);
    SteadyOwned(w.c, w.base, v.sc);
    StackApartFromEntries(w, u, v, ptrs, p);
  }

  lemma StackApartFromEntries(w: Fixed, u: Sys, v: Sys, ptrs: seq<nat>, p: int)
    requires Quiet(w, u, ptrs) && Owned(v.sc) && Alive(v.sc, p) && Separate(Disk(v, ptrs), v.sc, w.base)
    requires v.sc.space == u.sc.space && forall q :: q in ptrs && q != 0 ==> RunBand(v.sc, q) == RunBand(u.sc, q)
    ensures OffFiles(v.sc, ptrs, Stack(w.c, v.sc, p))
  {
    hide RunLen, Consistent, Moored, WellFormed;
    var a := v.sc.procs[p].stack;
    forall q | q in ptrs && q != 0 ensures Disjoint(Stack(w.c, v.sc, p), RunBand(v.sc, q)) {
      EntryApart(w, u, ptrs, q);
      assert RunBand(v.sc, q) == RunBand(u.sc, q);
      RunsApart(v.sc.table, v.sc.space, a, q);
    }
  }

  lemma TurnQuiet(w: Fixed, u: Sys, v: Sys, ptrs: seq<nat>)
    requires Quiet(w, u, ptrs) && Turn(w, u, v)
    ensures Quiet(w, v, ptrs) && View(Disk(v, ptrs)) == View(Disk(u, ptrs))
  {
    hide Turn, Moored, Docked, Consistent, Separate, Owned, RunLen;
    TurnFiles(w, u, v, ptrs);
    TurnSeparate(w, u, v, ptrs);
    TurnMoored(w, u, v, ptrs);
    TurnDocked(w, u, v, ptrs);
  }

  // ----- Memory outside the pool -----

  /** A region such as a mounted archive: outside the pool, and neither the scratch word nor the kernel's
      record. */
  predicate Remote(w: Fixed, s: Sched, b: Band) {
    && (b.hi <= s.space || s.space + BLKSIZE * |s.table| <= b.lo)
    && Disjoint(b, Band(w.c.tmp, w.c.tmp + 4)) && Disjoint(b, Band(w.kernel, w.kernel + CTX_SIZE))
  }

  /** No stack in use shares a byte with it. */
  ghost predicate Afar(u: Sys, b: Band)
    requires Shaped(u.sc)
  {
    && |u.saved| == PROCLIMIT && Disjoint(u.here, b)
    && forall q :: 0 <= q < PROCLIMIT && Present(u.sc, q) && q != u.sc.focus ==> Disjoint(u.saved[q], b)
  }

  lemma TurnAfar(w: Fixed, u: Sys, v: Sys, ptrs: seq<nat>, b: Band)
    requires Quiet(w, u, ptrs) && Turn(w, u, v) && Remote(w, u.sc, b) && Afar(u, b)
    ensures Shaped(v.sc) && Remote(w, v.sc, b) && Afar(v, b) && |v.mem| == |u.mem| && Same(u.mem, v.mem, b.lo, b.hi)
  {
    hide RunLen, Owned, Consistent, Separate, Moored, Turn, Next, Legal;
    TurnFiles(w, u, v, ptrs);
    ShapedOfSteady(w.c, w.base, v.sc);
    TurnKinds(w, u, v);
    if !Computes(u, v) {
      VectorInPool(w, u, ptrs);
      if ret: word :| Handover(w.c, u, v, ret) && Framed(w.c, w.kernel, w.base, u, v) {
        HandAfar(w, u, v, ptrs, ret, b);
      } else {
        CallAfar(w, u, v, ptrs, b);
      }
    }
  }

  lemma TurnKinds(w: Fixed, u: Sys, v: Sys)
    requires Turn(w, u, v) && Shaped(u.sc)
    ensures || Computes(u, v) || (Framed(w.c, w.kernel, w.base, u, v) && exists ret :: Handover(w.c, u, v, ret))
            || (Call(w.c, u, v) && exists pid :: 0 <= pid < PROCLIMIT
                                                 && Kept(u.mem, v.mem, CtxAddr(w.kernel, w.base, pid), CTX_SIZE, 0, 0))
  {
    hide Call, Handover, Framed;
  }

  lemma VectorInPool(w: Fixed, u: Sys, ptrs: seq<nat>)
    requires Quiet(w, u, ptrs)
    ensures u.sc.space <= w.base && w.base + VECTOR_SIZE <= u.sc.space + BLKSIZE * |u.sc.table|
  {
    hide Consistent, Moored, Separate, RunLen;
    RunInside(u.sc.table, u.sc.space, w.base);
  }

  lemma HandAfar(w: Fixed, u: Sys, v: Sys, ptrs: seq<nat>, ret: word, b: Band)
    requires Quiet(w, u, ptrs) && Handover(w.c, u, v, ret) && Framed(w.c, w.kernel, w.base, u, v) && Remote(w, u.sc, b)
    requires Afar(u, b)
    requires Shaped(v.sc) && u.sc.space <= w.base && w.base + VECTOR_SIZE <= u.sc.space + BLKSIZE * |u.sc.table|
    ensures Afar(v, b) && Same(u.mem, v.mem, b.lo, b.hi)
  {
    hide RunLen, Owned, Consistent, Separate, Moored, Next, Legal;
    Incoming(w, u, v, ptrs, ret);
    HandoverSaves(w.c, u, v, ret);
    forall q | 0 <= q < PROCLIMIT && Present(v.sc, q) && q != v.sc.focus ensures Disjoint(v.saved[q], b) {
      StillPresent(w.c, u, v, ret, q);
    }
  }

  lemma CallAfar(w: Fixed, u: Sys, v: Sys, ptrs: seq<nat>, b: Band)
    requires Quiet(w, u, ptrs) && Call(w.c, u, v) && Shaped(v.sc) && Steady(w.c, w.base, v.sc) && Remote(w, u.sc, b)
    requires Afar(u, b)
    requires exists pid :: 0 <= pid < PROCLIMIT && Kept(u.mem, v.mem, CtxAddr(w.kernel, w.base, pid), CTX_SIZE, 0, 0)
    requires v.sc.space == u.sc.space && |v.sc.table| == |u.sc.table|
    requires u.sc.space <= w.base && w.base + VECTOR_SIZE <= u.sc.space + BLKSIZE * |u.sc.table|
    ensures Afar(v, b) && Same(u.mem, v.mem, b.lo, b.hi)
  {
    hide RunLen, Owned, Consistent, Separate, Moored, Call;
    CallSaves(w.c, u, v);
    CallMoves(w.c, u, v);
    SteadyOwned(w.c, w.base, v.sc);
    forall q | 0 <= q < PROCLIMIT && Present(v.sc, q) && q != v.sc.focus ensures Disjoint(v.saved[q], b) {
      if !Present(u.sc, q) { StackIsBlock(w.c, v.sc, q); }
    }
  }

  // ----- File calls -----

  /** The machine but for registers, memory and the allocator's table. */
  ghost predicate Elsewhere(u: Sys, v: Sys) {
    v == u.(sc := u.sc.(table := v.sc.table), regs := v.regs, mem := v.mem) && |v.mem| == |u.mem|
  }

  /** The stacks in use hold what they held. */
  ghost predicate Undisturbed(u: Sys, v: Sys) {
    && |v.mem| == |u.mem| && |u.saved| == PROCLIMIT && Same(u.mem, v.mem, u.here.lo, u.here.hi)
    && forall q :: Idles(u.sc, q) ==> Same(u.mem, v.mem, u.saved[q].lo, u.saved[q].hi)
  }

  /** A call of the file system: runs of others and memory outside the pool are spared, and so are the
      stacks in use, on which none of its entries lies. */
  ghost predicate FileCall(u: Sys, ptrs: seq<nat>, v: Sys, ptrs': seq<nat>)
    requires Shaped(u.sc)
  {
    && Elsewhere(u, v) && Consistent(Disk(v, ptrs')) && Spared(Disk(u, ptrs), Disk(v, ptrs'))
    && Shaped(v.sc) && Moored(v, ptrs') && Undisturbed(u, v)
  }

  lemma FileCallSteady(w: Fixed, u: Sys, ptrs: seq<nat>, v: Sys, ptrs': seq<nat>)
    requires Quiet(w, u, ptrs) && Elsewhere(u, v) && Consistent(Disk(v, ptrs')) && Spared(Disk(u, ptrs), Disk(v, ptrs'))
    ensures Steady(w.c, w.base, v.sc) && Linked(w.c, w.kernel, v.sc) && Shaped(v.sc)
    ensures Separate(Disk(v, ptrs'), v.sc, w.base) && Docked(w.c, w.kernel, w.base, v)
  {
    hide RunLen, Moored, WellFormed, Grounded;
    ShapeOf(Disk(v, ptrs'));
    hide Consistent;
    assert RunLen(u.sc.table, u.sc.space, w.base) == 1;
    forall p | Alive(u.sc, p)
      ensures RunLen(v.sc.table, v.sc.space, v.sc.procs[p].stack) == 1 && v.sc.procs[p].stack !in ptrs'
    {
      assert RunLen(u.sc.table, u.sc.space, u.sc.procs[p].stack) == 1;
    }
    assert forall p :: Alive(v.sc, p) <==> Alive(u.sc, p);
    forall q | 0 <= q < PROCLIMIT && Present(v.sc, q) && q != v.sc.focus ensures DockedAt(w.c, w.kernel, w.base, v, q) {
      assert DockedAt(w.c, w.kernel, w.base, u, q);
    }
  }

  /** After a file call everything is in order again. */
  lemma FileCallQuiet(w: Fixed, u: Sys, ptrs: seq<nat>, v: Sys, ptrs': seq<nat>)
    requires Quiet(w, u, ptrs) && FileCall(u, ptrs, v, ptrs')
    ensures Quiet(w, v, ptrs')
  {
    hide RunLen, Moored, Consistent, Separate, Docked, Steady, Linked, Spared;
    ShapedOfSteady(w.c, w.base, u.sc);
    FileCallSteady(w, u, ptrs, v, ptrs');
  }

  // ----- Whose stack may be handed out -----

  /** A stack outside the pool, or one that the allocator counts as in use. */
  ghost predicate HasRun(s: Sched, ptrs: seq<nat>, b: Band) {
    || b.hi <= s.space || s.space + BLKSIZE * |s.table| <= b.lo
    || (RunLen(s.table, s.space, b.lo) == 1 && b.hi == b.lo + STACKSIZE && b.lo !in ptrs)
  }

  /** Every stack in use is such a stack. */
  ghost predicate Sheltered(u: Sys, ptrs: seq<nat>) {
    && |u.saved| == PROCLIMIT && HasRun(u.sc, ptrs, u.here)
    && forall q :: Idles(u.sc, q) ==> HasRun(u.sc, ptrs, u.saved[q])
  }

  /** So it is where everybody waits on his own stack and the caller has not killed itself. */
  lemma PresentSheltered(w: Fixed, u: Sys, ptrs: seq<nat>)
    requires Quiet(w, u, ptrs) && Isolated(w.c, u) && Present(u.sc, u.sc.focus)
    ensures Sheltered(u, ptrs)
  {
    hide RunLen, Consistent, Moored, Docked, WellFormed;
    forall q | 0 <= q < PROCLIMIT && Present(u.sc, q) ensures HasRun(u.sc, ptrs, Stack(w.c, u.sc, q)) {
    }
    forall q | Idles(u.sc, q) ensures HasRun(u.sc, ptrs, u.saved[q]) { assert Waits(w.c, u, q); }
  }

  /** Then no call of the file system comes near a stack in use, whatever it allocates. */
  lemma ShelteredCall(w: Fixed, u: Sys, ptrs: seq<nat>, v: Sys, ptrs': seq<nat>)
    requires Quiet(w, u, ptrs) && Sheltered(u, ptrs)
    requires Elsewhere(u, v) && Consistent(Disk(v, ptrs')) && Spared(Disk(u, ptrs), Disk(v, ptrs'))
    ensures Shaped(u.sc) && FileCall(u, ptrs, v, ptrs') && Quiet(w, v, ptrs') && Sheltered(v, ptrs')
  {
    hide RunLen, Consistent, Docked, Steady, Linked, HasRun, OffFiles, Separate, Spared;
    ShapedOfSteady(w.c, w.base, u.sc);
    FileCallSteady(w, u, ptrs, v, ptrs');
    StackSpared(u, ptrs, v, ptrs', u.here);
    forall q | Idles(u.sc, q)
      ensures HasRun(v.sc, ptrs', u.saved[q]) && OffFiles(v.sc, ptrs', u.saved[q])
      ensures Same(u.mem, v.mem, u.saved[q].lo, u.saved[q].hi)
    {
      StackSpared(u, ptrs, v, ptrs', u.saved[q]);
    }
    assert forall q :: Idles(v.sc, q) <==> Idles(u.sc, q);
    assert Moored(v, ptrs');
    FileCallQuiet(w, u, ptrs, v, ptrs');
  }

  lemma StackSpared(u: Sys, ptrs: seq<nat>, v: Sys, ptrs': seq<nat>, b: Band)
    requires HasRun(u.sc, ptrs, b) && Consistent(Disk(v, ptrs')) && Spared(Disk(u, ptrs), Disk(v, ptrs'))
    requires |v.mem| == |u.mem|
    ensures HasRun(v.sc, ptrs', b) && OffFiles(v.sc, ptrs', b) && Same(u.mem, v.mem, b.lo, b.hi)
  {
    hide RunLen;
    ShapeOf(Disk(v, ptrs'));
    forall q | q in ptrs' && q != 0 ensures Disjoint(b, RunBand(v.sc, q)) {
      var j :| 0 <= j < |ptrs'| && ptrs'[j] == q;
      EntryHoused(Disk(v, ptrs'), j);
      RunInside(v.sc.table, v.sc.space, q);
      if RunLen(v.sc.table, v.sc.space, b.lo) == 1 && b.lo !in ptrs' {
        RunsApart(v.sc.table, v.sc.space, b.lo, q);
      }
    }
  }

  /** A run that shares no byte with a stack in use. */
  ghost predicate OffStacks(u: Sys, b: Band)
    requires |u.saved| == PROCLIMIT
  {
    Disjoint(u.here, b) && forall q :: Idles(u.sc, q) ==> Disjoint(u.saved[q], b)
  }

  /** In general: an entry that is added keeps the machine in order exactly when the first gap that is
      large enough for it has no byte of a stack in use. */
  lemma {:induction false} AddedMooredIff(w: Fixed, u: Sys, ptrs: seq<nat>, v: Sys, i: nat, size: word)
    requires Quiet(w, u, ptrs) && i < |ptrs| && ptrs[i] == 0 && Sane(size) && Blocks(size) <= |u.sc.table|
    requires var a := MallocOf(u.sc.table, u.sc.space, size);
             a.ptr != 0 && v.sc == u.sc.(table := a.table) && v.here == u.here && v.saved == u.saved
    ensures var a := MallocOf(u.sc.table, u.sc.space, size);
            && Shaped(v.sc) && |u.saved| == PROCLIMIT
            && (Moored(v, ptrs[i := a.ptr]) <==> OffStacks(u, Band(a.ptr, a.ptr + BLKSIZE * Blocks(size))))
  {
    hide RunLen, MallocOf, Blocks, WellFormed, Consistent, Docked, Separate;
    ShapedOfSteady(w.c, w.base, u.sc);
    MallocAdds(u.sc.table, u.sc.space, size);
    var a := MallocOf(u.sc.table, u.sc.space, size);
    forall q | q in ptrs && q != 0 ensures RunBand(v.sc, q) == RunBand(u.sc, q) { EntryApart(w, u, ptrs, q); }
    assert RunBand(v.sc, a.ptr) == Band(a.ptr, a.ptr + BLKSIZE * Blocks(size));
    forall b ensures OffFiles(v.sc, ptrs[i := a.ptr], b) <==>
                     OffFiles(u.sc, ptrs, b) && Disjoint(b, RunBand(v.sc, a.ptr))
    {
      AddedOff(u.sc, v.sc, ptrs, i, a.ptr, b);
    }
    assert forall q :: Idles(v.sc, q) <==> Idles(u.sc, q);
  }

  lemma {:induction false} AddedOff(s: Sched, r: Sched, ptrs: seq<nat>, i: nat, a: nat, b: Band)
    requires i < |ptrs| && ptrs[i] == 0 && a != 0
    requires forall q :: q in ptrs && q != 0 ==> RunBand(r, q) == RunBand(s, q)
    ensures OffFiles(r, ptrs[i := a], b) <==> OffFiles(s, ptrs, b) && Disjoint(b, RunBand(r, a))
  {
    hide RunBand;
    var ps := ptrs[i := a];
    assert ps[i] == a;
    forall q | q in ptrs && q != 0 ensures q in ps {
      var j :| 0 <= j < |ptrs| && ptrs[j] == q;
      assert ps[j] == q;
    }
    forall q | q in ps && q != a ensures q in ptrs {
      var j :| 0 <= j < |ps| && ps[j] == q;
    }
  }

  /** A process that has killed itself is handed the block it still runs on exactly when no block below
      it is free: then what it makes lies under its own stack pointer. */
  lemma HandedOwnBlockIff(s: Sched)
    requires Owned(s) && Alive(s, s.focus)
    ensures var stack, r := s.procs[s.focus].stack, KillOf(s, s.focus);
            && MallocOf(r.table, r.space, BLKSIZE).ptr != 0
            && (MallocOf(r.table, r.space, BLKSIZE).ptr == stack <==>
                forall g :: 0 <= g && s.space + BLKSIZE * g < stack ==> !Gap(s.table, g, 1))
  {
    hide WellFormed;
    OwnedShaped(s);
    var stack, t, r := s.procs[s.focus].stack, s.table, KillOf(s, s.focus).table;
    var h := (stack - s.space) / BLKSIZE;
    assert RunLen(t, s.space, stack) == 1;
    RunInside(t, s.space, stack);
    hide RunLen;
    assert stack == s.space + BLKSIZE * h;
    forall k | 0 <= k < |t| ensures r[k] == if k == h then Block(0, false) else t[k] {}
    assert Gap(r, h, 1);
    assert forall g :: g < h ==> (Gap(r, g, 1) <==> Gap(t, g, 1));
    var b := FirstFit(r, 1, 0);
    assert 0 <= b <= h && Gap(r, b, 1);
  }
}
