/** The scheduler on values: what spawn, kill, the sentry, yield and exit do to the process
    table, the context records and the allocator table, and what holds over every run. */
module Schedule {
  import opened Bytes
  import opened Switch
  import opened Memory

  const PROCLIMIT := 32
  const STACKSIZE := 4096
  const NAMELIMIT := 16

  /** A slot of the process vector without its context record. */
  datatype Proc = Proc(name: seq<byte>, stack: nat, parent: int, file: bool, freeze: bool, active: bool)

  /** `ctxs[0]` is the kernel's record. `space` is the start of the allocator's pool. */
  datatype Sched = Sched(procs: seq<Proc>, ctxs: seq<Ctx>, focus: int, table: Table, space: nat)

  /** Flags and address space given to new processes. */
  datatype Defaults = Defaults(eflags: word, cr3: word)

  ghost predicate Shaped(s: Sched) {
    |s.procs| == PROCLIMIT && |s.ctxs| == PROCLIMIT && 0 <= s.focus < PROCLIMIT && |s.table| > 0 && s.space > 0
  }

  predicate Runnable(s: Sched, p: int) {
    0 < p < |s.procs| && s.procs[p].active && !s.procs[p].freeze
  }

  // ----- Operations -----

  /** Lowest slot from `i` on that is free, or 0. */
  function FreeSlot(procs: seq<Proc>, i: nat): (r: nat)
    requires 0 < i <= |procs|
    ensures r != 0 ==> i <= r < |procs| && !procs[r].active
    ensures forall k :: i <= k < |procs| && (r == 0 || k < r) ==> procs[k].active
    decreases |procs| - i
  {
    if i == |procs| then 0 else if !procs[i].active then i else FreeSlot(procs, i + 1)
  }

  /** Lowest runnable slot from `i` on, or 0 for the kernel. */
  function NextFrom(procs: seq<Proc>, i: nat): (r: nat)
    requires 0 < i <= |procs|
    ensures r != 0 ==> i <= r < |procs| && procs[r].active && !procs[r].freeze
    ensures forall k :: i <= k < |procs| && (r == 0 || k < r) ==> !(procs[k].active && !procs[k].freeze)
    decreases |procs| - i
  {
    if i == |procs| then 0 else if procs[i].active && !procs[i].freeze then i else NextFrom(procs, i + 1)
  }

  function BlankName(): seq<byte> { Zeros(NAMELIMIT) }

  /** The zero-padded name field: at most 15 characters are kept. */
  function NameField(name: seq<byte>): seq<byte> {
    if |name| < NAMELIMIT then name + Zeros(NAMELIMIT - |name|) else name[..NAMELIMIT - 1] + [0]
  }

  datatype Spawned = Spawned(pid: int, s: Sched)

  /** A new process starts at `prog` on a stack of its own. Its EBP is whatever the slot held. */
  function SpawnOf(s: Sched, d: Defaults, name: seq<byte>, prog: word): Spawned
    requires |s.procs| == |s.ctxs| == PROCLIMIT && |s.table| > 0
  {
    var pid := FreeSlot(s.procs, 1);
    if prog == 0 || pid == 0 then Spawned(-1, s)
    else
      var a := MallocOf(s.table, s.space, STACKSIZE);
      if a.ptr == 0 then Spawned(-1, s.(procs := s.procs[pid := s.procs[pid].(stack := 0)]))
      else
        Spawned(pid, s.(
                procs := s.procs[pid := Proc(NameField(name), a.ptr, 0, false, false, true)],
                ctxs := s.ctxs[pid := Ctx(0, 0, 0, 0, 0, 0, (a.ptr + STACKSIZE) % RAM_SIZE, s.ctxs[pid].ebp, prog,
                                          d.eflags, d.cr3)],
                table := a.table))
  }

  const ZERO_CTX := Ctx(0, 0, 0, 0, 0, 0, 0, 0, 0, 0, 0)

  predicate Alive(s: Sched, p: int) {
    0 < p < |s.procs| && s.procs[p].active
  }

  function KillOf(s: Sched, pid: int): (r: Sched)
    requires |s.procs| == |s.ctxs|
  {
    if !Alive(s, pid) then s
    else s.(table := FreeOf(s.table, s.space, s.procs[pid].stack),
         procs := s.procs[pid := s.procs[pid].(name := BlankName(), active := false)],
         ctxs := s.ctxs[pid := ZERO_CTX])
  }

  /** The stack pointer saved at the last switch lies in the stack. */
  predicate InStack(s: Sched, p: int)
    requires |s.procs| == |s.ctxs| && 0 <= p < |s.procs|
  {
    s.procs[p].stack < s.ctxs[p].esp <= s.procs[p].stack + STACKSIZE
  }

  function SentryOf(s: Sched, pid: int): (r: Sched)
    requires |s.procs| == |s.ctxs|
  {
    if Alive(s, pid) && !InStack(s, pid) then KillOf(s, pid) else s
  }

  function NextPid(s: Sched): nat
    requires |s.procs| == |s.ctxs| == PROCLIMIT && 0 <= s.focus < PROCLIMIT
  {
    NextFrom(SentryOf(s, s.focus).procs, s.focus + 1)
  }

  /** `at` is the caller's state as of its return from the switch. */
  function YieldOf(s: Sched, at: Ctx): (r: Sched)
    requires |s.procs| == |s.ctxs| == PROCLIMIT && 0 <= s.focus < PROCLIMIT
  {
    var s1 := SentryOf(s, s.focus);
    if NextPid(s) == s.focus then s1 else s1.(ctxs := s1.ctxs[s.focus := at], focus := NextPid(s))
  }

  function ExitOf(s: Sched, at: Ctx): (r: Sched)
    requires |s.procs| == |s.ctxs| == PROCLIMIT && 0 <= s.focus < PROCLIMIT
  {
    if s.focus == 0 then s else YieldOf(KillOf(s, s.focus), at)
  }

  // ----- What the answers mean -----

  /** Behind whoever has the processor, the next is the lowest runnable process above, or else the
      kernel. The sentry changes nothing here: it can only have killed the caller. */
  ghost predicate Successor(s: Sched, n: int) {
    if n == 0 then forall p :: s.focus < p ==> !Runnable(s, p)
    else s.focus < n && Runnable(s, n) && forall p :: s.focus < p < n ==> !Runnable(s, p)
  }

  /** In particular the kernel finds nobody exactly when nobody is runnable. */
  lemma NextIsSuccessor(s: Sched)
    requires |s.procs| == |s.ctxs| == PROCLIMIT && 0 <= s.focus < PROCLIMIT
    ensures Successor(s, NextPid(s)) && Successor(KillOf(s, s.focus), NextPid(KillOf(s, s.focus)))
    ensures Successor(s, NextPid(KillOf(s, s.focus)))
    ensures s.focus == 0 ==> (NextPid(s) == 0 <==> forall p :: !Runnable(s, p))
  {
    hide FreeOf, InStack;
    var k := KillOf(s, s.focus);
    assert forall p :: s.focus < p ==> (Runnable(s, p) <==> Runnable(SentryOf(s, s.focus), p));
    assert forall p :: s.focus < p ==> (Runnable(s, p) <==> Runnable(SentryOf(k, s.focus), p));
    assert forall p :: s.focus < p ==> (Runnable(s, p) <==> Runnable(k, p));
  }

  /** The sentry lets live exactly those whose saved stack pointer is in their stack. */
  lemma SentryIff(s: Sched, pid: int)
    requires |s.procs| == |s.ctxs| && Alive(s, pid)
    ensures Alive(SentryOf(s, pid), pid) <==>
            s.procs[pid].stack < s.ctxs[pid].esp <= s.procs[pid].stack + 4096
  {
  }

  /** A process that exits is dead, and the processor goes on as at a handover. */
  lemma ExitGoesOn(s: Sched, at: Ctx)
    requires Shaped(s) && s.focus != 0
    ensures !Alive(ExitOf(s, at), s.focus) && Successor(s, ExitOf(s, at).focus)
  {
    hide FreeOf, InStack, Successor, NextPid;
    NextIsSuccessor(s);
  }

  /** There are a program, a slot and a block for a new process. */
  ghost predicate CanSpawn(s: Sched, prog: word) {
    prog != 0 && (exists i :: 0 < i < |s.procs| && !s.procs[i].active) && exists g :: Gap(s.table, g, 1)
  }

  /** The new process has the lowest free slot, and the lowest free block as its stack. */
  ghost predicate Founded(s: Sched, r: Sched, d: Defaults, name: seq<byte>, prog: word, pid: int)
    requires |s.procs| == |s.ctxs| == |r.procs| == |r.ctxs|
  {
    && 0 < pid < |s.procs| && !s.procs[pid].active && (forall i :: 0 < i < pid ==> s.procs[i].active)
    && r.procs[pid].active && !r.procs[pid].freeze && !r.procs[pid].file && r.procs[pid].parent == 0
    && |r.procs[pid].name| == 16
    && (forall k :: 0 <= k < 16 ==> r.procs[pid].name[k] == if k < |name| && k < 15 then name[k] else 0)
    && (exists g :: Gap(s.table, g, 1) && (forall h :: Gap(s.table, h, 1) ==> g <= h) && g < |r.table|
                    && r.procs[pid].stack == s.space + 4096 * g && r.table == s.table[g := Block(1, true)])
    && r.ctxs[pid] == Ctx(0, 0, 0, 0, 0, 0, (r.procs[pid].stack + 4096) % 0x1_0000_0000, s.ctxs[pid].ebp, prog,
                          d.eflags, d.cr3)
    && r.procs == s.procs[pid := r.procs[pid]] && r.ctxs == s.ctxs[pid := r.ctxs[pid]]
    && r.focus == s.focus && r.space == s.space
  }

  /** A process is made exactly when all three are there; otherwise nobody comes or goes. */
  lemma SpawnsIff(s: Sched, d: Defaults, name: seq<byte>, prog: word)
    requires |s.procs| == |s.ctxs| == PROCLIMIT && |s.table| > 0 && s.space > 0
    ensures var r := SpawnOf(s, d, name, prog);
            && (r.pid != -1 <==> CanSpawn(s, prog))
            && (r.pid != -1 ==> Founded(s, r.s, d, name, prog, r.pid))
            && (r.pid == -1 ==> forall p :: 0 <= p < PROCLIMIT ==> (r.s.procs[p].active <==> s.procs[p].active))
  {
    var r, f, g := SpawnOf(s, d, name, prog), FreeSlot(s.procs, 1), FirstFit(s.table, 1, 0);
    assert Blocks(STACKSIZE) == 1;
    assert forall h :: Gap(s.table, h, 1) ==> 0 <= h;
    if prog != 0 && f != 0 && g != -1 {
      assert Gap(s.table, g, 1) && s.space + g * BLKSIZE != 0;
      assert Mark(s.table, g, 1) == s.table[g := Block(1, true)];
    }
  }

  // ----- Runs -----

  /** There is somebody to run. */
  ghost predicate Busy(s: Sched) {
    exists p :: Runnable(s, p)
  }

  /** `Other` is anything else that happens to the allocator between scheduler calls. */
  datatype Event =
    | Spawn(d: Defaults, name: seq<byte>, prog: word)
    | Kill(pid: int)
    | Yield(at: Ctx)
    | Exit(at: Ctx)
    | Other(table: Table)

  /** The kernel has someone to switch to, and no other component gives up a live stack. Any process
      may be killed by any, itself included. */
  ghost predicate Legal(s: Sched, e: Event)
    requires Shaped(s)
  {
    match e
    case Spawn(_, _, _) => Blocks(STACKSIZE) <= |s.table|
    case Kill(_) => true
    case Yield(_) => s.focus == 0 ==> Busy(s)
    case Exit(_) => true
    case Other(t) =>
      && |t| == |s.table| && WellFormed(t)
      && forall p :: Alive(s, p) ==> RunLen(t, s.space, s.procs[p].stack) == RunLen(s.table, s.space, s.procs[p].stack)
  }

  function Next(s: Sched, e: Event): Sched
    requires Shaped(s)
  {
    match e
    case Spawn(d, name, prog) => SpawnOf(s, d, name, prog).s
    case Kill(pid) => KillOf(s, pid)
    case Yield(at) => YieldOf(s, at)
    case Exit(at) => ExitOf(s, at)
    case Other(t) => s.(table := t)
  }

  ghost predicate Moves(s: Sched, r: Sched) {
    Shaped(s) && exists e :: Legal(s, e) && r == Next(s, e)
  }

  ghost predicate Trace(t: seq<Sched>) {
    |t| > 0 && forall k :: 0 <= k < |t| - 1 ==> Moves(t[k], t[k + 1])
  }

  /** Every active process owns a one-block run of its own as its stack, and nobody is frozen. */
  ghost predicate Owned(s: Sched) {
    && Shaped(s) && WellFormed(s.table)
    && (forall p :: Alive(s, p) ==> RunLen(s.table, s.space, s.procs[p].stack) == 1)
    && (forall p, q :: Alive(s, p) && Alive(s, q) && p != q ==> s.procs[p].stack != s.procs[q].stack)
    && (forall p :: 0 <= p < |s.procs| ==> !s.procs[p].freeze)
  }

  lemma OwnedShaped(s: Sched)
    requires Owned(s)
    ensures Shaped(s) && WellFormed(s.table)
  {
  }

  lemma KillReleasesStack(s: Sched, pid: int)
    requires Owned(s) && Alive(s, pid)
    ensures var r := KillOf(s, pid);
            && r.procs == s.procs[pid := s.procs[pid].(name := Zeros(16), active := false)]
            && r.ctxs == s.ctxs[pid := Ctx(0, 0, 0, 0, 0, 0, 0, 0, 0, 0, 0)] && r.focus == s.focus
            && WellFormed(r.table) && RunLen(r.table, s.space, s.procs[pid].stack) == 0
            && forall x: int {:trigger RunLen(r.table, s.space, x)} ::
                 x != s.procs[pid].stack ==> RunLen(r.table, s.space, x) == RunLen(s.table, s.space, x)
  {
    var p := s.procs[pid].stack;
    FreeExact(s.table, s.space, p);
    RunInside(s.table, s.space, p);
  }

  lemma KillOwned(s: Sched, pid: int)
    requires Owned(s)
    ensures Owned(KillOf(s, pid))
  {
    hide RunLen, FreeOf, WellFormed;
    if Alive(s, pid) {
      KillReleasesStack(s, pid);
      var r := KillOf(s, pid);
      forall p | Alive(r, p) ensures Alive(s, p) && p != pid && r.procs[p] == s.procs[p] {
      }
    }
  }

  lemma SpawnOwned(s: Sched, d: Defaults, name: seq<byte>, prog: word)
    requires Owned(s) && Blocks(STACKSIZE) <= |s.table|
    ensures Owned(SpawnOf(s, d, name, prog).s)
  {
    hide RunLen, FreeOf, WellFormed, MallocOf, NameField;
    var r := SpawnOf(s, d, name, prog);
    MallocAdds(s.table, s.space, STACKSIZE);
    if r.pid != -1 {
      forall p | Alive(r.s, p) && p != r.pid ensures Alive(s, p) && r.s.procs[p] == s.procs[p] {
      }
    } else {
      forall p | Alive(r.s, p) ensures Alive(s, p) && r.s.procs[p].stack == s.procs[p].stack {
      }
    }
  }

  /** The effect of a switch on the process table: the process that had the processor may have
      been killed by the sentry, nobody else is touched. */
  lemma YieldOwned(s: Sched, at: Ctx)
    requires Owned(s)
    ensures Owned(YieldOf(s, at))
  {
    hide RunLen, FreeOf, WellFormed;
    KillOwned(s, s.focus);
    var s1, r := SentryOf(s, s.focus), YieldOf(s, at);
    forall p ensures Alive(r, p) <==> Alive(s1, p) {
    }
  }

  lemma StepOwned(s: Sched, e: Event)
    requires Owned(s) && Legal(s, e)
    ensures Owned(Next(s, e))
  {
    match e
    case Spawn(d, name, prog) => SpawnOwned(s, d, name, prog);
    case Kill(pid) => KillOwned(s, pid);
    case Yield(at) => YieldOwned(s, at);
    case Exit(at) =>
      if s.focus != 0 {
        KillOwned(s, s.focus);
        YieldOwned(KillOf(s, s.focus), at);
      }
    case Other(t) =>
  }

  /** Over any run, every active pid owns a distinct one-block live run, and `freeze` is never set. */
  lemma {:induction false} RunOwned(t: seq<Sched>, k: nat)
    requires Trace(t) && Owned(t[0]) && k < |t|
    ensures Owned(t[k])
  {
    if k > 0 {
      RunOwned(t, k - 1);
      assert Moves(t[k - 1], t[k - 1 + 1]);
      var e :| Legal(t[k - 1], e) && t[k] == Next(t[k - 1], e);
      StepOwned(t[k - 1], e);
    }
  }

  // ----- A process that kills itself -----

  /** The kernel or an active process has the processor. */
  predicate Seated(s: Sched) {
    s.focus == 0 || Alive(s, s.focus)
  }

  /** The processor is left to an inactive slot exactly by a process that kills itself without
      exiting. */
  lemma SeatedIff(s: Sched, e: Event)
    requires Owned(s) && Legal(s, e) && Seated(s)
    ensures Seated(Next(s, e)) <==> e != Kill(s.focus) || s.focus == 0
  {
    hide RunLen, FreeOf, MallocOf, WellFormed, InStack;
  }

  /** A step that is no such call. */
  ghost predicate KeepsSeat(s: Sched, r: Sched) {
    Shaped(s) && exists e :: Legal(s, e) && r == Next(s, e) && (e != Kill(s.focus) || s.focus == 0)
  }

  /** In a run without such calls whoever has the processor is active. */
  lemma {:induction false} RunSeated(t: seq<Sched>, k: nat)
    requires k < |t| && Owned(t[0]) && Seated(t[0]) && forall i :: 0 <= i < |t| - 1 ==> KeepsSeat(t[i], t[i + 1])
    ensures Owned(t[k]) && Seated(t[k])
  {
    if k > 0 {
      RunSeated(t, k - 1);
      assert KeepsSeat(t[k - 1], t[k - 1 + 1]);
      SeatKept(t[k - 1], t[k]);
    }
  }

  lemma SeatKept(s: Sched, r: Sched)
    requires Owned(s) && Seated(s) && KeepsSeat(s, r)
    ensures Owned(r) && Seated(r)
  {
    hide Legal, Owned, Seated, Next;
    var e :| Legal(s, e) && r == Next(s, e) && (e != Kill(s.focus) || s.focus == 0);
    StepOwned(s, e);
    SeatedIff(s, e);
  }

  /** A `spawn` by a process that has just killed itself takes that process's own slot exactly when
      all lower slots are in use: there is always memory, its old stack. */
  lemma TakesOwnSlotIff(s: Sched, d: Defaults, name: seq<byte>, prog: word)
    requires Owned(s) && Alive(s, s.focus)
    ensures SpawnOf(KillOf(s, s.focus), d, name, prog).pid == s.focus <==>
            prog != 0 && forall i :: 0 < i < s.focus ==> s.procs[i].active
  {
    hide RunLen, MallocOf, FreeOf, WellFormed;
    var p, u := s.focus, KillOf(s, s.focus);
    KillOwned(s, p);
    FreedBlock(s.table, s.space, s.procs[p].stack);
    var g :| Gap(u.table, g, 1);
    assert Blocks(STACKSIZE) == 1;
    MallocAdds(u.table, u.space, STACKSIZE);
    var f := FreeSlot(u.procs, 1);
    assert !u.procs[p].active && (forall i :: 0 < i < PROCLIMIT && i != p ==> u.procs[i].active == s.procs[i].active);
    assert f == p <==> forall i :: 0 < i < p ==> s.procs[i].active;
  }

  lemma FreedBlock(t: Table, space: nat, p: nat)
    requires WellFormed(t) && RunLen(t, space, p) > 0
    ensures exists g :: Gap(FreeOf(t, space, p), g, 1)
  {
    RunInside(t, space, p);
    assert Gap(FreeOf(t, space, p), (p - space) / BLKSIZE, 1);
  }

  /** Then the new program never starts: when the caller gives up the processor, its own state is
      stored as that of the new process, whose pid `spawn` has handed out. */
  lemma OwnSlotLosesProgram(s: Sched, d: Defaults, name: seq<byte>, prog: word, at: Ctx)
    requires Owned(s) && Alive(s, s.focus) && s.space + BLKSIZE * |s.table| < RAM_SIZE
    requires SpawnOf(KillOf(s, s.focus), d, name, prog).pid == s.focus
    ensures var r := SpawnOf(KillOf(s, s.focus), d, name, prog).s;
            && r.ctxs[s.focus].eip == prog
            && Alive(YieldOf(r, at), s.focus) && YieldOf(r, at).focus != s.focus && YieldOf(r, at).ctxs[s.focus] == at
  {
    hide RunLen, MallocOf, FreeOf, WellFormed, Blocks, NameField;
    var p, u := s.focus, KillOf(s, s.focus);
    KillOwned(s, p);
    StackInPool(u, d, name, prog);
  }

  lemma StackInPool(u: Sched, d: Defaults, name: seq<byte>, prog: word)
    requires Owned(u) && u.space + BLKSIZE * |u.table| < RAM_SIZE && SpawnOf(u, d, name, prog).pid != -1
    ensures var r := SpawnOf(u, d, name, prog); InStack(r.s, r.pid)
  {
    hide RunLen, MallocOf, FreeOf, WellFormed, NameField;
    MallocAdds(u.table, u.space, STACKSIZE);
    BlocksCeil(STACKSIZE);
    RunInside(MallocOf(u.table, u.space, STACKSIZE).table, u.space, MallocOf(u.table, u.space, STACKSIZE).ptr);
  }

  /** Process 1 alone, in a pool of one block. */
  function Loner(): Sched {
    var idle, busy := Proc(BlankName(), 0, 0, false, false, false), Proc(BlankName(), BLKSIZE, 0, false, false, true);
    Sched(seq(PROCLIMIT, i => if i == 1 then busy else idle), seq(PROCLIMIT, _ => ZERO_CTX), 1, [Block(1, true)],
          BLKSIZE)
  }

  /** The smallest such case: it kills itself, spawns a program and yields. */
  lemma OwnSlotExample(d: Defaults, prog: word, at: Ctx)
    requires prog != 0
    ensures Owned(Loner()) && SpawnOf(KillOf(Loner(), 1), d, [], prog).pid == 1
    ensures SpawnOf(KillOf(Loner(), 1), d, [], prog).s.ctxs[1].eip == prog
    ensures YieldOf(SpawnOf(KillOf(Loner(), 1), d, [], prog).s, at).ctxs[1] == at
  {
    var s := Loner();
    assert InRun(s.table, 0, 0);
    assert WellFormed(s.table) && RunLen(s.table, s.space, BLKSIZE) == 1;
    assert Owned(s);
    TakesOwnSlotIff(s, d, [], prog);
    OwnSlotLosesProgram(s, d, [], prog, at);
  }

  // ----- Fairness -----

  /** The processor either stays where it is or goes to the next runnable pid above; it goes back
      to the kernel only when there is none. */
  ghost predicate Passes(s: Sched, r: Sched) {
    r.focus == s.focus ||
    if r.focus == 0 then forall i :: s.focus < i ==> !Runnable(r, i)
    else s.focus < r.focus && Runnable(r, r.focus) && forall i :: s.focus < i < r.focus ==> !Runnable(r, i)
  }

  lemma YieldPasses(s: Sched, at: Ctx)
    requires Shaped(s)
    ensures Passes(s, YieldOf(s, at))
  {
    var s1, r := SentryOf(s, s.focus), YieldOf(s, at);
    assert r.procs == s1.procs;
  }

  lemma StepPasses(s: Sched, r: Sched)
    requires Moves(s, r)
    ensures Passes(s, r)
  {
    hide FreeOf, MallocOf, InStack, WellFormed, RunLen;
    var e :| Legal(s, e) && r == Next(s, e);
    match e
    case Yield(at) => YieldPasses(s, at);
    case Exit(at) => if s.focus != 0 { YieldPasses(KillOf(s, s.focus), at); }
    case _ =>
  }

  /** A round: the last state of a kernel turn, the process turns, the first state of the next
      kernel turn. */
  ghost predicate Round(t: seq<Sched>) {
    && Trace(t) && |t| > 2 && t[0].focus == 0 && t[|t| - 1].focus == 0
    && forall k :: 0 < k < |t| - 1 ==> t[k].focus != 0
  }

  lemma PassesAt(t: seq<Sched>, k: nat)
    requires Trace(t) && k + 1 < |t|
    ensures Passes(t[k], t[k + 1])
  {
    StepPasses(t[k], t[k + 1]);
  }

  lemma {:induction false} Ascending(t: seq<Sched>, i: nat, j: nat)
    requires Round(t) && i <= j < |t| - 1
    ensures t[i].focus <= t[j].focus
    decreases j
  {
    hide Round;
    if i < j {
      Ascending(t, i, j - 1);
      PassesUp(t, j - 1);
    }
  }

  lemma PassesUp(t: seq<Sched>, k: nat)
    requires Round(t) && k < |t| - 2
    ensures t[k].focus <= t[k + 1].focus
  {
    hide Trace;
    PassesAt(t, k);
  }

  /** Walking up to the turn of a process that is runnable throughout: the processor cannot
      jump over it. */
  lemma {:induction false} TurnComes(t: seq<Sched>, p: int, k: nat) returns (a: nat)
    requires Round(t) && (forall i :: 0 <= i < |t| ==> Runnable(t[i], p))
    requires k < |t| - 1 && t[k].focus < p
    ensures k < a < |t| - 1 && t[a - 1].focus < p == t[a].focus
    decreases |t| - k
  {
    hide Trace;
    PassesAt(t, k);
    assert Runnable(t[k], p) && Runnable(t[k + 1], p);
    if t[k + 1].focus == p {
      a := k + 1;
    } else {
      a := TurnComes(t, p, k + 1);
    }
  }

  /** The turn that begins at `a` lasts until `b`. */
  lemma {:induction false} TurnEnds(t: seq<Sched>, p: int, a: nat) returns (b: nat)
    requires Round(t) && p != 0 && a < |t| - 1 && t[a].focus == p
    ensures a < b < |t| && t[b].focus != p && forall k :: a <= k < b ==> t[k].focus == p
    decreases |t| - a
  {
    if t[a + 1].focus != p {
      b := a + 1;
    } else {
      b := TurnEnds(t, p, a + 1);
    }
  }

  /** Between two kernel turns, a process that stays runnable has the processor for exactly one
      unbroken stretch, whatever is spawned and killed meanwhile. */
  lemma OneTurnEach(t: seq<Sched>, p: int) returns (a: nat, b: nat)
    requires Round(t) && 0 < p && forall k :: 0 <= k < |t| ==> Runnable(t[k], p)
    ensures 0 < a < b < |t|
    ensures forall k :: 0 <= k < |t| ==> (t[k].focus == p <==> a <= k < b)
  {
    hide Trace, Runnable, Passes;
    a := TurnComes(t, p, 0);
    b := TurnEnds(t, p, a);
    forall k | 0 <= k < |t| && !(a <= k < b) ensures t[k].focus != p {
      if k < a {
        Ascending(t, k, a - 1);
      } else if k < |t| - 1 {
        Ascending(t, a, b);
        Ascending(t, b, k);
      }
    }
  }

  /** Turns come in ascending pid order. */
  lemma AscendingTurns(t: seq<Sched>, i: nat, j: nat)
    requires Round(t) && i < |t| - 1 && j < |t| - 1 && t[i].focus < t[j].focus
    ensures i < j
  {
    if j <= i { Ascending(t, j, i); }
  }

  /** How many times the processor has been handed to another process up to state `k`. */
  function Handovers(t: seq<Sched>, k: nat): nat
    requires k < |t|
  {
    if k == 0 then 0 else Handovers(t, k - 1) + if t[k].focus != t[k - 1].focus then 1 else 0
  }

  lemma {:induction false} HandoversBounded(t: seq<Sched>, k: nat)
    requires Round(t) && k < |t| - 1
    ensures Handovers(t, k) <= t[k].focus
    decreases k
  {
    if k > 0 {
      HandoversBounded(t, k - 1);
      PassesAt(t, k - 1);
    }
  }

  /** A round has at most 31 process turns. */
  lemma RoundBounded(t: seq<Sched>)
    requires Round(t)
    ensures 1 <= Handovers(t, |t| - 2) <= PROCLIMIT - 1
  {
    HandoversBounded(t, |t| - 2);
    PassesAt(t, 0);
    HandoverSeen(t, |t| - 2);
    PassesAt(t, |t| - 2);
    assert Moves(t[|t| - 2], t[|t| - 2 + 1]);
  }

  lemma {:induction false} HandoverSeen(t: seq<Sched>, k: nat)
    requires Round(t) && 0 < k < |t| - 1
    ensures Handovers(t, k) >= 1
    decreases k
  {
    if k > 1 { HandoverSeen(t, k - 1); }
  }

  // ----- The sentry -----

  lemma YieldKeeps(s: Sched, at: Ctx, p: int)
    requires Shaped(s) && Alive(s, p)
    ensures var r := YieldOf(s, at);
            Alive(r, p) ==> r.procs[p] == s.procs[p] && (s.focus != p || r.focus == p ==> r.ctxs[p] == s.ctxs[p])
  {
    hide FreeOf, NextFrom, InStack;
  }

  /** Nobody but the process itself changes its slot and its record while it has not been killed. */
  lemma RecordKept(s: Sched, r: Sched, p: int)
    requires Moves(s, r) && Alive(s, p) && Alive(r, p)
    ensures r.procs[p] == s.procs[p]
    ensures s.focus != p || r.focus == p ==> r.ctxs[p] == s.ctxs[p]
  {
    hide FreeOf, InStack, MallocOf, WellFormed, RunLen, SentryOf, YieldOf;
    var e :| Legal(s, e) && r == Next(s, e);
    match e
    case Yield(at) => YieldKeeps(s, at, p);
    case Exit(at) => if s.focus != 0 { ExitKeeps(s, at, p); }
    case _ =>
  }

  lemma ExitKeeps(s: Sched, at: Ctx, p: int)
    requires Shaped(s) && Alive(s, p) && s.focus != 0 && Alive(YieldOf(KillOf(s, s.focus), at), p)
    ensures var r := YieldOf(KillOf(s, s.focus), at);
            r.procs[p] == s.procs[p] && (s.focus != p || r.focus == p ==> r.ctxs[p] == s.ctxs[p])
  {
    hide FreeOf, InStack, YieldOf;
    var u := KillOf(s, s.focus);
    if s.focus == p {
      YieldDead(u, at, p);
    } else {
      YieldKeeps(u, at, p);
    }
  }

  lemma YieldDead(s: Sched, at: Ctx, p: int)
    requires Shaped(s) && !Alive(s, p)
    ensures !Alive(YieldOf(s, at), p)
  {
    hide FreeOf, InStack;
  }

  /** A process that gives up the processor by yielding with a record outside its stack has been
      killed on the way. */
  lemma StrayYieldKills(s: Sched, r: Sched, p: int)
    requires Owned(s) && Moves(s, r) && s.focus == p && r.focus != p && Alive(s, p) && !InStack(s, p)
    ensures !Alive(r, p)
  {
    var e :| Legal(s, e) && r == Next(s, e);
    match e
    case Exit(at) => assert KillOf(s, s.focus).focus == s.focus;
    case _ =>
  }

  /** An active process whose saved stack pointer has left its stack. */
  ghost predicate Stray(s: Sched, p: int) {
    Shaped(s) && Alive(s, p) && !InStack(s, p)
  }

  lemma StrayStep(s: Sched, r: Sched, p: int)
    requires Owned(s) && Moves(s, r) && Owned(r) && Stray(s, p) && Alive(r, p)
    ensures Stray(r, p)
    ensures s.focus == p ==> r.focus == p
  {
    if s.focus == p && r.focus != p {
      StrayYieldKills(s, r, p);
      assert false;
    }
    RecordKept(s, r, p);
  }

  lemma {:induction false} StrayStays(t: seq<Sched>, p: int, a: nat, k: nat)
    requires Trace(t) && Owned(t[0]) && Stray(t[0], p) && a <= k < |t| && t[a].focus == p
    requires forall i :: 0 <= i <= k ==> Alive(t[i], p)
    ensures Stray(t[k], p) && t[k].focus == p
    decreases k
  {
    hide Stray, Trace, Owned, Alive;
    if k > a {
      StrayStays(t, p, a, k - 1);
      StrayOn(t, p, k);
    } else {
      StrayKept(t, p, a);
    }
  }

  lemma StrayOn(t: seq<Sched>, p: int, k: nat)
    requires Trace(t) && Owned(t[0]) && 0 < k < |t| && Stray(t[k - 1], p) && Alive(t[k], p)
    ensures Stray(t[k], p) && (t[k - 1].focus == p ==> t[k].focus == p)
  {
    hide Alive, InStack, Stray, Owned, Moves;
    RunOwned(t, k - 1);
    RunOwned(t, k);
    assert Moves(t[k - 1], t[k - 1 + 1]);
    StrayStep(t[k - 1], t[k], p);
  }

  lemma {:induction false} StrayKept(t: seq<Sched>, p: int, k: nat)
    requires Trace(t) && Owned(t[0]) && Stray(t[0], p) && k < |t|
    requires forall i :: 0 <= i <= k ==> Alive(t[i], p)
    ensures Stray(t[k], p)
    decreases k
  {
    if k > 0 {
      StrayKept(t, p, k - 1);
      StrayOn(t, p, k);
    }
  }

  /** Once the saved stack pointer of a waiting process has left its stack, the process gets at
      most one further turn: it is killed by the time that turn is over. */
  lemma StrayDies(t: seq<Sched>, p: int, a: nat, b: nat)
    requires Trace(t) && Owned(t[0]) && Stray(t[0], p)
    requires a < b < |t| && t[a].focus == p && t[b].focus != p
    ensures exists k :: 0 < k <= b && !Alive(t[k], p)
  {
    hide Alive, Trace, Owned;
    if forall k :: 0 < k <= b ==> Alive(t[k], p) {
      StrayStays(t, p, a, b);
      assert false;
    }
  }
}
