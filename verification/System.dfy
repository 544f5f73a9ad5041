/** Runs of the whole system: processes compute, are spawned and killed and switched, files are written
    and programs started, in any order. */
module System {
  import opened Bytes
  import opened Paths
  import opened Switch
  import opened Memory
  import opened FsSpec
  import opened Store
  import opened Schedule
  import opened Isolation
  import opened Multitask
  import opened Coexist
  import Exec
  import Loader

  // ----- One call beside everything else -----

  /** A machine state that differs in the table, outside the stacks, and in marks that nobody runs by. */
  ghost predicate Alike(u: Sys, v: Sys) {
    && |v.mem| == |u.mem| && v.here == u.here && v.saved == u.saved
    && v.sc.ctxs == u.sc.ctxs && v.sc.focus == u.sc.focus && v.sc.space == u.sc.space
    && |v.sc.table| == |u.sc.table| && |v.sc.procs| == |u.sc.procs|
    && (forall p :: Alive(v.sc, p) <==> Alive(u.sc, p))
    && (forall p :: Alive(u.sc, p) ==> v.sc.procs[p].stack == u.sc.procs[p].stack)
    && forall p :: 0 <= p < |u.sc.procs| ==> v.sc.procs[p].freeze == u.sc.procs[p].freeze
  }

  lemma AlikeIsolated(c: Site, u: Sys, v: Sys)
    requires Isolated(c, u) && Owned(v.sc) && Alike(u, v)
    ensures Isolated(c, v)
  {
    hide RunLen, Owned;
    OwnedShaped(u.sc);
    OwnedShaped(v.sc);
    forall p ensures Ready(c, v.sc, p) && Waits(c, v, p) {
      assert Ready(c, u.sc, p) && Waits(c, u, p);
    }
  }

  lemma AlikeDocked(w: Fixed, u: Sys, v: Sys)
    requires Shaped(u.sc) && Shaped(v.sc) && Docked(w.c, w.kernel, w.base, u) && Alike(u, v)
    ensures Docked(w.c, w.kernel, w.base, v)
  {
    hide Grounded;
    forall q | 0 <= q < PROCLIMIT && Present(v.sc, q) && q != v.sc.focus ensures DockedAt(w.c, w.kernel, w.base, v, q) {
      assert DockedAt(w.c, w.kernel, w.base, u, q);
    }
  }

  lemma AlikeMoored(u: Sys, v: Sys, ptrs: seq<nat>)
    requires Shaped(u.sc) && Shaped(v.sc) && Moored(u, ptrs) && Alike(u, v)
    requires forall q :: q in ptrs && q != 0 ==> RunBand(v.sc, q) == RunBand(u.sc, q)
    ensures Moored(v, ptrs)
  {
    hide OffFiles;
    SameBands(u.sc, v.sc, ptrs);
    assert forall q :: Idles(v.sc, q) <==> Idles(u.sc, q);
  }

  /** The same processes over the same table, with other marks and other memory. */
  lemma AlikeQuiet(w: Fixed, u: Sys, v: Sys, ptrs: seq<nat>)
    requires Quiet(w, u, ptrs) && Alike(u, v) && v.sc.table == u.sc.table && Consistent(Disk(v, ptrs))
    ensures Quiet(w, v, ptrs) && (Isolated(w.c, u) ==> Isolated(w.c, v))
  {
    hide Consistent, RunLen, WellFormed, Docked, Moored, Isolated;
    assert Steady(w.c, w.base, v.sc);
    hide Steady;
    ShapedOfSteady(w.c, w.base, u.sc);
    AlikeDocked(w, u, v);
    AlikeMoored(u, v, ptrs);
    if Isolated(w.c, u) {
      SteadyOwned(w.c, w.base, v.sc);
      AlikeIsolated(w.c, u, v);
    }
  }

  /** A spawn is a turn; it leaves the machine in order unless it takes the slot of its own caller. */
  lemma SpawnTurn(w: Fixed, u: Sys, v: Sys, ptrs: seq<nat>, d: Defaults, name: seq<byte>, prog: word, pid: int)
    requires Quiet(w, u, ptrs) && Spawned(pid, v.sc) == SpawnOf(u.sc, d, name, prog) && v.regs == u.regs
    requires v.here == u.here
    requires if pid == -1 then v.mem == u.mem && v.saved == u.saved
             else 0 < pid < PROCLIMIT == |v.sc.procs|
                  && Kept(u.mem, v.mem, CtxAddr(w.kernel, w.base, pid), CTX_SIZE, 0, 0)
    requires |u.saved| == PROCLIMIT && (pid != -1 ==> v.saved == u.saved[pid := Stack(w.c, v.sc, pid)])
    ensures Quiet(w, v, ptrs) && View(Disk(v, ptrs)) == View(Disk(u, ptrs))
    ensures Isolated(w.c, u) && !Takeover(u.sc, v.sc) ==> Isolated(w.c, v)
  {
    hide Consistent, Steady, Linked, RecordsFit, Grounded, Owned, RunLen, MallocOf, Isolated, Scheduled, Separate;
    hide Moored, SpawnOf;
    ShapedOfSteady(w.c, w.base, u.sc);
    SpawnFresh(w.c, u, v, d, name, prog, pid);
    RecordWriteIsCall(w.c, w.kernel, w.base, u, v, Event.Spawn(d, name, prog), if pid == -1 then 0 else pid);
    TurnQuiet(w, u, v, ptrs);
    if Isolated(w.c, u) && !Takeover(u.sc, v.sc) { IsolatedStep(w.c, u, v); }
  }

  /** The state in which `exec` has its image but no process yet: only a run has been added. */
  lemma ImageTaken(w: Fixed, u: Sys, ptrs: seq<nat>, size: word)
    requires Quiet(w, u, ptrs) && Sane(size) && Blocks(size) <= |u.sc.table|
    ensures var v := u.(sc := u.sc.(table := MallocOf(u.sc.table, u.sc.space, size).table));
            Quiet(w, v, ptrs) && (Isolated(w.c, u) ==> Isolated(w.c, v))
  {
    hide Consistent, Linked, RecordsFit, Owned, RunLen, Isolated, MallocOf, Blocks, Moored, Memory.WellFormed, Separate;
    hide View, Steady, SameRun;
    ShapedOfSteady(w.c, w.base, u.sc);
    var s, f, t := u.sc, Disk(u, ptrs), MallocOf(u.sc.table, u.sc.space, size);
    var v := u.(sc := s.(table := t.table));
    Exec.MallocSteady(w.c, w.base, s, size);
    MallocAdds(s.table, s.space, size);
    SeparateSame(f, s, Disk(v, ptrs), v.sc, w.base);
    if t.ptr == 0 {
      assert v == u;
    } else {
      OtherMalloc(f, Disk(v, ptrs), size);
      SteadyOwned(w.c, w.base, v.sc);
      forall q | q in ptrs && q != 0 ensures RunBand(v.sc, q) == RunBand(s, q) {
        EntryApart(w, u, ptrs, q);
      }
      AlikeMoored(u, v, ptrs);
      AlikeDocked(w, u, v);
      if Isolated(w.c, u) { AlikeIsolated(w.c, u, v); }
    }
  }

  lemma SeparateSame(f: Fs, s: Sched, g: Fs, r: Sched, vector: nat)
    requires Separate(f, s, vector) && g.ptrs == f.ptrs && r.procs == s.procs
    ensures Separate(g, r, vector)
  {
  }

  // ----- Starting a program -----

  /** `exec`: the file at `path` is read; nothing else has changed, or its image `f` has a run of its own
      and a process has been spawned on it. The stacks in use hold what they held. */
  ghost predicate Executes(w: Fixed, u: Sys, ptrs: seq<nat>, v: Sys, d: Defaults, path: seq<byte>, now: Date, pid: int,
                           base: nat, f: seq<byte>)
  {
    && v.here == u.here && Undisturbed(u, v) && Consistent(Disk(u, ptrs)) && Consistent(Disk(v, ptrs))
    && Exec.Stamped(View(Disk(u, ptrs)), View(Disk(v, ptrs)), path, now)
    && Exec.OthersKept(Disk(u, ptrs), Disk(v, ptrs), w.base) && Exec.Given(u.saved, v.saved, v.sc, pid)
    && if pid == -1 then Exec.Idle(u.sc, v.sc)
       else pid > 0 && Exec.Manageable(f) && Exec.Spawns(u.sc, v.sc, d, path, base, f, pid)
  }

  lemma IdleAlike(u: Sys, v: Sys)
    requires Exec.Idle(u.sc, v.sc) && v.here == u.here && v.saved == u.saved && |v.mem| == |u.mem|
    ensures Alike(u, v)
  {
  }

  lemma FiledAlike(u: Sys, v: Sys, pid: int)
    requires v.sc == Exec.Filed(u.sc, pid) && v.here == u.here && v.saved == u.saved && |v.mem| == |u.mem|
    ensures Alike(u, v)
  {
  }

  /** A successful start is a run taken, a process spawned, and a mark. */
  lemma StartQuiet(w: Fixed, u: Sys, v: Sys, ptrs: seq<nat>, d: Defaults, path: seq<byte>, size: word, prog: word,
                   pid: int)
    requires Quiet(w, u, ptrs) && Sane(size) && Blocks(size) <= |u.sc.table| && |v.mem| == |u.mem| && v.here == u.here
    requires var t := MallocOf(u.sc.table, u.sc.space, size).table;
             var r := SpawnOf(u.sc.(table := t), d, path, prog);
             r.pid == pid != -1 && v.sc == Exec.Filed(r.s, pid)
    requires Exec.Given(u.saved, v.saved, v.sc, pid) && Consistent(Disk(v, ptrs))
    ensures Quiet(w, v, ptrs) && (Isolated(w.c, u) && !Takeover(u.sc, v.sc) ==> Isolated(w.c, v))
  {
    hide Consistent, Linked, RecordsFit, Owned, RunLen, Isolated, MallocOf, Blocks, Moored, Separate, Steady, SpawnOf;
    hide Quiet, Docked, Alike;
    QuietSteady(w, u, ptrs);
    var t := MallocOf(u.sc.table, u.sc.space, size).table;
    var u1 := u.(sc := u.sc.(table := t));
    var r := SpawnOf(u1.sc, d, path, prog);
    var u2 := u1.(sc := r.s, saved := v.saved);
    ImageTaken(w, u, ptrs, size);
    QuietSteady(w, u1, ptrs);
    Exec.SpawnShape(u1.sc, d, path, prog);
    QuietSaved(w, u1, ptrs);
    SpawnedShape(u1.sc, d, path, prog);
    SpawnTurn(w, u1, u2, ptrs, d, path, prog, pid);
    FiledAlike(u2, v, pid);
    AlikeQuiet(w, u2, v, ptrs);
  }

  lemma ExecutesQuiet(w: Fixed, u: Sys, ptrs: seq<nat>, v: Sys, d: Defaults, path: seq<byte>, now: Date, pid: int,
                      base: nat, f: seq<byte>)
    requires Quiet(w, u, ptrs) && Executes(w, u, ptrs, v, d, path, now, pid, base, f)
    ensures Quiet(w, v, ptrs) && (Isolated(w.c, u) && !Takeover(u.sc, v.sc) ==> Isolated(w.c, v))
  {
    hide Quiet, Moored, Docked, Isolated, SpawnOf, MallocOf, Loader.Program, Loader.Span, Loader.Started, Blocks;
    hide Exec.Stamped, Loader.AllLoadable, Loader.Tabled, Takeover, Exec.Filed, Consistent, Alike;
    if pid == -1 {
      IdleAlike(u, v);
      assert v.sc.table == u.sc.table;
      AlikeQuiet(w, u, v, ptrs);
    } else {
      StartQuiet(w, u, v, ptrs, d, path, Loader.Span(Loader.Program(f)), Loader.Started(base, f), pid);
    }
  }

  lemma QuietSteady(w: Fixed, u: Sys, ptrs: seq<nat>)
    requires Quiet(w, u, ptrs)
    ensures Steady(w.c, w.base, u.sc) && Linked(w.c, w.kernel, u.sc) && RecordsFit(w.kernel, w.base)
    ensures Shaped(u.sc) && Moored(u, ptrs) && Docked(w.c, w.kernel, w.base, u) && |u.mem| == RAM_SIZE
  {
  }

  lemma SpawnedShape(s: Sched, d: Defaults, name: seq<byte>, prog: word)
    requires Shaped(s)
    ensures var r := SpawnOf(s, d, name, prog).s;
            |r.procs| == PROCLIMIT && r.focus == s.focus && r.space == s.space
  {
    hide MallocOf, NameField;
  }

  /** A handover is a turn, and takes nobody's slot. */
  lemma HandoverTurn(w: Fixed, u: Sys, v: Sys, ptrs: seq<nat>, ret: word)
    requires Quiet(w, u, ptrs) && Handover(w.c, u, v, ret) && Framed(w.c, w.kernel, w.base, u, v)
    ensures Quiet(w, v, ptrs) && View(Disk(v, ptrs)) == View(Disk(u, ptrs)) && (Isolated(w.c, u) ==> Isolated(w.c, v))
  {
    hide Consistent, Steady, Linked, RecordsFit, Grounded, Owned, RunLen, Isolated, Separate, Moored, Handover, Framed;
    ShapedOfSteady(w.c, w.base, u.sc);
    TurnQuiet(w, u, v, ptrs);
    HandoverTo(w.c, u, v, ret);
    if Isolated(w.c, u) { IsolatedStep(w.c, u, v); }
  }

  /** A kill is a turn, and takes nobody's slot. */
  lemma KillTurn(w: Fixed, u: Sys, v: Sys, ptrs: seq<nat>, pid: int, r: int)
    requires Quiet(w, u, ptrs) && v.sc == KillOf(u.sc, pid) && v.regs == u.regs && v.here == u.here
    requires v.saved == u.saved
    requires if r == 0 then
               && 0 < pid < PROCLIMIT
               && Kept(u.mem, v.mem, CtxAddr(w.kernel, w.base, pid), CTX_SIZE, 0, 0) else v.mem == u.mem
    ensures Quiet(w, v, ptrs) && View(Disk(v, ptrs)) == View(Disk(u, ptrs)) && (Isolated(w.c, u) ==> Isolated(w.c, v))
  {
    hide Consistent, Steady, Linked, RecordsFit, Grounded, Owned, RunLen, FreeOf, Isolated, Scheduled, Separate, Moored;
    ShapedOfSteady(w.c, w.base, u.sc);
    QuietSaved(w, u, ptrs);
    KillFresh(w.c, u, v, pid);
    RecordWriteIsCall(w.c, w.kernel, w.base, u, v, Event.Kill(pid), if r == 0 then pid else 0);
    TurnQuiet(w, u, v, ptrs);
    if Isolated(w.c, u) { IsolatedStep(w.c, u, v); }
  }

  lemma QuietSaved(w: Fixed, u: Sys, ptrs: seq<nat>)
    requires Quiet(w, u, ptrs)
    ensures |u.saved| == PROCLIMIT
  {
  }

  // ----- A caller that has killed itself -----

  /** A process on its own stack kills itself and goes on to make a directory: that keeps the machine in
      order exactly when a block below its stack is free. If there is none, the new entry lies on the
      stack that the caller is still running on. */
  lemma {:induction false} DeadCallerIff(w: Fixed, u: Sys, v: Sys, x: Sys, ptrs: seq<nat>, i: nat)
    requires Shaped(u.sc) && Alive(u.sc, u.sc.focus)
    requires v.sc == KillOf(u.sc, u.sc.focus) && v.here == u.here && v.saved == u.saved
    requires x.sc == v.sc.(table := MallocOf(v.sc.table, v.sc.space, BLKSIZE).table)
    requires x.here == v.here && x.saved == v.saved && i < |ptrs| && ptrs[i] == 0
    requires Quiet(w, u, ptrs) && Isolated(w.c, u) && Quiet(w, v, ptrs)
    ensures var a := MallocOf(v.sc.table, v.sc.space, BLKSIZE);
            && Shaped(x.sc) && a.ptr != 0
            && (Moored(x, ptrs[i := a.ptr]) <==>
                exists g :: 0 <= g && u.sc.space + BLKSIZE * g < u.sc.procs[u.sc.focus].stack && Gap(u.sc.table, g, 1))
  {
    hide RunLen, MallocOf, FreeOf, Memory.WellFormed, Consistent, Docked, Moored, Separate, Gap;
    var s, p := u.sc, u.sc.focus;
    var a := MallocOf(v.sc.table, v.sc.space, BLKSIZE);
    QuietSteady(w, u, ptrs);
    QuietSteady(w, v, ptrs);
    SteadyOwned(w.c, w.base, s);
    SteadyOwned(w.c, w.base, v.sc);
    HandedOwnBlockIff(s);
    assert Blocks(BLKSIZE) == 1 && Sane(BLKSIZE);
    MallocAdds(v.sc.table, v.sc.space, BLKSIZE);
    AddedMooredIff(w, v, ptrs, x, i, BLKSIZE);
    var b := Band(a.ptr, a.ptr + BLKSIZE);
    MallocBlock(v.sc.table, v.sc.space, BLKSIZE);
    StackIsBlock(w.c, s, p);
    BlocksMeet(s.space, u.here, b);
    forall q | Idles(v.sc, q) ensures Disjoint(v.saved[q], b) {
      assert Idles(s, q) && Waits(w.c, u, q);
      if q == 0 {
        RunInside(x.sc.table, s.space, a.ptr);
      } else {
        RunsApart(x.sc.table, s.space, s.procs[q].stack, a.ptr);
      }
    }
  }

  lemma MallocBlock(t: Table, space: nat, size: word)
    requires 0 < |t| && Blocks(size) <= |t| && MallocOf(t, space, size).ptr != 0
    ensures PoolBlock(space, Band(MallocOf(t, space, size).ptr, MallocOf(t, space, size).ptr + STACKSIZE))
  {
  }

  // ----- Every run -----

  /** One step: a computation or scheduler call, a file call, or the start of a program. */
  ghost predicate Pass(w: Fixed, u: Sys, ptrs: seq<nat>, v: Sys, ptrs': seq<nat>) {
    && Shaped(u.sc)
    && ( || (ptrs' == ptrs && Turn(w, u, v))
         || FileCall(u, ptrs, v, ptrs')
         || (ptrs' == ptrs && exists d, path, now, pid, base, f :: Executes(w, u, ptrs, v, d, path, now, pid, base, f)))
  }

  ghost predicate Passes(w: Fixed, us: seq<Sys>, ps: seq<seq<nat>>) {
    && |us| == |ps| > 0 && Quiet(w, us[0], ps[0])
    && forall k :: 0 <= k < |us| - 1 ==> Pass(w, us[k], ps[k], us[k + 1], ps[k + 1])
  }

  /** An entry is what it was but for its time of access. */
  predicate SameFile(a: Slot, b: Slot) {
    a == b || (a.Used? && b.Used? && b.f == File(a.f.h.(atime := b.f.h.atime), a.f.data))
  }

  /** Slot `i` holds the same file in both. */
  ghost predicate KeepsFile(f: Fs, g: Fs, i: nat) {
    Consistent(f) && Consistent(g) && i < ENTCOUNT ==> SameFile(View(f)[i], View(g)[i])
  }

  lemma PassQuiet(w: Fixed, u: Sys, ptrs: seq<nat>, v: Sys, ptrs': seq<nat>, i: nat)
    requires Quiet(w, u, ptrs) && Pass(w, u, ptrs, v, ptrs')
    requires FileCall(u, ptrs, v, ptrs') ==> KeepsFile(Disk(u, ptrs), Disk(v, ptrs'), i)
    ensures Quiet(w, v, ptrs') && KeepsFile(Disk(u, ptrs), Disk(v, ptrs'), i)
  {
    hide Quiet, Turn, FileCall, Consistent, View, Executes;
    if FileCall(u, ptrs, v, ptrs') {
      FileCallQuiet(w, u, ptrs, v, ptrs');
    } else if Turn(w, u, v) && ptrs' == ptrs {
      TurnQuiet(w, u, v, ptrs);
    } else {
      var d, path, now, pid, base, f :| Executes(w, u, ptrs, v, d, path, now, pid, base, f);
      ExecutesQuiet(w, u, ptrs, v, d, path, now, pid, base, f);
      ExecutesKeeps(w, u, ptrs, v, d, path, now, pid, base, f, i);
    }
  }

  lemma ExecutesKeeps(w: Fixed, u: Sys, ptrs: seq<nat>, v: Sys, d: Defaults, path: seq<byte>, now: Date, pid: int,
                      base: nat, f: seq<byte>, i: nat)
    requires Executes(w, u, ptrs, v, d, path, now, pid, base, f)
    ensures KeepsFile(Disk(u, ptrs), Disk(v, ptrs), i)
  {
    hide Undisturbed, Exec.Idle, Exec.Spawns, Exec.Manageable, Exec.OthersKept, Consistent;
  }

  /** Over any run of computations, spawns, kills, yields, exits, file calls and program starts, processes
      that kill themselves or spawn into their own slot included, the heap stays a consistent file system
      apart from every stack in use, and a file that no file call changes is what it was. */
  lemma {:induction false} FilesOutlast(w: Fixed, us: seq<Sys>, ps: seq<seq<nat>>, i: nat, k: nat)
    requires Passes(w, us, ps) && k < |us|
    requires forall j :: 0 <= j < k && Shaped(us[j].sc) && FileCall(us[j], ps[j], us[j + 1], ps[j + 1]) ==>
                           KeepsFile(Disk(us[j], ps[j]), Disk(us[j + 1], ps[j + 1]), i)
    ensures Quiet(w, us[k], ps[k]) && KeepsFile(Disk(us[0], ps[0]), Disk(us[k], ps[k]), i)
  {
    hide Quiet, FileCall, Pass, View, Consistent, Disk;
    if k > 0 {
      FilesOutlast(w, us, ps, i, k - 1);
      QuietSteady(w, us[k - 1], ps[k - 1]);
      assert Pass(w, us[k - 1], ps[k - 1], us[k - 1 + 1], ps[k - 1 + 1]);
      PassQuiet(w, us[k - 1], ps[k - 1], us[k], ps[k], i);
      QuietConsistent(w, us[k - 1], ps[k - 1]);
    }
  }

  lemma QuietConsistent(w: Fixed, u: Sys, ptrs: seq<nat>)
    requires Quiet(w, u, ptrs)
    ensures Consistent(Disk(u, ptrs))
  {
  }

  lemma PassAfar(w: Fixed, u: Sys, ptrs: seq<nat>, v: Sys, ptrs': seq<nat>, b: Band)
    requires Quiet(w, u, ptrs) && Pass(w, u, ptrs, v, ptrs') && Remote(w, u.sc, b) && Afar(u, b)
    ensures Shaped(v.sc) && Remote(w, v.sc, b) && Afar(v, b) && |v.mem| == |u.mem| && Same(u.mem, v.mem, b.lo, b.hi)
  {
    hide Quiet, Turn, Consistent, View, Exec.Idle, Exec.Spawns, Exec.Given, Exec.Stamped;
    QuietSteady(w, u, ptrs);
    if Turn(w, u, v) && ptrs' == ptrs {
      TurnAfar(w, u, v, ptrs, b);
    } else if FileCall(u, ptrs, v, ptrs') {
      assert forall q :: Idles(v.sc, q) <==> Idles(u.sc, q);
    } else {
      var d, path, now, pid, base, f :| Executes(w, u, ptrs, v, d, path, now, pid, base, f);
      ExecutesQuiet(w, u, ptrs, v, d, path, now, pid, base, f);
      QuietSteady(w, v, ptrs);
      ExecutesAfar(w, u, ptrs, v, d, path, now, pid, base, f, b);
    }
  }

  lemma SpawnsShape(s: Sched, r: Sched, d: Defaults, path: seq<byte>, base: nat, f: seq<byte>, pid: int)
    requires Loader.Elf(f) && Exec.Spawns(s, r, d, path, base, f, pid)
    ensures r.focus == s.focus && |r.procs| == PROCLIMIT && forall p :: Alive(r, p) ==> p == pid || Alive(s, p)
  {
    hide MallocOf, Loader.Program, Loader.Span, Loader.Started, Blocks, SpawnOf;
    var t := MallocOf(s.table, s.space, Loader.Span(Loader.Program(f)));
    Exec.SpawnShape(s.(table := t.table), d, path, Loader.Started(base, f));
    SpawnedShape(s.(table := t.table), d, path, Loader.Started(base, f));
  }

  lemma ExecutesAfar(w: Fixed, u: Sys, ptrs: seq<nat>, v: Sys, d: Defaults, path: seq<byte>, now: Date, pid: int,
                     base: nat, f: seq<byte>, b: Band)
    requires Quiet(w, v, ptrs) && Shaped(u.sc) && Shaped(v.sc) && Executes(w, u, ptrs, v, d, path, now, pid, base, f)
    requires Remote(w, u.sc, b) && Afar(u, b)
    ensures Remote(w, v.sc, b) && Afar(v, b) && |v.mem| == |u.mem| && Same(u.mem, v.mem, b.lo, b.hi)
  {
    hide Quiet, Consistent, View, Exec.Spawns, Exec.Stamped, Loader.Elf, Loader.Program, Loader.Span, SameRun, RunLen;
    hide Steady, Docked, Moored, Owned, Memory.WellFormed, Loader.Tabled, Sane;
    QuietSteady(w, v, ptrs);
    SteadyOwned(w.c, w.base, v.sc);
    if pid != -1 { SpawnsShape(u.sc, v.sc, d, path, base, f, pid); }
    forall q | Idles(v.sc, q) ensures Disjoint(v.saved[q], b) {
      if q == pid { BlockInPool(w.c, v.sc, q); } else { assert Idles(u.sc, q); }
    }
  }

  /** Over the same runs, memory outside the pool that is no stack stays as it is: a mounted archive
      reads back whatever is written, started, spawned, killed and switched. */
  lemma {:induction false} ArchivesOutlast(w: Fixed, us: seq<Sys>, ps: seq<seq<nat>>, b: Band, k: nat)
    requires Passes(w, us, ps) && k < |us| && Shaped(us[0].sc) && Remote(w, us[0].sc, b) && Afar(us[0], b)
    ensures Quiet(w, us[k], ps[k]) && Shaped(us[k].sc) && Remote(w, us[k].sc, b) && Afar(us[k], b)
    ensures |us[k].mem| == |us[0].mem| && Same(us[0].mem, us[k].mem, b.lo, b.hi)
  {
    hide Pass, Quiet, Afar, Remote;
    if k > 0 {
      ArchivesOutlast(w, us, ps, b, k - 1);
      assert Pass(w, us[k - 1], ps[k - 1], us[k - 1 + 1], ps[k - 1 + 1]);
      PassAfar(w, us[k - 1], ps[k - 1], us[k], ps[k], b);
      PassQuiet(w, us[k - 1], ps[k - 1], us[k], ps[k], ENTCOUNT);
    }
  }

  /** As long as nobody spawns into the slot he runs in, everybody waits on a stack of his own as well. */
  lemma {:induction false} OrderOutlasts(w: Fixed, us: seq<Sys>, ps: seq<seq<nat>>, k: nat)
    requires Passes(w, us, ps) && k < |us| && Isolated(w.c, us[0]) && Loyal(us, k)
    ensures Quiet(w, us[k], ps[k]) && Isolated(w.c, us[k])
  {
    hide Pass, Quiet, Isolated, Takeover;
    if k > 0 {
      OrderOutlasts(w, us, ps, k - 1);
      assert Pass(w, us[k - 1], ps[k - 1], us[k - 1 + 1], ps[k - 1 + 1]) && !Takeover(us[k - 1].sc, us[k - 1 + 1].sc);
      PassQuiet(w, us[k - 1], ps[k - 1], us[k], ps[k], ENTCOUNT);
      PassIsolated(w, us[k - 1], ps[k - 1], us[k], ps[k]);
    }
  }

  lemma PassIsolated(w: Fixed, u: Sys, ptrs: seq<nat>, v: Sys, ptrs': seq<nat>)
    requires Quiet(w, u, ptrs) && Quiet(w, v, ptrs') && Pass(w, u, ptrs, v, ptrs') && Isolated(w.c, u)
    requires !Takeover(u.sc, v.sc)
    ensures Isolated(w.c, v)
  {
    hide Quiet, Turn, FileCall, Consistent, View, Executes, Isolated, Takeover, Owned;
    QuietSteady(w, v, ptrs');
    SteadyOwned(w.c, w.base, v.sc);
    if FileCall(u, ptrs, v, ptrs') {
      FileCallAlike(u, ptrs, v, ptrs');
      AlikeIsolated(w.c, u, v);
    } else if Turn(w, u, v) && ptrs' == ptrs {
      TurnIsolated(w, u, v);
    } else {
      var d, path, now, pid, base, f :| Executes(w, u, ptrs, v, d, path, now, pid, base, f);
      ExecutesQuiet(w, u, ptrs, v, d, path, now, pid, base, f);
    }
  }

  lemma FileCallAlike(u: Sys, ptrs: seq<nat>, v: Sys, ptrs': seq<nat>)
    requires Shaped(u.sc) && FileCall(u, ptrs, v, ptrs')
    ensures Alike(u, v)
  {
    hide RunLen, Consistent, Moored;
  }

  lemma TurnIsolated(w: Fixed, u: Sys, v: Sys)
    requires Turn(w, u, v) && Isolated(w.c, u) && Owned(v.sc) && !Takeover(u.sc, v.sc)
    ensures Isolated(w.c, v)
  {
    hide Isolated, Takeover, Owned, Call, Handover, Framed;
    if Computes(u, v) {
      ComputesAlike(u, v);
      AlikeIsolated(w.c, u, v);
    } else {
      IsolatedStep(w.c, u, v);
    }
  }

  lemma ComputesAlike(u: Sys, v: Sys)
    requires Computes(u, v)
    ensures Alike(u, v)
  {
  }
}
