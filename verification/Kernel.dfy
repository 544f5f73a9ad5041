/** The whole system as one object: how it comes up, and its calls side by side. */
module Kernel {
  import opened Bytes
  import opened Paths
  import opened Switch
  import opened Memory
  import opened FsSpec
  import opened Headers
  import opened Store
  import opened CoreFs
  import opened Schedule
  import opened Isolation
  import opened Multitask
  import opened Coexist
  import opened System
  import Exec
  import Loader
  import MountMgr

  // ----- Memory for the start -----

  /** The first `k` blocks are in use and no others. */
  ghost predicate Filled(t: Table, k: nat) {
    k <= |t| && forall i :: 0 <= i < |t| ==> (t[i].used <==> i < k)
  }

  /** While nothing has been released, blocks are given out from the bottom up. */
  lemma FilledMalloc(t: Table, space: nat, k: nat, size: word)
    requires Filled(t, k) && size > 0 && space > 0 && 0 < Blocks(size) <= |t|
    ensures var a := MallocOf(t, space, size);
            && (a.ptr != 0 <==> k + Blocks(size) <= |t|) && (a.ptr != 0 ==> Filled(a.table, k + Blocks(size)))
  {
    hide Blocks;
    var n := Blocks(size);
    var b := FirstFit(t, n, 0);
    if k + n <= |t| {
      assert Gap(t, k, n);
      forall g | 0 <= g < k ensures !Gap(t, g, n) { assert t[g].used; }
    } else {
      forall g ensures !Gap(t, g, n) {
        if 0 <= g < k && g + n <= |t| { assert t[g].used; }
      }
    }
  }

  /** The file system starts exactly when 34 blocks are to be had. */
  lemma RequestsServed(t: Table, space: nat)
    requires Filled(t, 0) && space > 0 && 16 <= |t|
    ensures forall n :: n in Requests() ==> Blocks(n) <= |t|
    ensures Serves(t, space, Requests()) <==> 34 <= |t|
    ensures 34 <= |t| ==> Filled(AllServed(t, space, Requests()), 34)
  {
    hide MallocOf, Serves, AllServed, Filled;
    RequestsFit(|t|);
    var a := MallocOf(t, space, ENTCOUNT * 4);
    var b := MallocOf(a.table, space, 3888);
    var c := MallocOf(b.table, space, ENTCOUNT * 4);
    var d := MallocOf(c.table, space, MAX_PATHLEN);
    FilledMalloc(t, space, 0, ENTCOUNT * 4);
    ServesNext(t, space, ENTCOUNT * 4, Requests()[1..]);
    ServesNext(a.table, space, 3888, Requests()[2..]);
    ServesNext(b.table, space, ENTCOUNT * 4, Requests()[3..]);
    ServesNext(c.table, space, MAX_PATHLEN, []);
    NoRequests(d.table, space);
    if a.ptr != 0 { FilledMalloc(a.table, space, 16, 3888); }
    if a.ptr != 0 && b.ptr != 0 { FilledMalloc(b.table, space, 17, ENTCOUNT * 4); }
    if a.ptr != 0 && b.ptr != 0 && c.ptr != 0 { FilledMalloc(c.table, space, 33, MAX_PATHLEN); }
  }

  class Kernel {
    const exec: Exec.Exec

    constructor (exec: Exec.Exec)
      ensures this.exec == exec
    {
      this.exec := exec;
    }

    /** File system and scheduler run in one memory, every context waits on a stack of its own, and no
        stack shares a byte with a file. */
    ghost predicate Sound()
      reads this, exec, exec.fs, exec.fs.heap, exec.fs.heap.blockV, exec.fs.heap.ram, exec.fs.entryV, exec.fs.mounts
      reads exec.mt, exec.mt.procV, exec.mt.heap, exec.mt.heap.blockV, exec.mt.cpu, exec.mt.cpu.ram
    {
      Afloat() && Isolated(exec.mt.Where(), exec.mt.View())
    }

    /** The same whoever has taken whose slot. */
    ghost predicate Afloat()
      reads this, exec, exec.fs, exec.fs.heap, exec.fs.heap.blockV, exec.fs.heap.ram, exec.fs.entryV, exec.fs.mounts
      reads exec.mt, exec.mt.procV, exec.mt.heap, exec.mt.heap.blockV, exec.mt.cpu, exec.mt.cpu.ram
    {
      && exec.Running() && StateShaped() && Moored(exec.mt.View(), exec.fs.entryV[..])
      && Docked(exec.mt.Where(), exec.mt.kernelCtx, exec.mt.procBase, exec.mt.View())
    }

    /** Besides, the allocator counts every stack in use as in use. */
    ghost predicate Safe()
      reads this, exec, exec.fs, exec.fs.heap, exec.fs.heap.blockV, exec.fs.heap.ram, exec.fs.entryV, exec.fs.mounts
      reads exec.mt, exec.mt.procV, exec.mt.heap, exec.mt.heap.blockV, exec.mt.cpu, exec.mt.cpu.ram
    {
      Afloat() && Sheltered(exec.mt.View(), exec.fs.entryV[..])
    }

    ghost predicate StateShaped()
      requires exec.Running()
      reads this, exec, exec.fs, exec.fs.heap, exec.fs.heap.blockV, exec.fs.heap.ram, exec.fs.entryV, exec.fs.mounts
      reads exec.mt, exec.mt.procV, exec.mt.heap, exec.mt.heap.blockV, exec.mt.cpu, exec.mt.cpu.ram
    {
      Shaped(exec.mt.State())
    }

    ghost function Spot(): Fixed
      reads exec.mt, exec.mt.cpu
    {
      Fixed(exec.mt.Where(), exec.mt.kernelCtx, exec.mt.procBase)
    }

    lemma AfloatQuiet()
      requires Afloat()
      ensures Quiet(Spot(), exec.mt.View(), exec.fs.entryV[..])
      ensures Disk(exec.mt.View(), exec.fs.entryV[..]) == exec.fs.Now()
    {
      hide Consistent, Steady, Linked, RecordsFit, Moored, Grounded, Docked;
    }

    /** So it is in a sound system whose caller has not killed itself. */
    lemma SoundSafe()
      requires Sound() && Present(exec.mt.State(), exec.mt.focus)
      ensures Safe()
    {
      hide Consistent, Steady, Linked, RecordsFit, Moored, Grounded, Docked, Quiet, Isolated;
      AfloatQuiet();
      PresentSheltered(Spot(), exec.mt.View(), exec.fs.entryV[..]);
    }

    /** `kill`, as far as everybody else is concerned. */
    method Kill(pid: int) returns (r: int)
      requires Afloat()
      modifies exec.mt.procV, exec.fs.heap.blockV, exec.fs.heap.ram
      ensures Afloat() && exec.fs.Files() == old(exec.fs.Files()) && (old(Sound()) ==> Sound())
      ensures exec.mt.State() == KillOf(old(exec.mt.State()), pid) && (r == 0 || r == -1)
      ensures r == 0 <==> old(Alive(exec.mt.State(), pid))
    {
      hide Consistent, View, Steady, Linked, RecordsFit, Moored, Docked, Grounded, Isolated, KillOf, Ctxs;
      hide Memory.WellFormed;
      hide RunLen, Scheduled, Kept, Separate;
      ghost var u, ptrs := exec.mt.View(), exec.fs.entryV[..];
      AfloatQuiet();
      r := exec.mt.Kill(pid);
      KillTurn(Spot(), u, exec.mt.View(), ptrs, pid, r);
    }

    /** `spawn`, likewise. */
    method Spawn(name: seq<byte>, prog: word) returns (pid: int)
      requires Afloat()
      modifies exec.mt`saved, exec.mt.procV, exec.fs.heap.blockV, exec.fs.heap.ram
      ensures Afloat() && exec.fs.Files() == old(exec.fs.Files())
      ensures Spawned(pid, exec.mt.State()) == SpawnOf(old(exec.mt.State()), exec.mt.defRegs, name, prog)
      ensures pid != -1 <==> CanSpawn(old(exec.mt.State()), prog)
      ensures pid != -1 ==> Founded(old(exec.mt.State()), exec.mt.State(), exec.mt.defRegs, name, prog, pid)
      ensures old(Sound()) && !Takeover(old(exec.mt.State()), exec.mt.State()) ==> Sound()
    {
      hide Consistent, View, Steady, Linked, RecordsFit, Moored, Docked, Grounded, Isolated, SpawnOf, Ctxs;
      hide Memory.WellFormed, CanSpawn, Founded;
      hide RunLen, Scheduled, Kept, Separate;
      ghost var u, ptrs := exec.mt.View(), exec.fs.entryV[..];
      AfloatQuiet();
      pid := exec.mt.Spawn(name, prog);
      SpawnTurn(Spot(), u, exec.mt.View(), ptrs, exec.mt.defRegs, name, prog, pid);
    }

    /** The running code has room on its stack for a call that hands the processor over. */
    ghost predicate MayCall()
      reads exec.mt, exec.mt.cpu
    {
      exec.mt.here.lo + 52 <= exec.mt.cpu.regs.esp <= exec.mt.here.hi
    }

    /** `yield`, likewise. After a panic nothing runs any more. */
    method Yield(ret: word) returns (panic: bool)
      requires Afloat() && MayCall()
      modifies exec.mt`inStream, exec.mt`focus, exec.mt`here, exec.mt`saved, exec.mt.procV, exec.fs.heap.blockV
      modifies exec.mt.cpu, exec.fs.heap.ram
      ensures panic <==> old(exec.mt.focus) == 0 && forall p :: !Runnable(old(exec.mt.State()), p)
      ensures !panic ==> Successor(old(exec.mt.State()), exec.mt.focus)
      ensures !panic ==> Afloat() && exec.fs.Files() == old(exec.fs.Files()) && (old(Sound()) ==> Sound())
      ensures !panic ==> Handover(exec.mt.Where(), old(exec.mt.View()), exec.mt.View(), ret)
      ensures !panic ==>
                Framed(exec.mt.Where(), exec.mt.kernelCtx, exec.mt.procBase, old(exec.mt.View()), exec.mt.View())
    {
      hide Consistent, View, Steady, Linked, RecordsFit, Moored, Docked, Grounded, Isolated, Ctxs, Memory.WellFormed;
      hide RunLen;
      hide Handover, Framed, Separate, NextPid, YieldOf, Successor;
      ghost var u, ptrs := exec.mt.View(), exec.fs.entryV[..];
      AfloatQuiet();
      panic := exec.mt.Yield(ret);
      if !panic {
        HandoverTurn(Spot(), u, exec.mt.View(), ptrs, ret);
        ShapedOfSteady(exec.mt.Where(), exec.mt.procBase, exec.mt.State());
      }
    }

    /** `exit`, likewise. */
    method Exit(ret: word)
      requires Afloat() && MayCall()
      modifies exec.mt`inStream, exec.mt`focus, exec.mt`here, exec.mt`saved, exec.mt.procV, exec.fs.heap.blockV
      modifies exec.mt.cpu, exec.fs.heap.ram
      ensures Afloat() && exec.fs.Files() == old(exec.fs.Files()) && (old(Sound()) ==> Sound())
      ensures old(exec.mt.focus) != 0 && old(exec.mt.inStream) ==>
                && !Alive(exec.mt.State(), old(exec.mt.focus)) && Successor(old(exec.mt.State()), exec.mt.focus)
                && Handover(exec.mt.Where(), old(exec.mt.View()), exec.mt.View(), ret)
                && Framed(exec.mt.Where(), exec.mt.kernelCtx, exec.mt.procBase, old(exec.mt.View()), exec.mt.View())
    {
      hide Consistent, View, Steady, Linked, RecordsFit, Moored, Docked, Grounded, Isolated, Ctxs, Memory.WellFormed;
      hide RunLen;
      hide Handover, Framed, Separate, YieldOf, ExitOf, Successor;
      ghost var u, ptrs := exec.mt.View(), exec.fs.entryV[..];
      AfloatQuiet();
      ghost var switching := exec.mt.focus != 0 && exec.mt.inStream;
      var panic := exec.mt.Exit(ret);
      if switching { HandoverTurn(Spot(), u, exec.mt.View(), ptrs, ret); }
      ShapedOfSteady(exec.mt.Where(), exec.mt.procBase, exec.mt.State());
    }

    /** `exec`, on a stack that the image is not laid over. */
    method Run(path: seq<byte>, now: Date) returns (pid: int, ghost base: nat, ghost f: seq<byte>)
      requires Safe() && NulFree(path) && exec.Trusted(path)
      modifies exec.mt`saved, exec.mt.procV, exec.fs.heap.blockV, exec.fs.heap.ram
      ensures Afloat() && (old(Sound()) && !Takeover(old(exec.mt.State()), exec.mt.State()) ==> Sound())
      ensures Executes(Spot(), old(exec.mt.View()), exec.fs.entryV[..], exec.mt.View(), exec.mt.defRegs, path, now, pid,
                       base, f)
      ensures pid > 0 <==> path != [] && old(exec.Starts(path))
    {
      hide Consistent, View, Steady, Linked, RecordsFit, Moored, Docked, Grounded, Isolated, SpawnOf, Ctxs;
      hide Memory.WellFormed, RunLen, Separate, Exec.Stamped, Exec.Succeeds, Exec.Idle, Exec.Given, Exec.Spawns;
      hide Exec.Loaded, Exec.OthersKept, Quiet, Exec.OffImage, Sheltered, Undisturbed, HasRun;
      hide Exec.Exec.Trusted, Exec.Exec.Source, Exec.Exec.Starts, Loader.Elf, Loader.Program, Loader.Span;
      hide Loader.Tabled, Takeover;
      ghost var u, ptrs := exec.mt.View(), exec.fs.entryV[..];
      AfloatQuiet();
      exec.SourceSane(path);
      ImageBeside(Spot(), u, ptrs, exec.Source(path));
      pid, base, f := exec.Run(path, now);
      StacksBeside(Spot(), u, exec.mt.View(), ptrs);
      ExecutesQuiet(Spot(), u, ptrs, exec.mt.View(), exec.mt.defRegs, path, now, pid, base, f);
      QuietSteady(Spot(), exec.mt.View(), ptrs);
      QuietSaved(Spot(), exec.mt.View(), ptrs);
    }

    /** A call that the file system has made beside the machine state `u`. */
    lemma Regained(u: Sys, ptrs: seq<nat>)
      requires exec.fs.Valid() && exec.fs.initLock && exec.fs.heap == exec.mt.heap && exec.mt.initLock
      requires exec.mt.cpu.ram == exec.fs.heap.ram && exec.mt.procV.Length == |exec.mt.saved| == PROCLIMIT
      requires Quiet(Spot(), u, ptrs) && Sheltered(u, ptrs) && Spared(Disk(u, ptrs), exec.fs.Now())
      requires u.sc.ctxs == Ctxs(u.mem, exec.mt.kernelCtx, exec.mt.procBase)
      requires u.sc.procs == exec.mt.procV[..] && u.sc.focus == exec.mt.focus
      requires u.regs == exec.mt.cpu.regs && u.here == exec.mt.here && u.saved == exec.mt.saved
      ensures Safe() && FileCall(u, ptrs, exec.mt.View(), exec.fs.entryV[..])
      ensures Isolated(exec.mt.Where(), u) ==> Sound()
    {
      hide RunLen, Isolated, Sheltered, Moored, Ctxs, Memory.WellFormed, Consistent;
      ghost var g, h := Disk(u, ptrs), exec.fs.Now();
      var v := u.(sc := u.sc.(table := h.table), mem := h.mem);
      QuietSteady(Spot(), u, ptrs);
      SteadyOwned(Spot().c, Spot().base, u.sc);
      Exec.VectorSpared(g, h, exec.mt.procBase);
      Exec.RecordsSpared(g.mem, h.mem, exec.mt.Where(), exec.mt.kernelCtx, exec.mt.procBase, u.sc);
      ShelteredCall(Spot(), u, ptrs, v, exec.fs.entryV[..]);
      assert exec.mt.View() == v;
      if Isolated(exec.mt.Where(), u) {
        FileCallAlike(u, ptrs, v, exec.fs.entryV[..]);
        SteadyOwned(Spot().c, Spot().base, v.sc);
        AlikeIsolated(exec.mt.Where(), u, v);
      }
    }

    /** `fs_createDir`, on a stack that the allocator will not hand out. */
    method CreateDir(path: seq<byte>, now: Stamps) returns (sts: int)
      requires Safe() && NulFree(path)
      modifies exec.fs.raPath, exec.fs.entryV, exec.fs.heap.blockV, exec.fs.heap.ram
      ensures Safe() && (old(Sound()) ==> Sound())
      ensures FileCall(old(exec.mt.View()), old(exec.fs.entryV[..]), exec.mt.View(), exec.fs.entryV[..])
      ensures Outcome(sts, exec.fs.Files()) == old(exec.fs.DirOutcome(path, now))
      ensures sts == SUCCESS ==> exec.fs.heap.Table() == old(exec.fs.DirTable())
      ensures sts != SUCCESS ==> exec.fs.Now() == old(exec.fs.Now())
    {
      hide Consistent, View, Steady, Linked, RecordsFit, Moored, Docked, Grounded, Isolated, Ctxs, Memory.WellFormed;
      hide RunLen, Separate, Quiet, Sheltered, FileCall, NoLeak, Spared, FsSpec.CreateDir, Room, Leftover;
      ghost var u, ptrs := exec.mt.View(), exec.fs.entryV[..];
      AfloatQuiet();
      sts := exec.fs.CreateDir(path, now);
      Regained(u, ptrs);
    }

    /** `fs_writeFile`, likewise. */
    method WriteFile(path: seq<byte>, size: word, buf: Buffer, now: Stamps) returns (sts: int)
      requires Safe() && NulFree(path) && |path| < MAX_PATHLEN && (buf.Data? ==> |buf.bytes| == size)
      requires exec.fs.Fitting(size)
      modifies exec.fs.raPath, exec.fs.entryV, exec.fs.heap.blockV, exec.fs.heap.ram
      ensures Safe() && (old(Sound()) ==> Sound())
      ensures FileCall(old(exec.mt.View()), old(exec.fs.entryV[..]), exec.mt.View(), exec.fs.entryV[..])
      ensures buf.Null? && size != 0 ==> sts == FAILURE
      ensures (buf.Null? ==> size == 0) ==>
                Outcome(sts, exec.fs.Files()) == old(exec.fs.WriteOutcome(path, size, Content(buf), now))
      ensures sts != SUCCESS ==> exec.fs.Now() == old(exec.fs.Now())
      ensures sts == SUCCESS && old(Find(exec.fs.Files(), path, 0)) == -1 ==>
                exec.fs.heap.Table() == old(exec.fs.FileTable(size))
    {
      hide Consistent, View, Steady, Linked, RecordsFit, Moored, Docked, Grounded, Isolated, Ctxs, Memory.WellFormed;
      hide RunLen, Separate, Quiet, Sheltered, FileCall, NoLeak, Spared, FsSpec.WriteFile, Room, Leftover;
      ghost var u, ptrs := exec.mt.View(), exec.fs.entryV[..];
      AfloatQuiet();
      sts := exec.fs.WriteFile(path, size, buf, now);
      Regained(u, ptrs);
    }

    /** `fs_readFile`, likewise. */
    method ReadFile(path: seq<byte>, now: Date) returns (p: nat)
      requires Safe() && NulFree(path)
      modifies exec.fs.heap.ram
      ensures Safe() && (old(Sound()) ==> Sound())
      ensures FileCall(old(exec.mt.View()), old(exec.fs.entryV[..]), exec.mt.View(), exec.fs.entryV[..])
      ensures var t, i := old(exec.fs.Files()), Find(old(exec.fs.Files()), path, 0);
              if i == -1 || t[i].f.h.kind != TYPE_FILE then p == 0 && exec.fs.Now() == old(exec.fs.Now())
              else exec.fs.Files() == t[i := Used(Accessed(t[i].f, now))] && exec.fs.Located(t, i, p)
    {
      hide Consistent, View, Steady, Linked, RecordsFit, Moored, Docked, Grounded, Isolated, Ctxs, Memory.WellFormed;
      hide RunLen, Separate, Quiet, Sheltered, FileCall, NoLeak, Spared, Find;
      ghost var u, ptrs := exec.mt.View(), exec.fs.entryV[..];
      AfloatQuiet();
      p := exec.fs.ReadFile(path, now);
      Regained(u, ptrs);
    }

    /** `fs_remove`, likewise. */
    method Remove(path: seq<byte>) returns (sts: int)
      requires Safe() && NulFree(path)
      modifies exec.fs.raPath, exec.fs.entryV, exec.fs.heap.blockV
      ensures Safe() && (old(Sound()) ==> Sound())
      ensures FileCall(old(exec.mt.View()), old(exec.fs.entryV[..]), exec.mt.View(), exec.fs.entryV[..])
      ensures Outcome(sts, exec.fs.Files()) == FsSpec.Remove(old(exec.fs.Files()), path)
      ensures sts != SUCCESS ==> exec.fs.Now() == old(exec.fs.Now())
    {
      hide Consistent, View, Steady, Linked, RecordsFit, Moored, Docked, Grounded, Isolated, Ctxs, Memory.WellFormed;
      hide RunLen, Separate, Quiet, Sheltered, FileCall, NoLeak, Spared, FsSpec.Remove, Find;
      ghost var u, ptrs := exec.mt.View(), exec.fs.entryV[..];
      AfloatQuiet();
      sts := exec.fs.Remove(path);
      Regained(u, ptrs);
    }

    /** `fs_bulkRemove`, likewise. */
    method BulkRemove(path: seq<byte>) returns (sts: int)
      requires Safe() && NulFree(path)
      modifies exec.fs.raPath, exec.fs.entryV, exec.fs.heap.blockV
      ensures Safe() && (old(Sound()) ==> Sound())
      ensures FileCall(old(exec.mt.View()), old(exec.fs.entryV[..]), exec.mt.View(), exec.fs.entryV[..])
      ensures Outcome(sts, exec.fs.Files()) == FsSpec.BulkRemove(old(exec.fs.Files()), path)
    {
      hide Consistent, View, Steady, Linked, RecordsFit, Moored, Docked, Grounded, Isolated, Ctxs, Memory.WellFormed;
      hide RunLen, Separate, Quiet, Sheltered, FileCall, NoLeak, Spared, FsSpec.BulkRemove;
      ghost var u, ptrs := exec.mt.View(), exec.fs.entryV[..];
      AfloatQuiet();
      sts := exec.fs.BulkRemove(path);
      Regained(u, ptrs);
    }
  }

  /** The image of a program is laid beside a stack that is a run of its own. */
  lemma ImageBeside(w: Fixed, u: Sys, ptrs: seq<nat>, f: seq<byte>)
    requires Quiet(w, u, ptrs) && Sheltered(u, ptrs)
    ensures Exec.OffImage(u.sc.table, u.sc.space, u.here, f)
  {
    hide RunLen, MallocOf, Blocks, Memory.WellFormed, Consistent, Docked, Moored, Separate, Loader.Program, Loader.Span;
    hide Loader.AllLoadable;
    ShapedOfSteady(w.c, w.base, u.sc);
    if Exec.Manageable(f) && Blocks(Loader.Span(Loader.Program(f))) <= |u.sc.table| {
      var size := Loader.Span(Loader.Program(f));
      var a := MallocOf(u.sc.table, u.sc.space, size);
      MallocAdds(u.sc.table, u.sc.space, size);
      if a.ptr != 0 {
        RunInside(a.table, u.sc.space, a.ptr);
        if RunLen(u.sc.table, u.sc.space, u.here.lo) == 1 {
          RunsApart(a.table, u.sc.space, u.here.lo, a.ptr);
        }
      }
    }
  }

  /** `exec` leaves such stacks alone. */
  lemma StacksBeside(w: Fixed, u: Sys, v: Sys, ptrs: seq<nat>)
    requires Quiet(w, u, ptrs) && Sheltered(u, ptrs) && Exec.OthersKept(Disk(u, ptrs), Disk(v, ptrs), w.base)
    requires |v.mem| == |u.mem|
    ensures Undisturbed(u, v)
  {
    hide RunLen, Memory.WellFormed, Consistent, Moored, Separate, Steady, Linked;
    QuietSteady(w, u, ptrs);
    forall b | HasRun(u.sc, ptrs, b) && Grounded(w.c, w.kernel, w.base, b) ensures Same(u.mem, v.mem, b.lo, b.hi) {
      if u.sc.space < b.hi && b.lo < u.sc.space + BLKSIZE * |u.sc.table| {
        assert b.lo != w.base;
        assert SameRun(Disk(u, ptrs), Disk(v, ptrs), b.lo);
      }
    }
    forall q | Idles(u.sc, q) ensures Same(u.mem, v.mem, u.saved[q].lo, u.saved[q].hi) {
      assert DockedAt(w.c, w.kernel, w.base, u, q);
    }
  }

  // ----- Coming up -----

  /** What the linker fixes lies below the region the allocator gets: the kernel's stack, its record and
      the scratch word of the switch, apart from one another. */
  predicate Linkage(base: nat, tmp: nat, kernelCtx: nat, kLo: nat, kHi: nat) {
    && kLo <= kHi <= base && tmp + 4 <= base && kernelCtx + CTX_SIZE <= base
    && (tmp + 4 <= kLo || kHi <= tmp) && (kernelCtx + CTX_SIZE <= kLo || kHi <= kernelCtx)
    && Apart(kernelCtx, CTX_SIZE, tmp, 4)
  }

  /** Blocks that the start takes: 34 for the file system, one for the process vector, one for the
      mount table. */
  const START := 36

  /** The allocator and the file system. */
  method BootFiles(ram: array<byte>, size: word, base: nat, now: Stamps) returns (fs: CoreFs?)
    requires ram.Length == RAM_SIZE && 0 < base && base + size < RAM_SIZE
    requires (PoolBlocks(size) <= 0 || 16 <= PoolBlocks(size))
    modifies ram
    ensures fs != null <==> 34 <= PoolBlocks(size)
    ensures fs != null ==>
              && fresh(fs) && fresh(fs.heap) && fresh(fs.mounts) && fresh(fs.heap.blockV) && fs.heap.ram == ram
              && fresh(fs.entryV) && fresh(fs.raPath)
    ensures fs != null ==>
              fs.Valid() && fs.initLock && !fs.mounts.initLock && OnlyRoot(fs.Files(), now) && Tree(fs.Files())
    ensures fs != null ==>
              && Filled(fs.heap.Table(), 34) && fs.heap.blockC == PoolBlocks(size) && base <= fs.heap.space
              && fs.heap.limit <= base + size
  {
    hide Consistent, View, Memory.WellFormed, RunLen, MallocOf, Serves, AllServed, OnlyRoot, Tree, Spared, Filled;
    fs := null;
    var heap := new Heap(ram);
    var ok := heap.Init(size, base);
    if !ok { return; }
    InitLayout(size, base);
    var mounts := new MountMgr.MountMgr();
    var files := new CoreFs(heap, mounts);
    NoneFilled(heap.Table());
    RequestsServed(heap.Table(), heap.space);
    var sts, panic := files.Init(now);
    if !panic { fs := files; }
  }

  lemma NoneFilled(t: Table)
    ensures (forall i :: 0 <= i < |t| ==> t[i] == Block(0, false)) ==> Filled(t, 0)
  {
  }

  /** The scheduler beside the file system. */
  method BootScheduler(fs: CoreFs, base: nat, tmp: word, regs: Ctx, kernelCtx: nat, kLo: nat, kHi: nat)
    returns (mt: Multitask?)
    requires fs.Valid() && fs.initLock && Filled(fs.heap.Table(), 34) && base <= fs.heap.space
    requires fs.heap.limit < RAM_SIZE
    requires Linkage(base, tmp, kernelCtx, kLo, kHi)
    modifies fs.heap.blockV, fs.heap.ram
    ensures mt != null <==> 35 <= fs.heap.blockC
    ensures mt != null ==>
              fresh(mt) && fresh(mt.cpu) && fresh(mt.procV) && mt.heap == fs.heap && mt.initLock && mt.Valid()
    ensures mt != null ==>
              && fs.Valid() && fs.Files() == old(fs.Files()) && Filled(fs.heap.Table(), 35)
              && mt.procBase !in fs.entryV[..]
    ensures mt != null ==>
              && mt.focus == 0 && Isolated(mt.Where(), mt.View()) && (forall p :: !Alive(mt.State(), p))
              && mt.here == Band(kLo, kHi)
    ensures mt != null ==> mt.kLo == kLo && mt.kHi == kHi && mt.cpu.tmp == tmp && mt.kernelCtx == kernelCtx
  {
    hide Consistent, View, Memory.WellFormed, RunLen, MallocOf, Spared, Filled, Isolated, Steady, Linked, RecordsFit;
    hide Grounded, Ctxs;
    mt := null;
    var cpu := new Cpu(fs.heap.ram, tmp, regs);
    var m := new Multitask(cpu, fs.heap, kernelCtx, kLo, kHi);
    ghost var f := fs.Now();
    ShapeOf(f);
    FilledMalloc(f.table, f.space, 34, VECTOR_SIZE);
    var ok := m.Init();
    if !ok { return; }
    VectorBeside(f, fs.Now(), m.procBase);
    mt := m;
  }

  /** The vector is a fresh run, and only it has been written. */
  lemma VectorBeside(f: Fs, g: Fs, p: nat)
    requires Consistent(f) && |g.mem| == |f.mem| && g.space == f.space && g.ptrs == f.ptrs && p != 0
    requires Alloc(p, g.table) == MallocOf(f.table, f.space, VECTOR_SIZE) && Kept(f.mem, g.mem, p, VECTOR_SIZE, 0, 0)
    ensures Consistent(g) && View(g) == View(f) && p !in f.ptrs
  {
    hide Consistent, View, MallocOf;
    ShapeOf(f);
    OtherMalloc(f, g, VECTOR_SIZE);
  }

  /** The mount table is a fresh run like any other. */
  lemma MountsBeside(c: Site, kernel: nat, base: nat, s: Sched, f: Fs, g: Fs, size: word)
    requires Steady(c, base, s) && Linked(c, kernel, s) && RecordsFit(kernel, base) && Consistent(f)
    requires s.table == f.table && s.space == f.space
    requires Sane(size) && size > 0 && Blocks(size) <= |f.table| && g.space == f.space && g.ptrs == f.ptrs
    requires |g.mem| == |f.mem|
    requires var a := MallocOf(f.table, f.space, size);
             && a.ptr != 0 && g.table == a.table && Same(f.mem, g.mem, 0, a.ptr)
             && Same(f.mem, g.mem, a.ptr + BLKSIZE * Blocks(size), |f.mem|)
    ensures Ctxs(g.mem, kernel, base) == Ctxs(f.mem, kernel, base)
    ensures forall p :: Alive(s.(table := g.table), p) <==> Alive(s, p)
    ensures Steady(c, base, s.(table := g.table)) && Linked(c, kernel, s.(table := g.table))
    ensures Consistent(g) && View(g) == View(f)
  {
    hide Consistent, View, Steady, MallocOf, Ctxs, RecordsFit, Linked, Blocks, RunLen;
    ShapeOf(f);
    ShapedOfSteady(c, base, s);
    OtherMalloc(f, g, size);
    Exec.MallocSteady(c, base, s, size);
    Exec.StacksLive(c, base, s);
    Exec.FreshSparesVector(f, g, size, base);
    Exec.RecordsSpared(f.mem, g.mem, c, kernel, base, s);
  }

  /** With nobody but the kernel about, and its stack below the pool, everybody is moored. */
  lemma NobodyMoored(u: Sys, ptrs: seq<nat>)
    requires Shaped(u.sc) && u.sc.focus == 0 && (forall p :: !Alive(u.sc, p)) && Consistent(Disk(u, ptrs))
    requires |u.saved| == PROCLIMIT
    requires u.here.hi <= u.sc.space
    ensures Moored(u, ptrs)
  {
    hide RunLen;
    forall q | q in ptrs && q != 0 ensures Disjoint(u.here, RunBand(u.sc, q)) {
      var j :| 0 <= j < |ptrs| && ptrs[j] == q;
      EntryHoused(Disk(u, ptrs), j);
      RunInside(u.sc.table, u.sc.space, q);
    }
  }

  lemma EntriesStay(f: Fs, g: Fs, u: Sys, v: Sys)
    requires Consistent(f) && Consistent(g) && u.sc.table == f.table && u.sc.space == v.sc.space == f.space == g.space
    requires v.sc.table == g.table && g.ptrs == f.ptrs
    requires exists size: word ::
               Sane(size) && Blocks(size) <= |f.table| && g.table == MallocOf(f.table, f.space, size).table
    ensures forall q :: q in f.ptrs && q != 0 ==> RunBand(v.sc, q) == RunBand(u.sc, q)
  {
    hide RunLen, MallocOf, Blocks;
    var size: word :| Sane(size) && Blocks(size) <= |f.table| && g.table == MallocOf(f.table, f.space, size).table;
    MallocAdds(f.table, f.space, size);
    forall q | q in f.ptrs && q != 0 ensures RunBand(v.sc, q) == RunBand(u.sc, q) {
      var j :| 0 <= j < |f.ptrs| && f.ptrs[j] == q;
      EntryHoused(f, j);
    }
  }

  /** The file system and the scheduler, with nobody about. */
  ghost predicate Waiting(fs: CoreFs, mt: Multitask)
    reads fs, fs.heap, fs.heap.blockV, fs.heap.ram, fs.entryV, fs.mounts, mt, mt.procV, mt.heap, mt.heap.blockV, mt.cpu
    reads mt.cpu.ram
  {
    && mt.heap == fs.heap && fs.Valid() && fs.initLock && mt.Valid() && mt.initLock && mt.procBase !in fs.entryV[..]
    && mt.focus == 0 && Isolated(mt.Where(), mt.View()) && (forall p :: !Alive(mt.State(), p))
    && mt.here.hi <= fs.heap.space
  }

  /** The mount manager beside both. */
  method BootMounts(fs: CoreFs, mt: Multitask) returns (panic: bool)
    requires Waiting(fs, mt) && Filled(fs.heap.Table(), 35) && !fs.mounts.initLock
    modifies fs.mounts, fs.heap.blockV, fs.heap.ram
    ensures panic <==> fs.heap.blockC < START
    ensures !panic ==> Waiting(fs, mt) && fs.mounts.initLock && fs.Files() == old(fs.Files())
    ensures !panic ==> Filled(fs.heap.Table(), START)
  {
    hide Consistent, View, Steady, Linked, RecordsFit, Moored, Docked, Grounded, Isolated, Ctxs, Memory.WellFormed;
    hide RunLen;
    hide Separate, MallocOf, Filled;
    ghost var f, u := fs.Now(), mt.View();
    ShapeOf(f);
    FilledMalloc(f.table, f.space, 35, MountMgr.MOUNTLIMIT * 4);
    panic := fs.mounts.Init(fs.heap);
    if panic { return; }
    MountsBeside(mt.Where(), mt.kernelCtx, mt.procBase, u.sc, f, fs.Now(), MountMgr.MOUNTLIMIT * 4);
    ShapedOfSteady(mt.Where(), mt.procBase, u.sc.(table := fs.heap.Table()));
    assert mt.State() == u.sc.(table := fs.heap.Table());
    StillWaiting(mt.Where(), mt.procBase, f, fs.Now(), u, mt.View(), MountMgr.MOUNTLIMIT * 4);
  }

  lemma StillWaiting(c: Site, base: nat, f: Fs, g: Fs, u: Sys, v: Sys, size: word)
    requires Consistent(f) && Consistent(g) && Isolated(c, u) && Steady(c, base, v.sc)
    requires v == u.(sc := u.sc.(table := g.table), mem := g.mem)
    requires u.sc.table == f.table && u.sc.space == f.space == g.space && u.mem == f.mem && |g.mem| == |f.mem|
    requires g.ptrs == f.ptrs
    requires Sane(size) && Blocks(size) <= |f.table| && g.table == MallocOf(f.table, f.space, size).table
    requires u.sc.focus == 0 && (forall p :: !Alive(u.sc, p)) && u.here.hi <= f.space
    ensures Isolated(c, v)
  {
    hide Consistent, MallocOf, RunLen, Blocks, Steady, Owned, OffFiles, Standing, Placed;
    IsolatedShaped(c, u);
    ShapedOfSteady(c, base, v.sc);
    SavedOf(c, u);
    NobodyMoored(u, f.ptrs);
    SteadyOwned(c, base, v.sc);
    EntriesStay(f, g, u, v);
    AlikeIsolated(c, u, v);
  }

  lemma SavedOf(c: Site, u: Sys)
    requires Isolated(c, u)
    ensures |u.saved| == PROCLIMIT
  {
  }

  /** With nobody about, everything is in its place. */
  lemma WaitingSound(k: Kernel)
    requires Waiting(k.exec.fs, k.exec.mt)
    ensures k.Sound()
  {
    hide Consistent, View, Steady, Linked, RecordsFit, Grounded, Isolated, Ctxs, Memory.WellFormed, RunLen, MallocOf;
    hide Moored;
    ShapedOfSteady(k.exec.mt.Where(), k.exec.mt.procBase, k.exec.mt.State());
    SavedOf(k.exec.mt.Where(), k.exec.mt.View());
    NobodyMoored(k.exec.mt.View(), k.exec.fs.entryV[..]);
  }

  /** Memory, file system, scheduler and mount manager, in the kernel's order. The null result stands
      for a panic. */
  method Boot(ram: array<byte>, size: word, base: nat, tmp: word, regs: Ctx, kernelCtx: nat, kLo: nat, kHi: nat,
              now: Stamps)
    returns (k: Kernel?)
    requires ram.Length == RAM_SIZE && 0 < base && base + size < RAM_SIZE && Linkage(base, tmp, kernelCtx, kLo, kHi)
    requires PoolBlocks(size) <= 0 || 16 <= PoolBlocks(size)
    modifies ram
    ensures k != null <==> START <= PoolBlocks(size)
    ensures k != null ==>
              && fresh(k) && k.Sound() && k.exec.fs.heap.ram == ram && OnlyRoot(k.exec.fs.Files(), now)
              && fresh(k.exec.fs.entryV) && fresh(k.exec.fs.raPath) && fresh(k.exec.fs.heap.blockV)
              && k.exec.fs.heap.blockC == PoolBlocks(size)
              && Tree(k.exec.fs.Files()) && Filled(k.exec.fs.heap.Table(), START)
              && k.exec.fs.mounts.initLock && k.exec.mt.focus == 0 && forall p :: !Alive(k.exec.mt.State(), p)
  {
    hide Consistent, View, Steady, Linked, RecordsFit, Moored, Docked, Grounded, Isolated, Ctxs, Memory.WellFormed;
    hide RunLen;
    hide Separate, MallocOf, OnlyRoot, Tree, Filled;
    k := null;
    var fs := BootFiles(ram, size, base, now);
    if fs == null { return; }
    var mt := BootScheduler(fs, base, tmp, regs, kernelCtx, kLo, kHi);
    if mt == null { return; }
    var panic := BootMounts(fs, mt);
    if panic { return; }
    var exec := new Exec.Exec(fs, mt);
    k := new Kernel(exec);
    WaitingSound(k);
  }
}
