/** Starting a program from a file: file system, allocator and scheduler side by side. */
module Exec {
  import opened Bytes
  import opened Paths
  import opened FsSpec
  import opened Headers
  import opened Memory
  import opened Store
  import opened CoreFs
  import opened Schedule
  import opened Isolation
  import opened Multitask
  import opened Coexist
  import opened Loader
  import MountMgr
  import Switch

  // ----- Two owners of one pool -----

  /** The scheduler does not care what becomes of the rest of the pool. */
  lemma {:induction false} OtherSteady(c: Site, vector: nat, s: Sched, t: Table)
    requires Steady(c, vector, s) && WellFormed(t) && |t| == |s.table| && RunLen(t, s.space, vector) == 1
    requires forall p :: Alive(s, p) ==>
                           RunLen(t, s.space, s.procs[p].stack) == RunLen(s.table, s.space, s.procs[p].stack)
    ensures Steady(c, vector, s.(table := t))
  {
    hide RunLen, WellFormed;
    var r := s.(table := t);
    assert forall p :: Alive(r.(focus := 0), p) <==> Alive(s.(focus := 0), p);
    assert forall p :: Alive(r, p) <==> Alive(s, p);
  }

  lemma {:induction false} MallocSteady(c: Site, vector: nat, s: Sched, size: word)
    requires Steady(c, vector, s) && Sane(size) && Blocks(size) <= |s.table|
    ensures Steady(c, vector, s.(table := MallocOf(s.table, s.space, size).table))
    ensures forall kernel :: Linked(c, kernel, s) ==>
                               Linked(c, kernel, s.(table := MallocOf(s.table, s.space, size).table))
    ensures var a := MallocOf(s.table, s.space, size);
            a.ptr != 0 ==> a.ptr != vector && forall p :: Alive(s, p) ==> s.procs[p].stack != a.ptr
  {
    hide RunLen, MallocOf, WellFormed, Blocks;
    ShapedOfSteady(c, vector, s);
    MallocAdds(s.table, s.space, size);
    StacksLive(c, vector, s);
    OtherSteady(c, vector, s, MallocOf(s.table, s.space, size).table);
  }

  lemma {:induction false} StacksLive(c: Site, vector: nat, s: Sched)
    requires Steady(c, vector, s)
    ensures RunLen(s.table, s.space, vector) == 1
    ensures forall p :: Alive(s, p) ==> RunLen(s.table, s.space, s.procs[p].stack) == 1
  {
    assert forall p :: Alive(s, p) ==> Alive(s.(focus := 0), p);
  }

  /** Writes that spare the vector's run, and the memory outside the pool, leave the records alone. */
  lemma {:induction false} RecordsSpared(m: seq<byte>, r: seq<byte>, c: Site, kernel: nat, vector: nat, s: Sched)
    requires |m| == |r| == RAM_SIZE && RecordsFit(kernel, vector) && Linked(c, kernel, s)
    requires RunLen(s.table, s.space, vector) == 1 && Same(m, r, vector, vector + BLKSIZE)
    requires Same(m, r, 0, s.space) && Same(m, r, s.space + BLKSIZE * |s.table|, RAM_SIZE)
    ensures Ctxs(r, kernel, vector) == Ctxs(m, kernel, vector)
  {
    CtxsKept(m, r, kernel, vector);
  }

  /** The entries' runs are apart from the vector's, and from any fresh run. */
  lemma {:induction false} EntriesSpared(f: Fs, g: Fs, vector: nat, size: word)
    requires Consistent(f) && Sane(size) && Blocks(size) <= |f.table| && g.space == f.space && g.ptrs == f.ptrs
    requires |g.mem| == |f.mem|
    requires var a := MallocOf(f.table, f.space, size); a.ptr != 0 && g.table == a.table
    requires RunLen(f.table, f.space, vector) == 1 && vector !in f.ptrs
    requires Same(f.mem, g.mem, 0, vector) && Same(f.mem, g.mem, vector + BLKSIZE, |f.mem|)
    ensures Consistent(g) && View(g) == View(f) && MallocOf(f.table, f.space, size).ptr !in f.ptrs
    ensures AllRunsKept(f, g, vector)
  {
    hide RunLen, MallocOf, Memory.WellFormed, HeaderAt, Blocks, FreeOf;
    ShapeOf(f);
    RunInside(f.table, f.space, vector);
    MallocAdds(f.table, f.space, size);
    forall q: int | RunLen(f.table, f.space, q) > 0 && q != vector
      ensures SameRun(f, g, q) && q != MallocOf(f.table, f.space, size).ptr {
      RunsApart(f.table, f.space, q, vector);
    }
    forall j | 0 <= j < ENTCOUNT && f.ptrs[j] != 0
      ensures SameRun(f, g, f.ptrs[j]) && f.ptrs[j] != MallocOf(f.table, f.space, size).ptr {
      assert f.ptrs[j] in f.ptrs;
      EntryRun(f, j);
    }
    AllKept(f, g);
  }

  lemma {:induction false} EntryRun(f: Fs, j: nat)
    requires Consistent(f) && j < ENTCOUNT && f.ptrs[j] != 0
    ensures RunLen(f.table, f.space, f.ptrs[j]) > 0
  {
  }

  /** A fresh run, whatever is written in it, spares the vector and everything outside the pool. */
  lemma {:induction false} FreshSparesVector(g: Fs, h: Fs, size: word, vector: nat)
    requires Shape(g) && Sane(size) && Blocks(size) <= |g.table| && |h.mem| == |g.mem| && h.space == g.space
    requires RunLen(g.table, g.space, vector) == 1
    requires var a := MallocOf(g.table, g.space, size);
             && a.ptr != 0 && h.table == a.table && Same(g.mem, h.mem, 0, a.ptr)
             && Same(g.mem, h.mem, a.ptr + BLKSIZE * Blocks(size), |g.mem|)
    ensures Same(g.mem, h.mem, vector, vector + BLKSIZE)
    ensures Same(g.mem, h.mem, 0, g.space) && Same(g.mem, h.mem, g.space + BLKSIZE * |g.table|, RAM_SIZE)
  {
    hide MallocOf, RunLen, Blocks, Memory.WellFormed;
    FreshRunOnly(g, h, size);
    assert SameRun(g, h, vector);
  }

  /** `n` bytes at `p` are the content of entry `i`. */
  ghost predicate Houses(f: Fs, i: nat, p: nat, n: nat)
    requires i < |f.ptrs|
  {
    && f.ptrs[i] != 0 && f.ptrs[i] + HEADER <= |f.mem| && p == f.ptrs[i] + HEADER
    && OwnData(HeaderAt(f.mem, f.ptrs[i])) && n == HeaderAt(f.mem, f.ptrs[i]).size
  }

  /** `n` bytes at `p` lie outside the pool or are the content of an entry. */
  ghost predicate Held(f: Fs, p: nat, n: nat)
    requires |f.ptrs| == ENTCOUNT
  {
    || p + n <= f.space || f.space + BLKSIZE * |f.table| <= p
    || exists i :: 0 <= i < ENTCOUNT && Houses(f, i, p, n)
  }

  lemma {:induction false} HeldApart(p: nat, n: nat, g: Fs, h: Fs, base: nat, size: word)
    requires Consistent(g) && Consistent(h) && h.ptrs == g.ptrs && h.mem == g.mem && h.space == g.space
    requires |h.table| == |g.table|
    requires RunLen(h.table, h.space, base) > 0 && base !in h.ptrs && size <= BLKSIZE * RunLen(h.table, h.space, base)
    requires Held(g, p, n)
    ensures Beside(base, size, p, n)
  {
    hide RunLen, HeaderAt;
    ShapeOf(h);
    RunInside(h.table, h.space, base);
    if !(p + n <= g.space || g.space + BLKSIZE * |g.table| <= p) {
      var i :| 0 <= i < ENTCOUNT && Houses(g, i, p, n);
      OwnRunApart(g, h, i, base, size);
    }
  }

  lemma {:induction false} FetchedHeld(h: Fs, i: nat, p: nat, f: seq<byte>)
    requires Consistent(h) && i < ENTCOUNT && h.ptrs[i] != 0
    requires View(h)[i].f.h.ftype == TYPE_MOUNTED ==> p + |f| <= h.space || h.space + BLKSIZE * |h.table| <= p
    requires View(h)[i].f.h.ftype != TYPE_MOUNTED ==>
               View(h)[i].f.h.kind == TYPE_FILE && p == h.ptrs[i] + HEADER && |f| == View(h)[i].f.h.size
    ensures Held(h, p, |f|)
  {
    hide RunLen, HeaderAt, Memory.WellFormed;
    EntryHoused(h, i);
    assert View(h)[i] == SlotAt(h, i);
    assert View(h)[i].f.h.ftype != TYPE_MOUNTED ==> Houses(h, i, p, |f|);
  }

  // ----- Running a file -----

  class Exec {
    const fs: CoreFs
    const mt: Multitask

    constructor (fs: CoreFs, mt: Multitask)
      ensures this.fs == fs && this.mt == mt
    {
      this.fs, this.mt := fs, mt;
    }

    ghost predicate Valid()
      reads this, fs, fs.heap, fs.heap.blockV, fs.heap.ram, fs.entryV, fs.mounts, mt, mt.procV, mt.heap, mt.heap.blockV
      reads mt.cpu, mt.cpu.ram
    {
      && fs.heap == mt.heap && fs.Valid() && mt.Valid()
      && (fs.initLock && mt.initLock ==> Separate(fs.Now(), mt.State(), mt.procBase))
    }

    ghost predicate Running()
      reads this, fs, fs.heap, fs.heap.blockV, fs.heap.ram, fs.entryV, fs.mounts, mt, mt.procV, mt.heap, mt.heap.blockV
      reads mt.cpu, mt.cpu.ram
    {
      Valid() && fs.initLock && mt.initLock
    }

    /** A run beside those of the scheduler and the file system. */
    method TakeRun(size: word) returns (base: nat)
      requires Running() && Sane(size) && Blocks(size) <= fs.heap.blockC
      modifies fs.heap.blockV
      ensures Running() && fs.Files() == old(fs.Files())
      ensures Alloc(base, fs.heap.Table()) == MallocOf(old(fs.heap.Table()), fs.heap.space, size)
      ensures base == 0 ==> fs.Now() == old(fs.Now())
      ensures base != 0 ==> forall p :: Alive(mt.State(), p) ==> mt.State().procs[p].stack != base
      ensures base != 0 ==>
                && base != mt.procBase && base !in fs.entryV[..]
                && size <= BLKSIZE * RunLen(fs.heap.Table(), fs.heap.space, base)
      ensures mt.State() == old(mt.State()).(table := fs.heap.Table())
    {
      hide HeaderAt, FileAt, Consistent, View, MallocOf, FreeOf, Memory.WellFormed, RunLen, Spared, Steady, Ctxs;
      hide Blocks, Linked, RecordsFit;
      ghost var g, s := fs.Now(), mt.State();
      MallocSteady(mt.Where(), mt.procBase, s, size);
      ShapeOf(g);
      MallocAdds(g.table, g.space, size);
      base := fs.heap.Malloc(size);
      if base != 0 { OtherMalloc(g, fs.Now(), size); }
    }

    /** The image goes into its run; `g` was the state before the run was taken. */
    method PlaceImage(p: nat, base: nat, min: word, ghost size: word, ghost f: seq<byte>, ghost g: Fs)
      requires Running() && Lies(fs.heap.ram[..], p, f) && Elf(f) && min == Bottom(Program(f))
      requires size == Span(Program(f))
      requires base + size <= RAM_SIZE && Beside(base, size, p, |f|)
      requires Consistent(g) && Sane(size) && Blocks(size) <= |g.table| && size > 0 && g == fs.Now().(table := g.table)
      requires |g.table| == fs.heap.blockC
      requires Alloc(base, fs.heap.Table()) == MallocOf(g.table, g.space, size) && base != 0
      requires RunLen(g.table, g.space, mt.procBase) == RunLen(fs.heap.Table(), fs.heap.space, mt.procBase)
      modifies fs.heap.ram
      ensures Running() && fs.Files() == old(fs.Files()) && mt.State() == old(mt.State())
      ensures Imaged(g, fs.Now(), base, f) && Lies(fs.heap.ram[..], p, f)
    {
      hide HeaderAt, FileAt, Consistent, View, MallocOf, FreeOf, Memory.WellFormed, RunLen, Spared, Lies, AllLoadable;
      hide Tabled, Program, Bottom, Span, Steady, Ctxs, Paint, Fits, Blocks, Linked, RecordsFit, Separate;
      ShapeOf(g);
      MallocAdds(g.table, g.space, size);
      OtherMalloc(g, fs.Now(), size);
      StacksLive(mt.Where(), mt.procBase, mt.State());
      Place(fs.heap.ram, p, base, min, size, f);
      OtherMalloc(g, fs.Now(), size);
      FreshSparesVector(g, fs.Now(), size, mt.procBase);
      RecordsSpared(g.mem, fs.heap.ram[..], mt.Where(), mt.kernelCtx, mt.procBase, old(mt.State()));
      SeparateSame(g, old(fs.Now()), fs.Now(), mt.State(), mt.procBase);
    }

    lemma {:induction false} SeparateSame(g: Fs, f: Fs, h: Fs, s: Sched, vector: nat)
      requires Separate(f, s, vector) && h.ptrs == f.ptrs
      ensures Separate(h, s, vector)
    {
    }

    /** A fresh run for the image, and the image in it. */
    method LoadImage(p: nat, ghost f: seq<byte>) returns (base: nat)
      requires OffImage(fs.heap.Table(), fs.heap.space, mt.here, f)
      requires Running() && Lies(fs.heap.ram[..], p, f) && Elf(f) && Held(fs.Now(), p, |f|)
      requires Sane(Span(Program(f))) && Blocks(Span(Program(f))) <= fs.heap.blockC
      modifies fs.heap.blockV, fs.heap.ram
      ensures Running() && fs.Files() == old(fs.Files())
      ensures Alloc(base, fs.heap.Table()) == MallocOf(old(fs.heap.Table()), fs.heap.space, Span(Program(f)))
      ensures base == 0 ==> fs.Now() == old(fs.Now())
      ensures base != 0 ==> Imaged(old(fs.Now()), fs.Now(), base, f) && Lies(fs.heap.ram[..], p, f)
      ensures base != 0 ==> forall p :: Alive(mt.State(), p) ==> mt.State().procs[p].stack != base
      ensures base != 0 ==> base != mt.procBase && base !in fs.entryV[..]
      ensures mt.State() == old(mt.State()).(table := fs.heap.Table())
    {
      hide HeaderAt, FileAt, Consistent, View, MallocOf, FreeOf, Memory.WellFormed, RunLen, Spared, Lies, AllLoadable;
      hide Tabled, Program, Bottom, Top, Span, Steady, Ctxs, Paint, Fits, Blocks, Linked, RecordsFit, Separate, Imaged;
      hide Held;
      ghost var g, s := fs.Now(), mt.State();
      var min, max := Measure(fs.heap.ram, p, f);
      SpanOf(f);
      var size := (max - min) % RAM_SIZE;
      base := TakeRun(size);
      if base == 0 { return; }
      TakenRun(g, fs.Now(), base, size, mt.procBase);
      HeldApart(p, |f|, g, fs.Now(), base, size);
      PlaceImage(p, base, min, size, f, g);
    }

    /** The bytes of file `i`. */
    ghost function ContentOf(i: nat): seq<byte>
      requires Running() && i < ENTCOUNT && fs.Files()[i].Used? && Placed(i)
      reads this, fs, fs.heap, fs.heap.blockV, fs.heap.ram, fs.entryV, fs.mounts, fs.mounts.mountV, mt, mt.procV
      reads mt.heap, mt.heap.blockV, mt.cpu, mt.cpu.ram
    {
      var f := fs.Files()[i].f;
      if f.h.ftype != TYPE_MOUNTED then f.data
      else
        var p := if fs.mounts.initLock then fs.mounts.mountV[f.h.mountslot] else 0;
        if p == 0 then [] else fs.heap.ram[p..p + f.h.size]
    }

    /** What is mounted lies outside the allocator's pool. */
    ghost predicate Placed(i: nat)
      requires Running() && i < ENTCOUNT && fs.Files()[i].Used?
      reads this, fs, fs.heap, fs.heap.blockV, fs.heap.ram, fs.entryV, fs.mounts, fs.mounts.mountV, mt, mt.procV
      reads mt.heap, mt.heap.blockV, mt.cpu, mt.cpu.ram
    {
      var h := fs.Files()[i].f.h;
      h.ftype == TYPE_MOUNTED ==>
        && h.mountslot < MountMgr.MOUNTLIMIT
        && var p := fs.mounts.mountV[h.mountslot];
        p + h.size <= RAM_SIZE && (p + h.size <= fs.heap.space || fs.heap.limit <= p)
    }

    /** A mounted file has its data somewhere. */
    ghost predicate Somewhere(i: nat)
      requires Running() && i < ENTCOUNT && fs.Files()[i].Used? && Placed(i)
      reads this, fs, fs.heap, fs.heap.blockV, fs.heap.ram, fs.entryV, fs.mounts, fs.mounts.mountV, mt, mt.procV
      reads mt.heap, mt.heap.blockV, mt.cpu, mt.cpu.ram
    {
      var h := fs.Files()[i].f.h;
      h.ftype == TYPE_MOUNTED ==> fs.mounts.initLock && fs.mounts.mountV[h.mountslot] != 0
    }

    /** A file that claims to be a program is one, and the allocator can compute with its size. */
    ghost predicate Startable(f: seq<byte>)
      reads fs, fs.heap
    {
      && 4 <= |f|
      && (Get32(f, 0) == MAGIC ==> Elf(f) && Sane(Span(Program(f))) && Blocks(Span(Program(f))) <= fs.heap.blockC)
    }

    /** The content that `exec` will find under a path. */
    ghost function Source(path: seq<byte>): seq<byte>
      reads this, fs, fs.heap, fs.heap.blockV, fs.heap.ram, fs.entryV, fs.mounts, fs.mounts.mountV, mt, mt.procV
      reads mt.heap, mt.heap.blockV, mt.cpu, mt.cpu.ram
    {
      if !Running() then []
      else
        var i := Find(fs.Files(), path, 0);
        if i == -1 || fs.Files()[i].f.h.kind != TYPE_FILE || !Placed(i) || !Somewhere(i) then [] else ContentOf(i)
    }

    lemma NoSource(path: seq<byte>)
      requires Running() ==> Find(fs.Files(), path, 0) == -1
      ensures Source(path) == []
    {
    }

    /** What the code takes for granted about the file it starts. */
    ghost predicate Trusted(path: seq<byte>)
      reads this, fs, fs.heap, fs.heap.blockV, fs.heap.ram, fs.entryV, fs.mounts, fs.mounts.mountV, mt, mt.procV
      reads mt.heap, mt.heap.blockV, mt.cpu, mt.cpu.ram
    {
      Running() ==>
        var i := Find(fs.Files(), path, 0);
        i != -1 && fs.Files()[i].f.h.kind == TYPE_FILE ==> Placed(i) && (Somewhere(i) ==> Startable(Source(path)))
    }

    lemma SourceSane(path: seq<byte>)
      requires Running() && Trusted(path)
      ensures Elf(Source(path)) ==> Manageable(Source(path))
      ensures Elf(Source(path)) ==> Blocks(Span(Program(Source(path)))) <= fs.heap.blockC
    {
    }

    /** The file of this name has a program to run in its own bytes, or in those mounted under it. */
    ghost predicate Starts(path: seq<byte>)
      requires Running()
      reads this, fs, fs.heap, fs.heap.blockV, fs.heap.ram, fs.entryV, fs.mounts, fs.mounts.mountV, mt, mt.procV
      reads mt.heap, mt.heap.blockV, mt.cpu, mt.cpu.ram
    {
      var i := Find(fs.Files(), path, 0);
      && i != -1 && fs.Files()[i].f.h.kind == TYPE_FILE
      && var f := fs.Files()[i].f;
      if f.h.ftype != TYPE_MOUNTED then CanRun(mt.State(), f.data)
      else
        && Placed(i) && Somewhere(i)
        && var p := fs.mounts.mountV[f.h.mountslot]; CanRun(mt.State(), fs.heap.ram[p..p + f.h.size])
    }

    lemma StartsIff(path: seq<byte>)
      requires Running() && Trusted(path)
      ensures Starts(path) <==> Succeeds(mt.State(), mt.defRegs, path, Source(path))
    {
      hide HeaderAt, FileAt, Consistent, View, Memory.WellFormed, RunLen, Steady, Ctxs, Linked, RecordsFit, Separate;
      hide Succeeds, CanRun, Program, Span, AllLoadable, Tabled, Blocks;
      ShapedOfSteady(mt.Where(), mt.procBase, mt.State());
      SourceSane(path);
      SucceedsIff(mt.State(), mt.defRegs, path, Source(path));
      NotAProgram(mt.State(), mt.defRegs, path, []);
    }

    /** `fs_readFile`: where the file lies, or 0. */
    method Fetch(path: seq<byte>, now: Date) returns (data: nat, ghost f: seq<byte>)
      requires Running() && NulFree(path) && Trusted(path)
      modifies fs.heap.ram
      ensures Running() && mt.State() == old(mt.State())
      ensures Stamped(old(fs.Files()), fs.Files(), path, now)
      ensures data != 0 ==> f == old(Source(path)) && Startable(f) && Find(old(fs.Files()), path, 0) != -1
      ensures data != 0 ==> Lies(fs.heap.ram[..], data, f) && Held(fs.Now(), data, |f|)
      ensures data == 0 ==> old(Source(path)) == []
      ensures Spared(old(fs.Now()), fs.Now())
    {
      hide HeaderAt, FileAt, Consistent, View, MallocOf, FreeOf, Memory.WellFormed, RunLen, Spared, Steady, Ctxs;
      hide Linked, RecordsFit, Get32;
      ghost var g, t, s, i := fs.Now(), fs.Files(), mt.State(), Find(fs.Files(), path, 0);
      SparedRefl(g);
      f := Source(path);
      data := fs.ReadFile(path, now);
      StacksLive(mt.Where(), mt.procBase, s);
      VectorSpared(g, fs.Now(), mt.procBase);
      RecordsSpared(g.mem, fs.heap.ram[..], mt.Where(), mt.kernelCtx, mt.procBase, s);
      assert mt.State() == s;
      if data != 0 { FetchedHeld(fs.Now(), i, data, f); }
    }

    /** `spawn`, as far as the file system is concerned. */
    method Launch(name: seq<byte>, prog: word) returns (pid: int)
      requires Running()
      modifies mt`saved, mt.procV, fs.heap.blockV, fs.heap.ram
      ensures Running() && fs.Files() == old(fs.Files())
      ensures Spawned(pid, mt.State()) == SpawnOf(old(mt.State()), mt.defRegs, name, prog)
      ensures pid == -1 ==> fs.Now() == old(fs.Now())
      ensures pid != -1 ==> 0 < pid < PROCLIMIT
      ensures AllRunsKept(old(fs.Now()), fs.Now(), mt.procBase) && Given(old(mt.saved), mt.saved, mt.State(), pid)
    {
      hide AllRunsKept, HeaderAt, FileAt, Consistent, View, MallocOf, FreeOf, Memory.WellFormed, RunLen, Steady, Ctxs;
      hide Linked, RecordsFit, NameField, Owned, Placed, Grounded, SpawnOf;
      ghost var g, s := fs.Now(), mt.State();
      StacksLive(mt.Where(), mt.procBase, s);
      pid := mt.Spawn(name, prog);
      RunsRefl(g, mt.procBase);
      ShapedOfSteady(mt.Where(), mt.procBase, s);
      if pid == -1 {
        SpawnRefused(s, mt.defRegs, name, prog);
      } else {
        SpawnShape(s, mt.defRegs, name, prog);
        RecordInVector(g.mem, fs.heap.ram[..], mt.kernelCtx, mt.procBase, pid);
        EntriesSpared(g, fs.Now(), mt.procBase, STACKSIZE);
      }
    }

    /** The image of a process that could not be started is given back. */
    method GiveBack(base: nat, ghost t: Table)
      requires Running() && RunLen(fs.heap.Table(), fs.heap.space, base) > 0
      requires FreeOf(fs.heap.Table(), fs.heap.space, base) == t
      requires base != mt.procBase && base !in fs.entryV[..]
      requires forall p :: Alive(mt.State(), p) ==> mt.State().procs[p].stack != base
      modifies fs.heap.blockV
      ensures Running() && fs.Files() == old(fs.Files()) && fs.heap.Table() == t
      ensures mt.State() == old(mt.State()).(table := t)
    {
      hide HeaderAt, FileAt, Consistent, View, FreeOf, Memory.WellFormed, RunLen, Steady, Ctxs, RecordsFit;
      ghost var g, s := fs.Now(), mt.State();
      ShapeOf(g);
      ReleaseOnly(g, g.(table := t), base);
      StacksLive(mt.Where(), mt.procBase, s);
      ReleaseSteady(mt.Where(), mt.procBase, s, base);
      fs.heap.Free(base);
      OtherFree(g, fs.Now(), base);
    }

    /** The process is marked as one that came from a file. */
    method MarkFile(pid: nat)
      requires Running() && 0 < pid < PROCLIMIT
      modifies mt.procV
      ensures Running()
      ensures mt.State() == Filed(old(mt.State()), pid)
    {
      hide HeaderAt, FileAt, Consistent, View, FreeOf, Memory.WellFormed, RunLen, Ctxs, RecordsFit, Steady;
      ghost var s := mt.State();
      ShapedOfSteady(mt.Where(), mt.procBase, s);
      MarkedSteady(mt.Where(), mt.procBase, s, pid);
      mt.procV[pid] := mt.procV[pid].(file := true);
    }

    /** Image, process, and the image given back when there is no process. */
    method Start(path: seq<byte>, data: nat, ghost f: seq<byte>) returns (pid: int, ghost base: nat)
      requires OffImage(fs.heap.Table(), fs.heap.space, mt.here, f)
      requires Running() && Lies(fs.heap.ram[..], data, f) && Elf(f) && Held(fs.Now(), data, |f|)
      requires Sane(Span(Program(f))) && Blocks(Span(Program(f))) <= fs.heap.blockC
      modifies mt`saved, mt.procV, fs.heap.blockV, fs.heap.ram
      ensures Running() && fs.Files() == old(fs.Files()) && (pid == -1 || 0 < pid < PROCLIMIT)
      ensures pid == -1 ==> fs.heap.Table() == old(fs.heap.Table())
      ensures OthersKept(old(fs.Now()), fs.Now(), mt.procBase)
      ensures pid > 0 ==>
                && Loaded(old(fs.Now()), fs.Now(), base, f)
                && Spawns(old(mt.State()), mt.State(), mt.defRegs, path, base, f, pid)
      ensures pid > 0 <==> Succeeds(old(mt.State()), mt.defRegs, path, f)
      ensures Given(old(mt.saved), mt.saved, mt.State(), pid) && (pid == -1 ==> Idle(old(mt.State()), mt.State()))
    {
      hide HeaderAt, FileAt, Consistent, View, FreeOf, Memory.WellFormed, RunLen, Ctxs, RecordsFit, Steady, Linked;
      hide Separate, MallocOf, Find, AllLoadable, Lies, Held, Imaged, Program, Span, Spared, OthersKept, Loaded, Blocks;
      hide Tabled, Spawns, SpawnOf, Succeeds, Entry, Filed, AllRunsKept, SameRun, Idle, Given, OffImage;
      ghost var g, s := fs.Now(), mt.State();
      ShapedOfSteady(mt.Where(), mt.procBase, s);
      base := 0;
      var image := LoadImage(data, f);
      if image == 0 {
        LoadNeedsRun(s, mt.defRegs, path, f);
        IdleRefl(s);
        IdleRefl(mt.State());
        KeptRefl(g, mt.procBase);
        return -1, base;
      }
      base := image;
      pid := Attempt(path, data, image, f, g, s);
    }

    /** A process for the image that was loaded since `g`. */
    method Attempt(path: seq<byte>, data: nat, image: nat, ghost f: seq<byte>, ghost g: Fs, ghost s: Sched)
      returns (pid: int)
      requires Running() && Lies(fs.heap.ram[..], data, f) && Elf(f) && Consistent(g) && Imaged(g, fs.Now(), image, f)
      requires g.ptrs == fs.entryV[..]
      requires Sane(Span(Program(f))) && Blocks(Span(Program(f))) <= fs.heap.blockC == |g.table|
      requires g.space == fs.heap.space
      requires image != 0 && Alloc(image, fs.heap.Table()) == MallocOf(g.table, g.space, Span(Program(f)))
      requires image != mt.procBase && image !in fs.entryV[..]
      requires forall p :: Alive(mt.State(), p) ==> mt.State().procs[p].stack != image
      requires Shaped(s) && s.table == g.table && s.space == g.space && mt.State() == s.(table := fs.heap.Table())
      modifies mt`saved, mt.procV, fs.heap.blockV, fs.heap.ram
      ensures Running() && fs.Files() == old(fs.Files()) && (pid == -1 || 0 < pid < PROCLIMIT)
      ensures pid == -1 ==> fs.heap.Table() == g.table
      ensures OthersKept(g, fs.Now(), mt.procBase)
      ensures pid > 0 ==> Loaded(g, fs.Now(), image, f) && Spawns(s, mt.State(), mt.defRegs, path, image, f, pid)
      ensures pid > 0 <==> Succeeds(s, mt.defRegs, path, f)
      ensures Given(old(mt.saved), mt.saved, mt.State(), pid) && (pid == -1 ==> Idle(s, mt.State()))
    {
      hide HeaderAt, FileAt, Consistent, View, FreeOf, Memory.WellFormed, RunLen, Ctxs, RecordsFit, Steady, Linked;
      hide Separate, MallocOf, Find, AllLoadable, Lies, Imaged, Program, Span, Spared, OthersKept, Loaded, Blocks;
      hide Tabled, Spawns, SpawnOf, Succeeds, Entry, Filed, AllRunsKept, Loader.Started, Get32, Given;
      ghost var h := fs.Now();
      EntryAt(fs.heap.ram[..], data, f);
      var entry := (image + Get32(fs.heap.ram[..], data + 24)) % RAM_SIZE;
      ImageLive(g, h, image, f);
      pid := Begin(path, image, entry, g.table);
      Outcomes(s, h.table, mt.defRegs, path, image, f, pid, mt.State());
      AfterStart(g, h, fs.Now(), image, f, mt.procBase, pid > 0);
    }

    /** `spawn`, and the image given back if that fails. */
    method Begin(path: seq<byte>, image: nat, entry: word, ghost t: Table) returns (pid: int)
      requires Running() && RunLen(fs.heap.Table(), fs.heap.space, image) > 0
      requires FreeOf(fs.heap.Table(), fs.heap.space, image) == t
      requires image != mt.procBase && image !in fs.entryV[..]
      requires forall p :: Alive(mt.State(), p) ==> mt.State().procs[p].stack != image
      modifies mt`saved, mt.procV, fs.heap.blockV, fs.heap.ram
      ensures Running() && fs.Files() == old(fs.Files()) && (pid == -1 || 0 < pid < PROCLIMIT)
      ensures pid == SpawnOf(old(mt.State()), mt.defRegs, path, entry).pid
      ensures pid == -1 ==> fs.Now() == old(fs.Now()).(table := t)
      ensures pid > 0 ==> mt.State() == Filed(SpawnOf(old(mt.State()), mt.defRegs, path, entry).s, pid)
      ensures pid > 0 ==> AllRunsKept(old(fs.Now()), fs.Now(), mt.procBase)
      ensures pid == -1 ==> Idle(old(mt.State()).(table := t), mt.State())
      ensures Given(old(mt.saved), mt.saved, mt.State(), pid)
    {
      hide HeaderAt, FileAt, Consistent, View, FreeOf, Memory.WellFormed, RunLen, Ctxs, RecordsFit, Steady, Linked;
      hide Separate, SpawnOf;
      ghost var s := mt.State();
      ShapedOfSteady(mt.Where(), mt.procBase, s);
      pid := Launch(path, entry);
      if pid == -1 {
        SpawnFails(s, mt.defRegs, path, entry);
        GiveBack(image, t);
        return;
      }
      MarkFile(pid);
    }

    /** The first half of `exec`: where the file lies, or 0 if there is nothing to start. */
    method Obtain(path: seq<byte>, now: Date) returns (data: nat, ghost f: seq<byte>)
      requires Valid() && NulFree(path) && Trusted(path) && mt.initLock && path != []
      modifies fs.heap.ram
      ensures Valid() && (data != 0 ==> old(Running()))
      ensures old(Running()) ==>
                && Running() && mt.State() == old(mt.State()) && Stamped(old(fs.Files()), fs.Files(), path, now)
                && OthersKept(old(fs.Now()), fs.Now(), mt.procBase)
      ensures data != 0 ==> f == old(Source(path)) && Startable(f) && Spared(old(fs.Now()), fs.Now())
      ensures data != 0 ==> Lies(fs.heap.ram[..], data, f) && Held(fs.Now(), data, |f|)
      ensures data == 0 && old(Running()) ==> !Succeeds(old(mt.State()), mt.defRegs, path, old(Source(path)))
    {
      hide HeaderAt, FileAt, Consistent, View, FreeOf, Memory.WellFormed, RunLen, Ctxs, RecordsFit, Steady, Linked;
      hide Separate, MallocOf, Find, Tabled, AllLoadable, Lies, Held, Imaged, NameField, Program, Span, Spared;
      hide OthersKept, Source, Trusted, Stamped, Loaded, Spawns, Succeeds, SpawnOf, Idle, Given, Startable;
      f := [];
      KeptRefl(fs.Now(), mt.procBase);
      if old(Running()) { StampedRefl(fs.Files(), path, now); }
      var st := fs.Stat(path);
      NotAProgram(old(mt.State()), mt.defRegs, path, old(Source(path)));
      if st == 0 {
        NoSource(path);
        return 0, f;
      }
      ghost var g := fs.Now();
      data, f := Fetch(path, now);
      KeptSpared(g, fs.Now(), mt.procBase);
    }

    /** `exec`. `base` and `f` are the image and the file of a process that was started. */
    method Run(path: seq<byte>, now: Date) returns (pid: int, ghost base: nat, ghost f: seq<byte>)
      requires Valid() && NulFree(path) && Trusted(path)
      requires OffImage(fs.heap.Table(), fs.heap.space, mt.here, Source(path))
      modifies mt`saved, mt.procV, fs.heap.blockV, fs.heap.ram
      ensures Valid() && (pid == -1 || 0 < pid < PROCLIMIT)
      ensures pid == -1 ==> fs.heap.Table() == old(fs.heap.Table())
      ensures old(Running()) ==>
                && Running() && Stamped(old(fs.Files()), fs.Files(), path, now)
                && OthersKept(old(fs.Now()), fs.Now(), mt.procBase)
      ensures pid > 0 ==> old(Running()) && Elf(f) && f == old(Source(path)) && Loaded(old(fs.Now()), fs.Now(), base, f)
      ensures pid > 0 ==>
                old(Running()) && Elf(f) && Spawns(old(mt.State()), mt.State(), mt.defRegs, path, base, f, pid)
      ensures pid > 0 <==> path != [] && old(Running()) && old(Starts(path))
      ensures old(Running()) ==>
                && Running() && Given(old(mt.saved), mt.saved, mt.State(), pid)
                && (pid == -1 ==> Idle(old(mt.State()), mt.State()))
    {
      hide HeaderAt, FileAt, Consistent, View, FreeOf, Memory.WellFormed, RunLen, Ctxs, RecordsFit, Steady, Linked;
      hide Separate, MallocOf, Find, Tabled, AllLoadable, Lies, Held, Imaged, NameField, Program, Span, Spared;
      hide OthersKept, Source, Trusted, Stamped, Loaded, Spawns, Succeeds, SpawnOf, Idle, Given, OffImage;
      hide Starts;
      base, f := 0, [];
      KeptRefl(fs.Now(), mt.procBase);
      if old(Running()) {
        StampedRefl(fs.Files(), path, now);
        IdleRefl(mt.State());
      }
      if !mt.initLock || |path| == 0 { return -1, base, f; }
      NotAProgram(old(mt.State()), mt.defRegs, path, old(Source(path)));
      if Running() { StartsIff(path); }
      ghost var g := fs.Now();
      var data;
      data, f := Obtain(path, now);
      label Fetched:
      if data == 0 { return -1, base, f; }
      FourBytes(fs.heap.ram[..], data, f);
      if Get32(fs.heap.ram[..], data) != MAGIC { return -1, base, f; }
      pid, base := Start(path, data, f);
      KeptTrans(g, old@Fetched(fs.Now()), fs.Now(), mt.procBase);
      if pid > 0 { LoadedSince(g, old@Fetched(fs.Now()), fs.Now(), base, f); }
    }
  }

  /** A program whose image has a size that the allocator can round up. */
  ghost predicate Manageable(f: seq<byte>) {
    Elf(f) && Sane(Span(Program(f)))
  }

  /** The run that the image of `f` would get has no byte of the stack in use. The stack of a process that
      has killed itself may be free, and then the image would be laid over it. */
  ghost predicate OffImage(t: Table, space: nat, here: Band, f: seq<byte>) {
    Manageable(f) && 0 < |t| && Blocks(Span(Program(f))) <= |t| ==>
      var a := MallocOf(t, space, Span(Program(f)));
      a.ptr != 0 ==> Disjoint(here, Band(a.ptr, a.ptr + BLKSIZE * Blocks(Span(Program(f)))))
  }

  /** No process has come or gone; a slot that `spawn` tried in vain has lost its stack pointer. */
  ghost predicate Idle(s: Sched, r: Sched) {
    && r == s.(procs := r.procs) && |r.procs| == |s.procs|
    && forall p :: 0 <= p < |s.procs| ==>
                     r.procs[p] == s.procs[p] || (!s.procs[p].active && r.procs[p] == s.procs[p].(stack := 0))
  }

  lemma IdleRefl(s: Sched)
    ensures Idle(s, s) && forall a :: Given(a, a, s, -1)
  {
  }

  /** A new process is given a stack, and nobody else is. */
  ghost predicate Given(a: seq<Band>, b: seq<Band>, r: Sched, pid: int) {
    if pid == -1 then b == a
    else 0 < pid < |a| == |r.procs| && b == a[pid := Band(r.procs[pid].stack, r.procs[pid].stack + STACKSIZE)]
  }

  /** Nothing but the time of access of the file may have changed. */
  ghost predicate Stamped(t: Files, u: Files, path: seq<byte>, now: Date) {
    var i := Find(t, path, 0);
    u == t || (i != -1 && u == t[i := Used(Accessed(t[i].f, now))])
  }

  lemma StampedRefl(t: Files, path: seq<byte>, now: Date)
    ensures Stamped(t, t, path, now)
  {
  }

  /** Memory outside the pool is as it was. */
  ghost predicate OutsideKept(g: Fs, h: Fs) {
    && h.space == g.space && |h.table| == |g.table|
    && Same(g.mem, h.mem, 0, g.space) && Same(g.mem, h.mem, g.space + BLKSIZE * |g.table|, |g.mem|)
  }

  /** Every run that was live, other than the vector and the entries, is as it was, and so is all
      memory outside the pool. */
  ghost predicate OthersKept(g: Fs, h: Fs, vector: nat) {
    OutsideKept(g, h) && forall q: int {:trigger RunLen(g.table, g.space, q)} ::
      RunLen(g.table, g.space, q) > 0 && q != vector && q !in g.ptrs ==> SameRun(g, h, q)
  }

  lemma RunsRefl(g: Fs, vector: nat)
    ensures AllRunsKept(g, g, vector)
  {
  }

  lemma KeptRefl(g: Fs, vector: nat)
    ensures OthersKept(g, g, vector)
  {
  }

  lemma KeptSpared(g: Fs, h: Fs, vector: nat)
    requires Spared(g, h)
    ensures OthersKept(g, h, vector)
  {
  }

  lemma {:induction false} KeptTrans(f: Fs, g: Fs, h: Fs, vector: nat)
    requires OthersKept(f, g, vector) && OthersKept(g, h, vector) && g.ptrs == f.ptrs
    ensures OthersKept(f, h, vector)
  {
    hide RunLen;
    forall q: int | RunLen(f.table, f.space, q) > 0 && q != vector && q !in f.ptrs ensures SameRun(f, h, q) {
      assert SameRun(f, g, q);
      assert RunLen(g.table, g.space, q) > 0;
    }
  }

  /** A new run holds the image of the file: every byte under a segment is the file byte or the
      zero of the last segment over it. */
  ghost predicate Loaded(g: Fs, h: Fs, base: nat, f: seq<byte>)
    requires Elf(f)
  {
    var ss := Program(f);
    && |h.mem| == RAM_SIZE && base + Span(ss) <= RAM_SIZE
    && RunLen(g.table, g.space, base) == 0 && RunLen(h.table, h.space, base) == Blocks(Span(ss))
    && forall k :: 0 <= k < Span(ss) ==> ImageByte(h.mem, base, f, ss, k)
  }

  lemma LoadedSince(g: Fs, g': Fs, h: Fs, base: nat, f: seq<byte>)
    requires Elf(f) && Loaded(g', h, base, f) && g'.table == g.table && g'.space == g.space
    ensures Loaded(g, h, base, f)
  {
    hide RunLen, Program, Span, ImageByte;
  }

  ghost predicate ImageByte(m: seq<byte>, base: nat, f: seq<byte>, ss: seq<Seg>, k: nat)
    requires base + k < |m|
  {
    var v := Bottom(ss) + k;
    var j := LastOver(ss, v, |ss|);
    j != -1 && ss[j].offset + ss[j].filesz <= |f| ==>
      m[base + k] == if v - ss[j].vaddr < ss[j].filesz then f[ss[j].offset + (v - ss[j].vaddr)] else 0
  }

  function Filed(s: Sched, pid: int): Sched {
    if 0 <= pid < |s.procs| then s.(procs := s.procs[pid := s.procs[pid].(file := true)]) else s
  }

  /** Process `pid` is spawned at the start address, and marked as a file's. */
  ghost predicate Spawns(s: Sched, u: Sched, d: Defaults, path: seq<byte>, base: nat, f: seq<byte>, pid: int)
    requires Elf(f)
  {
    && Shaped(s) && Blocks(Span(Program(f))) <= |s.table|
    && var t := MallocOf(s.table, s.space, Span(Program(f)));
    && t.ptr == base
    && var r := SpawnOf(s.(table := t.table), d, path, Loader.Started(base, f));
    && r.pid == pid && 0 < pid < PROCLIMIT
    && u == Filed(r.s, pid)
  }

  /** There is memory for the image, and then a slot and memory for the process. */
  ghost predicate Succeeds(s: Sched, d: Defaults, path: seq<byte>, f: seq<byte>) {
    && Elf(f) && Shaped(s) && Blocks(Span(Program(f))) <= |s.table|
    && var t := MallocOf(s.table, s.space, Span(Program(f)));
    && t.ptr != 0 && SpawnOf(s.(table := t.table), d, path, Loader.Started(t.ptr, f)).pid != -1
  }

  /** A program with an image of at least a page, whose start address is not null where the image goes;
      places for image and stack, and a slot. */
  ghost predicate CanRun(s: Sched, f: seq<byte>) {
    && Elf(f) && 0 < Blocks(Span(Program(f))) && (exists i :: 0 < i < |s.procs| && !s.procs[i].active)
    && exists g, h :: BothFit(s.table, g, Blocks(Span(Program(f))), h, 1)
                      && Loader.Started(s.space + 4096 * g, f) != 0
  }

  lemma SucceedsIff(s: Sched, d: Defaults, path: seq<byte>, f: seq<byte>)
    requires Shaped(s) && Memory.WellFormed(s.table)
    requires Elf(f) ==> Sane(Span(Program(f))) && Blocks(Span(Program(f))) <= |s.table|
    ensures Succeeds(s, d, path, f) <==> CanRun(s, f)
  {
    hide Span, Program, AllLoadable, Tabled, Blocks, SpawnOf, Memory.WellFormed, Mark;
    if Elf(f) {
      var size := Span(Program(f));
      var n := Blocks(size);
      var b, a := FirstFit(s.table, n, 0), MallocOf(s.table, s.space, size);
      BlocksCeil(size);
      assert forall k :: Gap(s.table, k, n) ==> 0 <= k;
      if size != 0 && b != -1 {
        var u := s.(table := a.table);
        SpawnsIff(u, d, path, Loader.Started(a.ptr, f));
        GapsLeft(s.table, b, n, 1);
        assert forall h :: Gap(u.table, h, 1) <==> BothFit(s.table, b, n, h, 1);
        assert forall g, h :: BothFit(s.table, g, n, h, 1) ==> g == b;
      }
    }
  }

  lemma NotAProgram(s: Sched, d: Defaults, path: seq<byte>, f: seq<byte>)
    ensures |f| < 4 || Get32(f, 0) != MAGIC ==> !Succeeds(s, d, path, f)
  {
  }

  lemma LoadNeedsRun(s: Sched, d: Defaults, path: seq<byte>, f: seq<byte>)
    requires Elf(f) && Shaped(s) && Blocks(Span(Program(f))) <= |s.table|
    ensures MallocOf(s.table, s.space, Span(Program(f))).ptr == 0 ==> !Succeeds(s, d, path, f)
  {
  }

  lemma EntryAt(m: seq<byte>, p: nat, f: seq<byte>)
    requires Lies(m, p, f) && Tabled(f)
    ensures p + 28 <= |m| && forall base: nat :: (base + Get32(m, p + 24)) % RAM_SIZE == Loader.Started(base, f)
  {
    hide Lies, Get32, Get16;
    AtFits(m, p, f);
    WordAt(m, p, f, 24);
    assert Get32(m, p + 24) == Entry(f);
    hide Entry, Tabled;
  }

  lemma {:induction false} ImageLive(g: Fs, h: Fs, base: nat, f: seq<byte>)
    requires Elf(f) && Consistent(g) && Imaged(g, h, base, f) && Sane(Span(Program(f)))
    requires Blocks(Span(Program(f))) <= |g.table|
    requires Alloc(base, h.table) == MallocOf(g.table, g.space, Span(Program(f))) && base != 0 && h.space == g.space
    ensures RunLen(h.table, h.space, base) > 0 && FreeOf(h.table, h.space, base) == g.table
  {
    hide RunLen, FreeOf, MallocOf, Memory.WellFormed, Program, Span, Blocks, HeaderAt, Tabled, AllLoadable;
    ShapeOf(g);
    BlocksCeil(Span(Program(f)));
    MallocAdds(g.table, g.space, Span(Program(f)));
  }

  lemma SpawnFails(s: Sched, d: Defaults, name: seq<byte>, prog: word)
    requires Shaped(s) && SpawnOf(s, d, name, prog).pid == -1
    ensures var r := SpawnOf(s, d, name, prog).s;
            Idle(s, r) && forall p :: Alive(r, p) ==> Alive(s, p) && r.procs[p].stack == s.procs[p].stack
  {
    hide MallocOf, NameField;
  }

  lemma KeptBack(g: Fs, h: Fs, x: Fs, vector: nat)
    requires OthersKept(g, h, vector) && x.table == g.table && x.space == g.space && x.mem == h.mem
    ensures OthersKept(g, x, vector)
  {
    hide RunLen;
    forall q: int | RunLen(g.table, g.space, q) > 0 && q != vector && q !in g.ptrs ensures SameRun(g, x, q) {
      assert SameRun(g, h, q);
    }
  }

  ghost predicate AllRunsKept(g: Fs, h: Fs, vector: nat) {
    OutsideKept(g, h) && forall q: int {:trigger RunLen(g.table, g.space, q)} ::
      RunLen(g.table, g.space, q) > 0 && q != vector ==> SameRun(g, h, q)
  }

  lemma {:induction false} AfterStart(g: Fs, h: Fs, x: Fs, image: nat, f: seq<byte>, vector: nat, started: bool)
    requires Elf(f) && Imaged(g, h, image, f) && Sane(Span(Program(f))) && x.ptrs == h.ptrs == g.ptrs
    requires x.space == h.space == g.space
    requires RunLen(h.table, h.space, image) > 0 && image != vector && |x.mem| == RAM_SIZE
    requires if started then AllRunsKept(h, x, vector) else x == h.(table := g.table)
    ensures OthersKept(g, x, vector) && (started ==> Loaded(g, x, image, f))
  {
    hide RunLen, Program, Span, Bottom, Blocks, Paint, Fits, Spared, Tabled, AllLoadable, Loaded;
    KeptSpared(g, h, vector);
    if started {
      KeptTrans(g, h, x, vector);
      ImageStays(g, h, x, image, f);
    } else {
      KeptBack(g, h, x, vector);
    }
  }

  /** What the allocator and `spawn` answer decides. */
  lemma {:induction false} Outcomes(s: Sched, t: Table, d: Defaults, path: seq<byte>, image: nat, f: seq<byte>,
                                    pid: int, u: Sched)
    requires Elf(f) && Shaped(s) && Blocks(Span(Program(f))) <= |s.table|
    requires Alloc(image, t) == MallocOf(s.table, s.space, Span(Program(f))) && image != 0
    requires var r := SpawnOf(s.(table := t), d, path, Loader.Started(image, f));
             pid == r.pid && (pid == -1 || 0 < pid < PROCLIMIT) && (pid > 0 ==> u == Filed(r.s, pid))
    ensures pid > 0 <==> Succeeds(s, d, path, f)
    ensures pid > 0 ==> Spawns(s, u, d, path, image, f, pid)
  {
    hide MallocOf, SpawnOf, Program, Span, AllLoadable, Tabled, Loader.Started, Blocks, Filed;
  }

  /** The image outlives the making of the process. */
  lemma {:induction false} ImageStays(g: Fs, h: Fs, x: Fs, base: nat, f: seq<byte>)
    requires Elf(f) && Imaged(g, h, base, f) && SameRun(h, x, base) && |x.mem| == RAM_SIZE && Sane(Span(Program(f)))
    ensures Loaded(g, x, base, f)
  {
    hide RunLen, Program, Span, Bottom, Blocks, Paint, Fits, Spared, Tabled, AllLoadable, ImageByte;
    var ss := Program(f);
    var img := g.mem[base..base + Span(ss)];
    BlocksCeil(Span(ss));
    forall k | 0 <= k < Span(ss) ensures ImageByte(x.mem, base, f, ss, k) {
      assert h.mem[base + k] == h.mem[base..base + Span(ss)][k];
      PaintedByte(x.mem, img, base, f, ss, k);
    }
  }

  lemma PaintedByte(m: seq<byte>, img: seq<byte>, base: nat, f: seq<byte>, ss: seq<Seg>, k: nat)
    requires base + k < |m| && Fits(f, ss, Bottom(ss), |img|) && k < |img|
    requires m[base + k] == Paint(img, f, ss, Bottom(ss), |ss|)[k]
    ensures ImageByte(m, base, f, ss, k)
  {
    hide Bottom, Paint, Fits;
    PaintByte(img, f, ss, Bottom(ss), |ss|, k);
  }

  lemma {:induction false} ReleaseSteady(c: Site, vector: nat, s: Sched, base: nat)
    requires Steady(c, vector, s) && RunLen(s.table, s.space, base) > 0 && base != vector
    requires forall p :: Alive(s, p) ==> s.procs[p].stack != base
    ensures Steady(c, vector, s.(table := FreeOf(s.table, s.space, base)))
    ensures forall kernel :: Linked(c, kernel, s) ==> Linked(c, kernel, s.(table := FreeOf(s.table, s.space, base)))
  {
    hide RunLen, FreeOf, WellFormed;
    ShapedOfSteady(c, vector, s);
    StacksLive(c, vector, s);
    FreeRun(s.table, s.space, base);
    OtherSteady(c, vector, s, FreeOf(s.table, s.space, base));
  }

  lemma {:induction false} MarkedSteady(c: Site, vector: nat, s: Sched, pid: nat)
    requires Steady(c, vector, s) && 0 < pid < PROCLIMIT && |s.procs| == PROCLIMIT
    ensures var r := s.(procs := s.procs[pid := s.procs[pid].(file := true)]);
            && Steady(c, vector, r) && (forall kernel :: Linked(c, kernel, s) ==> Linked(c, kernel, r))
            && forall p :: Alive(r, p) <==> Alive(s, p)
  {
    hide RunLen, WellFormed;
    var r := s.(procs := s.procs[pid := s.procs[pid].(file := true)]);
    assert forall p :: Alive(r, p) <==> Alive(s, p);
    assert forall p :: Alive(r.(focus := 0), p) <==> Alive(s.(focus := 0), p);
  }

  lemma FourBytes(m: seq<byte>, p: nat, f: seq<byte>)
    requires Lies(m, p, f) && 4 <= |f|
    ensures p + 4 <= |m| && Get32(m, p) == Get32(f, 0)
  {
    WordAt(m, p, f, 0);
  }

  lemma {:induction false} TakenRun(g: Fs, h: Fs, base: nat, size: word, vector: nat)
    requires Consistent(g) && Consistent(h) && Sane(size) && Blocks(size) <= |g.table| && h == g.(table := h.table)
    requires Alloc(base, h.table) == MallocOf(g.table, g.space, size) && base != 0 && vector != base
    ensures size > 0 && RunLen(h.table, h.space, base) > 0 && base + size <= RAM_SIZE
    ensures RunLen(g.table, g.space, vector) == RunLen(h.table, h.space, vector)
  {
    hide RunLen, MallocOf, Memory.WellFormed, FreeOf, HeaderAt, Blocks;
    ShapeOf(g);
    MallocAdds(g.table, g.space, size);
    BlocksCeil(size);
    RunInside(h.table, h.space, base);
  }

  lemma SpawnShape(s: Sched, d: Defaults, name: seq<byte>, prog: word)
    requires Shaped(s) && SpawnOf(s, d, name, prog).pid != -1
    ensures var r, a := SpawnOf(s, d, name, prog), MallocOf(s.table, s.space, STACKSIZE);
            && a.ptr != 0 && r.s.table == a.table && 0 < r.pid < PROCLIMIT && !s.procs[r.pid].active
            && (forall p :: Alive(r.s, p) ==> p == r.pid || (Alive(s, p) && r.s.procs[p] == s.procs[p]))
            && r.s.procs[r.pid].stack == a.ptr
  {
    hide MallocOf, NameField;
  }

  lemma SpawnRefused(s: Sched, d: Defaults, name: seq<byte>, prog: word)
    requires Shaped(s) && SpawnOf(s, d, name, prog).pid == -1
    ensures forall p :: Alive(SpawnOf(s, d, name, prog).s, p) ==>
                          Alive(s, p) && SpawnOf(s, d, name, prog).s.procs[p] == s.procs[p]
  {
    hide MallocOf, NameField;
  }

  lemma RecordInVector(m: seq<byte>, r: seq<byte>, kernel: nat, vector: nat, pid: int)
    requires 0 < pid < PROCLIMIT && Switch.Kept(m, r, CtxAddr(kernel, vector, pid), Switch.CTX_SIZE, 0, 0)
    ensures Same(m, r, 0, vector) && Same(m, r, vector + BLKSIZE, |m|)
  {
  }

  lemma VectorSpared(g: Fs, h: Fs, vector: nat)
    requires Spared(g, h) && RunLen(g.table, g.space, vector) == 1 && vector !in g.ptrs
    ensures Same(g.mem, h.mem, vector, vector + BLKSIZE)
    ensures Same(g.mem, h.mem, 0, g.space) && Same(g.mem, h.mem, g.space + BLKSIZE * |g.table|, |g.mem|)
  {
    hide RunLen;
    assert SameRun(g, h, vector);
  }

  /** A new run at `base` holds the image of `f`, and no older run has changed. */
  ghost predicate Imaged(g: Fs, h: Fs, base: nat, f: seq<byte>)
    requires Elf(f)
  {
    var ss := Program(f);
    && |g.mem| == |h.mem| && base + Span(ss) <= |g.mem| && Fits(f, ss, Bottom(ss), Span(ss))
    && RunLen(g.table, g.space, base) == 0 && RunLen(h.table, h.space, base) == Blocks(Span(ss))
    && h.mem[base..base + Span(ss)] == Paint(g.mem[base..base + Span(ss)], f, ss, Bottom(ss), |ss|)
    && Spared(g, h)
  }

  lemma SpanOf(f: seq<byte>)
    requires Elf(f)
    ensures (Top(Program(f)) - Bottom(Program(f))) % RAM_SIZE == Span(Program(f))
  {
  }
}
