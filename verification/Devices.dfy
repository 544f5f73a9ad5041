/** The device files that the kernel makes before it starts anybody, and the system up to its first
    mouse packet. */
module Devices {
  import opened Bytes
  import opened Paths
  import opened Switch
  import opened Memory
  import opened FsSpec
  import opened Headers
  import opened Store
  import opened CoreFs
  import opened Schedule
  import opened Isolation
  import opened Multitask
  import opened Streams
  import opened Sessions
  import opened Coexist
  import opened System
  import opened Kernel
  import opened Mouse
  import IoCall

  const DEV: seq<byte> := [47, 100, 101, 118, 47]  // "/dev/"
  const KEYBOARD: seq<byte> := [47, 100, 101, 118, 47, 107, 101, 121, 98, 111, 97, 114, 100]  // "/dev/keyboard"

  /** An empty device that only the kernel's components may write. */
  ghost predicate DeviceFile(t: Files, path: seq<byte>) {
    var e := Find(t, path, 0);
    && e > 0 && OnDevice(t, e) && |Held(t, e)| == BLKSIZE && t[e].f.h.devperm as bv32 == IoCall.O_RDONLY
    && Queue(Held(t, e)) == []
  }

  /** The file `f` turned into a device. */
  function Turned(f: File): File {
    File(f.h.(ftype := TYPE_CHARDEV, devperm := 1), f.data)
  }

  lemma ZeroQueue(d: seq<byte>)
    requires |d| == BLKSIZE && forall i :: 0 <= i < |d| ==> d[i] == 0
    ensures Device(d) && Queue(d) == []
  {
  }

  // ----- One device -----

  /** What the two stores into the header leave. */
  lemma TurnedAt(m: seq<byte>, r: seq<byte>, a: nat)
    requires a + HEADER <= |m| && Same(m, r, 0, a) && Same(m, r, a + HEADER, |m|)
    requires OwnData(HeaderAt(m, a))
    requires HeaderAt(r, a) == HeaderAt(m, a).(ftype := TYPE_CHARDEV, devperm := 1)
    ensures FileAt(r, a) == Turned(FileAt(m, a))
  {
    hide HeaderAt;
    var n := HeaderAt(m, a).size;
    if a + HEADER + n <= |m| { SameSlice(m, r, a + HEADER, a + HEADER + n); }
  }

  /** Entry `e` is turned into a character device that may be read. */
  method Mark(k: Kernel, e: nat)
    requires k.Safe() && e < ENTCOUNT && k.exec.fs.entryV[e] != 0 && OwnData(k.exec.fs.Files()[e].f.h)
    modifies k.exec.fs.heap.ram
    ensures k.Safe() && (old(k.Sound()) ==> k.Sound())
    ensures k.exec.fs.Files() == old(k.exec.fs.Files())[e := Used(Turned(old(k.exec.fs.Files())[e].f))]
  {
    hide HeaderAt, Consistent, View, FileAt, Steady, Linked, RecordsFit, Moored, Docked, Grounded, Isolated, Ctxs;
    hide Memory.WellFormed, RunLen, Separate, Quiet, Sheltered, FileCall, Spared;
    ghost var u, ptrs, g := k.exec.mt.View(), k.exec.fs.entryV[..], k.exec.fs.Now();
    k.AfloatQuiet();
    k.exec.fs.SlotFacts(e);
    var p := k.exec.fs.entryV[e];
    PutByte(k.exec.fs.heap.ram, p, OFS_FTYPE, TYPE_CHARDEV);
    PutByte(k.exec.fs.heap.ram, p, OFS_DEVPERM, 1);
    TurnedEntry(g, k.exec.fs.Now(), e);
    k.Regained(u, ptrs);
  }

  lemma TurnedEntry(g: Fs, h: Fs, e: nat)
    requires Consistent(g) && e < ENTCOUNT && g.ptrs[e] != 0 && h == g.(mem := h.mem) && |h.mem| == |g.mem|
    requires var a := g.ptrs[e];
             && a + HEADER <= |g.mem| && Same(g.mem, h.mem, 0, a) && Same(g.mem, h.mem, a + HEADER, |g.mem|)
             && OwnData(HeaderAt(g.mem, a))
             && HeaderAt(h.mem, a) == HeaderAt(g.mem, a).(ftype := TYPE_CHARDEV, devperm := 1)
    ensures Consistent(h) && View(h) == View(g)[e := Used(Turned(View(g)[e].f))] && Spared(g, h)
  {
    hide HeaderAt, FileAt, Memory.WellFormed, RunLen;
    EditEntry(g, h, e);
    assert View(g)[e] == SlotAt(g, e);
    TurnedAt(g.mem, h.mem, g.ptrs[e]);
  }

  /** A device file of one block under a new name. */
  method MakeDevice(k: Kernel, path: seq<byte>, now: Stamps) returns (sts: int)
    requires k.Safe() && Tree(k.exec.fs.Files()) && k.exec.fs.Fitting(BLKSIZE) && k.exec.fs.Files()[0].Used?
    requires CanonicalFile(path) && NulFree(path) && |path| < MAX_PATHLEN && Find(k.exec.fs.Files(), path, 0) == -1
    modifies k.exec.fs.raPath, k.exec.fs.entryV, k.exec.fs.heap.blockV, k.exec.fs.heap.ram
    ensures k.Safe() && (old(k.Sound()) ==> k.Sound()) && Tree(k.exec.fs.Files())
    ensures var o := old(k.exec.fs.WriteOutcome(path, BLKSIZE, Zeros(BLKSIZE), now));
            && sts == o.status
            && if sts != SUCCESS then k.exec.fs.Now() == old(k.exec.fs.Now())
               else && k.exec.fs.heap.Table() == old(k.exec.fs.FileTable(BLKSIZE))
                    && Placed(old(k.exec.fs.Files()), k.exec.fs.Files(), path)
  {
    hide HeaderAt, Consistent, View, FileAt, Steady, Linked, RecordsFit, Moored, Docked, Grounded, Isolated, Ctxs;
    hide Memory.WellFormed, RunLen, Separate, Quiet, Sheltered, FileCall, Spared, FsSpec.WriteFile, Room, Leftover;
    hide Tree, Find, CanonicalFile;
    ghost var t, room, was := k.exec.fs.Files(), Room(k.exec.fs.Now(), BLKSIZE + HEADER),
                              Leftover(k.exec.fs.Now(), BLKSIZE + HEADER);
    sts := k.WriteFile(path, BLKSIZE, Data(Zeros(BLKSIZE)), now);
    WriteFileKeepsTree(t, path, Zeros(BLKSIZE), now, room, was);
    if sts != SUCCESS { return; }
    var e := k.exec.fs.Index(path);
    ghost var t1 := k.exec.fs.Files();
    DevicePlaced(t, path, now, room, was);
    k.exec.fs.SlotFacts(e);
    Mark(k, e);
    RenameNothing(t1, e, Turned(t1[e].f));
  }

  /** A new entry of this name is an empty device, and nothing else has changed. */
  ghost predicate Placed(t: Files, u: Files, path: seq<byte>) {
    var e := Find(u, path, 0);
    && |u| == |t| && 0 <= e < |t| && e == FreeIndex(t, 0) && DeviceFile(u, path) && u == t[e := u[e]]
  }

  lemma DevicePlaced(t: Files, path: seq<byte>, now: Stamps, room: bool, was: Header)
    requires |t| > 0 && t[0].Used? && Find(t, path, 0) == -1
    requires FsSpec.WriteFile(t, path, Zeros(BLKSIZE), now, room, was).status == SUCCESS
    ensures var u := FsSpec.WriteFile(t, path, Zeros(BLKSIZE), now, room, was).files;
            var e := Find(u, path, 0);
            && 0 < e < |u| && u[e].Used? && OwnData(u[e].f.h) && u[e].f.h.kind == TYPE_FILE
            && Placed(t, u[e := Used(Turned(u[e].f))], path)
  {
    hide FsSpec.WriteFile, Device, Queue, Zeros;
    WrittenIsFound(t, path, Zeros(BLKSIZE), now, room, was);
    MadeInFree(t, path, now, room, was);
    var u := FsSpec.WriteFile(t, path, Zeros(BLKSIZE), now, room, was).files;
    var e := Find(u, path, 0);
    var v := u[e := Used(Turned(u[e].f))];
    assert forall j :: Named(v, j, path) <==> Named(u, j, path);
    ZeroQueue(u[e].f.data);
  }

  lemma MadeInFree(t: Files, path: seq<byte>, now: Stamps, room: bool, was: Header)
    requires Find(t, path, 0) == -1
    requires FsSpec.WriteFile(t, path, Zeros(BLKSIZE), now, room, was).status == SUCCESS
    ensures var u, i := FsSpec.WriteFile(t, path, Zeros(BLKSIZE), now, room, was).files, FreeIndex(t, 0);
            |u| == |t| && 0 <= i < |t| && u[i].Used? && u == t[i := u[i]]
  {
    hide ParentsLive, DirTwin, Zeros;
  }

  // ----- Both devices -----

  const DEV_NAME: seq<byte> := [100, 101, 118]
  const KEYBOARD_NAME: seq<byte> := [107, 101, 121, 98, 111, 97, 114, 100]
  const MOUSE_NAME: seq<byte> := [109, 111, 117, 115, 101]

  lemma CanonicalDevices()
    ensures CanonicalDir(DEV) && CanonicalFile(KEYBOARD) && CanonicalFile(MOUSE)
  {
    hide CanonicalDir, CanonicalFile;
    DirOf(DEV_NAME);
    FileIn(DEV_NAME, KEYBOARD_NAME);
    FileIn(DEV_NAME, MOUSE_NAME);
    assert Token(DEV_NAME, SLASH) && Token(KEYBOARD_NAME, SLASH) && Token(MOUSE_NAME, SLASH);
    assert DEV == [SLASH] + DEV_NAME + [SLASH];
    assert KEYBOARD == [SLASH] + DEV_NAME + [SLASH] + KEYBOARD_NAME;
    assert MOUSE == [SLASH] + DEV_NAME + [SLASH] + MOUSE_NAME;
  }

  lemma DirOf(a: seq<byte>)
    requires Token(a, SLASH) && 0 !in a
    ensures DirPath([a]) == [SLASH] + a + [SLASH] && CanonicalDir([SLASH] + a + [SLASH])
  {
    hide CanonicalDir, CanonicalFile;
    assert [a][..0] == [] && DirPath([]) == [SLASH];
    assert Components([a]);
    CanonicalNames([SLASH] + a + [SLASH]);
  }

  lemma FileIn(a: seq<byte>, b: seq<byte>)
    requires Token(a, SLASH) && 0 !in a && Token(b, SLASH) && 0 !in b
    ensures CanonicalFile([SLASH] + a + [SLASH] + b)
  {
    hide CanonicalDir, CanonicalFile;
    DirOf(a);
    assert [a, b][..1] == [a];
    assert Components([a, b]) && FilePath([a, b]) == [SLASH] + a + [SLASH] + b;
    CanonicalNames([SLASH] + a + [SLASH] + b);
  }

  function NameAt(i: nat): seq<byte> {
    match i
    case 0 => [SLASH]
    case 1 => DEV
    case 2 => KEYBOARD
    case _ => MOUSE
  }

  /** The first `n` of root, device directory, keyboard and mouse are in place. */
  predicate Stage(t: Files, n: nat) {
    && |t| == ENTCOUNT && 0 < n <= 4 && (forall i :: n <= i < |t| ==> t[i] == Empty)
    && forall i :: 0 <= i < n ==>
                     t[i].Used? && t[i].f.h.name == NameAt(i) && t[i].f.h.kind == if i < 2 then TYPE_DIR else TYPE_FILE
  }

  lemma StageFree(t: Files, n: nat)
    requires Stage(t, n) && n < 4
    ensures FreeIndex(t, 0) == n && Find(t, NameAt(n), 0) == -1
  {
    assert t[n].Empty?;
  }

  /** `/dev/` can be made exactly when there is a block for it. */
  lemma DirRoom(t: Files, now: Stamps, room: bool, was: Header)
    requires Stage(t, 1)
    ensures var o := FsSpec.CreateDir(t, DEV, now, room, was);
            if room then o.status == SUCCESS && Stage(o.files, 2) else o.status == OUTOFMEMORY && o.files == t
  {
    hide ParentsLive, CanonicalDir, CanonicalFile;
    StageFree(t, 1);
    CanonicalDevices();
    ParentsAreAncestors(t, DEV);
    assert forall a: seq<byte> :: a <= DEV && |a| > 0 ==> a[|a| - 1] == DEV[|a| - 1];
    var name := DEV[..|DEV| - 1];
    assert forall i :: !FileWithPrefix(t, i, name);
  }

  /** A device file can be made in it exactly when there is a run for it. */
  lemma FileRoom(t: Files, n: nat, now: Stamps, room: bool, was: Header)
    requires Stage(t, n) && 2 <= n <= 3
    ensures var o := FsSpec.WriteFile(t, NameAt(n), Zeros(BLKSIZE), now, room, was);
            o.status == if room then SUCCESS else OUTOFMEMORY
  {
    hide ParentsLive, CanonicalDir, CanonicalFile, Zeros;
    StageFree(t, n);
    CanonicalDevices();
    var path := NameAt(n);
    ParentsAreAncestors(t, path);
    forall a | Ancestor(a, path) ensures HasDir(t, a) {
      assert a[|a| - 1] == path[|a| - 1];
      assert a == DEV && LiveDir(t, 1, DEV);
    }
    forall j ensures !DirTwin(t, j, path) {}
  }

  lemma NextStage(t: Files, u: Files, n: nat)
    requires Stage(t, n) && 2 <= n <= 3 && Placed(t, u, NameAt(n))
    ensures Stage(u, n + 1) && (n == 3 ==> Pending(u, []))
    ensures forall path :: DeviceFile(t, path) && path != NameAt(n) ==> DeviceFile(u, path)
  {
    hide Device, Queue;
    StageFree(t, n);
    forall path | DeviceFile(t, path) && path != NameAt(n) ensures DeviceFile(u, path) {
      assert forall j :: Named(u, j, path) <==> Named(t, j, path);
    }
  }

  /** Blocks in use once the devices are there: one for the directory, two for each device file. */
  const WHOLE := START + 5

  /** Blocks in use when the first `n` entries are in place. */
  function InUseAt(n: nat): int {
    START + if n < 2 then 0 else 2 * n - 3
  }

  lemma FilledLength(t: Table, k: nat)
    requires Filled(t, k)
    ensures k <= |t|
  {
  }

  lemma DirTree(t: Files, now: Stamps, room: bool, was: Header)
    requires Tree(t)
    ensures Tree(FsSpec.CreateDir(t, DEV, now, room, was).files)
  {
    hide FsSpec.CreateDir, Tree, CanonicalDir, CanonicalFile;
    CanonicalDevices();
    CreateDirKeepsTree(t, DEV, now, room, was);
  }

  lemma OneBlock(t: Table, space: nat)
    requires Filled(t, START) && space > 0 && Blocks(BLKSIZE) <= |t|
    ensures MallocOf(t, space, BLKSIZE).ptr != 0 <==> START + 1 <= |t|
    ensures START + 1 <= |t| ==> Filled(MallocOf(t, space, BLKSIZE).table, START + 1)
  {
    hide Filled, MallocOf;
    assert Blocks(BLKSIZE) == 1;
    FilledMalloc(t, space, START, BLKSIZE);
  }

  /** What making `/dev/` will come to. */
  lemma DirForecast(f: Fs, t: Files, now: Stamps)
    requires Shape(f) && Stage(t, 1) && Tree(t) && Filled(f.table, InUseAt(1)) && Blocks(BLKSIZE) <= |f.table|
    ensures var o := FsSpec.CreateDir(t, DEV, now, Room(f, BLKSIZE), Leftover(f, BLKSIZE));
            && Tree(o.files) && (o.status == SUCCESS <==> InUseAt(2) <= |f.table|)
            && (o.status == SUCCESS ==>
                  Stage(o.files, 2) && Filled(MallocOf(f.table, f.space, BLKSIZE).table, InUseAt(2)))
  {
    hide FsSpec.CreateDir, Tree, Leftover, Filled, MallocOf, Stage, Memory.WellFormed, Blocks;
    DirRoom(t, now, Room(f, BLKSIZE), Leftover(f, BLKSIZE));
    OneBlock(f.table, f.space);
    DirTree(t, now, Room(f, BLKSIZE), Leftover(f, BLKSIZE));
  }

  lemma ShapeNow(fs: CoreFs)
    requires fs.Valid() && fs.initLock
    ensures Shape(fs.Now()) && Consistent(fs.Now()) && |fs.heap.Table()| == fs.heap.blockC
  {
    hide Consistent;
    ShapeOf(fs.Now());
  }

  method AddDir(k: Kernel, now: Stamps) returns (ok: bool)
    requires k.Safe() && Stage(k.exec.fs.Files(), 1) && Tree(k.exec.fs.Files())
    requires Filled(k.exec.fs.heap.Table(), InUseAt(1))
    modifies k.exec.fs.raPath, k.exec.fs.entryV, k.exec.fs.heap.blockV, k.exec.fs.heap.ram
    ensures k.Safe() && (old(k.Sound()) ==> k.Sound()) && Tree(k.exec.fs.Files())
    ensures ok <==> InUseAt(2) <= k.exec.fs.heap.blockC
    ensures ok ==> Stage(k.exec.fs.Files(), 2) && Filled(k.exec.fs.heap.Table(), InUseAt(2))
  {
    hide HeaderAt, Consistent, View, FileAt, Steady, Linked, RecordsFit, Moored, Docked, Grounded, Isolated, Ctxs;
    hide Memory.WellFormed, RunLen, Separate, Quiet, Sheltered, FileCall, Spared, FsSpec.CreateDir, Tree, Find;
    hide Filled, MallocOf, Stage, Shape, Room, Leftover;
    ShapeNow(k.exec.fs);
    FilledLength(k.exec.fs.heap.Table(), START);
    DirForecast(k.exec.fs.Now(), k.exec.fs.Files(), now);
    var sts := k.CreateDir(DEV, now);
    ok := sts == SUCCESS;
  }

  /** What making the next device file will come to. */
  lemma FileForecast(f: Fs, t: Files, n: nat, now: Stamps)
    requires Shape(f) && Stage(t, n) && 2 <= n <= 3 && Filled(f.table, InUseAt(n))
    requires Blocks(BLKSIZE + HEADER) <= |f.table|
    ensures Find(t, NameAt(n), 0) == -1
    ensures var o := FsSpec.WriteFile(t, NameAt(n), Zeros(BLKSIZE), now, Room(f, BLKSIZE + HEADER),
                                      Leftover(f, BLKSIZE + HEADER));
            && (o.status == SUCCESS <==> InUseAt(n + 1) <= |f.table|)
            && (o.status == SUCCESS ==>
                  Filled(MallocOf(f.table, f.space, BLKSIZE + HEADER).table, InUseAt(n + 1)))
  {
    hide FsSpec.WriteFile, Leftover, Filled, MallocOf, Memory.WellFormed;
    StageFree(t, n);
    assert Blocks(BLKSIZE + HEADER) == 2;
    FilledMalloc(f.table, f.space, InUseAt(n), BLKSIZE + HEADER);
    FileRoom(t, n, now, Room(f, BLKSIZE + HEADER), Leftover(f, BLKSIZE + HEADER));
  }

  method AddDevice(k: Kernel, n: nat, now: Stamps) returns (ok: bool)
    requires k.Safe() && Stage(k.exec.fs.Files(), n) && 2 <= n <= 3 && Tree(k.exec.fs.Files())
    requires Filled(k.exec.fs.heap.Table(), InUseAt(n))
    modifies k.exec.fs.raPath, k.exec.fs.entryV, k.exec.fs.heap.blockV, k.exec.fs.heap.ram
    ensures k.Safe() && (old(k.Sound()) ==> k.Sound()) && Tree(k.exec.fs.Files())
    ensures ok <==> InUseAt(n + 1) <= k.exec.fs.heap.blockC
    ensures ok ==> Stage(k.exec.fs.Files(), n + 1) && Filled(k.exec.fs.heap.Table(), InUseAt(n + 1))
    ensures ok ==> Placed(old(k.exec.fs.Files()), k.exec.fs.Files(), NameAt(n))
  {
    hide HeaderAt, Consistent, View, FileAt, Steady, Linked, RecordsFit, Moored, Docked, Grounded, Isolated, Ctxs;
    hide Memory.WellFormed, RunLen, Separate, Quiet, Sheltered, FileCall, Spared, FsSpec.WriteFile, Tree, Find;
    hide CanonicalFile, CanonicalDir, Filled, MallocOf, Placed, Pending, Shape, Room, Leftover;
    CanonicalDevices();
    ghost var t := k.exec.fs.Files();
    ShapeNow(k.exec.fs);
    FilledLength(k.exec.fs.heap.Table(), InUseAt(n));
    assert Blocks(BLKSIZE + HEADER) == 2;
    FileForecast(k.exec.fs.Now(), t, n, now);
    var sts := MakeDevice(k, if n == 2 then KEYBOARD else MOUSE, now);
    ok := sts == SUCCESS;
    if ok { NextStage(t, k.exec.fs.Files(), n); }
  }

  lemma RootStage(t: Files, was: Stamps)
    requires OnlyRoot(t, was)
    ensures Stage(t, 1)
  {
  }

  lemma PlacedDevice(t: Files, u: Files, path: seq<byte>)
    requires Placed(t, u, path)
    ensures DeviceFile(u, path)
  {
  }

  /** `/dev/`, the keyboard and the mouse. A true result stands for a panic. */
  method InitDevices(k: Kernel, now: Stamps, ghost was: Stamps) returns (panic: bool)
    requires k.Safe() && OnlyRoot(k.exec.fs.Files(), was) && Tree(k.exec.fs.Files())
    requires Filled(k.exec.fs.heap.Table(), START)
    modifies k.exec.fs.raPath, k.exec.fs.entryV, k.exec.fs.heap.blockV, k.exec.fs.heap.ram
    ensures k.Safe() && (old(k.Sound()) ==> k.Sound()) && Tree(k.exec.fs.Files())
    ensures panic <==> k.exec.fs.heap.blockC < WHOLE
    ensures !panic ==> DeviceFile(k.exec.fs.Files(), KEYBOARD) && Pending(k.exec.fs.Files(), [])
  {
    hide HeaderAt, Consistent, View, FileAt, Steady, Linked, RecordsFit, Moored, Docked, Grounded, Isolated, Ctxs;
    hide Memory.WellFormed, RunLen, Separate, Quiet, Sheltered, Tree, Find, Filled, Pending, DeviceFile, Placed;
    hide OnlyRoot, Stage;
    RootStage(k.exec.fs.Files(), was);
    var ok := AddDir(k, now);
    if !ok { return true; }
    ghost var t := k.exec.fs.Files();
    ok := AddDevice(k, 2, now);
    if !ok { return true; }
    ghost var t1 := k.exec.fs.Files();
    PlacedDevice(t, t1, KEYBOARD);
    ok := AddDevice(k, 3, now);
    if !ok { return true; }
    NextStage(t1, k.exec.fs.Files(), 3);
    return false;
  }

  // ----- Up to the first packet -----

  /** The whole start: memory, file system, scheduler, mount manager and devices. No result stands for a
      panic. (The archives that are mounted in between are TarFs.Mount's.) */
  method Startup(ram: array<byte>, size: word, base: nat, tmp: word, regs: Ctx, kernelCtx: nat, kLo: nat, kHi: nat,
                 now: Stamps)
    returns (k: Kernel?, io: IoCall.IoCall?)
    requires ram.Length == RAM_SIZE && 0 < base && base + size < RAM_SIZE && Linkage(base, tmp, kernelCtx, kLo, kHi)
    requires PoolBlocks(size) <= 0 || 16 <= PoolBlocks(size)
    modifies ram
    ensures k != null && io != null <==> WHOLE <= PoolBlocks(size)
    ensures k != null && io != null ==>
              && k.Sound() && k.Safe() && io.fs == k.exec.fs && io.Valid() && !io.forceAccess
              && DeviceFile(k.exec.fs.Files(), KEYBOARD) && Pending(k.exec.fs.Files(), [])
  {
    hide Consistent, View, Steady, Linked, RecordsFit, Moored, Docked, Grounded, Isolated, Ctxs, Memory.WellFormed;
    hide RunLen, Separate, OnlyRoot, Tree, Filled, Pending, DeviceFile, Sheltered, Find;
    io := null;
    k := Boot(ram, size, base, tmp, regs, kernelCtx, kLo, kHi, now);
    if k == null { return; }
    k.SoundSafe();
    var panic := InitDevices(k, now, now);
    if panic { return; }
    io := new IoCall.IoCall(k.exec.fs);
  }

  /** `out` was the oldest of these packets, and the others wait. */
  ghost predicate Taken(ps: seq<seq<byte>>, out: seq<byte>, t: Files) {
    ps != [] && out == ps[0] && Pending(t, ps[1..])
  }

  /** The driver reports a movement while packets `ps` wait, then the kernel loop takes one: it gets the
      oldest, and the machine is in order throughout. */
  method MoveAndTake(k: Kernel, io: IoCall.IoCall, stat: byte, x: byte, y: byte, at: Date, now: Stamps,
                     ghost ps: seq<seq<byte>>)
    returns (out: seq<byte>)
    requires k.Safe() && io.fs == k.exec.fs && io.Valid() && Pending(io.fs.Files(), ps)
    modifies io`forceAccess, io.fileDesc, io.fs.raPath, io.fs.entryV, io.fs.heap.blockV, io.fs.heap.ram
    ensures io.Valid() && !io.forceAccess && Taken(AfterSend(ps, Packet(stat, x, y)), out, io.fs.Files())
    ensures k.Safe() && (old(k.Sound()) ==> k.Sound())
  {
    hide Consistent, View, Steady, Linked, RecordsFit, Moored, Docked, Grounded, Isolated, Ctxs, Memory.WellFormed;
    hide RunLen, Separate, Tree, Pending, Sheltered, Find, Spared, FileCall, Quiet;
    ghost var u, ptrs := k.exec.mt.View(), k.exec.fs.entryV[..];
    k.AfloatQuiet();
    Mouse.Send(io, stat, x, y, at, now, ps);
    ghost var qs := AfterSend(ps, Packet(stat, x, y));
    k.Regained(u, ptrs);
    u, ptrs := k.exec.mt.View(), k.exec.fs.entryV[..];
    k.AfloatQuiet();
    var r;
    r, out := Mouse.Poll(io, at, now, qs);
    k.Regained(u, ptrs);
  }
}
