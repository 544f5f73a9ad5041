/** The descriptor calls on regular files and character devices. */
module IoCall {
  import opened Bytes
  import opened Paths
  import opened FsSpec
  import opened Headers
  import opened Memory
  import opened Store
  import opened CoreFs
  import opened Streams

  const MAXFD := 64
  const TYPEFD := 3
  const O_RDONLY: bv32 := 1
  const O_WRONLY: bv32 := 2
  const O_RDWR: bv32 := 4
  const O_CREAT: bv32 := 8
  const O_EXCL: bv32 := 16
  const O_TRUNC: bv32 := 32
  const O_APPEND: bv32 := 64

  datatype FileDesc = FileDesc(entry: int, flags: bv32, ptr: nat, op: bool)

  predicate Has(flags: bv32, f: bv32) {
    flags & f != 0
  }

  // ----- Device buffers in memory -----

  lemma DeviceAt(m: seq<byte>, p: nat, size: nat)
    requires p + size <= |m| && 4 <= size
    ensures Get32(m[p..p + size], 0) == Get32(m, p)
    ensures Device(m[p..p + size]) <==> Get32(m, p) <= size - 4
    ensures Device(m[p..p + size]) ==> Queue(m[p..p + size]) == m[p + 4..p + 4 + Get32(m, p)]
  {
    hide Get32;
    LoadInSlice(m, p, size);
    SliceInSlice(m, p, size, Get32(m, p));
  }

  lemma LoadInSlice(m: seq<byte>, p: nat, size: nat)
    requires p + size <= |m| && 4 <= size
    ensures Get32(m[p..p + size], 0) == Get32(m, p)
  {
  }

  lemma SliceInSlice(m: seq<byte>, p: nat, size: nat, n: nat)
    requires p + size <= |m|
    ensures 4 + n <= size ==> m[p..p + size][4..4 + n] == m[p + 4..p + 4 + n]
  {
    if 4 + n <= size {
      var a, b := m[p..p + size][4..4 + n], m[p + 4..p + 4 + n];
      assert |a| == |b| == n;
      forall k | 0 <= k < n ensures a[k] == b[k] {
        assert a[k] == m[p..p + size][4 + k] == m[p + (4 + k)];
      }
    }
  }

  lemma DeviceRoom(d: seq<byte>)
    requires Device(d)
    ensures 4 <= |d|
  {
  }

  lemma SliceOfAll(ram: array<byte>, p: nat, n: nat)
    requires p + n <= ram.Length
    ensures ram[..][p..p + n] == ram[p..p + n]
  {
  }

  lemma PrefixOfSlice(m: seq<byte>, a: nat, n: nat, k: nat)
    requires k <= n && a + n <= |m|
    ensures m[a..a + n][..k] == m[a..a + k]
  {
  }

  /** Take up to `count` bytes from the front and shift the rest down with the overlapping copy. */
  method DevRead(ram: array<byte>, p: nat, size: word, count: word) returns (out: seq<byte>)
    requires ram.Length == RAM_SIZE && p + size <= RAM_SIZE && Device(ram[p..p + size])
    modifies ram
    ensures Same(old(ram[..]), ram[..], 0, p) && Same(old(ram[..]), ram[..], p + size, RAM_SIZE)
    ensures Device(ram[p..p + size]) && out == Delivered(old(Queue(ram[p..p + size])), count)
    ensures Queue(ram[p..p + size]) == old(Queue(ram[p..p + size]))[|out|..]
  {
    hide Get32, Enc32, Device, Queue;
    ghost var m := ram[..];
    SliceOfAll(ram, p, size);
    DeviceRoom(m[p..p + size]);
    DeviceAt(m, p, size);
    ghost var q := m[p + 4..p + 4 + Get32(m, p)];
    var bufsize := Get32(ram[..], p);
    var limit := if bufsize >= count then count else bufsize;
    out := Front(ram, p + 4, limit);
    PrefixOfSlice(m, p + 4, Get32(m, p), limit);
    DevShift(ram, p, size, bufsize, limit);
    DeviceAt(ram[..], p, size);
    SliceOfAll(ram, p, size);
  }

  /** The bytes that go to the caller's buffer. */
  method Front(ram: array<byte>, at: nat, n: nat) returns (out: seq<byte>)
    requires at + n <= ram.Length
    ensures out == ram[at..at + n]
  {
    out := [];
    var i := 0;
    while i < n
      invariant 0 <= i <= n && out == ram[at..at + i]
    {
      out := out + [ram[at + i]];
      i := i + 1;
    }
  }

  /** What is left moves to the front; the rest of the buffer is cleared. */
  method DevShift(ram: array<byte>, p: nat, size: word, bufsize: word, limit: word)
    requires ram.Length == RAM_SIZE && p + size <= RAM_SIZE && 4 <= size && limit <= bufsize <= size - 4
    modifies ram
    ensures Same(old(ram[..]), ram[..], 0, p) && Same(old(ram[..]), ram[..], p + size, RAM_SIZE)
    ensures Get32(ram[..], p) == bufsize - limit
    ensures ram[p + 4..p + 4 + bufsize - limit] == old(ram[p + 4 + limit..p + 4 + bufsize])
  {
    hide Get32, Enc32, Splice, Copied, CopySource;
    ghost var m := ram[..];
    if bufsize > limit {
      var remain := bufsize - limit;
      ShiftDown(ram, p + 4, limit, remain);
      ghost var m1 := ram[..];
      Fill(ram, p + 4 + remain, 0, size - 4 - remain);
      Store32(ram, p, remain);
      SameSlice(m1, ram[..], p + 4, p + 4 + remain);
    } else {
      Store32(ram, p, 0);
      ghost var m1 := ram[..];
      Fill(ram, p + 4, 0, size - 4);
      SameLoad(m1, ram[..], p, p + 4, p);
    }
  }

  /** The overlapping forward copy keeps the order of what it moves. */
  method ShiftDown(ram: array<byte>, at: nat, gap: word, n: word)
    requires ram.Length == RAM_SIZE && at + gap + n <= RAM_SIZE
    modifies ram
    ensures ram[at..at + n] == old(ram[at + gap..at + gap + n])
    ensures Same(old(ram[..]), ram[..], 0, at) && Same(old(ram[..]), ram[..], at + n, RAM_SIZE)
  {
    ghost var m := ram[..];
    Ncopy(ram, at, at + gap, n);
    CopiedPrefix(m, ram[..], at, at + gap, n, n);
  }

  /** Append byte by byte while there is space. */
  method DevWrite(ram: array<byte>, p: nat, size: word, bytes: seq<byte>) returns (c: nat)
    requires ram.Length == RAM_SIZE && p + size <= RAM_SIZE && Device(ram[p..p + size])
    modifies ram
    ensures Same(old(ram[..]), ram[..], 0, p) && Same(old(ram[..]), ram[..], p + size, RAM_SIZE)
    ensures Device(ram[p..p + size]) && c == |Accepted(old(Queue(ram[p..p + size])), size - 4, bytes)|
    ensures Queue(ram[p..p + size]) == old(Queue(ram[p..p + size]))
                                       + Accepted(old(Queue(ram[p..p + size])), size - 4, bytes)
  {
    hide Get32, Enc32;
    ghost var m := ram[..];
    DeviceAt(m, p, size);
    assert ram[p..p + size] == m[p..p + size];
    ghost var q := m[p + 4..p + 4 + Get32(m, p)];
    c := 0;
    var i := 0;
    while i < |bytes|
      invariant 0 <= i <= |bytes| && c == Min(i, size - 4 - |q|)
      invariant Get32(ram[..], p) == |q| + c <= size - 4
      invariant ram[p + 4..p + 4 + |q| + c] == q + bytes[..c]
      invariant Same(m, ram[..], 0, p) && Same(m, ram[..], p + size, RAM_SIZE)
    {
      if Get32(ram[..], p) < size - 4 {
        PutOne(ram, p, size, bytes[i]);
        c := c + 1;
      }
      i := i + 1;
    }
    DeviceAt(ram[..], p, size);
    assert ram[p..p + size] == ram[..][p..p + size];
  }

  /** One byte goes behind those that are queued, and the count goes up. */
  method PutOne(ram: array<byte>, p: nat, size: word, b: byte)
    requires ram.Length == RAM_SIZE && p + size <= RAM_SIZE && 4 <= size && Get32(ram[..], p) < size - 4
    modifies ram
    ensures Get32(ram[..], p) == old(Get32(ram[..], p)) + 1
    ensures var n := old(Get32(ram[..], p)); ram[p + 4..p + 4 + n + 1] == old(ram[p + 4..p + 4 + n]) + [b]
    ensures Same(old(ram[..]), ram[..], 0, p) && Same(old(ram[..]), ram[..], p + size, RAM_SIZE)
  {
    hide Get32, Enc32;
    var n := Get32(ram[..], p);
    ghost var m := ram[..];
    CopyIn(ram, p + 4 + n, [b]);
    Store32(ram, p, n + 1);
    assert forall k :: p + 4 <= k < p + 4 + n ==> ram[k] == m[k];
    assert ram[p + 4..p + 4 + n] == m[p + 4..p + 4 + n];
  }

  class IoCall {
    const fs: CoreFs
    var fileDesc: array<FileDesc>
    var forceAccess: bool

    constructor (fs: CoreFs)
      ensures this.fs == fs && fileDesc.Length == MAXFD && fresh(fileDesc) && !forceAccess
      ensures forall k :: 0 <= k < MAXFD ==> fileDesc[k] == FileDesc(0, 0, 0, false)
    {
      this.fs := fs;
      fileDesc := new FileDesc[MAXFD](_ => FileDesc(0, 0, 0, false));
      forceAccess := false;
    }

    /** The calls run on an initialised file system whose names form a tree. As every `open` empties
        the table first, no descriptor but the first is ever in use. */
    ghost predicate Valid()
      reads this, fileDesc, fs, fs.heap, fs.heap.blockV, fs.heap.ram, fs.entryV, fs.mounts
    {
      && fileDesc.Length == MAXFD && fs.Valid() && fs.initLock && Tree(fs.Files())
      && 0 <= fileDesc[0].entry < ENTCOUNT && OnlyFirst()
    }

    ghost predicate OnlyFirst()
      reads this, fileDesc
    {
      forall k :: 0 < k < fileDesc.Length ==> fileDesc[k].entry == 0
    }

    /** The checks that `read` and `write` begin with. */
    method Admit(k: nat, way: bv32) returns (ok: bool)
      requires Valid() && k < MAXFD
      ensures ok <==> k == 0 && Usable(fs.Files(), fileDesc[0], way)
      ensures ok ==> fs.entryV[fileDesc[0].entry] != 0
    {
      hide HeaderAt, FileAt, Consistent, View, Memory.WellFormed, RunLen, Tree, Find, Has;
      var d := fileDesc[k];
      if d.entry == 0 { return false; }
      if !forceAccess && !Has(d.flags, way) && !Has(d.flags, O_RDWR) { return false; }
      fs.SlotFacts(d.entry);
      var a := fs.entryV[d.entry];
      if a == 0 { return false; }
      if fs.heap.ram[a + OFS_KIND] != TYPE_FILE { return false; }
      PermByte(fs.heap.ram[..], a);
      if fs.heap.ram[a + OFS_FTYPE] == TYPE_CHARDEV && !forceAccess {
        var devperm := fs.heap.ram[a + OFS_DEVPERM];
        return Has(devperm as bv32, way) || Has(devperm as bv32, O_RDWR);
      }
      return fs.heap.ram[a + OFS_FTYPE] == TYPE_FILE || fs.heap.ram[a + OFS_FTYPE] == TYPE_CHARDEV;
    }

    /** Moves the running offset. */
    method Advance(n: nat)
      requires Valid()
      modifies fileDesc
      ensures Valid() && fileDesc[0] == old(fileDesc[0]).(ptr := old(fileDesc[0]).ptr + n)
    {
      hide Consistent, View, Memory.WellFormed, Tree;
      fileDesc[0] := fileDesc[0].(ptr := fileDesc[0].ptr + n);
    }

    /** The descriptor names an open file or device that may be used this way. */
    predicate Usable(t: Files, d: FileDesc, way: bv32)
      reads this
    {
      && 0 < d.entry < |t| && t[d.entry].Used? && t[d.entry].f.h.kind == TYPE_FILE
      && (forceAccess || Has(d.flags, way) || Has(d.flags, O_RDWR))
      && (t[d.entry].f.h.ftype == TYPE_FILE ||
          (t[d.entry].f.h.ftype == TYPE_CHARDEV && (forceAccess || Allows(t[d.entry].f.h.devperm, way))))
    }

    /** A regular file needs a descriptor for this way or for both, a device its permission besides. */
    lemma UsableIff(t: Files, d: FileDesc, way: bv32)
      requires 0 < d.entry < |t| && t[d.entry].Used? && t[d.entry].f.h.kind == TYPE_FILE
      ensures var k, may := t[d.entry].f.h.ftype, t[d.entry].f.h.devperm as bv32;
              Usable(t, d, way) <==>
              && (k == 0 || k == 3) && (forceAccess || Has(d.flags, way) || Has(d.flags, 4))
              && (k == 3 && !forceAccess ==> Has(may, way) || Has(may, 4))
    {
      hide Has;
    }

    static predicate Allows(devperm: byte, way: bv32) {
      Has(devperm as bv32, way) || Has(devperm as bv32, O_RDWR)
    }

    method NameOf(i: nat) returns (name: seq<byte>)
      requires Valid() && i < ENTCOUNT && fs.entryV[i] != 0
      ensures name == fs.Files()[i].f.h.name && NulFree(name) && Find(fs.Files(), name, 0) == i
    {
      hide OnlyFirst, HeaderAt, FileAt, Consistent, View, Memory.WellFormed, RunLen, Tree;
      fs.SlotFacts(i);
      var a := fs.entryV[i];
      var n := fs.NameLength(a);
      NameText(fs.heap.ram[..], a);
      name := fs.heap.ram[a..a + n];
      FindsItself(fs.Files(), i);
    }

    lemma NameText(m: seq<byte>, a: nat)
      requires a + HEADER <= |m|
      ensures var name := HeaderAt(m, a).name; m[a..a + |name|] == name && NulFree(name)
    {
      var x := m[a..a + MAX_PATHLEN];
      assert Cut(x) <= x;
    }

    /** Reading stamps the entry and keeps the tree. */
    method Fetch(e: nat, now: Date) returns (p: nat)
      requires Valid() && e < ENTCOUNT && fs.entryV[e] != 0
      requires var h := fs.Files()[e].f.h; h.kind == TYPE_FILE && h.ftype != TYPE_MOUNTED
      modifies fs.heap.ram
      ensures Valid() && Spared(old(fs.Now()), fs.Now())
      ensures fs.Files() == old(fs.Files())[e := Used(Accessed(old(fs.Files())[e].f, now))]
      ensures var f := old(fs.Files())[e].f;
              && p == fs.entryV[e] + HEADER && p + f.h.size <= RAM_SIZE && |f.data| == f.h.size
              && fs.heap.ram[p..p + f.h.size] == f.data
    {
      hide OnlyFirst, HeaderAt, FileAt, Consistent, View, Memory.WellFormed, RunLen, Tree, Find;
      ghost var t := fs.Files();
      fs.SlotFacts(e);
      var name := NameOf(e);
      p := fs.ReadFile(name, now);
      RenameNothing(t, e, Accessed(t[e].f, now));
    }

    /** A regular file: from the running offset, as much as there is. */
    method ReadPlain(e: nat, count: word, now: Date) returns (out: seq<byte>)
      requires Valid() && e < ENTCOUNT && fs.entryV[e] != 0 && e == fileDesc[0].entry
      requires var h := fs.Files()[e].f.h; h.kind == TYPE_FILE && h.ftype == TYPE_FILE
      modifies fileDesc, fs.heap.ram
      ensures Valid() && Spared(old(fs.Now()), fs.Now())
      ensures Received(old(fs.Files()), fs.Files(), old(fileDesc[0]), fileDesc[0], count, out, now)
    {
      hide OnlyFirst, HeaderAt, FileAt, Consistent, View, Memory.WellFormed, RunLen, Tree, Find, Spared, NoLeak;
      SparedRefl(fs.Now());
      var a := fs.entryV[e];
      var size := SizeOf(e);
      var ptr := fileDesc[0].ptr;
      if ptr >= size { return []; }
      ghost var data := fs.Files()[e].f.data;
      var p := Fetch(e, now);
      var remain := size - ptr;
      var limit := if count > remain then remain else count;
      out := [];
      var i := 0;
      while i < limit
        invariant 0 <= i <= limit && out == data[ptr..ptr + i]
      {
        assert fs.heap.ram[p + (ptr + i)] == fs.heap.ram[p..p + size][ptr + i] == data[ptr + i];
        out := out + [fs.heap.ram[p + ptr + i]];
        i := i + 1;
      }
      Advance(limit);
    }

    method SizeOf(e: nat) returns (size: word)
      requires Valid() && e < ENTCOUNT && fs.entryV[e] != 0
      ensures size == fs.Files()[e].f.h.size
      ensures OwnData(fs.Files()[e].f.h) ==> |fs.Files()[e].f.data| == size
    {
      hide OnlyFirst, Consistent, View, Memory.WellFormed, RunLen, Tree;
      fs.SlotFacts(e);
      OwnBytes(fs.Now(), e);
      size := Get32(fs.heap.ram[..], fs.entryV[e] + OFS_SIZE);
    }

    /** A character device: from the front of its queue. */
    method ReadDevice(e: nat, count: word, now: Date) returns (out: seq<byte>)
      requires Valid() && e < ENTCOUNT && fs.entryV[e] != 0 && e == fileDesc[0].entry
      requires var f := fs.Files()[e].f; f.h.kind == TYPE_FILE && f.h.ftype == TYPE_CHARDEV && Device(f.data)
      modifies fs.heap.ram
      ensures Valid() && Spared(old(fs.Now()), fs.Now())
      ensures Received(old(fs.Files()), fs.Files(), old(fileDesc[0]), fileDesc[0], count, out, now)
    {
      hide OnlyFirst, HeaderAt, FileAt, Consistent, View, Memory.WellFormed, RunLen, Tree, Find, Spared, NoLeak, Device;
      hide Queue;
      ghost var f0 := fs.Now();
      var size := SizeOf(e);
      var p := Fetch(e, now);
      ghost var f1, t := fs.Now(), fs.Files();
      out := DevRead(fs.heap.ram, p, size, count);
      EditContent(f1, fs.Now(), e);
      SparedTrans(f0, f1, fs.Now());
      RenameNothing(t, e, File(t[e].f.h, fs.heap.ram[p..p + size]));
    }

    /** `read` through descriptor 3. The bytes that arrive in the caller's buffer are `out`. */
    method Read(fd: int, count: word, now: Date) returns (r: int, out: seq<byte>)
      requires Valid() && (fd <= TYPEFD || fd >= TYPEFD + MAXFD) && DeviceSound(fs.Files(), fileDesc[0].entry)
      modifies fileDesc, fs.heap.ram
      ensures Valid() && Spared(old(fs.Now()), fs.Now())
      ensures fd != TYPEFD || !old(Usable(fs.Files(), fileDesc[0], O_RDONLY)) ==>
                r == -1 && out == [] && fs.Now() == old(fs.Now()) && fileDesc[0] == old(fileDesc[0])
      ensures fd == TYPEFD && old(Usable(fs.Files(), fileDesc[0], O_RDONLY)) ==>
                r == |out| && Received(old(fs.Files()), fs.Files(), old(fileDesc[0]), fileDesc[0], count, out, now)
      ensures fd == TYPEFD && old(Usable(fs.Files(), fileDesc[0], O_RDONLY)) ==>
                Delivers(old(fs.Files())[old(fileDesc[0]).entry].f, old(fileDesc[0]).ptr, count, out)
    {
      hide OnlyFirst, HeaderAt, FileAt, Consistent, View, Memory.WellFormed, RunLen, Tree, Find, Spared, NoLeak, Device;
      hide Queue, Received, Delivers;
      SparedRefl(fs.Now());
      ghost var t, d := fs.Files(), fileDesc[0];
      if fd < TYPEFD || fd >= TYPEFD + MAXFD { return -1, []; }
      var ok := Admit(TYPEFD - fd, O_RDONLY);
      if !ok { return -1, []; }
      fs.SlotFacts(fileDesc[0].entry);
      if fs.heap.ram[fs.entryV[fileDesc[0].entry] + OFS_FTYPE] == TYPE_FILE {
        out := ReadPlain(fileDesc[0].entry, count, now);
      } else {
        out := ReadDevice(fileDesc[0].entry, count, now);
      }
      ReceivedDelivers(t, fs.Files(), d, fileDesc[0], count, out, now);
      return |out|, out;
    }

    /** Room for a scratch copy of the new content, and beside it for the relocated file. */
    ghost predicate TwoRooms(limit: word)
      requires fs.heap.Good() && Blocks(limit) <= fs.heap.blockC && limit + HEADER < RAM_SIZE
      requires Blocks(limit + HEADER) <= fs.heap.blockC
      reads fs, fs.heap, fs.heap.blockV
    {
      var a := MallocOf(fs.heap.Table(), fs.heap.space, limit);
      a.ptr != 0 && MallocOf(a.table, fs.heap.space, limit + HEADER).ptr != 0
    }

    /** The scratch copy: zeros, the old content, the new bytes at the offset. */
    method Compose(data: nat, limit: word, file: nat, size: word, ptr: nat, bytes: seq<byte>)
      requires fs.heap.ram.Length == RAM_SIZE && data + limit <= RAM_SIZE && file + size <= RAM_SIZE
      requires limit == Max(size, ptr + |bytes|) && (file + size <= data || data + limit <= file)
      modifies fs.heap.ram
      ensures fs.heap.ram[data..data + limit] == Overlay(old(fs.heap.ram[file..file + size]), ptr, bytes)
      ensures Same(old(fs.heap.ram[..]), fs.heap.ram[..], 0, data)
      ensures Same(old(fs.heap.ram[..]), fs.heap.ram[..], data + limit, RAM_SIZE)
    {
      hide Copied, CopySource, Splice, Overlay;
      ghost var m := fs.heap.ram[..];
      Fill(fs.heap.ram, data, 0, limit);
      ghost var m1 := fs.heap.ram[..];
      Ncopy(fs.heap.ram, data, file, size);
      ghost var m2 := fs.heap.ram[..];
      CopiedSplice(m1, m2, data, file, size);
      CopyIn(fs.heap.ram, data + ptr, bytes);
      Composed(m, m1, m2, fs.heap.ram[..], data, limit, file, size, ptr, bytes);
    }

    lemma Composed(m: seq<byte>, m1: seq<byte>, m2: seq<byte>, r: seq<byte>, data: nat, limit: word, file: nat,
                   size: word, ptr: nat, bytes: seq<byte>)
      requires |m| == RAM_SIZE && data + limit <= RAM_SIZE && file + size <= RAM_SIZE
      requires limit == Max(size, ptr + |bytes|)
      requires file + size <= data || data + limit <= file
      requires m1 == Splice(m, data, seq(limit, _ => 0)) && m2 == Splice(m1, data, m1[file..file + size])
      requires r == Splice(m2, data + ptr, bytes)
      ensures r[data..data + limit] == Overlay(m[file..file + size], ptr, bytes)
      ensures Same(m, r, 0, data) && Same(m, r, data + limit, RAM_SIZE)
    {
      hide Splice;
      var c, out := m[file..file + size], Overlay(m[file..file + size], ptr, bytes);
      forall i | 0 <= i < limit ensures r[data..data + limit][i] == out[i] {
        assert r[data..data + limit][i] == r[data + i];
        if i < size { assert m1[file..file + size][i] == m1[file + i] == m[file + i] == c[i]; }
      }
    }

    /** Sizes that the allocator can compute with. */
    predicate Workable(limit: word)
      reads fs, fs.heap
    {
      Sane(limit) && Blocks(limit) <= fs.heap.blockC && fs.Fitting(limit)
    }

    /** The allocator can serve the relocation of a file of this length. */
    ghost predicate Movable(limit: word)
      requires fs.heap.Good() && Workable(limit)
      reads fs, fs.heap, fs.heap.blockV
    {
      MallocOf(fs.heap.Table(), fs.heap.space, limit + HEADER).ptr != 0
    }

    /** Entry `e` is a file of this name. */
    ghost predicate FileSlot(e: nat, name: seq<byte>)
      requires Valid()
      reads this, fileDesc, fs, fs.heap, fs.heap.blockV, fs.heap.ram, fs.entryV, fs.mounts
    {
      && e < ENTCOUNT && fs.Files()[e].Used? && name == fs.Files()[e].f.h.name && NulFree(name)
      && fs.Files()[e].f.h.kind == TYPE_FILE
    }

    /** Since state `f0` a run at `data` has been taken, and giving it back would restore the table. */
    ghost predicate Scratch(f0: Fs, data: nat, limit: word)
      reads fs, fs.heap, fs.heap.blockV, fs.heap.ram, fs.entryV
    {
      && data + limit <= RAM_SIZE && fs.heap.ram.Length == RAM_SIZE
      && RunLen(fs.heap.Table(), fs.heap.space, data) > 0 && data !in fs.entryV[..]
      && Consistent(f0) && Spared(f0, fs.Now()) && RunLen(f0.table, f0.space, data) == 0
      && FreeOf(fs.heap.Table(), fs.heap.space, data) == f0.table && f0.ptrs == fs.entryV[..]
      && f0.space == fs.heap.space
    }

    /** The rewriting of a file from a scratch run `data` that is then given back. */
    method Replace(e: nat, name: seq<byte>, data: nat, limit: word, now: Stamps, ghost f0: Fs) returns (ok: bool)
      requires Valid() && FileSlot(e, name) && Workable(limit) && Scratch(f0, data, limit)
      modifies fs.raPath, fs.entryV, fs.heap.blockV, fs.heap.ram
      ensures Valid() && Spared(f0, fs.Now()) && NoLeak(f0, fs.Now())
      ensures ok <==> old(Movable(limit))
      ensures ok ==> Rewrote(old(fs.Files()), fs.Files(), e, old(fs.heap.ram[data..data + limit]), now)
      ensures !ok ==> fs.Files() == old(fs.Files()) && fs.heap.Table() == f0.table
    {
      hide OnlyFirst, HeaderAt, FileAt, Consistent, View, Memory.WellFormed, RunLen, Tree, Find, Spared, NoLeak;
      hide MallocOf, FreeOf, FileSlot, Movable, Blocks, Sane;
      ghost var f2 := fs.Now();
      var value := fs.heap.ram[data..data + limit];
      ok := Commit(e, name, limit, value, now);
      ghost var f3 := fs.Now();
      SparedKeeps(f2, f3, data);
      SparedTrans(f0, f2, f3);
      ShapeOf(f3);
      fs.heap.Free(data);
      OtherFree(f3, fs.Now(), data);
      SparedFree(f0, f3, fs.Now(), data);
      NoLeakScratch(f0, f2, f3, fs.Now(), data);
      ShapeOf(fs.Now());
    }

    /** `fs_writeFile(ent->name, limit, data)` on an existing file. */
    method Commit(e: nat, name: seq<byte>, limit: word, value: seq<byte>, now: Stamps) returns (ok: bool)
      requires Valid() && FileSlot(e, name) && Workable(limit) && |value| == limit
      modifies fs.raPath, fs.entryV, fs.heap.blockV, fs.heap.ram
      ensures Valid() && Spared(old(fs.Now()), fs.Now()) && NoLeak(old(fs.Now()), fs.Now())
      ensures ok <==> old(Movable(limit))
      ensures if ok then Rewrote(old(fs.Files()), fs.Files(), e, value, now) else fs.Now() == old(fs.Now())
    {
      hide OnlyFirst, HeaderAt, FileAt, Consistent, View, Memory.WellFormed, RunLen, Tree, Find, Spared, NoLeak;
      hide FsSpec.WriteFile, MallocOf, FreeOf, Leftover;
      ghost var f2, t := fs.Now(), fs.Files();
      fs.SlotFacts(e);
      RewriteOutcome(t, e, value, now, Room(f2, limit + HEADER), Leftover(f2, limit + HEADER));
      var sts := fs.WriteFile(name, limit, Data(value), now);
      if sts == SUCCESS { RenameNothing(t, e, Rewritten(t[e].f, value, now)); }
      ok := sts == SUCCESS;
    }

    /** The file's content lies at `file`, and with `bytes` over it would be `limit` long. */
    ghost predicate Sourced(e: nat, file: nat, limit: word, bytes: seq<byte>)
      requires Valid() && e < ENTCOUNT
      reads this, fileDesc, fs, fs.heap, fs.heap.blockV, fs.heap.ram, fs.entryV, fs.mounts
    {
      && fs.entryV[e] != 0 && file == fs.entryV[e] + HEADER && fs.Files()[e].Used?
      && var f := fs.Files()[e].f;
      && f.h.kind == TYPE_FILE && f.h.ftype == TYPE_FILE && file + f.h.size <= RAM_SIZE && |f.data| == f.h.size
      && fs.heap.ram[file..file + f.h.size] == f.data && limit == Max(f.h.size, fileDesc[0].ptr + |bytes|)
    }

    /** No run has come or gone since `f0`. */
    ghost predicate Since(f0: Fs)
      reads fs, fs.heap, fs.heap.blockV, fs.heap.ram, fs.entryV
    {
      && Consistent(f0) && Spared(f0, fs.Now()) && f0.table == fs.heap.Table() && f0.space == fs.heap.space
      && f0.ptrs == fs.entryV[..]
    }

    /** `malloc` of the scratch run, and the composed content in it. */
    method Prepare(e: nat, limit: word, file: nat, bytes: seq<byte>, ghost f0: Fs) returns (data: nat)
      requires Valid() && e < ENTCOUNT && Sourced(e, file, limit, bytes) && Workable(limit) && Since(f0)
      modifies fs.heap.blockV, fs.heap.ram
      ensures Valid() && fs.Files() == old(fs.Files())
      ensures data != 0 <==> limit > 0 && old(Room(fs.Now(), limit))
      ensures data == 0 ==> fs.Now() == old(fs.Now())
      ensures data != 0 ==>
                && Scratch(f0, data, limit)
                && fs.heap.Table() == old(MallocOf(fs.heap.Table(), fs.heap.space, limit)).table
      ensures data != 0 ==>
                fs.heap.ram[data..data + limit] == Overlay(old(fs.Files())[e].f.data, fileDesc[0].ptr, bytes)
    {
      hide OnlyFirst, HeaderAt, FileAt, Consistent, View, Memory.WellFormed, RunLen, Tree, MallocOf, FreeOf, Overlay;
      hide Spared, NoLeak, Blocks;
      data := TakeScratch(e, limit, file, bytes, f0);
      if data == 0 { return 0; }
      ghost var g := fs.Now();
      var size := SizeOf(e);
      Compose(data, limit, file, size, fileDesc[0].ptr, bytes);
      ScratchWrite(f0, g, fs.Now(), data, limit);
    }

    /** `malloc(limit)`: a run apart from the file. */
    method TakeScratch(e: nat, limit: word, file: nat, ghost bytes: seq<byte>, ghost f0: Fs) returns (data: nat)
      requires Valid() && e < ENTCOUNT && Sourced(e, file, limit, bytes) && Workable(limit) && Since(f0)
      modifies fs.heap.blockV
      ensures Valid() && fs.Files() == old(fs.Files()) && Sourced(e, file, limit, bytes)
      ensures data != 0 <==> limit > 0 && old(Room(fs.Now(), limit))
      ensures data == 0 ==> fs.Now() == old(fs.Now())
      ensures data != 0 ==>
                && Scratch(f0, data, limit)
                && fs.heap.Table() == old(MallocOf(fs.heap.Table(), fs.heap.space, limit)).table
      ensures data != 0 ==> limit <= BLKSIZE * RunLen(fs.heap.Table(), fs.heap.space, data)
      ensures data != 0 ==> file + fs.Files()[e].f.h.size <= data || data + limit <= file
    {
      hide OnlyFirst, HeaderAt, FileAt, Consistent, View, Memory.WellFormed, RunLen, Tree, MallocOf, FreeOf, Spared;
      hide NoLeak, Blocks;
      ghost var f1 := fs.Now();
      ShapeOf(f1);
      MallocAdds(f1.table, f1.space, limit);
      fs.SlotFacts(e);
      OwnBytes(f1, e);
      data := fs.heap.Malloc(limit);
      if data == 0 { return 0; }
      OtherMalloc(f1, fs.Now(), limit);
      OwnRunApart(f1, fs.Now(), e, data, limit);
      SparedTrans(f0, f1, fs.Now());
    }

    /** The new length of the file a write would leave. */
    ghost function Limit(e: nat, count: nat): nat
      requires Valid() && e < ENTCOUNT && fs.Files()[e].Used?
      reads this, fileDesc, fs, fs.heap, fs.heap.blockV, fs.heap.ram, fs.entryV, fs.mounts
    {
      Max(fs.Files()[e].f.h.size, fileDesc[0].ptr + count)
    }

    ghost predicate Computable(e: nat, count: nat)
      requires Valid() && e < ENTCOUNT && fs.Files()[e].Used?
      reads this, fileDesc, fs, fs.heap, fs.heap.blockV, fs.heap.ram, fs.entryV, fs.mounts
    {
      Limit(e, count) < RAM_SIZE && Workable(Limit(e, count))
    }

    ghost predicate Roomy(e: nat, count: nat)
      requires Valid() && e < ENTCOUNT && fs.Files()[e].Used? && Computable(e, count)
      reads this, fileDesc, fs, fs.heap, fs.heap.blockV, fs.heap.ram, fs.entryV, fs.mounts
    {
      Limit(e, count) > 0 && TwoRooms(Limit(e, count))
    }

    /** A regular file: the old content with the new bytes laid over it at the offset, if there is
        memory for both copies. */
    method WritePlain(e: nat, bytes: seq<byte>, at: Date, now: Stamps) returns (ok: bool)
      requires Valid() && e < ENTCOUNT && fs.entryV[e] != 0 && e == fileDesc[0].entry
      requires var h := fs.Files()[e].f.h; h.kind == TYPE_FILE && h.ftype == TYPE_FILE
      requires Computable(e, |bytes|)
      modifies fs.raPath, fs.entryV, fs.heap.blockV, fs.heap.ram
      ensures Valid() && Spared(old(fs.Now()), fs.Now()) && NoLeak(old(fs.Now()), fs.Now())
      ensures ok <==> old(Roomy(e, |bytes|))
      ensures !ok ==> fs.heap.Table() == old(fs.heap.Table())
      ensures if ok then Stored(old(fs.Files()), fs.Files(), fileDesc[0], bytes, at, now)
              else Refused(old(fs.Files()), fs.Files(), e, at)
    {
      hide OnlyFirst, HeaderAt, FileAt, Consistent, View, Memory.WellFormed, RunLen, Tree, Find, Spared, NoLeak;
      hide MallocOf, FreeOf, Scratch, Overlay, Blocks, Sane, Rewritten, Workable, Stored, Refused, Rewrote;
      ghost var f0, t := fs.Now(), fs.Files();
      var size := SizeOf(e);
      var limit := if size >= fileDesc[0].ptr + |bytes| then size else fileDesc[0].ptr + |bytes|;
      var name := NameOf(e);
      var file := Fetch(e, at);
      ghost var t1 := fs.Files();
      ok := Assemble(e, name, limit, file, bytes, now, f0);
      PlainOutcome(t, t1, fs.Files(), fileDesc[0], bytes, at, now);
    }

    lemma {:induction false} PlainOutcome(t: Files, t1: Files, u: Files, d: FileDesc, bytes: seq<byte>, at: Date,
                                          now: Stamps)
      requires 0 <= d.entry < |t| && t[d.entry].Used? && t1 == t[d.entry := Used(Accessed(t[d.entry].f, at))]
      ensures Rewrote(t1, u, d.entry, Overlay(t1[d.entry].f.data, d.ptr, bytes), now) ==>
                Stored(t, u, d, bytes, at, now)
      ensures u == t1 ==> Refused(t, u, d.entry, at)
    {
      hide Overlay, Rewritten;
    }

    /** The scratch copy is made and written back. */
    method Assemble(e: nat, name: seq<byte>, limit: word, file: nat, bytes: seq<byte>, now: Stamps, ghost f0: Fs)
      returns (ok: bool)
      requires Valid() && FileSlot(e, name) && Sourced(e, file, limit, bytes) && Workable(limit) && Since(f0)
      modifies fs.raPath, fs.entryV, fs.heap.blockV, fs.heap.ram
      ensures Valid() && Spared(f0, fs.Now()) && NoLeak(f0, fs.Now())
      ensures ok <==> limit > 0 && old(TwoRooms(limit))
      ensures if ok then
                Rewrote(old(fs.Files()), fs.Files(), e, Overlay(old(fs.Files())[e].f.data, fileDesc[0].ptr, bytes), now)
              else fs.Files() == old(fs.Files()) && fs.heap.Table() == f0.table
    {
      hide OnlyFirst, HeaderAt, FileAt, Consistent, View, Memory.WellFormed, RunLen, Tree, Find, Spared, NoLeak;
      hide MallocOf, FreeOf, Scratch, Overlay, Blocks, Sane;
      var data := Prepare(e, limit, file, bytes, f0);
      if data == 0 {
        NoLeakSame(f0, fs.Now());
        return false;
      }
      ok := Replace(e, name, data, limit, now, f0);
    }

    /** A character device: as much as fits. */
    method WriteDevice(e: nat, bytes: seq<byte>, at: Date) returns (c: nat)
      requires Valid() && e < ENTCOUNT && fs.entryV[e] != 0 && e == fileDesc[0].entry
      requires var f := fs.Files()[e].f; f.h.kind == TYPE_FILE && f.h.ftype == TYPE_CHARDEV && Device(f.data)
      modifies fs.heap.ram
      ensures Valid() && Spared(old(fs.Now()), fs.Now()) && NoLeak(old(fs.Now()), fs.Now())
      ensures Queued(old(fs.Files()), fs.Files(), e, bytes, c, at)
    {
      hide OnlyFirst, HeaderAt, FileAt, Consistent, View, Memory.WellFormed, RunLen, Tree, Find, Spared, NoLeak, Device;
      hide Queue;
      ghost var f0 := fs.Now();
      var size := SizeOf(e);
      var p := Fetch(e, at);
      ghost var f1, t := fs.Now(), fs.Files();
      c := DevWrite(fs.heap.ram, p, size, bytes);
      EditContent(f1, fs.Now(), e);
      SparedTrans(f0, f1, fs.Now());
      NoLeakSame(f0, fs.Now());
      RenameNothing(t, e, File(t[e].f.h, fs.heap.ram[p..p + size]));
    }

    /** There are places for the scratch copy of the new content and, beside it, for the relocated
        file. A file that would stay empty cannot be written. */
    ghost predicate Fits(e: nat, count: nat)
      requires Valid() && e < ENTCOUNT && fs.Files()[e].Used? && Computable(e, count)
      reads this, fileDesc, fs, fs.heap, fs.heap.blockV, fs.heap.ram, fs.entryV, fs.mounts
    {
      var n := Limit(e, count);
      n > 0 && TwoFit(fs.heap.Table(), Blocks(n), Blocks(n + 4096))
    }

    lemma RoomyIff(e: nat, count: nat)
      requires Valid() && e < ENTCOUNT && fs.Files()[e].Used? && Computable(e, count)
      ensures Roomy(e, count) <==> Fits(e, count)
    {
      hide OnlyFirst, HeaderAt, FileAt, View, Memory.WellFormed, RunLen, Tree, Blocks, MallocOf;
      ShapeOf(fs.Now());
      var n := Limit(e, count);
      BothServedIff(fs.heap.Table(), fs.heap.space, n, n + HEADER);
    }

    /** `write` through descriptor 3. A regular write needs sizes the allocator can compute with;
        the append flag plays no part. */
    method Write(fd: int, bytes: seq<byte>, at: Date, now: Stamps) returns (r: int)
      requires Valid() && DeviceSound(fs.Files(), fileDesc[0].entry)
      requires (Usable(fs.Files(), fileDesc[0], O_WRONLY) ==> Writable(fileDesc[0].entry, |bytes|))
      modifies fileDesc, fs.raPath, fs.entryV, fs.heap.blockV, fs.heap.ram
      ensures Valid() && Spared(old(fs.Now()), fs.Now()) && NoLeak(old(fs.Now()), fs.Now())
      ensures fd != TYPEFD || !old(Usable(fs.Files(), fileDesc[0], O_WRONLY)) ==>
                r == -1 && fs.Now() == old(fs.Now()) && fileDesc[0] == old(fileDesc[0])
      ensures fd == TYPEFD && old(Usable(fs.Files(), fileDesc[0], O_WRONLY)) ==>
                Written(old(fs.Files()), fs.Files(), old(fileDesc[0]), fileDesc[0], bytes, r, at, now)
      ensures fd == TYPEFD && old(Usable(fs.Files(), fileDesc[0], O_WRONLY)) ==>
                var e := old(fileDesc[0]).entry;
                if old(fs.Files())[e].f.h.ftype == TYPE_FILE then r == -1 <==> !old(Fits(e, |bytes|))
                else fs.Files()[e].Used? && Enqueues(old(fs.Files())[e].f, fs.Files()[e].f, bytes, r)
      ensures r == -1 ==> fs.heap.Table() == old(fs.heap.Table())
    {
      hide OnlyFirst, HeaderAt, FileAt, Consistent, View, Memory.WellFormed, RunLen, Tree, Find, Spared, NoLeak, Device;
      hide Queue, Stored, Queued, Refused, Roomy, Fits, Enqueues, Limit, Workable;
      SparedRefl(fs.Now());
      ghost var t, e := fs.Files(), fileDesc[0].entry;
      NoLeakRefl(fs.Now());
      if fd < TYPEFD || fd >= TYPEFD + MAXFD { return -1; }
      var ok := Admit(fd - TYPEFD, O_WRONLY);
      if !ok { return -1; }
      fs.SlotFacts(fileDesc[0].entry);
      if fs.heap.ram[fs.entryV[fileDesc[0].entry] + OFS_FTYPE] == TYPE_FILE {
        RoomyIff(fileDesc[0].entry, |bytes|);
        ok := WritePlain(fileDesc[0].entry, bytes, at, now);
        if !ok { return -1; }
        Advance(|bytes|);
        return |bytes|;
      }
      r := WriteDevice(fileDesc[0].entry, bytes, at);
      QueuedEnqueues(t, fs.Files(), e, bytes, r, at);
    }

    ghost predicate Writable(e: nat, count: nat)
      requires Valid() && e < ENTCOUNT && fs.Files()[e].Used?
      reads this, fileDesc, fs, fs.heap, fs.heap.blockV, fs.heap.ram, fs.entryV, fs.mounts
    {
      fs.Files()[e].f.h.ftype == TYPE_FILE ==> Computable(e, count)
    }

    /** `fs_writeFile(path, 0, "")`: the file is made or emptied. */
    method Clear(path: seq<byte>, now: Stamps) returns (sts: int)
      requires Valid() && NulFree(path) && |path| < MAX_PATHLEN && fs.Fitting(0)
      requires CanonicalFile(path) || Find(fs.Files(), path, 0) != -1
      modifies fs.raPath, fs.entryV, fs.heap.blockV, fs.heap.ram
      ensures Valid() && Spared(old(fs.Now()), fs.Now()) && NoLeak(old(fs.Now()), fs.Now())
      ensures Outcome(sts, fs.Files()) == old(fs.WriteOutcome(path, 0, [], now))
      ensures old(Find(fs.Files(), path, 0)) != -1 ==> Find(fs.Files(), path, 0) == old(Find(fs.Files(), path, 0))
      ensures sts == SUCCESS && old(Find(fs.Files(), path, 0)) == -1 ==> PlainAt(fs.Files(), Find(fs.Files(), path, 0))
    {
      hide OnlyFirst, HeaderAt, FileAt, Consistent, View, Memory.WellFormed, RunLen, Tree, Spared, NoLeak;
      hide FsSpec.WriteFile, Room, Leftover, CanonicalFile;
      ghost var t, room, was := fs.Files(), Room(fs.Now(), HEADER), Leftover(fs.Now(), HEADER);
      sts := fs.WriteFile(path, 0, Data([]), now);
      EmptyingKeepsTree(t, path, now, room, was);
      if sts == SUCCESS && Find(t, path, 0) == -1 { WrittenIsFound(t, path, [], now, room, was); }
    }

    predicate PlainAt(t: Files, k: int) {
      0 <= k < |t| && t[k].Used? && t[k].f.h.kind == TYPE_FILE && t[k].f.h.ftype == TYPE_FILE
    }

    /** Whether a file or device may be opened at all, and this way. */
    method Openable(index: nat, flags: bv32) returns (ok: bool)
      requires Valid() && index < ENTCOUNT && fs.entryV[index] != 0
      ensures ok <==> fs.Files()[index].f.h.kind == TYPE_FILE && !Barred(forceAccess, fs.Files()[index].f, flags)
    {
      hide OnlyFirst, HeaderAt, FileAt, Consistent, View, Memory.WellFormed, RunLen, Tree, Spared, NoLeak, Has;
      fs.SlotFacts(index);
      var a := fs.entryV[index];
      PermByte(fs.heap.ram[..], a);
      if fs.heap.ram[a + OFS_KIND] != TYPE_FILE { return false; }
      if !forceAccess {
        var devperm := fs.heap.ram[a + OFS_DEVPERM] as bv32;
        if fs.heap.ram[a + OFS_FTYPE] == TYPE_CHARDEV && !Has(flags, O_RDWR) {
          if Has(flags, O_RDONLY) {
            if Has(devperm, O_WRONLY) { return false; }
          } else if Has(flags, O_WRONLY) {
            if Has(devperm, O_RDONLY) { return false; }
          }
        }
      }
      return true;
    }

    lemma EmptyingKeepsPlace(t: Files, path: seq<byte>, now: Stamps, room: bool, was: Header)
      requires Find(t, path, 0) != -1
      ensures Find(FsSpec.WriteFile(t, path, [], now, room, was).files, path, 0) == Find(t, path, 0)
    {
      hide ParentsLive;
      var e, u := Find(t, path, 0), FsSpec.WriteFile(t, path, [], now, room, was).files;
      assert forall k :: Named(u, k, path) <==> Named(t, k, path);
    }

    lemma EmptyingKeepsTree(t: Files, path: seq<byte>, now: Stamps, room: bool, was: Header)
      requires Tree(t) && (CanonicalFile(path) || Find(t, path, 0) != -1)
      ensures Tree(FsSpec.WriteFile(t, path, [], now, room, was).files)
      ensures Find(t, path, 0) != -1 ==>
                Find(FsSpec.WriteFile(t, path, [], now, room, was).files, path, 0) == Find(t, path, 0)
    {
      if Find(t, path, 0) != -1 { EmptyingKeepsPlace(t, path, now, room, was); }
      if CanonicalFile(path) {
        WriteFileKeepsTree(t, path, [], now, room, was);
      } else {
        var e := Find(t, path, 0);
        RenameNothing(t, e, Rewritten(t[e].f, [], now));
      }
    }

    /** Every `open` begins by emptying the table. */
    method CloseAll()
      requires Valid()
      modifies fileDesc
      ensures Valid() && fileDesc[0] == FileDesc(0, 0, 0, false)
    {
      hide Consistent, View, Memory.WellFormed, Tree;
      var k := 0;
      while k < MAXFD
        invariant 0 <= k <= MAXFD && forall j :: 0 <= j < k ==> fileDesc[j] == FileDesc(0, 0, 0, false)
        modifies fileDesc
      {
        fileDesc[k] := FileDesc(0, 0, 0, false);
        k := k + 1;
      }
    }

    method Install(d: FileDesc)
      requires Valid() && 0 <= d.entry < ENTCOUNT
      modifies fileDesc
      ensures Valid() && fileDesc[0] == d
    {
      hide Consistent, View, Memory.WellFormed, Tree;
      fileDesc[0] := d;
    }

    /** The entry to open, made if need be; -1 if there is none. */
    method Locate(path: seq<byte>, flags: bv32, now: Stamps) returns (index: int, created: bool)
      requires Valid() && NulFree(path) && |path| < MAX_PATHLEN && fs.Fitting(0)
      requires Has(flags, O_CREAT) ==> CanonicalFile(path) || Find(fs.Files(), path, 0) != -1
      modifies fs.raPath, fs.entryV, fs.heap.blockV, fs.heap.ram
      ensures Valid() && Spared(old(fs.Now()), fs.Now()) && NoLeak(old(fs.Now()), fs.Now())
      ensures !created ==>
                && fs.Files() == old(fs.Files())
                && old(fs.WriteOutcome(path, 0, [], now)) == fs.WriteOutcome(path, 0, [], now)
      ensures !created ==> index == if old(Find(fs.Files(), path, 0)) == 0 then -1 else old(Find(fs.Files(), path, 0))
      ensures created <==> old(Find(fs.Files(), path, 0)) == -1 && Has(flags, O_CREAT)
      ensures created ==> var o := old(fs.WriteOutcome(path, 0, [], now));
                          fs.Files() == o.files && if o.status == SUCCESS then
                            index == Find(fs.Files(), path, 0) && PlainAt(fs.Files(), index) else index == -1
      ensures created && index != -1 ==> !Barred(forceAccess, fs.Files()[index].f, flags)
    {
      hide OnlyFirst, HeaderAt, FileAt, Consistent, View, Memory.WellFormed, RunLen, Tree, Spared, NoLeak;
      hide FsSpec.WriteFile, Room, Leftover, CanonicalFile, Find, Has;
      SparedRefl(fs.Now());
      NoLeakRefl(fs.Now());
      index := fs.Index(path);
      if index == ENTRYNOTFOUND {
        if !Has(flags, O_CREAT) { return -1, false; }
        var sts := Clear(path, now);
        if sts != SUCCESS { return -1, true; }
        index := fs.Index(path);
        if index == ENTRYNOTFOUND { return -1, true; }
        return index, true;
      }
      return if 1 <= index < ENTCOUNT then index else -1, false;
    }

    /** `open`. Only descriptor 3 is ever handed out. */
    method Open(path: seq<byte>, flags: bv32, now: Stamps) returns (r: int)
      requires Valid() && NulFree(path) && |path| < MAX_PATHLEN && fs.Fitting(0)
      requires Has(flags, O_CREAT) ==> CanonicalFile(path) || Find(fs.Files(), path, 0) != -1
      modifies fileDesc, fs.raPath, fs.entryV, fs.heap.blockV, fs.heap.ram
      ensures Valid() && Spared(old(fs.Now()), fs.Now()) && NoLeak(old(fs.Now()), fs.Now())
      ensures Opened(forceAccess, old(fs.Files()), fs.Files(), old(fs.WriteOutcome(path, 0, [], now)), path, flags, r)
      ensures r == TYPEFD ==> fileDesc[0] == FileDesc(Find(fs.Files(), path, 0), flags, 0, false)
      ensures r == -1 ==> fileDesc[0] == FileDesc(0, 0, 0, false)
    {
      hide OnlyFirst, HeaderAt, FileAt, Consistent, View, Memory.WellFormed, RunLen, Tree, Spared, NoLeak;
      hide FsSpec.WriteFile, Room, Leftover, CanonicalFile, Find, Has, Barred, Clashing;
      CloseAll();
      ghost var f0 := fs.Now();
      var index, created := Locate(path, flags, now);
      if index == -1 { return -1; }
      ghost var f1 := fs.Now();
      fs.SlotFacts(index);
      var ok := Openable(index, flags);
      if !ok { return -1; }
      if Has(flags, O_EXCL) && !created { return -1; }
      if Has(flags, O_TRUNC) && !created {
        var sts := Clear(path, now);
        SparedTrans(f0, f1, fs.Now());
        NoLeakTrans(f0, f1, fs.Now());
        if sts != SUCCESS { return -1; }
      }
      if Clashing(forceAccess, flags) { return -1; }
      Install(FileDesc(index, flags, 0, false));
      return TYPEFD;
    }

    lemma PermByte(m: seq<byte>, a: nat)
      requires a + HEADER <= |m|
      ensures m[a + OFS_DEVPERM] == HeaderAt(m, a).devperm
    {
    }
  }

  /** A device that may not be opened this way. */
  predicate Barred(force: bool, f: File, flags: bv32) {
    && !force && f.h.ftype == TYPE_CHARDEV && !Has(flags, O_RDWR)
    && if Has(flags, O_RDONLY) then Has(f.h.devperm as bv32, O_WRONLY)
       else Has(flags, O_WRONLY) && Has(f.h.devperm as bv32, O_RDONLY)
  }

  /** Flags that make no sense together. */
  predicate Clashing(force: bool, flags: bv32) {
    !force && Has(flags, O_APPEND) && Has(flags, O_RDONLY) && !Has(flags, O_RDWR)
  }

  /** The possible outcomes of `open`; `o` is what emptying or making the file comes to. */
  ghost predicate Opened(force: bool, t: Files, u: Files, o: Outcome, path: seq<byte>, flags: bv32, r: int) {
    var i := Find(t, path, 0);
    if i == -1 then
      if !Has(flags, O_CREAT) then r == -1 && u == t
      else u == o.files && r == if o.status == SUCCESS && !Clashing(force, flags) then TYPEFD else -1
    else if i == 0 || t[i].f.h.kind != TYPE_FILE || Barred(force, t[i].f, flags) || Has(flags, O_EXCL) then
      r == -1 && u == t
    else if Has(flags, O_TRUNC) then u == o.files && r == if o.status == SUCCESS && !Clashing(force, flags) then
                                                            TYPEFD else -1
    else u == t && r == if !Clashing(force, flags) then TYPEFD else -1
  }

  /** What a write through a usable descriptor returns and leaves behind. */
  ghost predicate Written(t: Files, u: Files, d: FileDesc, d': FileDesc, bytes: seq<byte>, r: int, at: Date,
                          now: Stamps)
    requires 0 <= d.entry < |t| && t[d.entry].Used?
  {
    if t[d.entry].f.h.ftype == TYPE_FILE then
      if r == -1 then d' == d && Refused(t, u, d.entry, at)
      else r == |bytes| && d' == d.(ptr := d.ptr + |bytes|) && Stored(t, u, d, bytes, at, now)
    else r >= 0 && d' == d && Queued(t, u, d.entry, bytes, r, at)
  }

  /** A device file holds a sound queue. */
  ghost predicate DeviceSound(t: Files, e: int) {
    0 <= e < |t| && t[e].Used? && t[e].f.h.kind == TYPE_FILE && t[e].f.h.ftype == TYPE_CHARDEV ==> Device(t[e].f.data)
  }

  ghost predicate Rewrote(t: Files, u: Files, e: int, b: seq<byte>, now: Stamps) {
    0 <= e < |t| && t[e].Used? && |b| < RAM_SIZE && u == t[e := Used(Rewritten(t[e].f, b, now))]
  }

  /** The effect of a successful write to a regular file. */
  ghost predicate Stored(t: Files, u: Files, d: FileDesc, bytes: seq<byte>, at: Date, now: Stamps)
    requires 0 <= d.entry < |t| && t[d.entry].Used?
  {
    var f := t[d.entry].f;
    var c := Overlay(f.data, d.ptr, bytes);
    |c| < RAM_SIZE && u == t[d.entry := Used(Rewritten(Accessed(f, at), c, now))]
  }

  /** A write that is refused changes nothing but the time of access. */
  ghost predicate Refused(t: Files, u: Files, e: int, at: Date) {
    0 <= e < |t| && t[e].Used? && u == t[e := Used(Accessed(t[e].f, at))]
  }

  /** The effect of a write to a character device. */
  ghost predicate Queued(t: Files, u: Files, e: int, bytes: seq<byte>, c: nat, at: Date)
    requires 0 <= e < |t| && t[e].Used?
  {
    var f := t[e].f;
    && Device(f.data) && |u| == |t| && u[e].Used? && u == t[e := u[e]] && u[e].f.h == Accessed(f, at).h
    && Device(u[e].f.data) && |u[e].f.data| == |f.data|
    && c == |Accepted(Queue(f.data), |f.data| - 4, bytes)|
    && Queue(u[e].f.data) == Queue(f.data) + Accepted(Queue(f.data), |f.data| - 4, bytes)
  }

  /** The effect of a successful read on the table and on the descriptor. */
  ghost predicate Received(t: Files, u: Files, d: FileDesc, d': FileDesc, count: nat, out: seq<byte>, now: Date)
    requires 0 <= d.entry < |t| && t[d.entry].Used?
  {
    var f := t[d.entry].f;
    if f.h.ftype == TYPE_FILE then
      && out == Slice(f.data, d.ptr, count) && d' == d.(ptr := d.ptr + |out|)
      && u == if d.ptr >= |f.data| then t else t[d.entry := Used(Accessed(f, now))]
    else
      && Device(f.data) && out == Delivered(Queue(f.data), count) && d' == d
      && |u| == |t| && u[d.entry].Used? && u == t[d.entry := u[d.entry]]
      && u[d.entry].f.h == Accessed(f, now).h && Device(u[d.entry].f.data) && |u[d.entry].f.data| == |f.data|
      && Queue(u[d.entry].f.data) == Queue(f.data)[|out|..]
  }

  /** What arrives, byte by byte: of a regular file what lies behind the offset, of a device what is
      queued, in either case no more than was asked for and no less than there is. */
  ghost predicate Delivers(f: File, ptr: nat, count: nat, out: seq<byte>) {
    if f.h.ftype == TYPE_FILE then
      && |out| == (if |f.data| <= ptr then 0 else if count < |f.data| - ptr then count else |f.data| - ptr)
      && forall i :: 0 <= i < |out| ==> out[i] == f.data[ptr + i]
    else
      && |f.data| >= 4 && Get32(f.data, 0) <= |f.data| - 4
      && |out| == (if count < Get32(f.data, 0) then count else Get32(f.data, 0))
      && forall i :: 0 <= i < |out| ==> out[i] == f.data[4 + i]
  }

  lemma ReceivedDelivers(t: Files, u: Files, d: FileDesc, d': FileDesc, count: nat, out: seq<byte>, now: Date)
    requires 0 <= d.entry < |t| && t[d.entry].Used? && Received(t, u, d, d', count, out, now)
    ensures Delivers(t[d.entry].f, d.ptr, count, out)
  {
    hide Get32;
  }

  /** What a device takes: as many bytes as there is space for, behind those that are queued. */
  ghost predicate Enqueues(f: File, g: File, bytes: seq<byte>, c: int) {
    && |g.data| == |f.data| >= 4 && Get32(f.data, 0) <= |f.data| - 4
    && var n := Get32(f.data, 0);
    && c == (if |bytes| < |f.data| - 4 - n then |bytes| else |f.data| - 4 - n)
    && Get32(g.data, 0) == n + c
    && (forall k :: 4 <= k < 4 + n ==> g.data[k] == f.data[k])
    && forall i :: 0 <= i < c ==> g.data[4 + n + i] == bytes[i]
  }

  lemma QueuedEnqueues(t: Files, u: Files, e: int, bytes: seq<byte>, c: nat, at: Date)
    requires 0 <= e < |t| && t[e].Used? && Queued(t, u, e, bytes, c, at)
    ensures u[e].Used? && Enqueues(t[e].f, u[e].f, bytes, c)
  {
    hide Get32;
    var f, g := t[e].f.data, u[e].f.data;
    var n := Get32(f, 0);
    assert Queue(g) == Queue(f) + bytes[..c];
    forall k | 4 <= k < 4 + n ensures g[k] == f[k] {
      assert g[k] == Queue(g)[k - 4];
    }
    forall i | 0 <= i < c ensures g[4 + n + i] == bytes[i] {
      assert g[4 + n + i] == Queue(g)[n + i];
    }
  }

  /** Which flags open what: a regular file any that are not contradictory, a device besides those
      that its permissions do not forbid, and by force all. */
  lemma OpenedIff(force: bool, t: Files, u: Files, o: Outcome, path: seq<byte>, flags: bv32, r: int)
    requires Opened(force, t, u, o, path, flags, r)
    requires var i := Find(t, path, 0); i > 0 && t[i].f.h.kind == TYPE_FILE && t[i].f.h.ftype in {0, 3}
    requires flags & 16 == 0 && flags & 32 == 0
    ensures u == t && (r == 3 || r == -1)
    ensures var f, may := t[Find(t, path, 0)].f, t[Find(t, path, 0)].f.h.devperm as bv32;
            r == 3 <==>
            || force
            || flags & 4 != 0
            || ((flags & 1 == 0 || flags & 64 == 0)
                && (f.h.ftype == 0 || if flags & 1 != 0 then may & 2 == 0 else flags & 2 == 0 || may & 1 == 0))
  {
  }
}
