/** The heap behind the file system: every entry is one allocator run that starts with the header
    block, followed by the content of a file that is not mounted. */
module Store {
  import opened Bytes
  import opened Paths
  import opened FsSpec
  import opened Headers
  import opened Memory
  import opened MountMgr

  /** Allocator table, pool start, entry pointers (0 for none) and memory. */
  datatype Fs = Fs(table: Table, space: nat, ptrs: seq<nat>, mem: seq<byte>)

  predicate OwnData(h: Header) {
    h.kind == TYPE_FILE && h.ftype != TYPE_MOUNTED
  }

  function FileAt(m: seq<byte>, a: nat): File
    requires a + HEADER <= |m|
  {
    var h := HeaderAt(m, a);
    File(h, if OwnData(h) && a + HEADER + h.size <= |m| then m[a + HEADER..a + HEADER + h.size] else [])
  }

  /** The entry at `a` owns its run, its name is terminated, and its content fits. */
  ghost predicate Holds(t: Table, space: nat, m: seq<byte>, a: nat)
    requires |m| == RAM_SIZE && space + BLKSIZE * |t| <= RAM_SIZE && WellFormed(t)
  {
    && RunLen(t, space, a) > 0 && a + BLKSIZE * RunLen(t, space, a) <= |m|
    && var h := HeaderAt(m, a);
    && 0 < |h.name| < MAX_PATHLEN
    && (OwnData(h) ==> HEADER + h.size <= BLKSIZE * RunLen(t, space, a))
    && (h.kind == TYPE_FILE && h.ftype == TYPE_MOUNTED ==> h.mountslot < MOUNTLIMIT)
  }

  ghost predicate Shape(fs: Fs) {
    && WellFormed(fs.table) && |fs.table| > 0 && |fs.mem| == RAM_SIZE && fs.space > 0
    && fs.space + BLKSIZE * |fs.table| <= RAM_SIZE && |fs.ptrs| == ENTCOUNT
  }

  ghost predicate Consistent(fs: Fs) {
    && Shape(fs)
    && (forall i :: 0 <= i < ENTCOUNT && fs.ptrs[i] != 0 ==> Holds(fs.table, fs.space, fs.mem, fs.ptrs[i]))
    && (forall i, j :: 0 <= i < j < ENTCOUNT && fs.ptrs[i] != 0 ==> fs.ptrs[i] != fs.ptrs[j])
  }

  ghost function SlotAt(fs: Fs, i: nat): Slot
    requires Consistent(fs) && i < ENTCOUNT
  {
    if fs.ptrs[i] == 0 then Empty else Used(FileAt(fs.mem, fs.ptrs[i]))
  }

  /** The entry table the file system specification talks about. */
  ghost function View(fs: Fs): (t: Files)
    requires Consistent(fs)
    ensures |t| == ENTCOUNT && forall i :: 0 <= i < ENTCOUNT ==> t[i] == SlotAt(fs, i)
  {
    seq(ENTCOUNT, i requires 0 <= i < ENTCOUNT => SlotAt(fs, i))
  }

  /** The run at `q` has kept its length and its bytes. */
  ghost predicate SameRun(fs: Fs, gs: Fs, q: int) {
    && RunLen(gs.table, gs.space, q) == RunLen(fs.table, fs.space, q)
    && Same(fs.mem, gs.mem, q, q + BLKSIZE * RunLen(fs.table, fs.space, q))
  }

  /** Runs that are no entry's, and everything outside the pool, are left alone. */
  ghost predicate Spared(fs: Fs, gs: Fs) {
    && gs.space == fs.space && |gs.table| == |fs.table|
    && (forall q: int {:trigger RunLen(fs.table, fs.space, q)} ::
          RunLen(fs.table, fs.space, q) > 0 && q !in fs.ptrs ==> SameRun(fs, gs, q) && q !in gs.ptrs)
    && Same(fs.mem, gs.mem, 0, fs.space) && Same(fs.mem, gs.mem, fs.space + BLKSIZE * |fs.table|, |fs.mem|)
  }

  /** No run is left behind: what is live and no entry's was so before. */
  ghost predicate NoLeak(fs: Fs, gs: Fs) {
    forall q: int {:trigger RunLen(gs.table, gs.space, q)} ::
      RunLen(gs.table, gs.space, q) > 0 && q !in gs.ptrs ==> RunLen(fs.table, fs.space, q) > 0 && q !in fs.ptrs
  }

  /** One entry pointer changes, and with it only the two runs it points to. */
  lemma {:induction false} NoLeakAt(fs: Fs, gs: Fs, i: nat, p: nat)
    requires Shape(fs) && Shape(gs) && i < ENTCOUNT && gs.ptrs == fs.ptrs[i := p]
    requires forall q: int {:trigger RunLen(gs.table, gs.space, q)} ::
               RunLen(gs.table, gs.space, q) > 0 && q != p ==> RunLen(fs.table, fs.space, q) > 0 && q != fs.ptrs[i]
    ensures NoLeak(fs, gs)
  {
    hide RunLen, WellFormed;
    forall q: int | RunLen(gs.table, gs.space, q) > 0 && q !in gs.ptrs
      ensures RunLen(fs.table, fs.space, q) > 0 && q !in fs.ptrs {
      assert gs.ptrs[i] == p;
      assert q != p;
      assert forall j :: 0 <= j < ENTCOUNT && j != i ==> gs.ptrs[j] == fs.ptrs[j];
    }
  }

  lemma NoLeakRefl(fs: Fs)
    ensures NoLeak(fs, fs)
  {
  }

  lemma NoLeakSame(fs: Fs, gs: Fs)
    requires gs.table == fs.table && gs.space == fs.space && gs.ptrs == fs.ptrs
    ensures NoLeak(fs, gs)
  {
  }

  lemma {:induction false} NoLeakTrans(fs: Fs, gs: Fs, hs: Fs)
    requires NoLeak(fs, gs) && NoLeak(gs, hs)
    ensures NoLeak(fs, hs)
  {
    hide RunLen;
  }

  /** A scratch run that comes and goes leaves nothing behind. */
  lemma {:induction false} NoLeakScratch(fs: Fs, gs: Fs, hs: Fs, us: Fs, p: nat)
    requires WellFormed(gs.table) && WellFormed(hs.table) && gs.ptrs == fs.ptrs && gs.space == fs.space
    requires us.ptrs == hs.ptrs && us.space == hs.space
    requires FreeOf(gs.table, gs.space, p) == fs.table && RunLen(gs.table, gs.space, p) > 0
    requires NoLeak(gs, hs) && us.table == FreeOf(hs.table, hs.space, p) && RunLen(hs.table, hs.space, p) > 0
    ensures NoLeak(fs, us)
  {
    FreeRun(gs.table, gs.space, p);
    FreeRun(hs.table, hs.space, p);
    hide RunLen, FreeOf, WellFormed;
    forall q: int | RunLen(us.table, us.space, q) > 0 && q !in us.ptrs
      ensures RunLen(fs.table, fs.space, q) > 0 && q !in fs.ptrs {
      assert q != p && RunLen(hs.table, hs.space, q) > 0;
      assert RunLen(gs.table, gs.space, q) > 0;
    }
  }

  lemma {:induction false} FreeRun(t: Table, space: nat, p: nat)
    requires WellFormed(t) && RunLen(t, space, p) > 0
    ensures var r := FreeOf(t, space, p);
            && WellFormed(r) && RunLen(r, space, p) == 0
            && forall q: int {:trigger RunLen(r, space, q)} :: q != p ==> RunLen(r, space, q) == RunLen(t, space, q)
  {
    FreeExact(t, space, p);
  }

  lemma FileKept(fs: Fs, gs: Fs, a: nat)
    requires Shape(fs) && Shape(gs) && gs.space == fs.space && Holds(fs.table, fs.space, fs.mem, a)
    requires SameRun(fs, gs, a)
    ensures Holds(gs.table, gs.space, gs.mem, a) && FileAt(gs.mem, a) == FileAt(fs.mem, a)
  {
    hide HeaderAt, WellFormed, RunLen;
    assert gs.mem[a..a + HEADER] == fs.mem[a..a + HEADER];
    HeaderMoved(fs.mem, a, gs.mem, a);
    var h := HeaderAt(fs.mem, a);
    if OwnData(h) {
      assert gs.mem[a + HEADER..a + HEADER + h.size] == fs.mem[a + HEADER..a + HEADER + h.size];
    }
  }

  /** One entry pointer changes, the other entries' runs do not: one slot of the view changes. */
  lemma Replace(fs: Fs, gs: Fs, i: nat, p: nat)
    requires Consistent(fs) && Shape(gs) && gs.space == fs.space && i < ENTCOUNT && gs.ptrs == fs.ptrs[i := p]
    requires forall j :: 0 <= j < ENTCOUNT && j != i && fs.ptrs[j] != 0 ==>
                           SameRun(fs, gs, fs.ptrs[j]) && fs.ptrs[j] != p
    requires p != 0 ==> Holds(gs.table, gs.space, gs.mem, p)
    ensures Consistent(gs)
    ensures View(gs) == View(fs)[i := if p == 0 then Empty else Used(FileAt(gs.mem, p))]
  {
    hide HeaderAt, WellFormed, RunLen, SameRun, FileAt;
    forall j | 0 <= j < ENTCOUNT && j != i && fs.ptrs[j] != 0
      ensures Holds(gs.table, gs.space, gs.mem, gs.ptrs[j]) && FileAt(gs.mem, gs.ptrs[j]) == FileAt(fs.mem, fs.ptrs[j])
    {
      FileKept(fs, gs, fs.ptrs[j]);
    }
    assert forall j :: 0 <= j < ENTCOUNT && j != i ==> SlotAt(gs, j) == SlotAt(fs, j);
  }

  /** Memory that changed only inside a freshly allocated run leaves every older run alone. */
  lemma FreshRunOnly(fs: Fs, gs: Fs, size: word)
    requires Shape(fs) && Sane(size) && Blocks(size) <= |fs.table| && |gs.mem| == |fs.mem| && gs.space == fs.space
    requires var a := MallocOf(fs.table, fs.space, size);
             a.ptr != 0 && gs.table == a.table && Same(fs.mem, gs.mem, 0, a.ptr) &&
             Same(fs.mem, gs.mem, a.ptr + BLKSIZE * Blocks(size), |fs.mem|)
    ensures forall q: int {:trigger RunLen(fs.table, fs.space, q)} :: RunLen(fs.table, fs.space, q) > 0 ==>
                                                                        && SameRun(fs, gs, q)
                                                                        && q != MallocOf(fs.table, fs.space, size).ptr
    ensures var p := MallocOf(fs.table, fs.space, size).ptr;
            fs.space <= p && p + BLKSIZE * Blocks(size) <= fs.space + BLKSIZE * |fs.table|
  {
    hide MallocOf, RunLen, FreeOf, Blocks;
    var p := MallocOf(fs.table, fs.space, size).ptr;
    MallocAdds(fs.table, fs.space, size);
    BlocksCeil(size);
    RunInside(gs.table, gs.space, p);
    forall q: int | RunLen(fs.table, fs.space, q) > 0 ensures SameRun(fs, gs, q) && q != p {
      assert q != p && RunLen(gs.table, gs.space, q) == RunLen(fs.table, fs.space, q);
      RunsApart(gs.table, gs.space, p, q);
    }
  }

  /** Releasing the run at `a` leaves every other run alone. */
  lemma ReleaseOnly(fs: Fs, gs: Fs, a: nat)
    requires Shape(fs) && RunLen(fs.table, fs.space, a) > 0
    requires gs == fs.(table := FreeOf(fs.table, fs.space, a), ptrs := gs.ptrs)
    ensures WellFormed(gs.table) && RunLen(gs.table, gs.space, a) == 0
    ensures forall q: int {:trigger RunLen(fs.table, fs.space, q)} :: RunLen(fs.table, fs.space, q) > 0 && q != a ==>
                                                                        SameRun(fs, gs, q)
  {
    FreeExact(fs.table, fs.space, a);
    RunInside(fs.table, fs.space, a);
    hide FreeOf, RunLen;
  }

  /** Whether the allocator can serve a request, and what the fresh block would hold. */
  ghost predicate Room(fs: Fs, size: word)
    requires |fs.table| > 0 && Blocks(size) <= |fs.table|
  {
    MallocOf(fs.table, fs.space, size).ptr != 0
  }

  /** There is room exactly when some gap is large enough. */
  lemma RoomIff(fs: Fs, size: word)
    requires Consistent(fs) && size > 0 && Sane(size) && Blocks(size) <= |fs.table|
    ensures Room(fs, size) <==> exists g :: Gap(fs.table, g, Blocks(size))
  {
    hide MallocOf, Blocks, Memory.WellFormed, HeaderAt;
    ShapeOf(fs);
    MallocAdds(fs.table, fs.space, size);
  }

  ghost function Leftover(fs: Fs, size: word): Header
    requires Shape(fs) && Blocks(size) <= |fs.table|
  {
    var p := MallocOf(fs.table, fs.space, size).ptr;
    HeaderAt(fs.mem, if p + HEADER <= |fs.mem| then p else 0)
  }

  /** An entry is well housed in a run of `n` blocks. */
  ghost predicate Housed(h: Header, n: nat) {
    && 0 < |h.name| < MAX_PATHLEN && n > 0
    && (OwnData(h) ==> HEADER + h.size <= BLKSIZE * n)
    && (h.kind == TYPE_FILE && h.ftype == TYPE_MOUNTED ==> h.mountslot < MOUNTLIMIT)
  }

  /** A fresh run becomes the entry of an empty slot. */
  lemma AddEntry(fs: Fs, gs: Fs, i: nat, size: word)
    requires Consistent(fs) && i < ENTCOUNT && fs.ptrs[i] == 0 && size > 0
    requires Sane(size) && Blocks(size) <= |fs.table| && |gs.mem| == |fs.mem| && gs.space == fs.space
    requires var a := MallocOf(fs.table, fs.space, size);
             && a.ptr != 0 && gs.table == a.table && gs.ptrs == fs.ptrs[i := a.ptr]
             && Same(fs.mem, gs.mem, 0, a.ptr) && Same(fs.mem, gs.mem, a.ptr + BLKSIZE * Blocks(size), |fs.mem|)
             && a.ptr + HEADER <= |fs.mem| && Housed(HeaderAt(gs.mem, a.ptr), Blocks(size))
    ensures Consistent(gs) && View(gs) == View(fs)[i := Used(FileAt(gs.mem, gs.ptrs[i]))] && Spared(fs, gs)
    ensures NoLeak(fs, gs)
  {
    hide MallocOf, FreeOf, Blocks, HeaderAt, WellFormed, FileAt, RunLen;
    var p := gs.ptrs[i];
    MallocAdds(fs.table, fs.space, size);
    FreshRunOnly(fs, gs, size);
    RunInside(gs.table, gs.space, p);
    forall j | 0 <= j < ENTCOUNT && fs.ptrs[j] != 0 ensures SameRun(fs, gs, fs.ptrs[j]) && fs.ptrs[j] != p {
      assert RunLen(fs.table, fs.space, fs.ptrs[j]) > 0;
    }
    Replace(fs, gs, i, p);
    SparedByAdd(fs, gs, i, p);
    forall q: int | RunLen(gs.table, gs.space, q) > 0 && q != p
      ensures RunLen(fs.table, fs.space, q) > 0 && q != fs.ptrs[i] {
      RunIsPositive(gs, q);
    }
    NoLeakAt(fs, gs, i, p);
  }

  lemma SparedByAdd(fs: Fs, gs: Fs, i: nat, p: nat)
    requires Shape(fs) && |gs.mem| == |fs.mem| && gs.space == fs.space && |gs.table| == |fs.table| && i < ENTCOUNT
    requires gs.ptrs == fs.ptrs[i := p]
    requires forall q: int {:trigger RunLen(fs.table, fs.space, q)} ::
               RunLen(fs.table, fs.space, q) > 0 && q !in fs.ptrs ==> SameRun(fs, gs, q) && q != p
    requires Same(fs.mem, gs.mem, 0, fs.space) && Same(fs.mem, gs.mem, fs.space + BLKSIZE * |fs.table|, |fs.mem|)
    ensures Spared(fs, gs)
  {
    hide RunLen, SameRun;
    forall q: int | RunLen(fs.table, fs.space, q) > 0 && q !in fs.ptrs ensures q !in gs.ptrs {
      assert forall j :: 0 <= j < ENTCOUNT ==> gs.ptrs[j] == if j == i then p else fs.ptrs[j];
    }
  }

  /** An entry goes and its run is released. */
  lemma DropEntry(fs: Fs, gs: Fs, i: nat)
    requires Consistent(fs) && i < ENTCOUNT && fs.ptrs[i] != 0
    requires gs == Fs(FreeOf(fs.table, fs.space, fs.ptrs[i]), fs.space, fs.ptrs[i := 0], fs.mem)
    ensures Consistent(gs) && View(gs) == View(fs)[i := Empty] && Spared(fs, gs) && NoLeak(fs, gs)
    ensures RunLen(gs.table, gs.space, fs.ptrs[i]) == 0
  {
    hide FreeOf, HeaderAt, WellFormed, FileAt, RunLen;
    ReleaseOnly(fs, gs, fs.ptrs[i]);
    forall j | 0 <= j < ENTCOUNT && j != i && fs.ptrs[j] != 0
      ensures SameRun(fs, gs, fs.ptrs[j]) && fs.ptrs[j] != fs.ptrs[i] {
      assert fs.ptrs[j] != fs.ptrs[i];
      assert RunLen(fs.table, fs.space, fs.ptrs[j]) > 0;
    }
    Replace(fs, gs, i, 0);
    forall q: int | RunLen(fs.table, fs.space, q) > 0 && q !in fs.ptrs ensures SameRun(fs, gs, q) && q != 0 {
      assert fs.ptrs[i] in fs.ptrs;
      RunIsPositive(fs, q);
    }
    SparedByAdd(fs, gs, i, 0);
    FreeRun(fs.table, fs.space, fs.ptrs[i]);
    NoLeakAt(fs, gs, i, 0);
  }

  lemma RunIsPositive(fs: Fs, q: int)
    requires Shape(fs) && RunLen(fs.table, fs.space, q) > 0
    ensures q > 0
  {
  }

  /** What `realloc` does to the table and to memory outside the new run. */
  ghost predicate Relocated(fs: Fs, gs: Fs, i: nat, p: nat, n: word)
    requires Shape(fs) && i < ENTCOUNT && Blocks(n) <= |fs.table|
  {
    var a := MallocOf(fs.table, fs.space, n);
    && p == a.ptr != 0 && gs.space == fs.space && gs.ptrs == fs.ptrs[i := p]
    && gs.table == FreeOf(a.table, fs.space, fs.ptrs[i]) && |gs.mem| == |fs.mem|
    && Same(fs.mem, gs.mem, 0, p) && Same(fs.mem, gs.mem, p + BLKSIZE * Blocks(n), |fs.mem|)
  }

  lemma RelocateRuns(fs: Fs, gs: Fs, i: nat, p: nat, n: word)
    requires Consistent(fs) && i < ENTCOUNT && fs.ptrs[i] != 0 && n > 0 && Sane(n) && Blocks(n) <= |fs.table|
    requires Relocated(fs, gs, i, p, n)
    ensures Shape(gs) && RunLen(gs.table, gs.space, p) == Blocks(n) > 0 && p + BLKSIZE * Blocks(n) <= |fs.mem|
    ensures fs.space <= p && p + BLKSIZE * Blocks(n) <= fs.space + BLKSIZE * |fs.table|
    ensures forall q: int {:trigger RunLen(fs.table, fs.space, q)} ::
              RunLen(fs.table, fs.space, q) > 0 && q != fs.ptrs[i] ==> SameRun(fs, gs, q) && q != p
    ensures RunLen(gs.table, gs.space, fs.ptrs[i]) == 0 && NoLeak(fs, gs)
    ensures var o := fs.ptrs[i]; o + HEADER <= p || p + BLKSIZE * Blocks(n) <= o
  {
    hide MallocOf, FreeOf, Blocks, HeaderAt, RunLen;
    var o := fs.ptrs[i];
    var hs := Fs(MallocOf(fs.table, fs.space, n).table, fs.space, gs.ptrs, gs.mem);
    MallocAdds(fs.table, fs.space, n);
    BlocksCeil(n);
    FreshRunOnly(fs, hs, n);
    assert RunLen(fs.table, fs.space, o) > 0 && SameRun(fs, hs, o) && o != p;
    RunInside(hs.table, hs.space, o);
    RunsApart(hs.table, hs.space, o, p);
    ReleaseOnly(hs, gs, o);
    forall q: int | RunLen(fs.table, fs.space, q) > 0 && q != o ensures SameRun(fs, gs, q) && q != p {
      assert SameRun(fs, hs, q) && SameRun(hs, gs, q);
    }
    assert SameRun(hs, gs, p);
    FreeRun(hs.table, hs.space, o);
    forall q: int | RunLen(gs.table, gs.space, q) > 0 && q != p ensures RunLen(fs.table, fs.space, q) > 0 && q != o {
      assert RunLen(hs.table, hs.space, q) > 0;
    }
    NoLeakAt(fs, gs, i, p);
  }

  /** A relocated entry with its header kept but for size and dates, and new content: one slot of
      the view changes, and it changes as the specification says. */
  lemma MoveEntry(fs: Fs, gs: Fs, i: nat, p: nat, buf: seq<byte>, now: Stamps)
    requires Consistent(fs) && i < ENTCOUNT && fs.ptrs[i] != 0 && |buf| + HEADER < RAM_SIZE
    requires Sane(|buf| + HEADER) && Blocks(|buf| + HEADER) <= |fs.table|
    requires Relocated(fs, gs, i, p, |buf| + HEADER) && p + HEADER + |buf| <= RAM_SIZE
    requires HeaderAt(gs.mem, p) == HeaderAt(fs.mem, fs.ptrs[i]).(size := |buf|, mtime := now.m, atime := now.a)
    requires gs.mem[p + HEADER..p + HEADER + |buf|] == buf
    ensures Consistent(gs) && Spared(fs, gs) && NoLeak(fs, gs)
    ensures View(gs) == View(fs)[i := Used(Rewritten(View(fs)[i].f, buf, now))]
  {
    hide MallocOf, FreeOf, Blocks, HeaderAt, WellFormed, RunLen, NoLeak, SameRun, FileAt, Holds, Rewritten;
    RelocateRuns(fs, gs, i, p, |buf| + HEADER);
    MovedHolds(fs, gs, i, p, buf, now);
    forall j | 0 <= j < ENTCOUNT && j != i && fs.ptrs[j] != 0 ensures SameRun(fs, gs, fs.ptrs[j]) && fs.ptrs[j] != p {
      assert fs.ptrs[j] != fs.ptrs[i];
      EntryHoused(fs, j);
    }
    Replace(fs, gs, i, p);
    assert fs.ptrs[i] in fs.ptrs;
    SparedByAdd(fs, gs, i, p);
  }

  /** The relocated entry is well housed, and it is the rewritten file. */
  lemma MovedHolds(fs: Fs, gs: Fs, i: nat, p: nat, buf: seq<byte>, now: Stamps)
    requires Consistent(fs) && Shape(gs) && i < ENTCOUNT && fs.ptrs[i] != 0 && |buf| + HEADER < RAM_SIZE
    requires p + HEADER + |buf| <= RAM_SIZE
    requires Sane(|buf| + HEADER) && RunLen(gs.table, gs.space, p) == Blocks(|buf| + HEADER)
    requires p + BLKSIZE * RunLen(gs.table, gs.space, p) <= |gs.mem|
    requires HeaderAt(gs.mem, p) == HeaderAt(fs.mem, fs.ptrs[i]).(size := |buf|, mtime := now.m, atime := now.a)
    requires gs.mem[p + HEADER..p + HEADER + |buf|] == buf
    ensures Holds(gs.table, gs.space, gs.mem, p) && FileAt(gs.mem, p) == Rewritten(View(fs)[i].f, buf, now)
  {
    hide RunLen, Blocks, HeaderAt, WellFormed;
    BlocksCeil(|buf| + HEADER);
    EntryHoused(fs, i);
    assert View(fs)[i] == SlotAt(fs, i);
  }

  lemma CopiedHeader(f: seq<byte>, m: seq<byte>, o: nat, p: nat, n: nat)
    requires Copied(f, m, p, o, n) && HEADER <= n && o + HEADER <= |f| && (o + HEADER <= p || p <= o)
    ensures HeaderAt(m, p) == HeaderAt(f, o)
  {
    CopiedPrefix(f, m, p, o, n, HEADER);
    HeaderMoved(m, p, f, o);
  }

  /** A header edited in place: one slot of the view changes. */
  lemma EditEntry(fs: Fs, gs: Fs, i: nat)
    requires Consistent(fs) && i < ENTCOUNT && fs.ptrs[i] != 0 && gs == fs.(mem := gs.mem) && |gs.mem| == |fs.mem|
    requires Same(fs.mem, gs.mem, 0, fs.ptrs[i]) && Same(fs.mem, gs.mem, fs.ptrs[i] + HEADER, |fs.mem|)
    requires fs.ptrs[i] + HEADER <= |fs.mem|
    requires Housed(HeaderAt(gs.mem, fs.ptrs[i]), RunLen(fs.table, fs.space, fs.ptrs[i]))
    ensures Consistent(gs) && View(gs) == View(fs)[i := Used(FileAt(gs.mem, fs.ptrs[i]))] && Spared(fs, gs)
  {
    hide HeaderAt, WellFormed, FileAt, RunLen;
    var a := fs.ptrs[i];
    RunInside(fs.table, fs.space, a);
    forall q: int | RunLen(fs.table, fs.space, q) > 0 && q != a ensures SameRun(fs, gs, q) {
      RunsApart(fs.table, fs.space, a, q);
    }
    forall j | 0 <= j < ENTCOUNT && j != i && fs.ptrs[j] != 0 ensures SameRun(fs, gs, fs.ptrs[j]) && fs.ptrs[j] != a {
      assert fs.ptrs[j] != fs.ptrs[i];
      assert RunLen(fs.table, fs.space, fs.ptrs[j]) > 0;
    }
    assert gs.ptrs == fs.ptrs[i := a];
    Replace(fs, gs, i, a);
    assert a in fs.ptrs;
    SparedByAdd(fs, gs, i, a);
  }

  /** With only the header block changed, the content is what it was. */
  lemma DataKept(m: seq<byte>, r: seq<byte>, a: nat)
    requires |m| == |r| && a + HEADER <= |m| && Same(m, r, a + HEADER, |m|)
    requires HeaderAt(r, a).size == HeaderAt(m, a).size && OwnData(HeaderAt(r, a)) == OwnData(HeaderAt(m, a))
    ensures FileAt(r, a) == File(HeaderAt(r, a), FileAt(m, a).data)
  {
    hide HeaderAt;
    var h := HeaderAt(m, a);
    if OwnData(h) && a + HEADER + h.size <= |m| {
      assert r[a + HEADER..a + HEADER + h.size] == m[a + HEADER..a + HEADER + h.size];
    }
  }

  lemma EntryHoused(fs: Fs, i: nat)
    requires Consistent(fs) && i < ENTCOUNT && fs.ptrs[i] != 0
    ensures fs.ptrs[i] + HEADER <= |fs.mem| && RunLen(fs.table, fs.space, fs.ptrs[i]) > 0
    ensures Housed(HeaderAt(fs.mem, fs.ptrs[i]), RunLen(fs.table, fs.space, fs.ptrs[i]))
  {
  }

  /** The content of a file that is not mounted lies right behind its header. */
  lemma OwnBytes(fs: Fs, i: nat)
    requires Consistent(fs) && i < ENTCOUNT && fs.ptrs[i] != 0
    ensures var f := FileAt(fs.mem, fs.ptrs[i]);
            OwnData(f.h) ==> fs.ptrs[i] + HEADER + f.h.size <= |fs.mem| &&
                             f.data == fs.mem[fs.ptrs[i] + HEADER..fs.ptrs[i] + HEADER + f.h.size]
  {
  }

  lemma ShapeOf(fs: Fs)
    requires Consistent(fs)
    ensures Shape(fs)
  {
  }

  /** Without its entries: every run counts as somebody else's. */
  function Bare(fs: Fs): Fs {
    fs.(ptrs := [])
  }

  /** A fresh run, whatever is written in it, and a table without entries: all runs are spared. */
  lemma {:induction false} SparedFirst(fs: Fs, gs: Fs, size: word)
    requires Shape(Emptied(fs)) && Sane(size) && Blocks(size) <= |fs.table| && |gs.mem| == |fs.mem|
    requires gs.space == fs.space
    requires var a := MallocOf(fs.table, fs.space, size);
             a.ptr != 0 && gs.table == a.table && Same(fs.mem, gs.mem, 0, a.ptr) &&
             Same(fs.mem, gs.mem, a.ptr + BLKSIZE * Blocks(size), |fs.mem|)
    requires forall i :: 0 <= i < |gs.ptrs| ==> gs.ptrs[i] == 0
    ensures Spared(Bare(fs), gs)
  {
    hide MallocOf, RunLen, Blocks, WellFormed;
    var es := Emptied(fs);
    FreshRunOnly(es, gs.(ptrs := es.ptrs), size);
    MallocAdds(fs.table, fs.space, size);
    forall q: int | RunLen(fs.table, fs.space, q) > 0 ensures SameRun(Bare(fs), gs, q) && q !in gs.ptrs {
      assert SameRun(es, gs.(ptrs := es.ptrs), q);
      RunIsPositive(es, q);
    }
  }

  function Emptied(fs: Fs): Fs {
    fs.(ptrs := seq(ENTCOUNT, _ => 0))
  }

  /** The first entry, in a run that was not there at first. */
  lemma {:induction false} SparedPlaced(fs: Fs, gs: Fs, hs: Fs, p: nat)
    requires Spared(Bare(fs), gs) && Shape(gs) && RunLen(fs.table, fs.space, p) == 0
    requires RunLen(gs.table, gs.space, p) > 0
    requires hs == Fs(gs.table, gs.space, gs.ptrs[0 := p], hs.mem) && |hs.mem| == |gs.mem|
    requires forall i :: 0 <= i < ENTCOUNT ==> gs.ptrs[i] == 0
    requires Same(gs.mem, hs.mem, 0, p) && Same(gs.mem, hs.mem, p + HEADER, |gs.mem|)
    ensures Spared(Bare(fs), hs)
  {
    hide RunLen, WellFormed;
    RunInside(gs.table, gs.space, p);
    forall q: int | RunLen(fs.table, fs.space, q) > 0 ensures SameRun(Bare(fs), hs, q) && q !in hs.ptrs {
      assert SameRun(Bare(fs), gs, q) && q != p;
      RunsApart(gs.table, gs.space, q, p);
      RunIsPositive(gs, q);
    }
  }

  lemma SparedRefl(fs: Fs)
    ensures Spared(fs, fs)
  {
  }

  lemma SparedTrans(fs: Fs, gs: Fs, hs: Fs)
    requires Spared(fs, gs) && Spared(gs, hs)
    ensures Spared(fs, hs)
  {
    hide RunLen;
    forall q: int | RunLen(fs.table, fs.space, q) > 0 && q !in fs.ptrs ensures SameRun(fs, hs, q) && q !in hs.ptrs {
      assert SameRun(fs, gs, q) && q !in gs.ptrs;
      assert RunLen(gs.table, gs.space, q) > 0;
    }
  }

  /** Somebody else's allocation, filled in as they like, shows nowhere in the view. */
  lemma OtherMalloc(fs: Fs, gs: Fs, size: word)
    requires Consistent(fs) && Sane(size) && size > 0 && Blocks(size) <= |fs.table| && |gs.mem| == |fs.mem|
    requires var a := MallocOf(fs.table, fs.space, size);
             && a.ptr != 0 && gs.space == fs.space && gs.ptrs == fs.ptrs && gs.table == a.table
             && Same(fs.mem, gs.mem, 0, a.ptr) && Same(fs.mem, gs.mem, a.ptr + BLKSIZE * Blocks(size), |fs.mem|)
    ensures Consistent(gs) && View(gs) == View(fs) && Spared(fs, gs)
    ensures var p := MallocOf(fs.table, fs.space, size).ptr;
            p !in fs.ptrs && RunLen(gs.table, gs.space, p) == Blocks(size) && fs.space <= p &&
            p + BLKSIZE * Blocks(size) <= fs.space + BLKSIZE * |fs.table| && size <= BLKSIZE * Blocks(size)
  {
    hide MallocOf, FreeOf, Blocks, HeaderAt, WellFormed, FileAt, RunLen;
    var p := MallocOf(fs.table, fs.space, size).ptr;
    MallocAdds(fs.table, fs.space, size);
    BlocksCeil(size);
    FreshRunOnly(fs, gs, size);
    forall j | 0 <= j < ENTCOUNT && fs.ptrs[j] != 0 ensures SameRun(fs, gs, fs.ptrs[j]) && fs.ptrs[j] != p {
      assert RunLen(fs.table, fs.space, fs.ptrs[j]) > 0;
    }
    AllKept(fs, gs);
  }

  /** If every entry keeps its run, the view is the same. */
  lemma AllKept(fs: Fs, gs: Fs)
    requires Consistent(fs) && Shape(gs) && gs.space == fs.space && gs.ptrs == fs.ptrs
    requires forall j :: 0 <= j < ENTCOUNT && fs.ptrs[j] != 0 ==> SameRun(fs, gs, fs.ptrs[j])
    ensures Consistent(gs) && View(gs) == View(fs)
  {
    hide HeaderAt, WellFormed, RunLen, SameRun, FileAt;
    forall j | 0 <= j < ENTCOUNT && fs.ptrs[j] != 0
      ensures Holds(gs.table, gs.space, gs.mem, gs.ptrs[j]) && FileAt(gs.mem, gs.ptrs[j]) == FileAt(fs.mem, fs.ptrs[j])
    {
      FileKept(fs, gs, fs.ptrs[j]);
    }
    assert forall j :: 0 <= j < ENTCOUNT ==> SlotAt(gs, j) == SlotAt(fs, j);
  }

  /** Somebody else's run is released: the same. */
  lemma OtherFree(fs: Fs, gs: Fs, p: nat)
    requires Consistent(fs) && RunLen(fs.table, fs.space, p) > 0 && p !in fs.ptrs
    requires gs == fs.(table := FreeOf(fs.table, fs.space, p))
    ensures Consistent(gs) && View(gs) == View(fs)
  {
    hide FreeOf, HeaderAt, WellFormed, FileAt, RunLen;
    ReleaseOnly(fs, gs, p);
    forall j | 0 <= j < ENTCOUNT && fs.ptrs[j] != 0 ensures SameRun(fs, gs, fs.ptrs[j]) {
      assert fs.ptrs[j] in fs.ptrs;
      assert RunLen(fs.table, fs.space, fs.ptrs[j]) > 0;
    }
    AllKept(fs, gs);
  }

  /** No entries at all. */
  lemma EmptyConsistent(fs: Fs)
    requires Shape(fs) && forall i :: 0 <= i < ENTCOUNT ==> fs.ptrs[i] == 0
    ensures Consistent(fs) && forall i :: 0 <= i < ENTCOUNT ==> View(fs)[i] == Empty
  {
  }

  /** The content of an entry edited in place: one slot of the view changes, in its data only. */
  lemma EditContent(fs: Fs, gs: Fs, i: nat)
    requires Consistent(fs) && i < ENTCOUNT && fs.ptrs[i] != 0 && gs == fs.(mem := gs.mem) && |gs.mem| == |fs.mem|
    requires var f := View(fs)[i].f;
             && OwnData(f.h) && fs.ptrs[i] + HEADER + f.h.size <= |fs.mem|
             && Same(fs.mem, gs.mem, 0, fs.ptrs[i] + HEADER)
             && Same(fs.mem, gs.mem, fs.ptrs[i] + HEADER + f.h.size, |fs.mem|)
    ensures Consistent(gs) && Spared(fs, gs)
    ensures var f, p := View(fs)[i].f, fs.ptrs[i] + HEADER;
            View(gs) == View(fs)[i := Used(File(f.h, gs.mem[p..p + f.h.size]))]
  {
    hide WellFormed, RunLen, HeaderAt;
    var a := fs.ptrs[i];
    var h := HeaderAt(fs.mem, a);
    assert View(fs)[i] == SlotAt(fs, i);
    RunInside(fs.table, fs.space, a);
    assert gs.mem[a..a + HEADER] == fs.mem[a..a + HEADER];
    HeaderMoved(fs.mem, a, gs.mem, a);
    forall q: int | RunLen(fs.table, fs.space, q) > 0 && q != a ensures SameRun(fs, gs, q) {
      RunsApart(fs.table, fs.space, a, q);
    }
    forall j | 0 <= j < ENTCOUNT && j != i && fs.ptrs[j] != 0 ensures SameRun(fs, gs, fs.ptrs[j]) && fs.ptrs[j] != a {
      assert fs.ptrs[j] != fs.ptrs[i];
      assert RunLen(fs.table, fs.space, fs.ptrs[j]) > 0;
    }
    assert gs.ptrs == fs.ptrs[i := a];
    Replace(fs, gs, i, a);
    assert a in fs.ptrs;
    SparedByAdd(fs, gs, i, a);
  }

  /** A run that was not there at first may go again. */
  lemma SparedFree(fs: Fs, gs: Fs, hs: Fs, p: nat)
    requires Spared(fs, gs) && Shape(gs) && RunLen(fs.table, fs.space, p) == 0 && RunLen(gs.table, gs.space, p) > 0
    requires hs == gs.(table := FreeOf(gs.table, gs.space, p))
    ensures Spared(fs, hs)
  {
    hide RunLen, FreeOf, WellFormed;
    ReleaseOnly(gs, hs, p);
    forall q: int | RunLen(fs.table, fs.space, q) > 0 && q !in fs.ptrs ensures SameRun(fs, hs, q) && q !in hs.ptrs {
      assert SameRun(fs, gs, q) && q != p;
      assert RunLen(gs.table, gs.space, q) > 0;
    }
  }

  lemma SparedKeeps(fs: Fs, gs: Fs, q: int)
    requires Spared(fs, gs) && RunLen(fs.table, fs.space, q) > 0 && q !in fs.ptrs
    ensures SameRun(fs, gs, q) && q !in gs.ptrs && RunLen(gs.table, gs.space, q) > 0
  {
  }

  /** Bytes written inside a run that is no entry's. */
  lemma {:induction false} ScratchWrite(f: Fs, g: Fs, h: Fs, p: nat, n: nat)
    requires Consistent(g) && Spared(f, g) && RunLen(f.table, f.space, p) == 0 && RunLen(g.table, g.space, p) > 0
    requires p !in g.ptrs
    requires h == g.(mem := h.mem) && |h.mem| == |g.mem| && n <= BLKSIZE * RunLen(g.table, g.space, p)
    requires Same(g.mem, h.mem, 0, p) && Same(g.mem, h.mem, p + n, |g.mem|)
    ensures Consistent(h) && View(h) == View(g) && Spared(f, h)
  {
    hide RunLen, WellFormed, HeaderAt;
    ShapeOf(g);
    RunInside(g.table, g.space, p);
    forall q: int | RunLen(g.table, g.space, q) > 0 && q != p ensures SameRun(g, h, q) {
      RunsApart(g.table, g.space, p, q);
    }
    forall j | 0 <= j < ENTCOUNT && g.ptrs[j] != 0 ensures SameRun(g, h, g.ptrs[j]) {
      assert g.ptrs[j] in g.ptrs;
      EntryHoused(g, j);
    }
    AllKept(g, h);
    forall q: int | RunLen(f.table, f.space, q) > 0 && q !in f.ptrs ensures SameRun(f, h, q) && q !in h.ptrs {
      assert SameRun(f, g, q) && q != p;
      assert RunLen(g.table, g.space, q) > 0;
    }
  }

  /** The content of an entry does not overlap a run that is not its own. */
  lemma OwnRunApart(fs: Fs, gs: Fs, i: nat, p: nat, size: word)
    requires Consistent(fs) && Consistent(gs) && i < ENTCOUNT && fs.ptrs[i] != 0 && gs.ptrs == fs.ptrs
    requires gs.mem == fs.mem && gs.space == fs.space
    requires RunLen(gs.table, gs.space, p) > 0 && p !in gs.ptrs && size <= BLKSIZE * RunLen(gs.table, gs.space, p)
    ensures var f, a := FileAt(fs.mem, fs.ptrs[i]), fs.ptrs[i];
            OwnData(f.h) ==> a + HEADER + f.h.size <= p || p + size <= a + HEADER
  {
    assert fs.ptrs[i] in gs.ptrs;
    RunsApart(gs.table, gs.space, fs.ptrs[i], p);
  }
}
