/** The core file system over the heap, operation by operation. */
module CoreFs {
  import opened Bytes
  import opened Paths
  import opened FsSpec
  import opened Headers
  import opened Memory
  import opened MountMgr
  import opened Store

  /** A caller's buffer: the null pointer, or the bytes it points to. */
  datatype Buffer = Null | Data(bytes: seq<byte>)

  function Content(buf: Buffer): seq<byte> {
    if buf.Null? then [] else buf.bytes
  }

  function Accessed(f: File, at: Date): File {
    File(f.h.(atime := at), f.data)
  }

  class CoreFs {
    const heap: Heap
    const mounts: MountMgr
    var initLock: bool
    var entryV: array<nat>
    var raDirent: array<int>
    var raPath: array<byte>

    constructor (heap: Heap, mounts: MountMgr)
      requires heap.Valid() && mounts.Valid()
      ensures this.heap == heap && this.mounts == mounts && !initLock && Valid()
      ensures fresh(entryV) && fresh(raDirent) && fresh(raPath)
    {
      this.heap, this.mounts, initLock := heap, mounts, false;
      entryV := new nat[0];
      raDirent := new int[0];
      raPath := new byte[0];
    }

    /** The entry table, the directory listing and the path buffer are arrays of their own; the
        allocator runs that back them are never released. */
    ghost predicate Valid()
      reads this, heap, heap.blockV, heap.ram, entryV, mounts
    {
      && heap.Valid() && mounts.Valid() && raPath != heap.ram && entryV != mounts.mountV
      && (initLock ==>
            && heap.Good() && entryV.Length == ENTCOUNT && raDirent.Length == ENTCOUNT && raPath.Length == BLKSIZE
            && Consistent(Now()))
    }

    ghost function Now(): Fs
      reads this, heap, heap.blockV, heap.ram, entryV
    {
      Fs(heap.Table(), heap.space, entryV[..], heap.ram[..])
    }

    ghost function Files(): Files
      requires Valid() && initLock
      reads this, heap, heap.blockV, heap.ram, entryV, mounts
    {
      View(Now())
    }

    /** `corefs_init`. The second result stands for the panic when memory runs out. */
    method Init(now: Stamps) returns (sts: int, panic: bool)
      requires Valid() && heap.Good() && 16 <= heap.blockC
      modifies this, heap.blockV, heap.ram
      ensures old(initLock) ==>
                sts == FAILURE && !panic && unchanged(this) && unchanged(heap.blockV) && unchanged(heap.ram)
      ensures !old(initLock) && !panic ==>
                sts == SUCCESS && initLock && Valid() && OnlyRoot(Files(), now) && Tree(Files())
      ensures !old(initLock) && panic ==> !initLock
      ensures !old(initLock) ==> (panic <==> !old(Bootable()))
      ensures !old(initLock) && !panic ==> fresh(entryV) && fresh(raPath) && fresh(raDirent)
      ensures !old(initLock) && !panic ==> Spared(Bare(old(Now())), Now()) && heap.Table() == old(AfterBoot())
    {
      hide HeaderAt, Consistent, View, FreeOf, MallocOf, WellFormed, RunLen, FileAt, Tree, OnlyRoot, Serves, Spared;
      hide AllServed;
      if initLock { return FAILURE, false; }
      ghost var f0 := Now();
      var root := Acquire();
      if root == 0 { return FAILURE, true; }
      ghost var f2 := Now();
      raDirent := new int[ENTCOUNT](_ => 0);
      raPath := new byte[BLKSIZE](_ => 0);
      PlaceRoot(root, now);
      SparedPlaced(f0, f2, Now(), root);
      initLock := true;
      return SUCCESS, false;
    }

    /** All the memory: the entry table, the root's block, the listing and the path buffer. */
    method Acquire() returns (root: nat)
      requires Valid() && heap.Good() && 16 <= heap.blockC
      modifies this`entryV, heap.blockV, heap.ram
      ensures heap.Good() && (root == 0 <==> !old(Bootable()))
      ensures root != 0 ==> heap.Table() == old(AfterBoot()) && fresh(entryV)
      ensures root != 0 ==>
                entryV.Length == ENTCOUNT && Shape(Now()) && Consistent(Now())
                && forall i :: 0 <= i < ENTCOUNT ==> entryV[i] == 0
      ensures root != 0 ==> Spared(Bare(old(Now())), Now()) && RunLen(old(heap.Table()), heap.space, root) == 0
      ensures root != 0 ==> RunLen(heap.Table(), heap.space, root) > 0 && root + HEADER <= RAM_SIZE
    {
      hide HeaderAt, Consistent, View, FreeOf, MallocOf, WellFormed, RunLen, FileAt, Serves, Spared, AllServed;
      ghost var f0 := Now();
      RequestsFit(heap.blockC);
      ServesNext(heap.Table(), heap.space, ENTCOUNT * 4, Requests()[1..]);
      var table := InitTable();
      if table == 0 { return 0; }
      ghost var f1 := Now();
      root := ReserveBuffers();
      if root == 0 { return 0; }
      SparedTrans(Bare(f0), f1, Now());
      FreshSince(f0, f1, root);
      ShapeOf(Now());
    }

    /** The table when all of that has been served. */
    ghost function AfterBoot(): Table
      requires heap.Good() && 16 <= heap.blockC
      reads heap, heap.blockV
    {
      RequestsFit(heap.blockC);
      AllServed(heap.Table(), heap.space, Requests())
    }

    lemma FreshSince(f0: Fs, f1: Fs, p: int)
      requires Spared(Bare(f0), f1) && RunLen(f1.table, f1.space, p) == 0
      ensures RunLen(f0.table, f0.space, p) == 0
    {
      assert RunLen(f0.table, f0.space, p) > 0 ==> SameRun(Bare(f0), f1, p);
    }

    /** There is memory for everything the initialisation asks for. */
    ghost predicate Bootable()
      requires heap.Good() && 16 <= heap.blockC
      reads heap, heap.blockV
    {
      RequestsFit(heap.blockC);
      Serves(heap.Table(), heap.space, Requests())
    }

    method PlaceRoot(root: nat, now: Stamps)
      requires heap.Good() && entryV.Length == ENTCOUNT && Consistent(Now())
      requires forall i :: 0 <= i < ENTCOUNT ==> entryV[i] == 0
      requires RunLen(heap.Table(), heap.space, root) > 0 && root + HEADER <= RAM_SIZE && root != 0
      modifies entryV, heap.ram
      ensures Consistent(Now()) && OnlyRoot(View(Now()), now) && Tree(View(Now()))
      ensures entryV[..] == old(entryV[..])[0 := root]
      ensures Same(old(heap.ram[..]), heap.ram[..], 0, root)
      ensures Same(old(heap.ram[..]), heap.ram[..], root + HEADER, RAM_SIZE)
    {
      hide HeaderAt, Consistent, View, FreeOf, WellFormed, RunLen, FileAt, Tree, OnlyRoot;
      ghost var fs := Now();
      FillDir(root, [SLASH], now);
      entryV[0] := root;
      HouseRoot(fs, Now(), root, now);
    }

    /** The cleared entry table; 0 when memory runs out. */
    method InitTable() returns (table: nat)
      requires Valid() && heap.Good() && 16 <= heap.blockC
      modifies this`entryV, heap.blockV, heap.ram
      ensures heap.Good() && heap.blockC == old(heap.blockC)
      ensures Alloc(table, heap.Table()) == MallocOf(old(heap.Table()), heap.space, ENTCOUNT * 4)
      ensures table != 0 ==>
                fresh(entryV) && entryV.Length == ENTCOUNT && Consistent(Now())
                && forall i :: 0 <= i < ENTCOUNT ==> entryV[i] == 0
      ensures table != 0 ==> Spared(Bare(old(Now())), Now())
    {
      hide HeaderAt, View, FreeOf, MallocOf, WellFormed, RunLen, FileAt;
      ghost var f0 := Now();
      MallocAdds(heap.Table(), heap.space, ENTCOUNT * 4);
      table := heap.Calloc(ENTCOUNT, 4);
      if table != 0 {
        entryV := new nat[ENTCOUNT](_ => 0);
        EmptyConsistent(Now());
        SparedFirst(f0, Now(), ENTCOUNT * 4);
      }
    }

    /** The root's block, the listing and the path buffer; 0 when memory runs out. */
    method ReserveBuffers() returns (root: nat)
      requires heap.Good() && entryV.Length == ENTCOUNT && Consistent(Now()) && 16 <= heap.blockC
      modifies heap.blockV
      ensures heap.Good() && Consistent(Now())
      ensures root != 0 ==> RunLen(heap.Table(), heap.space, root) > 0 && root + HEADER <= RAM_SIZE
      ensures root != 0 <==> old(Reservable())
      ensures root != 0 ==>
                Spared(old(Now()), Now()) && RunLen(old(heap.Table()), heap.space, root) == 0 && root !in entryV[..]
      ensures root != 0 ==> heap.Table() == old(AfterReserve())
    {
      hide HeaderAt, Consistent, View, FreeOf, MallocOf, WellFormed, RunLen, FileAt, Serves, Spared, AllServed;
      ghost var f0 := Now();
      MallocAdds(f0.table, f0.space, 3888);
      RequestsFit(heap.blockC);
      NoRequests(heap.Table(), heap.space);
      ServesNext(heap.Table(), heap.space, 3888, Requests()[2..]);
      root := Reserve(3888);
      if root == 0 { return 0; }
      ghost var f1 := Now();
      ServesNext(heap.Table(), heap.space, ENTCOUNT * 4, Requests()[3..]);
      var listing := Reserve(ENTCOUNT * 4);
      if listing == 0 { return 0; }
      ghost var f2 := Now();
      ServesNext(heap.Table(), heap.space, MAX_PATHLEN, []);
      NoRequests(MallocOf(heap.Table(), heap.space, MAX_PATHLEN).table, heap.space);
      var buffer := Reserve(MAX_PATHLEN);
      if buffer == 0 { return 0; }
      SparedKeeps(f1, f2, root);
      SparedKeeps(f2, Now(), root);
      SparedTrans(f0, f1, f2);
      SparedTrans(f0, f2, Now());
    }

    ghost function AfterReserve(): Table
      requires heap.Good() && 16 <= heap.blockC
      reads heap, heap.blockV
    {
      RequestsFit(heap.blockC);
      AllServed(heap.Table(), heap.space, Requests()[1..])
    }

    ghost predicate Reservable()
      requires heap.Good() && 16 <= heap.blockC
      reads heap, heap.blockV
    {
      RequestsFit(heap.blockC);
      Serves(heap.Table(), heap.space, Requests()[1..])
    }

    /** An allocation that is none of the entries. */
    method Reserve(size: word) returns (p: nat)
      requires heap.Good() && entryV.Length == ENTCOUNT && Consistent(Now()) && Sane(size) && size > 0
      requires Blocks(size) <= heap.blockC
      modifies heap.blockV
      ensures heap.Good() && Consistent(Now()) && View(Now()) == old(View(Now()))
      ensures Alloc(p, heap.Table()) == MallocOf(old(heap.Table()), heap.space, size)
      ensures p != 0 ==>
                Spared(old(Now()), Now()) && p !in entryV[..] && RunLen(heap.Table(), heap.space, p) == Blocks(size)
      ensures p != 0 ==> heap.space <= p && p + BLKSIZE * Blocks(size) <= heap.limit && size <= BLKSIZE * Blocks(size)
    {
      hide HeaderAt, Consistent, View, FreeOf, MallocOf, WellFormed, RunLen, FileAt, Blocks;
      ghost var fs := Now();
      MallocAdds(heap.Table(), heap.space, size);
      p := heap.Malloc(size);
      if p != 0 { OtherMalloc(fs, Now(), size); }
    }

    lemma HouseRoot(fs: Fs, gs: Fs, root: nat, now: Stamps)
      requires Consistent(fs) && (forall i :: 0 <= i < ENTCOUNT ==> fs.ptrs[i] == 0)
      requires RunLen(fs.table, fs.space, root) > 0
      requires gs == Fs(fs.table, fs.space, fs.ptrs[0 := root], gs.mem) && |gs.mem| == |fs.mem|
      requires root + HEADER <= RAM_SIZE && root != 0
      requires HeaderAt(gs.mem, root) == NewDir([SLASH], HeaderAt(fs.mem, root), now).h
      ensures Consistent(gs) && OnlyRoot(View(gs), now) && Tree(View(gs))
    {
      hide HeaderAt, FileAt, WellFormed, RunLen, HasDir;
      RunInside(fs.table, fs.space, root);
      NoData(gs.mem, root);
      Replace(fs, gs, 0, root);
    }

    // ----- Scans over the entry table -----

    lemma NameBytes(m: seq<byte>, a: nat)
      requires a + HEADER <= |m| && |HeaderAt(m, a).name| < MAX_PATHLEN
      ensures var name := HeaderAt(m, a).name;
              (forall i :: a <= i < a + |name| ==> m[i] == name[i - a] != 0) && m[a + |name|] == 0 && NulFree(name)
    {
      var x := m[a..a + MAX_PATHLEN];
      assert forall i :: a <= i < a + MAX_PATHLEN ==> m[i] == x[i - a];
    }

    /** Whether the entry has this name. */
    method NameIs(a: nat, path: seq<byte>) returns (b: bool)
      requires NulFree(path) && a + HEADER <= heap.ram.Length
      requires |HeaderAt(heap.ram[..], a).name| < MAX_PATHLEN
      ensures b <==> HeaderAt(heap.ram[..], a).name == path
    {
      hide HeaderAt;
      ghost var name := HeaderAt(heap.ram[..], a).name;
      NameBytes(heap.ram[..], a);
      assert forall k :: a <= k <= a + |name| ==> heap.ram[k] == heap.ram[..][k];
      var i := Agree(a, path, name);
      b := heap.ram[a + i] == if i < |path| then path[i] else 0;
      SameOrNot(name, path, i);
    }

    /** Length of the longest common start of a string in memory and another. */
    method Agree(a: nat, path: seq<byte>, ghost name: seq<byte>) returns (i: nat)
      requires a + |name| < heap.ram.Length && heap.ram[a + |name|] == 0
      requires forall k :: a <= k < a + |name| ==> heap.ram[k] == name[k - a] != 0
      ensures i <= |name| && i <= |path| && name[..i] == path[..i]
      ensures i == |name| || heap.ram[a + i] != if i < |path| then path[i] else 0
    {
      i := 0;
      while heap.ram[a + i] != 0 && heap.ram[a + i] == (if i < |path| then path[i] else 0)
        invariant 0 <= i <= |name| && i <= |path| && forall k :: 0 <= k < i ==> name[k] == path[k]
        decreases |name| - i
      {
        assert heap.ram[a + i] == name[i];
        i := i + 1;
      }
      assert i < |name| ==> heap.ram[a + i] == name[i];
    }

    /** Two strings that agree on their first `i` bytes are the same if both end there, and are not if
        they go on differently. */
    lemma SameOrNot(s: seq<byte>, t: seq<byte>, i: nat)
      requires NulFree(s) && NulFree(t) && i <= |s| && i <= |t| && s[..i] == t[..i]
      ensures var x, y := if i < |s| then s[i] else 0, if i < |t| then t[i] else 0;
              (x != y ==> s != t) && (x == y && i == |s| ==> s == t)
    {
      assert i == |s| ==> s[..i] == s;
      assert i == |t| ==> t[..i] == t;
    }

    /** `ncompare(ent->name, p, length(p)) == 0`, which never gets past the end of the name. */
    method NameBegins(a: nat, p: seq<byte>) returns (b: bool)
      requires NulFree(p) && a + HEADER <= heap.ram.Length
      requires |HeaderAt(heap.ram[..], a).name| < MAX_PATHLEN
      ensures b <==> p <= HeaderAt(heap.ram[..], a).name
    {
      ghost var name := HeaderAt(heap.ram[..], a).name;
      NameBytes(heap.ram[..], a);
      hide HeaderAt;
      var i := 0;
      while i < |p|
        invariant 0 <= i <= |name| && i <= |p| && forall k :: 0 <= k < i ==> name[k] == p[k]
      {
        if heap.ram[a + i] != p[i] { return false; }
        i := i + 1;
      }
      return true;
    }

    method NameLength(a: nat) returns (n: nat)
      requires a + HEADER <= heap.ram.Length && |HeaderAt(heap.ram[..], a).name| < MAX_PATHLEN
      ensures n == |HeaderAt(heap.ram[..], a).name|
    {
      ghost var name := HeaderAt(heap.ram[..], a).name;
      NameBytes(heap.ram[..], a);
      hide HeaderAt;
      n := 0;
      while heap.ram[a + n] != 0
        invariant 0 <= n <= |name|
        decreases |name| - n
      {
        n := n + 1;
      }
    }

    /** What the scans know of a slot that is in use. */
    lemma SlotFacts(i: nat)
      requires Valid() && initLock && i < ENTCOUNT
      ensures Files()[i] == if entryV[i] == 0 then Empty else Used(FileAt(heap.ram[..], entryV[i]))
      ensures entryV[i] != 0 ==>
                && entryV[i] + HEADER <= heap.ram.Length
                && Files()[i].f.h == HeaderAt(heap.ram[..], entryV[i])
                && 0 < |Files()[i].f.h.name| < MAX_PATHLEN && heap.ram[entryV[i]] == Files()[i].f.h.name[0] != 0
                && heap.ram[entryV[i] + OFS_KIND] == Files()[i].f.h.kind
                && heap.ram[entryV[i] + OFS_FTYPE] == Files()[i].f.h.ftype
    {
      assert Files()[i] == SlotAt(Now(), i);
    }

    /** The scan that `fs_index`, `fs_stat`, `fs_readFile`, `fs_remove` and others repeat. */
    method FindEntry(path: seq<byte>) returns (r: int)
      requires Valid() && initLock && NulFree(path)
      ensures r == Find(Files(), path, 0)
    {
      hide HeaderAt, Consistent, FileAt, View;
      var i := 0;
      while i < ENTCOUNT
        invariant 0 <= i <= ENTCOUNT && Find(Files(), path, 0) == Find(Files(), path, i)
      {
        SlotFacts(i);
        if entryV[i] != 0 && heap.ram[entryV[i]] != 0 {
          var same := NameIs(entryV[i], path);
          if same { return i; }
        }
        i := i + 1;
      }
      return -1;
    }

    method FreeEntry() returns (r: int)
      requires Valid() && initLock
      ensures r == FreeIndex(Files(), 0)
    {
      hide HeaderAt, Consistent, FileAt, View;
      var i := 0;
      while i < ENTCOUNT
        invariant 0 <= i <= ENTCOUNT && FreeIndex(Files(), 0) == FreeIndex(Files(), i)
      {
        SlotFacts(i);
        if entryV[i] == 0 { return i; }
        i := i + 1;
      }
      return -1;
    }

    method AnyFileWithPrefix(p: seq<byte>) returns (b: bool)
      requires Valid() && initLock && NulFree(p)
      ensures b <==> HasFileWithPrefix(Files(), p)
    {
      hide HeaderAt, Consistent, FileAt, View;
      var i := 0;
      while i < ENTCOUNT
        invariant 0 <= i <= ENTCOUNT && forall k :: 0 <= k < i ==> !FileWithPrefix(Files(), k, p)
      {
        SlotFacts(i);
        if entryV[i] != 0 && heap.ram[entryV[i]] != 0 {
          var begins := NameBegins(entryV[i], p);
          if begins && heap.ram[entryV[i] + OFS_KIND] == TYPE_FILE {
            assert FileWithPrefix(Files(), i, p);
            return true;
          }
        }
        i := i + 1;
      }
      return false;
    }

    method AnyDir(path: seq<byte>) returns (b: bool)
      requires Valid() && initLock && NulFree(path)
      ensures b <==> HasDir(Files(), path)
    {
      hide HeaderAt, Consistent, FileAt, View;
      var i := 0;
      while i < ENTCOUNT
        invariant 0 <= i <= ENTCOUNT && forall k :: 0 <= k < i ==> !LiveDir(Files(), k, path)
      {
        SlotFacts(i);
        if entryV[i] != 0 && heap.ram[entryV[i]] != 0 {
          var same := NameIs(entryV[i], path);
          if same && heap.ram[entryV[i] + OFS_KIND] == TYPE_DIR {
            assert LiveDir(Files(), i, path);
            return true;
          }
        }
        i := i + 1;
      }
      return false;
    }

    method AnyDirTwin(path: seq<byte>) returns (b: bool)
      requires Valid() && initLock && NulFree(path)
      ensures b <==> exists j :: DirTwin(Files(), j, path)
    {
      hide HeaderAt, Consistent, FileAt, View;
      var i := 0;
      while i < ENTCOUNT
        invariant 0 <= i <= ENTCOUNT && forall k :: 0 <= k < i ==> !DirTwin(Files(), k, path)
      {
        SlotFacts(i);
        if entryV[i] != 0 && heap.ram[entryV[i]] != 0 && heap.ram[entryV[i] + OFS_KIND] == TYPE_DIR {
          ghost var name := Files()[i].f.h.name;
          var n := NameLength(entryV[i]);
          LastByte(heap.ram[..], entryV[i]);
          if n > 0 && heap.ram[entryV[i] + n - 1] == SLASH && |path| + 1 == n {
            var begins := NameBegins(entryV[i], path);
            if begins {
              assert name == path + [SLASH];
              assert DirTwin(Files(), i, path);
              return true;
            }
          }
        }
        i := i + 1;
      }
      return false;
    }

    lemma LastByte(m: seq<byte>, a: nat)
      requires a + HEADER <= |m| && 0 < |HeaderAt(m, a).name|
      ensures var n := |HeaderAt(m, a).name|; m[a + n - 1] == HeaderAt(m, a).name[n - 1]
    {
    }

    // ----- The ancestor check -----

    /** A component goes into the path buffer. */
    method CopyRow(tok: array2<byte>, r: nat, at: nat, ghost t: seq<byte>) returns (end: nat)
      requires RowIs(tok, r, t) && NulFree(t) && at + |t| < raPath.Length
      modifies raPath
      ensures end == at + |t| && raPath[..end] == old(raPath[..at]) + t && raPath[end] == 0
    {
      var i := 0;
      while tok[r, i] != 0
        invariant 0 <= i <= |t|
        invariant raPath[..at + i] == old(raPath[..at]) + t[..i]
        decreases |t| - i
      {
        raPath[at + i] := tok[r, i];
        i := i + 1;
      }
      raPath[at + i] := 0;
      end := at + i;
    }

    /** The nested loops that rebuild every ancestor in `fs_RAPath` and look it up. */
    method CheckParents(path: seq<byte>) returns (ok: bool)
      requires Valid() && initLock && NulFree(path)
      modifies raPath
      ensures ok <==> ParentsLive(Files(), path)
    {
      hide HeaderAt, Consistent, FileAt, View, SplitOn, HasDir, RowIs, DirPath;
      var tok := new byte[TOKCOUNT, TOKLEN];
      var count := SplitInto(tok, path, SLASH);
      ghost var toks := Split(path, SLASH);
      Pieces(path);
      var i := 0;
      while i < count - 1
        invariant 0 <= i && (i < count || i == count == 0)
        invariant forall k :: 0 < k <= i ==> HasDir(Files(), DirPath(toks[..k]))
        invariant forall r :: 0 <= r < count ==> RowIs(tok, r, toks[r])
      {
        var bufptr := Rebuild(tok, i, toks);
        PieceLengths(toks[..i + 1]);
        var found := AnyDir(raPath[..bufptr]);
        if !found { return false; }
        i := i + 1;
      }
      return true;
    }

    /** One pass of the inner loop: the first `i + 1` tokens, each followed by a slash. */
    method Rebuild(tok: array2<byte>, i: nat, ghost toks: seq<seq<byte>>) returns (bufptr: nat)
      requires raPath.Length == BLKSIZE && i < |toks| <= TOKCOUNT
      requires forall r :: 0 <= r < |toks| ==> RowIs(tok, r, toks[r])
      requires forall r :: 0 <= r < |toks| ==> NulFree(toks[r]) && |toks[r]| < TOKLEN
      modifies raPath
      ensures bufptr < BLKSIZE && raPath[..bufptr] == DirPath(toks[..i + 1])
    {
      hide RowIs, DirPath, NulFree;
      Fill(raPath, 0, 0, MAX_PATHLEN + 1);
      raPath[0] := SLASH;
      bufptr := 1;
      DirNone(toks);
      var j := 0;
      while j <= i
        invariant 0 <= j <= i + 1
        invariant 1 <= bufptr <= 1 + TOKLEN * j && raPath[..bufptr] == DirPath(toks[..j])
        invariant forall r :: 0 <= r < |toks| ==> RowIs(tok, r, toks[r])
      {
        bufptr := Piece(tok, j, bufptr, toks[j]);
        DirSnoc(toks, j);
        j := j + 1;
      }
    }

    /** One more token and a slash. */
    method Piece(tok: array2<byte>, j: nat, at: nat, ghost t: seq<byte>) returns (end: nat)
      requires RowIs(tok, j, t) && NulFree(t) && |t| < TOKLEN && at + |t| + 1 < raPath.Length
      modifies raPath
      ensures end == at + |t| + 1 && raPath[..end] == old(raPath[..at]) + t + [SLASH]
    {
      end := CopyRow(tok, j, at, t);
      raPath[end] := SLASH;
      end := end + 1;
      assert raPath[..end] == raPath[..end - 1] + [SLASH];
    }

    lemma DirNone(cs: seq<seq<byte>>)
      ensures DirPath(cs[..0]) == [SLASH]
    {
    }

    lemma DirSnoc(cs: seq<seq<byte>>, j: nat)
      requires j < |cs|
      ensures DirPath(cs[..j + 1]) == DirPath(cs[..j]) + cs[j] + [SLASH]
    {
      assert cs[..j + 1][..j] == cs[..j];
    }

    lemma Pieces(path: seq<byte>)
      requires NulFree(path)
      ensures forall r :: 0 <= r < |Split(path, SLASH)| ==>
                            NulFree(Split(path, SLASH)[r]) && 0 < |Split(path, SLASH)[r]| < TOKLEN
    {
      SplitNulFree(path, SLASH, [], []);
    }

    lemma {:induction false} SplitNulFree(s: seq<byte>, deli: byte, toks: seq<seq<byte>>, cur: seq<byte>)
      requires |toks| < TOKCOUNT && |cur| < TOKLEN && NulFree(s) && NulFree(cur)
      requires forall r :: 0 <= r < |toks| ==> NulFree(toks[r])
      ensures forall r :: 0 <= r < |SplitOn(s, deli, toks, cur)| ==> NulFree(SplitOn(s, deli, toks, cur)[r])
      decreases |s|
    {
      if s != [] {
        if s[0] == deli {
          if cur == [] { SplitNulFree(s[1..], deli, toks, []); }
          else if |toks| + 1 < TOKCOUNT { SplitNulFree(s[1..], deli, toks + [cur], []); }
        } else {
          SplitNulFree(s[1..], deli, toks, if |cur| < TOKLEN - 1 then cur + [s[0]] else cur);
        }
      }
    }

    lemma {:induction false} PieceLengths(cs: seq<seq<byte>>)
      requires forall r :: 0 <= r < |cs| ==> NulFree(cs[r])
      ensures NulFree(DirPath(cs))
      decreases |cs|
    {
      if cs != [] { PieceLengths(cs[..|cs| - 1]); }
    }

    // ----- Creating -----

    lemma NoData(m: seq<byte>, a: nat)
      requires a + HEADER <= |m|
      ensures HeaderAt(m, a).kind == TYPE_DIR ==> FileAt(m, a) == File(HeaderAt(m, a), [])
    {
    }

    method StampAll(a: nat, now: Stamps)
      requires a + HEADER <= heap.ram.Length
      modifies heap.ram
      ensures HeaderAt(heap.ram[..], a) ==
              old(HeaderAt(heap.ram[..], a)).(ctime := now.c, mtime := now.m, atime := now.a)
      ensures Same(old(heap.ram[..]), heap.ram[..], 0, a)
      ensures Same(old(heap.ram[..]), heap.ram[..], a + HEADER, heap.ram.Length)
    {
      hide HeaderAt;
      PutDate(heap.ram, a, OFS_CTIME, now.c);
      PutDate(heap.ram, a, OFS_MTIME, now.m);
      PutDate(heap.ram, a, OFS_ATIME, now.a);
    }

    method FillDir(a: nat, path: seq<byte>, now: Stamps)
      requires a + HEADER <= heap.ram.Length && NulFree(path) && |path| < MAX_PATHLEN
      modifies heap.ram
      ensures HeaderAt(heap.ram[..], a) == NewDir(path, old(HeaderAt(heap.ram[..], a)), now).h
      ensures Same(old(heap.ram[..]), heap.ram[..], 0, a)
      ensures Same(old(heap.ram[..]), heap.ram[..], a + HEADER, heap.ram.Length)
    {
      hide HeaderAt;
      PutName(heap.ram, a, path);
      PutOwner(heap.ram, a);
      StampAll(a, now);
      PutPerm(heap.ram, a);
      PutByte(heap.ram, a, OFS_KIND, TYPE_DIR);
    }

    /** `malloc`, and the slot takes the pointer if there is one. */
    method Take(index: nat, size: word) returns (p: nat)
      requires heap.Good() && heap.ram.Length == RAM_SIZE && index < entryV.Length && Sane(size) && size > 0
      requires Blocks(size) <= heap.blockC
      modifies entryV, heap.blockV
      ensures Alloc(p, heap.Table()) == MallocOf(old(heap.Table()), heap.space, size)
      ensures WellFormed(heap.Table())
      ensures p == 0 ==> Now() == old(Now())
      ensures p != 0 ==> entryV[..] == old(entryV[..])[index := p] && p + HEADER <= RAM_SIZE
    {
      hide MallocOf, FreeOf, WellFormed, RunLen, Blocks;
      ghost var t := heap.Table();
      MallocAdds(t, heap.space, size);
      BlocksCeil(size);
      p := heap.Malloc(size);
      if p != 0 {
        RunInside(heap.Table(), heap.space, p);
        entryV[index] := p;
      }
    }

    /** The checks of `fs_createDir`, and the slot the directory will take. */
    method AdmitDir(path: seq<byte>) returns (sts: int, index: int)
      requires Valid() && initLock && NulFree(path)
      modifies raPath
      ensures forall now, was :: sts == SUCCESS ==>
                                   FsSpec.CreateDir(Files(), path, now, false, was) == Outcome(OUTOFMEMORY, Files())
      ensures sts == SUCCESS ==> EndsInSlash(path) && |path| < MAX_PATHLEN && 0 <= index == FreeIndex(Files(), 0)
      ensures forall now, room, was :: sts != SUCCESS ==>
                                         FsSpec.CreateDir(Files(), path, now, room, was) == Outcome(sts, Files())
      ensures forall now, was :: sts == SUCCESS ==>
                                   FsSpec.CreateDir(Files(), path, now, true, was) ==
                                   Outcome(SUCCESS, Files()[index := Used(NewDir(path, was, now))])
    {
      hide HeaderAt, Consistent, FileAt, View, HasDir, ParentsLive;
      index := -1;
      if |path| == 0 || path[|path| - 1] != SLASH || |path| >= MAX_PATHLEN { return FAILURE, -1; }
      var any := AnyFileWithPrefix(path[..|path| - 1]);
      if any { return FILEEXISTS, -1; }
      var twin := FindEntry(path);
      if twin != -1 {
        SlotFacts(twin);
        if heap.ram[entryV[twin] + OFS_KIND] == TYPE_DIR { return ALREADYEXISTS, -1; }
      }
      var found := CheckParents(path);
      if !found { return PATHNOTFOUND, -1; }
      index := FreeEntry();
      return if index == -1 then OUTOFMEMORY else SUCCESS, index;
    }

    ghost function DirOutcome(path: seq<byte>, now: Stamps): Outcome
      requires Valid() && initLock
      reads this, heap, heap.blockV, heap.ram, entryV, mounts
    {
      FsSpec.CreateDir(Files(), path, now, Room(Now(), BLKSIZE), Leftover(Now(), BLKSIZE))
    }

    /** The allocator's table when the block of a new directory has been taken. */
    ghost function DirTable(): Table
      requires Valid() && initLock
      reads this, heap, heap.blockV, heap.ram, entryV, mounts
    {
      heap.Next(BLKSIZE).table
    }

    /** `now` is what the clock says at the three readings. */
    method CreateDir(path: seq<byte>, now: Stamps) returns (sts: int)
      requires Valid() && NulFree(path)
      modifies raPath, entryV, heap.blockV, heap.ram
      ensures Valid()
      ensures !initLock ==> sts == NOTINIT && Now() == old(Now())
      ensures initLock ==>
                Outcome(sts, Files()) == old(DirOutcome(path, now))
      ensures initLock ==> Spared(old(Now()), Now()) && NoLeak(old(Now()), Now())
      ensures sts != SUCCESS ==> Now() == old(Now())
      ensures initLock && sts == SUCCESS ==> heap.Table() == old(DirTable())
    {
      hide HeaderAt, Consistent, FileAt, View, FreeOf, MallocOf, WellFormed, RunLen, FsSpec.CreateDir;
      if !initLock { return NOTINIT; }
      ghost var fs := Now();
      var index: int;
      sts, index := AdmitDir(path);
      if sts != SUCCESS { return; }
      SlotFacts(index);
      var newptr := Take(index, BLKSIZE);
      if newptr == 0 { return OUTOFMEMORY; }
      FillDir(newptr, path, now);
      AddEntry(fs, Now(), index, BLKSIZE);
      NoData(heap.ram[..], newptr);
    }

    // ----- Reading and writing -----

    /** A new regular file of `size` bytes, content excluded. */
    method FillFile(a: nat, path: seq<byte>, size: word, now: Stamps)
      requires a + HEADER <= heap.ram.Length && NulFree(path) && |path| < MAX_PATHLEN
      modifies heap.ram
      ensures HeaderAt(heap.ram[..], a) == NewFile(path, Zeros(size), old(HeaderAt(heap.ram[..], a)), now).h
      ensures Same(old(heap.ram[..]), heap.ram[..], 0, a)
      ensures Same(old(heap.ram[..]), heap.ram[..], a + HEADER, heap.ram.Length)
    {
      hide HeaderAt;
      PutName(heap.ram, a, path);
      PutOwner(heap.ram, a);
      PutSize(heap.ram, a, size);
      StampAll(a, now);
      PutPerm(heap.ram, a);
      PutByte(heap.ram, a, OFS_KIND, TYPE_FILE);
      PutByte(heap.ram, a, OFS_FTYPE, TYPE_FILE);
    }

    /** The file that a write leaves in a slot. */
    static function MadeAt(slot: Slot, path: seq<byte>, buf: seq<byte>, was: Header, now: Stamps): File
      requires |buf| < RAM_SIZE
    {
      if slot.Used? then Rewritten(slot.f, buf, now) else NewFile(path, buf, was, now)
    }

    /** The checks of `fs_writeFile`: which slot is rewritten or taken. */
    method AdmitFile(path: seq<byte>) returns (sts: int, index: int)
      requires Valid() && initLock && NulFree(path) && |path| < MAX_PATHLEN
      modifies raPath
      ensures sts == SUCCESS ==> path != [] && 0 <= index < ENTCOUNT
      ensures sts == SUCCESS ==>
                index == if Find(Files(), path, 0) != -1 then Find(Files(), path, 0) else FreeIndex(Files(), 0)
      ensures forall buf, now, room, was :: sts != SUCCESS && |buf| < RAM_SIZE ==>
                                              FsSpec.WriteFile(Files(), path, buf, now, room, was) ==
                                              Outcome(sts, Files())
      ensures forall buf, now, was :: sts == SUCCESS && |buf| < RAM_SIZE ==>
                                        FsSpec.WriteFile(Files(), path, buf, now, false, was) ==
                                        Outcome(OUTOFMEMORY, Files())
      ensures forall buf, now, was :: sts == SUCCESS && |buf| < RAM_SIZE ==>
                                        var made := Used(MadeAt(Files()[index], path, buf, was, now));
                                        FsSpec.WriteFile(Files(), path, buf, now, true, was) ==
                                        Outcome(SUCCESS, Files()[index := made])
    {
      hide HeaderAt, Consistent, FileAt, View, HasDir, ParentsLive;
      if |path| == 0 || path[|path| - 1] == SLASH { return FAILURE, -1; }
      var any := AnyDirTwin(path);
      if any { return DIREXISTS, -1; }
      index := FindEntry(path);
      if index != -1 {
        SlotFacts(index);
        return if heap.ram[entryV[index] + OFS_KIND] == TYPE_DIR then NOTFILE else SUCCESS, index;
      }
      var found := CheckParents(path);
      if !found { return PATHNOTFOUND, -1; }
      index := FreeEntry();
      return if index == -1 then OUTOFMEMORY else SUCCESS, index;
    }

    lemma ReallocPool(fs: Fs, i: nat, n: word)
      requires Consistent(fs) && i < ENTCOUNT && fs.ptrs[i] != 0 && n > 0 && Sane(n) && Blocks(n) <= |fs.table|
      ensures InPool(fs.table, fs.space, fs.ptrs[i])
      ensures var a := MallocOf(fs.table, fs.space, n);
              a.ptr != 0 ==> Serve(fs.table, fs.space, Realloc(fs.ptrs[i], n)) ==
                             FreeOf(a.table, fs.space, fs.ptrs[i]) && n <= BLKSIZE * Blocks(n)
    {
      hide MallocOf, FreeOf, HeaderAt;
      BlocksCeil(n);
      RunInside(fs.table, fs.space, fs.ptrs[i]);
    }

    /** New content behind the header, new size and dates in it. */
    method Update(p: nat, buf: seq<byte>, now: Stamps)
      requires p + HEADER + |buf| <= heap.ram.Length && |buf| < RAM_SIZE
      modifies heap.ram
      ensures heap.ram[p + HEADER..p + HEADER + |buf|] == buf
      ensures HeaderAt(heap.ram[..], p) ==
              old(HeaderAt(heap.ram[..], p)).(size := |buf|, mtime := now.m, atime := now.a)
      ensures Same(old(heap.ram[..]), heap.ram[..], 0, p)
      ensures Same(old(heap.ram[..]), heap.ram[..], p + HEADER + |buf|, heap.ram.Length)
    {
      hide HeaderAt;
      ghost var m := heap.ram[..];
      CopyIn(heap.ram, p + HEADER, buf);
      ghost var m1 := heap.ram[..];
      assert m1[p..p + HEADER] == m[p..p + HEADER];
      HeaderMoved(m, p, m1, p);
      PutSize(heap.ram, p, |buf|);
      PutDate(heap.ram, p, OFS_MTIME, now.m);
      PutDate(heap.ram, p, OFS_ATIME, now.a);
      assert forall i :: 0 <= i < |buf| ==> heap.ram[p + HEADER + i] == buf[i];
    }

    lemma CopiedIsRelocated(fs: Fs, gs: Fs, i: nat, p: nat, n: word)
      requires Shape(fs) && i < ENTCOUNT && Sane(n) && Blocks(n) <= |fs.table|
      requires p == MallocOf(fs.table, fs.space, n).ptr != 0
      requires gs.space == fs.space && gs.ptrs == fs.ptrs[i := p] && n <= BLKSIZE * Blocks(n)
      requires gs.table == FreeOf(MallocOf(fs.table, fs.space, n).table, fs.space, fs.ptrs[i])
      requires Copied(fs.mem, gs.mem, p, fs.ptrs[i], n)
      ensures Relocated(fs, gs, i, p, n)
    {
      hide MallocOf, FreeOf, Blocks, WellFormed, CopySource;
    }

    lemma UpdatedIsRelocated(fs: Fs, gs: Fs, hs: Fs, i: nat, p: nat, size: word)
      requires Shape(fs) && i < ENTCOUNT && size + HEADER < RAM_SIZE && Sane(size + HEADER)
      requires Blocks(size + HEADER) <= |fs.table|
      requires Relocated(fs, gs, i, p, size + HEADER) && hs == gs.(mem := hs.mem)
      requires Same(gs.mem, hs.mem, 0, p) && Same(gs.mem, hs.mem, p + HEADER + size, |gs.mem|)
      ensures Relocated(fs, hs, i, p, size + HEADER)
    {
      hide MallocOf, FreeOf, Blocks, WellFormed;
      BlocksCeil(size + HEADER);
    }

    /** The relocating branch: header and common prefix move to a new run, the content is replaced. */
    method Rewrite(index: nat, buf: seq<byte>, now: Stamps) returns (ok: bool)
      requires Valid() && initLock && index < ENTCOUNT && entryV[index] != 0
      requires |buf| + HEADER < RAM_SIZE && Sane(|buf| + HEADER) && Blocks(|buf| + HEADER) <= heap.blockC
      modifies entryV, heap.blockV, heap.ram
      ensures ok <==> old(Room(Now(), |buf| + HEADER))
      ensures Valid() && Spared(old(Now()), Now()) && NoLeak(old(Now()), Now())
      ensures !ok ==> Now() == old(Now())
      ensures ok ==> Files() == old(Files())[index := Used(Rewritten(old(Files())[index].f, buf, now))]
    {
      hide HeaderAt, Consistent, FileAt, View, FreeOf, MallocOf, WellFormed, RunLen, Blocks, Serve, Copied, Sane;
      hide Spared, NoLeak, Rewritten, Relocated;
      ghost var fs, n: word := Now(), |buf| + HEADER;
      SlotFacts(index);
      ReallocPool(fs, index, n);
      var p := heap.Realloc(entryV[index], |buf| + HEADER);
      if p == 0 {
        SparedRefl(fs);
        NoLeakRefl(fs);
        return false;
      }
      ghost var m := heap.ram[..];
      ghost var blk := entryV[index];
      entryV[index] := p;
      CopiedIsRelocated(fs, Now(), index, p, n);
      RelocateRuns(fs, Now(), index, p, n);
      CopiedHeader(fs.mem, m, blk, p, n);
      ghost var gs := Now();
      Update(p, buf, now);
      UpdatedIsRelocated(fs, gs, Now(), index, p, |buf|);
      MoveEntry(fs, Now(), index, p, buf, now);
      return true;
    }

    /** The request for a file of this size can be computed and does not exceed the whole pool. */
    predicate Fitting(size: word)
      reads this, heap
    {
      size + HEADER < RAM_SIZE && Sane(size + HEADER) && Blocks(size + HEADER) <= heap.blockC
    }

    /** The allocator's table when the run of a new file of this size has been taken. */
    ghost function FileTable(size: word): Table
      requires Valid() && initLock && Fitting(size)
      reads this, heap, heap.blockV, heap.ram, entryV, mounts
    {
      heap.Next(size + HEADER).table
    }

    ghost predicate FileRoom(size: word)
      requires Valid() && initLock && Fitting(size)
      reads this, heap, heap.blockV, heap.ram, entryV, mounts
    {
      Room(Now(), size + HEADER)
    }

    ghost function FileLeftover(size: word): Header
      requires Valid() && initLock && Fitting(size)
      reads this, heap, heap.blockV, heap.ram, entryV, mounts
    {
      Leftover(Now(), size + HEADER)
    }

    /** The branch that takes an empty slot. */
    method Insert(index: nat, path: seq<byte>, buf: seq<byte>, now: Stamps) returns (ok: bool)
      requires Valid() && initLock && index < ENTCOUNT && entryV[index] == 0 && NulFree(path)
      requires 0 < |path| < MAX_PATHLEN
      requires |buf| < RAM_SIZE && Fitting(|buf|)
      modifies entryV, heap.blockV, heap.ram
      ensures ok <==> old(FileRoom(|buf|))
      ensures Valid() && Spared(old(Now()), Now()) && NoLeak(old(Now()), Now())
      ensures !ok ==> Now() == old(Now())
      ensures ok ==>
                Files() == old(Files())[index := Used(NewFile(path, buf, old(FileLeftover(|buf|)), now))]
      ensures ok ==> heap.Table() == old(FileTable(|buf|))
    {
      hide HeaderAt, Consistent, View, FreeOf, MallocOf, WellFormed, RunLen, Blocks;
      ghost var fs, n: word := Now(), |buf| + HEADER;
      BlocksCeil(n);
      MallocAdds(heap.Table(), heap.space, n);
      var p := Take(index, |buf| + HEADER);
      if p == 0 { return false; }
      FreshRunOnly(fs, Now(), n);
      FillFile(p, path, |buf|, now);
      ghost var m := heap.ram[..];
      CopyIn(heap.ram, p + HEADER, buf);
      ghost var m1 := heap.ram[..];
      assert m1[p..p + HEADER] == m[p..p + HEADER];
      HeaderMoved(m, p, m1, p);
      assert m1[p + HEADER..p + HEADER + |buf|] == buf;
      AddEntry(fs, Now(), index, n);
      return true;
    }

    ghost function WriteOutcome(path: seq<byte>, size: word, buf: seq<byte>, now: Stamps): Outcome
      requires Valid() && initLock && Fitting(size) && |buf| < RAM_SIZE
      reads this, heap, heap.blockV, heap.ram, entryV, mounts
    {
      FsSpec.WriteFile(Files(), path, buf, now, Room(Now(), size + HEADER), Leftover(Now(), size + HEADER))
    }

    /** `size` is the buffer's length unless the buffer is null. */
    method WriteFile(path: seq<byte>, size: word, buf: Buffer, now: Stamps) returns (sts: int)
      requires Valid() && NulFree(path) && |path| < MAX_PATHLEN && (buf.Data? ==> |buf.bytes| == size)
      requires initLock ==> Fitting(size)
      modifies raPath, entryV, heap.blockV, heap.ram
      ensures Valid()
      ensures !initLock ==> sts == NOTINIT && Now() == old(Now())
      ensures initLock && buf.Null? && size != 0 ==> sts == FAILURE
      ensures initLock && (buf.Null? ==> size == 0) ==>
                Outcome(sts, Files()) == old(WriteOutcome(path, size, Content(buf), now))
      ensures initLock ==> Spared(old(Now()), Now()) && NoLeak(old(Now()), Now())
      ensures sts != SUCCESS ==> Now() == old(Now())
      ensures initLock && sts == SUCCESS && old(Find(Files(), path, 0)) == -1 ==>
                heap.Table() == old(FileTable(size))
    {
      hide HeaderAt, Consistent, FileAt, View, FreeOf, MallocOf, WellFormed, RunLen, FsSpec.WriteFile, Blocks, Leftover;
      hide Room;
      if !initLock { return NOTINIT; }
      if |path| == 0 || path[|path| - 1] == SLASH || (buf.Null? && size != 0) {
        NoName(Files(), path, Content(buf), now, Room(Now(), size + HEADER), Leftover(Now(), size + HEADER));
        return FAILURE;
      }
      var index: int;
      sts, index := AdmitFile(path);
      if sts != SUCCESS { return; }
      SlotFacts(index);
      var ok: bool;
      if entryV[index] != 0 {
        ok := Rewrite(index, Content(buf), now);
      } else {
        ok := Insert(index, path, Content(buf), now);
      }
      sts := if ok then SUCCESS else OUTOFMEMORY;
    }

    lemma NoName(t: Files, path: seq<byte>, buf: seq<byte>, now: Stamps, room: bool, was: Header)
      requires |buf| < RAM_SIZE
      ensures path == [] || EndsInSlash(path) ==> FsSpec.WriteFile(t, path, buf, now, room, was) == Outcome(FAILURE, t)
    {
    }

    /** The time of access is set. */
    method Stamp(i: nat, now: Date)
      requires Valid() && initLock && i < ENTCOUNT && entryV[i] != 0
      modifies heap.ram
      ensures Valid() && Files() == old(Files())[i := Used(Accessed(old(Files())[i].f, now))]
      ensures Spared(old(Now()), Now())
    {
      hide HeaderAt, FileAt, Consistent, View, WellFormed, RunLen;
      ghost var fs := Now();
      SlotFacts(i);
      EntryHoused(fs, i);
      PutDate(heap.ram, entryV[i], OFS_ATIME, now);
      EditEntry(fs, Now(), i);
      DataKept(fs.mem, heap.ram[..], entryV[i]);
    }

    /** Where the content of file `i` is, and that it is there. */
    ghost predicate Located(t: Files, i: nat, p: nat)
      requires i < |t| == ENTCOUNT && t[i].Used? && entryV.Length == ENTCOUNT && mounts.Valid()
      reads this, heap, heap.ram, entryV, mounts, mounts.mountV
    {
      var f := t[i].f;
      if f.h.ftype == TYPE_MOUNTED then
        f.h.mountslot < MOUNTLIMIT && p == if mounts.initLock then mounts.mountV[f.h.mountslot] else 0
      else
        && entryV[i] != 0 && p == entryV[i] + HEADER && p + f.h.size <= heap.ram.Length && |f.data| == f.h.size
        && heap.ram[p..p + f.h.size] == f.data
    }

    /** Address of the content, or 0. Reading stamps the entry. */
    method ReadFile(path: seq<byte>, now: Date) returns (p: nat)
      requires Valid() && NulFree(path)
      modifies heap.ram
      ensures Valid()
      ensures !initLock ==> p == 0 && Now() == old(Now())
      ensures initLock ==> Spared(old(Now()), Now())
      ensures initLock ==>
                var t, i := old(Files()), Find(old(Files()), path, 0);
                if i == -1 || t[i].f.h.kind != TYPE_FILE then p == 0 && Now() == old(Now())
                else Files() == t[i := Used(File(t[i].f.h.(atime := now), t[i].f.data))] && Located(t, i, p)
    {
      hide HeaderAt, FileAt, Consistent, View, WellFormed, RunLen, Get32;
      if !initLock { return 0; }
      var i := FindEntry(path);
      if i == -1 { return 0; }
      SlotFacts(i);
      if heap.ram[entryV[i] + OFS_KIND] != TYPE_FILE { return 0; }
      Stamp(i, now);
      SlotFacts(i);
      EntryHoused(Now(), i);
      OwnBytes(Now(), i);
      if heap.ram[entryV[i] + OFS_FTYPE] == TYPE_MOUNTED {
        SlotWord(heap.ram[..], entryV[i]);
        if !mounts.initLock { return 0; }
        return mounts.mountV[Get32(heap.ram[..], entryV[i] + OFS_SLOT)];
      }
      return entryV[i] + HEADER;
    }

    lemma SlotWord(m: seq<byte>, a: nat)
      requires a + HEADER <= |m|
      ensures Get32(m, a + OFS_SLOT) == HeaderAt(m, a).mountslot
    {
    }

    // ----- Removing -----

    /** The run of an entry is released and its slot emptied. */
    method Drop(i: nat)
      requires Valid() && initLock && i < ENTCOUNT && entryV[i] != 0
      modifies entryV, heap.blockV
      ensures Valid() && Files() == old(Files())[i := Empty] && Spared(old(Now()), Now()) && NoLeak(old(Now()), Now())
      ensures RunLen(heap.Table(), heap.space, old(entryV[i])) == 0
    {
      hide HeaderAt, FileAt, Consistent, View, WellFormed, RunLen, FreeOf;
      ghost var fs := Now();
      heap.Free(entryV[i]);
      entryV[i] := 0;
      DropEntry(fs, Now(), i);
      ShapeOf(Now());
    }

    method AnyBelow(dir: seq<byte>) returns (b: bool)
      requires Valid() && initLock && NulFree(dir)
      ensures b <==> exists j :: FsSpec.Below(Files(), j, dir) && |Files()[j].f.h.name| > |dir|
    {
      hide HeaderAt, Consistent, FileAt, View;
      var i := 0;
      while i < ENTCOUNT
        invariant 0 <= i <= ENTCOUNT
        invariant forall j :: 0 <= j < i ==> !(FsSpec.Below(Files(), j, dir) && |Files()[j].f.h.name| > |dir|)
      {
        SlotFacts(i);
        if entryV[i] != 0 && heap.ram[entryV[i]] != 0 {
          var begins := NameBegins(entryV[i], dir);
          if begins {
            var n := NameLength(entryV[i]);
            assert FsSpec.Below(Files(), i, dir);
            if n > |dir| { return true; }
          }
        }
        i := i + 1;
      }
      return false;
    }

    /** `path` with a slash behind it, as the removal builds it in `fs_RAPath`. */
    method Slashed(path: seq<byte>) returns (dir: seq<byte>)
      requires NulFree(path) && |path| < MAX_PATHLEN && raPath.Length == BLKSIZE
      modifies raPath
      ensures dir == WithSlash(path) && NulFree(dir)
    {
      hide NulFree, EndsInSlash;
      CopyPath(path);
      var pathlen := |path|;
      SlashFree(path);
      if pathlen == 0 || path[pathlen - 1] != SLASH {
        raPath[pathlen] := SLASH;
        raPath[pathlen + 1] := 0;
        pathlen := pathlen + 1;
        assert raPath[..pathlen] == raPath[..pathlen - 1] + [SLASH];
      }
      dir := raPath[..pathlen];
    }

    /** The path in the cleared path buffer. */
    method CopyPath(path: seq<byte>)
      requires |path| < MAX_PATHLEN && raPath.Length == BLKSIZE
      modifies raPath
      ensures raPath[..|path|] == path
    {
      Fill(raPath, 0, 0, MAX_PATHLEN + 1);
      CopyIn(raPath, 0, path + [0]);
      assert forall i :: 0 <= i < |path| ==> raPath[i] == (path + [0])[i] == path[i];
    }

    lemma SlashFree(path: seq<byte>)
      ensures NulFree(path) ==> NulFree(path + [SLASH])
      ensures WithSlash(path) == if path == [] || path[|path| - 1] != SLASH then path + [SLASH] else path
    {
    }

    method Remove(path: seq<byte>) returns (sts: int)
      requires Valid() && NulFree(path)
      modifies raPath, entryV, heap.blockV
      ensures Valid()
      ensures !initLock ==> sts == NOTINIT && Now() == old(Now())
      ensures initLock ==>
                && Outcome(sts, Files()) == FsSpec.Remove(old(Files()), path) && Spared(old(Now()), Now())
                && NoLeak(old(Now()), Now())
      ensures sts != SUCCESS ==> Now() == old(Now())
      ensures initLock && sts == SUCCESS ==>
                RunLen(heap.Table(), heap.space, old(entryV[..])[Find(old(Files()), path, 0)]) == 0
    {
      hide HeaderAt, FileAt, Consistent, View, WellFormed, RunLen;
      if !initLock { return NOTINIT; }
      if path == [SLASH] { return FAILURE; }
      var i := FindEntry(path);
      if i == -1 { return ENTRYNOTFOUND; }
      SlotFacts(i);
      if heap.ram[entryV[i] + OFS_KIND] == TYPE_DIR {
        var dir := Slashed(path);
        var any := AnyBelow(dir);
        if any { return DIRNOTEMPTY; }
      }
      Drop(i);
      return SUCCESS;
    }

    method BulkRemove(path: seq<byte>) returns (sts: int)
      requires Valid() && NulFree(path)
      modifies raPath, entryV, heap.blockV
      ensures Valid()
      ensures !initLock ==> sts == NOTINIT && Now() == old(Now())
      ensures initLock ==>
                && Outcome(sts, Files()) == FsSpec.BulkRemove(old(Files()), path) && Spared(old(Now()), Now())
                && NoLeak(old(Now()), Now())
    {
      hide HeaderAt, FileAt, Consistent, View, WellFormed, RunLen, FsSpec.Remove, Spared, NoLeak;
      if !initLock { return NOTINIT; }
      ghost var fs, t := Now(), Files();
      SparedRefl(fs);
      NoLeakRefl(fs);
      var d := FindEntry(path);
      if d == -1 { return PATHNOTFOUND; }
      SlotFacts(d);
      if heap.ram[entryV[d] + OFS_KIND] != TYPE_DIR {
        sts := Remove(path);
        return;
      }
      var i := 0;
      while i < ENTCOUNT
        invariant 0 <= i <= ENTCOUNT && Valid() && Spared(fs, Now()) && NoLeak(fs, Now())
        invariant forall k :: 0 <= k < ENTCOUNT ==>
                                Files()[k] == if k < i && FsSpec.Below(t, k, path) then Empty else t[k]
      {
        SlotFacts(i);
        ghost var gs, u := Now(), Files();
        if entryV[i] != 0 && heap.ram[entryV[i]] != 0 {
          var begins := NameBegins(entryV[i], path);
          if begins {
            Drop(i);
            SparedTrans(fs, gs, Now());
            NoLeakTrans(fs, gs, Now());
          }
        }
        i := i + 1;
      }
      assert Files() == Pruned(t, path);
      return SUCCESS;
    }

    // ----- Looking around -----

    method Index(path: seq<byte>) returns (i: int)
      requires Valid() && NulFree(path)
      ensures i == if !initLock then NOTINIT else if Find(Files(), path, 0) == -1 then ENTRYNOTFOUND
                   else Find(Files(), path, 0)
    {
      if !initLock { return NOTINIT; }
      i := FindEntry(path);
      if i == -1 { i := ENTRYNOTFOUND; }
    }

    /** Address of the entry, or 0. */
    method Stat(path: seq<byte>) returns (p: nat)
      requires Valid() && NulFree(path)
      ensures !initLock ==> p == 0
      ensures initLock ==> var i := Find(Files(), path, 0);
                           if i == -1 then p == 0
                           else p == entryV[i] != 0 && p + HEADER <= RAM_SIZE
                                && HeaderAt(heap.ram[..], p) == Files()[i].f.h
    {
      hide HeaderAt, FileAt, Consistent, View, WellFormed, RunLen;
      if !initLock { return 0; }
      var i := FindEntry(path);
      if i == -1 { return 0; }
      SlotFacts(i);
      return entryV[i];
    }

    /** The name of the parent, cut out in `fs_RAPath`. */
    method ParentName(path: seq<byte>) returns (name: seq<byte>)
      requires raPath.Length == BLKSIZE && 0 < |path| < MAX_PATHLEN
      modifies raPath
      ensures name == ParentPath(path)
    {
      var end, i := 0, 0;
      while i < |path| - 1
        invariant 0 <= i <= |path| - 1 && end == ParentEnd(path, i)
      {
        if path[i] == SLASH { end := i + 1; }
        i := i + 1;
      }
      Fill(raPath, 0, 0, MAX_PATHLEN + 1);
      CopyIn(raPath, 0, path[..end]);
      assert raPath[..end] == path[..end];
      name := raPath[..end];
    }

    method Parent(path: seq<byte>) returns (p: nat)
      requires Valid() && NulFree(path) && 0 < |path| < MAX_PATHLEN
      modifies raPath
      ensures !initLock || path == [SLASH] ==> p == 0
      ensures initLock && path != [SLASH] ==> var i := Find(Files(), ParentPath(path), 0);
                                              if i == -1 then p == 0
                                              else p == entryV[i] != 0 && p + HEADER <= RAM_SIZE
                                                   && HeaderAt(heap.ram[..], p) == Files()[i].f.h
    {
      hide HeaderAt, FileAt, Consistent, View, WellFormed, RunLen, Find;
      if !initLock || path == [SLASH] { return 0; }
      var name := ParentName(path);
      p := Stat(name);
    }

    /** The listing `l`, closed by end marks. */
    ghost predicate Listed(l: seq<int>)
      reads this, raDirent
    {
      && raDirent.Length == ENTCOUNT && |l| <= ENTCOUNT && raDirent[..|l|] == l
      && forall k :: |l| <= k < ENTCOUNT ==> raDirent[k] == -1
    }

    method ListBelow(path: seq<byte>)
      requires Valid() && initLock && NulFree(path)
      modifies raDirent
      ensures Listed(Listing(Files(), path, ENTCOUNT))
    {
      hide HeaderAt, FileAt, Consistent, View, WellFormed, RunLen;
      var i := 0;
      while i < ENTCOUNT
        invariant 0 <= i <= ENTCOUNT && forall k :: 0 <= k < i ==> raDirent[k] == -1
      {
        raDirent[i] := -1;
        i := i + 1;
      }
      var j := 0;
      i := 0;
      while i < ENTCOUNT
        invariant 0 <= j <= i <= ENTCOUNT && raDirent[..j] == Listing(Files(), path, i)
        invariant forall k :: j <= k < ENTCOUNT ==> raDirent[k] == -1
      {
        SlotFacts(i);
        if entryV[i] != 0 && heap.ram[entryV[i]] != 0 {
          var begins := NameBegins(entryV[i], path);
          if begins {
            raDirent[j] := i;
            j := j + 1;
          }
        }
        i := i + 1;
      }
    }

    /** False is the null result: no directory of that name. The root is listed even when it has
        been removed, and then without a time stamp. */
    method ReadDir(path: seq<byte>, now: Date) returns (ok: bool)
      requires Valid() && NulFree(path)
      modifies raDirent, heap.ram
      ensures Valid()
      ensures !initLock ==> !ok
      ensures initLock ==> (ok <==> path == [SLASH] || (EndsInSlash(path) && HasFirstDir(old(Files()), path)))
      ensures initLock && ok ==> Listed(Listing(old(Files()), path, ENTCOUNT))
      ensures initLock && (!ok || path == [SLASH]) ==> Now() == old(Now())
      ensures initLock && ok && path != [SLASH] ==>
                var t, i := old(Files()), Find(old(Files()), path, 0);
                Files() == t[i := Used(Accessed(t[i].f, now))]
    {
      hide HeaderAt, FileAt, Consistent, View, WellFormed, RunLen, Listing;
      if !initLock || |path| == 0 || path[|path| - 1] != SLASH { return false; }
      if path == [SLASH] {
        ListBelow(path);
        return true;
      }
      var i := FindEntry(path);
      if i == -1 { return false; }
      SlotFacts(i);
      if heap.ram[entryV[i] + OFS_KIND] != TYPE_DIR { return false; }
      ListBelow(path);
      Stamp(i, now);
      return true;
    }
  }

  /** The requests of the initialisation: entry table, root, listing, path buffer. */
  function Requests(): seq<word> {
    [ENTCOUNT * 4, 3888, ENTCOUNT * 4, MAX_PATHLEN]
  }

  /** The allocator can serve these requests one after the other. */
  predicate Serves(t: Table, space: nat, sizes: seq<word>)
    requires 0 < |t| && forall n :: n in sizes ==> Blocks(n) <= |t|
    decreases |sizes|
  {
    sizes != [] ==>
      var a := MallocOf(t, space, sizes[0]);
      a.ptr != 0 && Serves(a.table, space, sizes[1..])
  }

  /** The table after them. */
  function AllServed(t: Table, space: nat, sizes: seq<word>): (r: Table)
    requires 0 < |t| && forall n :: n in sizes ==> Blocks(n) <= |t|
    ensures |r| == |t|
    decreases |sizes|
  {
    if sizes == [] then t else AllServed(MallocOf(t, space, sizes[0]).table, space, sizes[1..])
  }

  lemma ServesNext(t: Table, space: nat, n: word, rest: seq<word>)
    requires 0 < |t| && Blocks(n) <= |t| && forall k :: k in rest ==> Blocks(k) <= |t|
    ensures Serves(t, space, [n] + rest) <==>
            MallocOf(t, space, n).ptr != 0 && Serves(MallocOf(t, space, n).table, space, rest)
    ensures AllServed(t, space, [n] + rest) == AllServed(MallocOf(t, space, n).table, space, rest)
  {
    assert ([n] + rest)[1..] == rest;
  }

  lemma NoRequests(t: Table, space: nat)
    requires 0 < |t|
    ensures Serves(t, space, []) && AllServed(t, space, []) == t
  {
  }

  lemma RequestsFit(m: nat)
    requires 16 <= m
    ensures forall n :: n in Requests() ==> Blocks(n) <= m
    ensures Requests() == [ENTCOUNT * 4] + Requests()[1..] && Requests()[1..] == [3888] + Requests()[2..]
    ensures Requests()[2..] == [ENTCOUNT * 4] + Requests()[3..] && Requests()[3..] == [MAX_PATHLEN] + []
  {
  }

  /** The state right after initialisation. */
  ghost predicate OnlyRoot(t: Files, now: Stamps) {
    && |t| == ENTCOUNT && (forall i :: 0 < i < ENTCOUNT ==> t[i] == Empty)
    && t[0].Used? && t[0].f.h.name == [SLASH] && t[0].f.h.kind == TYPE_DIR && t[0].f.h.perm == PERM_ALL
    && t[0].f.h.user == 0 && t[0].f.h.group == 0
    && t[0].f.h.ctime == now.c && t[0].f.h.mtime == now.m && t[0].f.h.atime == now.a
  }

  ghost predicate HasFirstDir(t: Files, path: seq<byte>) {
    Find(t, path, 0) != -1 && t[Find(t, path, 0)].f.h.kind == TYPE_DIR
  }
}
