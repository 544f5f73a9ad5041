/** The file system as a table of named entries: what each operation does to the table, and why
    a flat table of full names behaves as a tree. */
module FsSpec {
  import opened Bytes
  import opened Paths

  const ENTCOUNT := 16384
  const TYPE_FILE: byte := 0
  const TYPE_CHARDEV: byte := 3
  const TYPE_DIR: byte := 5
  const TYPE_MOUNTED: byte := 7
  const PERM_ALL := 511

  const SUCCESS := 0
  const FAILURE := -1
  const NOTINIT := -2
  const ALREADYEXISTS := -3
  const OUTOFMEMORY := -4
  const PATHNOTFOUND := -5
  const NOTFILE := -7
  const ENTRYNOTFOUND := -8
  const DIRNOTEMPTY := -9
  const FILEEXISTS := -10
  const DIREXISTS := -11

  /** The eight bytes of a date, as two words. */
  datatype Date = Date(lo: word, hi: word)
  datatype Stamps = Stamps(c: Date, m: Date, a: Date)

  datatype Header = Header(
    name: seq<byte>, user: word, group: word, size: word, ctime: Date, mtime: Date, atime: Date,
    perm: nat, kind: byte, ftype: byte, devperm: byte, mountslot: word)

  /** An entry with the content of its own run; a mounted file keeps its content elsewhere. */
  datatype File = File(h: Header, data: seq<byte>)

  datatype Slot = Empty | Used(f: File)
  type Files = seq<Slot>

  datatype Outcome = Outcome(status: int, files: Files)

  // ----- Looking up -----

  predicate Named(t: Files, i: int, path: seq<byte>) {
    0 <= i < |t| && t[i].Used? && t[i].f.h.name != [] && t[i].f.h.name == path
  }

  /** Lowest index from `i` on of an entry with this name, or -1. */
  function Find(t: Files, path: seq<byte>, i: nat): (r: int)
    requires i <= |t|
    ensures r == -1 || (i <= r && Named(t, r, path))
    ensures forall k :: i <= k && (r == -1 || k < r) ==> !Named(t, k, path)
    decreases |t| - i
  {
    if i == |t| then -1 else if Named(t, i, path) then i else Find(t, path, i + 1)
  }

  function FreeIndex(t: Files, i: nat): (r: int)
    requires i <= |t|
    ensures r == -1 || (i <= r < |t| && t[r].Empty?)
    ensures forall k :: i <= k < |t| && (r == -1 || k < r) ==> t[k].Used?
    decreases |t| - i
  {
    if i == |t| then -1 else if t[i].Empty? then i else FreeIndex(t, i + 1)
  }

  predicate LiveDir(t: Files, i: int, path: seq<byte>) {
    Named(t, i, path) && t[i].f.h.kind == TYPE_DIR
  }

  ghost predicate HasDir(t: Files, path: seq<byte>) {
    exists i :: LiveDir(t, i, path)
  }

  /** Every rebuilt prefix names a live directory. */
  ghost predicate ParentsLive(t: Files, path: seq<byte>) {
    forall k :: 0 < k < |Split(path, SLASH)| ==> HasDir(t, DirPath(Split(path, SLASH)[..k]))
  }

  predicate FileWithPrefix(t: Files, i: int, p: seq<byte>) {
    0 <= i < |t| && t[i].Used? && t[i].f.h.name != [] && p <= t[i].f.h.name && t[i].f.h.kind == TYPE_FILE
  }

  ghost predicate HasFileWithPrefix(t: Files, p: seq<byte>) {
    exists i :: FileWithPrefix(t, i, p)
  }

  /** Entry `i` is a directory whose name is `path` and a slash. */
  predicate DirTwin(t: Files, i: int, path: seq<byte>) {
    0 <= i < |t| && t[i].Used? && t[i].f.h.name == path + [SLASH] && t[i].f.h.kind == TYPE_DIR
  }

  predicate Below(t: Files, i: int, dir: seq<byte>) {
    0 <= i < |t| && t[i].Used? && t[i].f.h.name != [] && dir <= t[i].f.h.name
  }

  /** The indices below `n` of the entries whose name starts with `path`, in ascending order. */
  function Listing(t: Files, path: seq<byte>, n: nat): (r: seq<int>)
    requires n <= |t|
    ensures |r| <= n
  {
    if n == 0 then [] else Listing(t, path, n - 1) + if Below(t, n - 1, path) then [n - 1] else []
  }

  lemma {:induction false} ListingExact(t: Files, path: seq<byte>, n: nat)
    requires n <= |t|
    ensures var r := Listing(t, path, n);
            && (forall i :: i in r <==> i < n && Below(t, i, path))
            && (forall j, k :: 0 <= j < k < |r| ==> r[j] < r[k])
  {
    if n > 0 {
      ListingExact(t, path, n - 1);
      var l, r, i := Listing(t, path, n - 1), Listing(t, path, n), n - 1;
      BelowLive(t, path);
      hide Below, Listing;
      AppendIndex(l, i, Below(t, i, path), r);
    }
  }

  lemma BelowLive(t: Files, path: seq<byte>)
    ensures forall i :: Below(t, i, path) ==> 0 <= i < |t|
  {
  }

  lemma AppendIndex(l: seq<int>, i: int, more: bool, r: seq<int>)
    requires r == l + if more then [i] else []
    ensures forall x :: x in r <==> x in l || (more && x == i)
    ensures (forall j, k :: 0 <= j < k < |l| ==> l[j] < l[k]) && (forall x :: x in l ==> x < i) ==>
              forall j, k :: 0 <= j < k < |r| ==> r[j] < r[k]
  {
    assert forall j :: 0 <= j < |l| ==> l[j] in l;
  }

  // ----- Operations -----

  function NewDir(path: seq<byte>, was: Header, now: Stamps): File {
    File(was.(name := path, user := 0, group := 0, ctime := now.c, mtime := now.m, atime := now.a, perm := PERM_ALL,
         kind := TYPE_DIR), [])
  }

  function NewFile(path: seq<byte>, buf: seq<byte>, was: Header, now: Stamps): File
    requires |buf| < RAM_SIZE
  {
    File(was.(name := path, user := 0, group := 0, size := |buf|, ctime := now.c, mtime := now.m, atime := now.a,
         perm := PERM_ALL, kind := TYPE_FILE, ftype := TYPE_FILE), buf)
  }

  /** A rewritten file. What is written to a mounted file goes to its own run, which nobody reads. */
  function Rewritten(f: File, buf: seq<byte>, now: Stamps): File
    requires |buf| < RAM_SIZE
  {
    File(f.h.(size := |buf|, mtime := now.m, atime := now.a),
         if f.h.kind == TYPE_FILE && f.h.ftype != TYPE_MOUNTED then buf else [])
  }

  /** `room` says whether the allocator can serve the call; `was` is what the fresh block held in
      the header fields that nobody sets. */
  ghost function CreateDir(t: Files, path: seq<byte>, now: Stamps, room: bool, was: Header): Outcome {
    if !EndsInSlash(path) || |path| >= MAX_PATHLEN then Outcome(FAILURE, t)
    else if HasFileWithPrefix(t, path[..|path| - 1]) then Outcome(FILEEXISTS, t)
    else if Find(t, path, 0) != -1 && LiveDir(t, Find(t, path, 0), path) then Outcome(ALREADYEXISTS, t)
    else if !ParentsLive(t, path) then Outcome(PATHNOTFOUND, t)
    else if FreeIndex(t, 0) == -1 || !room then Outcome(OUTOFMEMORY, t)
    else Outcome(SUCCESS, t[FreeIndex(t, 0) := Used(NewDir(path, was, now))])
  }

  ghost function WriteFile(t: Files, path: seq<byte>, buf: seq<byte>, now: Stamps, room: bool, was: Header): Outcome
    requires |buf| < RAM_SIZE
  {
    var i := Find(t, path, 0);
    if path == [] || EndsInSlash(path) then Outcome(FAILURE, t)
    else if exists j :: DirTwin(t, j, path) then Outcome(DIREXISTS, t)
    else if i != -1 then
      if t[i].f.h.kind == TYPE_DIR then Outcome(NOTFILE, t)
      else if !room then Outcome(OUTOFMEMORY, t)
      else Outcome(SUCCESS, t[i := Used(Rewritten(t[i].f, buf, now))])
    else if !ParentsLive(t, path) then Outcome(PATHNOTFOUND, t)
    else if FreeIndex(t, 0) == -1 || !room then Outcome(OUTOFMEMORY, t)
    else Outcome(SUCCESS, t[FreeIndex(t, 0) := Used(NewFile(path, buf, was, now))])
  }

  function WithSlash(path: seq<byte>): seq<byte> {
    if EndsInSlash(path) then path else path + [SLASH]
  }

  ghost function Remove(t: Files, path: seq<byte>): Outcome {
    var i := Find(t, path, 0);
    if path == [SLASH] then Outcome(FAILURE, t)
    else if i == -1 then Outcome(ENTRYNOTFOUND, t)
    else if t[i].f.h.kind == TYPE_DIR && exists j :: Below(t, j, WithSlash(path)) && |t[j].f.h.name| > |WithSlash(path)|
    then Outcome(DIRNOTEMPTY, t)
    else Outcome(SUCCESS, t[i := Empty])
  }

  /** The table without every entry whose name starts with `path`. */
  function Pruned(t: Files, path: seq<byte>): (r: Files)
    ensures |r| == |t| && forall i :: 0 <= i < |t| ==> r[i] == if Below(t, i, path) then Empty else t[i]
  {
    seq(|t|, i requires 0 <= i < |t| => if Below(t, i, path) then Empty else t[i])
  }

  ghost function BulkRemove(t: Files, path: seq<byte>): Outcome {
    var i := Find(t, path, 0);
    if i == -1 then Outcome(PATHNOTFOUND, t)
    else if t[i].f.h.kind != TYPE_DIR then Remove(t, path)
    else Outcome(SUCCESS, Pruned(t, path))
  }

  // ----- The tree -----

  predicate Live(t: Files, i: int) {
    0 <= i < |t| && t[i].Used?
  }

  /** A forest of names: no two entries share a name, exactly the directories end in a slash, no
      file `p` stands beside a directory `p/`, and every ancestor below the root is a live directory. */
  ghost predicate Tree(t: Files) {
    && (forall i :: Live(t, i) ==> t[i].f.h.name != [] && t[i].f.h.kind in {TYPE_FILE, TYPE_DIR})
    && (forall i :: Live(t, i) ==> (t[i].f.h.kind == TYPE_DIR <==> EndsInSlash(t[i].f.h.name)))
    && (forall i, j :: Live(t, i) && Live(t, j) && i != j ==> t[i].f.h.name != t[j].f.h.name)
    && (forall i, j :: Live(t, i) && Live(t, j) && t[i].f.h.kind == TYPE_FILE ==>
                         t[j].f.h.name != t[i].f.h.name + [SLASH])
    && (forall i, a :: Live(t, i) && Ancestor(a, t[i].f.h.name) ==> HasDir(t, a))
  }

  lemma DirKept(t: Files, u: Files, a: seq<byte>)
    requires HasDir(t, a) && |t| == |u| && forall i :: LiveDir(t, i, a) ==> u[i] == t[i]
    ensures HasDir(u, a)
  {
    var i :| LiveDir(t, i, a);
    assert LiveDir(u, i, a);
  }

  /** The ancestor check of the code is the tree's. */
  lemma ParentsAreAncestors(t: Files, path: seq<byte>)
    requires CanonicalDir(path) || CanonicalFile(path)
    ensures ParentsLive(t, path) <==> forall a :: Ancestor(a, path) ==> HasDir(t, a)
  {
    hide HasDir, Ancestor, SplitOn, DirPath, CanonicalDir, CanonicalFile;
    var cs := Split(path, SLASH);
    if ParentsLive(t, path) {
      forall a | Ancestor(a, path) ensures HasDir(t, a) {
        RebuiltAncestors(path, a);
        var k :| 0 < k < |cs| && a == DirPath(cs[..k]);
      }
    }
    if forall a :: Ancestor(a, path) ==> HasDir(t, a) {
      forall k | 0 < k < |cs| ensures HasDir(t, DirPath(cs[..k])) {
        RebuiltAncestors(path, DirPath(cs[..k]));
      }
    }
  }

  /** Filling an empty slot keeps the tree if the name is new, has no twin and has its ancestors. */
  lemma AddKeepsTree(t: Files, i: nat, f: File)
    requires Tree(t) && i < |t| && t[i].Empty? && f.h.name != [] && f.h.kind in {TYPE_FILE, TYPE_DIR}
    requires f.h.kind == TYPE_DIR <==> EndsInSlash(f.h.name)
    requires forall j :: Live(t, j) ==> t[j].f.h.name != f.h.name
    requires f.h.kind == TYPE_FILE ==> forall j :: Live(t, j) ==> t[j].f.h.name != f.h.name + [SLASH]
    requires f.h.kind == TYPE_DIR ==> forall j :: Live(t, j) && t[j].f.h.kind == TYPE_FILE ==>
                                                    f.h.name != t[j].f.h.name + [SLASH]
    requires forall a :: Ancestor(a, f.h.name) ==> HasDir(t, a)
    ensures Tree(t[i := Used(f)])
  {
    hide Ancestor, HasDir;
    var u := t[i := Used(f)];
    forall j | Live(u, j) && j != i ensures Live(t, j) && u[j] == t[j] {}
    forall j, k | Live(u, j) && Live(u, k) && u[j].f.h.kind == TYPE_FILE
      ensures u[k].f.h.name != u[j].f.h.name + [SLASH] {
      assert |u[j].f.h.name + [SLASH]| == |u[j].f.h.name| + 1 && EndsInSlash(u[j].f.h.name + [SLASH]);
    }
    forall j, a | Live(u, j) && Ancestor(a, u[j].f.h.name) ensures HasDir(u, a) {
      if j != i { assert Live(t, j); }
      DirKept(t, u, a);
    }
  }

  lemma CreateDirKeepsTree(t: Files, path: seq<byte>, now: Stamps, room: bool, was: Header)
    requires Tree(t) && CanonicalDir(path)
    ensures Tree(CreateDir(t, path, now, room, was).files)
  {
    hide SplitOn, DirPath, CanonicalDir, ParentsLive, HasDir;
    var o := CreateDir(t, path, now, room, was);
    if o.status == SUCCESS {
      ParentsAreAncestors(t, path);
      var f := NewDir(path, was, now);
      forall j | Live(t, j) ensures t[j].f.h.name != path {
        var k := Find(t, path, 0);
        assert t[j].f.h.name == path ==> Named(t, j, path);
        assert k != -1 ==> Live(t, k) && LiveDir(t, k, path);
      }
      forall j | Live(t, j) && t[j].f.h.kind == TYPE_FILE ensures path != t[j].f.h.name + [SLASH] {
        assert path == t[j].f.h.name + [SLASH] ==> FileWithPrefix(t, j, path[..|path| - 1]);
      }
      AddKeepsTree(t, FreeIndex(t, 0), f);
    }
  }

  lemma WriteFileKeepsTree(t: Files, path: seq<byte>, buf: seq<byte>, now: Stamps, room: bool, was: Header)
    requires Tree(t) && CanonicalFile(path) && |buf| < RAM_SIZE
    ensures Tree(WriteFile(t, path, buf, now, room, was).files)
  {
    hide SplitOn, DirPath, CanonicalFile, ParentsLive, HasDir;
    var o := WriteFile(t, path, buf, now, room, was);
    var i := Find(t, path, 0);
    if o.status == SUCCESS && i != -1 {
      assert Live(t, i);
      RenameNothing(t, i, Rewritten(t[i].f, buf, now));
    } else if o.status == SUCCESS {
      ParentsAreAncestors(t, path);
      var f := NewFile(path, buf, was, now);
      forall j | Live(t, j) ensures t[j].f.h.name != path && t[j].f.h.name != path + [SLASH] {
        assert !Named(t, j, path);
        assert EndsInSlash(path + [SLASH]) && !DirTwin(t, j, path);
      }
      AddKeepsTree(t, FreeIndex(t, 0), f);
    }
  }

  /** Replacing an entry without touching its name and kind keeps the tree. */
  lemma RenameNothing(t: Files, i: nat, f: File)
    requires Tree(t) && Live(t, i) && f.h.name == t[i].f.h.name && f.h.kind == t[i].f.h.kind
    ensures Tree(t[i := Used(f)])
  {
    hide Ancestor, EndsInSlash, HasDir;
    var u := t[i := Used(f)];
    assert forall j :: Live(u, j) <==> Live(t, j);
    assert forall j :: Live(t, j) ==> u[j].f.h.name == t[j].f.h.name && u[j].f.h.kind == t[j].f.h.kind;
    forall j, a | Live(u, j) && Ancestor(a, u[j].f.h.name) ensures HasDir(u, a) {
      assert HasDir(t, a);
      SameNamesSameDir(t, u, a);
    }
  }

  lemma SameNamesSameDir(t: Files, u: Files, a: seq<byte>)
    requires HasDir(t, a) && |t| == |u|
    requires forall j :: Live(t, j) ==> Live(u, j) && u[j].f.h.name == t[j].f.h.name && u[j].f.h.kind == t[j].f.h.kind
    ensures HasDir(u, a)
  {
    var i :| LiveDir(t, i, a);
    assert Live(t, i);
    assert LiveDir(u, i, a);
  }

  /** Dropping entries keeps the tree if whatever loses an ancestor is dropped as well. */
  lemma DropKeepsTree(t: Files, u: Files)
    requires Tree(t) && |t| == |u| && forall i :: 0 <= i < |t| ==> u[i] == t[i] || u[i].Empty?
    requires forall i, j :: Live(u, i) && Live(t, j) && u[j].Empty? ==> !Ancestor(t[j].f.h.name, u[i].f.h.name)
    ensures Tree(u)
  {
    hide EndsInSlash, Ancestor;
    forall i | Live(u, i) ensures Live(t, i) && u[i] == t[i] {}
    forall i, a | Live(u, i) && Ancestor(a, u[i].f.h.name) ensures HasDir(u, a) {
      assert Live(t, i) && HasDir(t, a);
      var d :| LiveDir(t, d, a);
      assert Live(t, d) && t[d].f.h.name == a;
      assert u[d] == t[d];
      assert LiveDir(u, d, a);
    }
  }

  lemma RemoveKeepsTree(t: Files, path: seq<byte>)
    requires Tree(t)
    ensures Tree(Remove(t, path).files)
  {
    var o := Remove(t, path);
    var i := Find(t, path, 0);
    if o.status == SUCCESS {
      forall k | Live(o.files, k) ensures !Ancestor(t[i].f.h.name, o.files[k].f.h.name) {
        assert Live(t, i) && Live(t, k);
        assert EndsInSlash(path) ==> WithSlash(path) == path && t[i].f.h.kind == TYPE_DIR;
        assert EndsInSlash(path) ==> !(Below(t, k, WithSlash(path)) && |t[k].f.h.name| > |WithSlash(path)|);
      }
      DropKeepsTree(t, o.files);
    }
  }

  lemma BulkRemoveKeepsTree(t: Files, path: seq<byte>)
    requires Tree(t)
    ensures Tree(BulkRemove(t, path).files)
  {
    var o := BulkRemove(t, path);
    var i := Find(t, path, 0);
    if i != -1 && t[i].f.h.kind != TYPE_DIR {
      RemoveKeepsTree(t, path);
    } else if o.status == SUCCESS {
      forall k, j | Live(o.files, k) && Live(t, j) && o.files[j].Empty?
        ensures !Ancestor(t[j].f.h.name, o.files[k].f.h.name) {
        assert Below(t, j, path) && Live(t, k) && !Below(t, k, path);
      }
      DropKeepsTree(t, o.files);
    }
  }

  /** In a tree an entry is found under its own name. */
  lemma FindsItself(t: Files, i: int)
    requires Tree(t) && Live(t, i)
    ensures Find(t, t[i].f.h.name, 0) == i
  {
    var k := Find(t, t[i].f.h.name, 0);
    assert Named(t, i, t[i].f.h.name);
    assert Live(t, k);
  }

  /** In a tree, rewriting a file under its own name can fail only for want of memory. */
  lemma RewriteOutcome(t: Files, e: int, buf: seq<byte>, now: Stamps, room: bool, was: Header)
    requires Tree(t) && Live(t, e) && t[e].f.h.kind == TYPE_FILE && |buf| < RAM_SIZE
    ensures WriteFile(t, t[e].f.h.name, buf, now, room, was) ==
            if room then Outcome(SUCCESS, t[e := Used(Rewritten(t[e].f, buf, now))]) else Outcome(OUTOFMEMORY, t)
  {
    hide ParentsLive, HasDir, Ancestor;
    FindsItself(t, e);
    forall j ensures !DirTwin(t, j, t[e].f.h.name) {
      if Live(t, j) { assert t[j].f.h.name != t[e].f.h.name + [SLASH]; }
    }
  }

  // ----- Runs -----

  datatype Op =
    | Mkdir(dir: seq<byte>, at: Stamps, fits: bool, left: Header)
    | Write(file: seq<byte>, buf: seq<byte>, on: Stamps, space: bool, rest: Header)
    | Unlink(path: seq<byte>)
    | Prune(root: seq<byte>)

  /** New names are canonical; what is removed may be named in any way. */
  ghost predicate Proper(op: Op) {
    match op
    case Mkdir(dir, _, _, _) => CanonicalDir(dir)
    case Write(file, buf, _, _, _) => CanonicalFile(file) && |buf| < RAM_SIZE
    case _ => true
  }

  ghost function Apply(t: Files, op: Op): (o: Outcome)
    requires Proper(op)
  {
    match op
    case Mkdir(dir, at, fits, left) => CreateDir(t, dir, at, fits, left)
    case Write(file, buf, on, space, rest) => WriteFile(t, file, buf, on, space, rest)
    case Unlink(path) => Remove(t, path)
    case Prune(root) => BulkRemove(t, root)
  }

  ghost function ApplyAll(t: Files, ops: seq<Op>): Files
    requires forall op :: op in ops ==> Proper(op)
    decreases |ops|
  {
    if ops == [] then t else ApplyAll(Apply(t, ops[0]).files, ops[1..])
  }

  /** The tree survives every run of operations. */
  lemma {:induction false} RunKeepsTree(t: Files, ops: seq<Op>)
    requires Tree(t) && forall op :: op in ops ==> Proper(op)
    ensures Tree(ApplyAll(t, ops))
    decreases |ops|
  {
    hide Tree, CreateDir, WriteFile, Remove, BulkRemove, CanonicalDir, CanonicalFile;
    if ops != [] {
      assert Proper(ops[0]);
      match ops[0] {
        case Mkdir(dir, at, fits, left) => CreateDirKeepsTree(t, dir, at, fits, left);
        case Write(file, buf, on, space, rest) => WriteFileKeepsTree(t, file, buf, on, space, rest);
        case Unlink(path) => RemoveKeepsTree(t, path);
        case Prune(root) => BulkRemoveKeepsTree(t, root);
      }
      RunKeepsTree(Apply(t, ops[0]).files, ops[1..]);
    }
  }

  // ----- What one call undoes -----

  lemma NothingBelowMissingDir(t: Files, path: seq<byte>, j: int)
    requires Tree(t) && EndsInSlash(path) && |path| > 1 && !HasDir(t, path)
    ensures !Below(t, j, path)
  {
    if Live(t, j) {
      assert !Ancestor(path, t[j].f.h.name) && !LiveDir(t, j, path);
    }
  }

  /** Removing a directory that was just created gives the table back. */
  lemma CreateThenRemove(t: Files, path: seq<byte>, now: Stamps, room: bool, was: Header)
    requires Tree(t) && CanonicalDir(path) && |path| > 1 && CreateDir(t, path, now, room, was).status == SUCCESS
    ensures Remove(CreateDir(t, path, now, room, was).files, path) == Outcome(SUCCESS, t)
  {
    hide SplitOn, DirPath, CanonicalDir, ParentsLive, HasFileWithPrefix;
    var u, i := CreateDir(t, path, now, room, was).files, FreeIndex(t, 0);
    var k := Find(t, path, 0);
    assert k != -1 ==> Live(t, k) && LiveDir(t, k, path);
    assert forall d :: LiveDir(t, d, path) ==> Named(t, d, path);
    forall j | j != i ensures !Named(u, j, path) && !Below(u, j, path) {
      assert !Named(t, j, path);
      NothingBelowMissingDir(t, path, j);
    }
    assert Named(u, i, path);
    assert Find(u, path, 0) == i;
    assert u[i := Empty] == t;
  }

  /** Removing a file that was just created gives the table back. */
  lemma WriteThenRemove(t: Files, path: seq<byte>, buf: seq<byte>, now: Stamps, room: bool, was: Header)
    requires CanonicalFile(path) && |buf| < RAM_SIZE && Find(t, path, 0) == -1
    requires WriteFile(t, path, buf, now, room, was).status == SUCCESS
    ensures Remove(WriteFile(t, path, buf, now, room, was).files, path) == Outcome(SUCCESS, t)
  {
    hide SplitOn, DirPath, FilePath, CanonicalFile, ParentsLive;
    var u, i := WriteFile(t, path, buf, now, room, was).files, FreeIndex(t, 0);
    forall j | j != i ensures !Named(u, j, path) {
      assert !Named(t, j, path);
    }
    assert Named(u, i, path);
    assert Find(u, path, 0) == i;
    assert u[i := Empty] == t;
  }

  // ----- When a directory is refused -----

  /** A directory is refused as a file name exactly when some file name merely begins with the
      slash-less name, whether or not a file of just that name exists. */
  lemma RefusedAsFileIff(t: Files, path: seq<byte>, now: Stamps, room: bool, was: Header)
    requires Tree(t) && CanonicalDir(path)
    ensures CreateDir(t, path, now, room, was).status == FILEEXISTS <==>
            exists i :: Live(t, i) && t[i].f.h.kind == TYPE_FILE && path[..|path| - 1] <= t[i].f.h.name
  {
    var p := path[..|path| - 1];
    forall i | Live(t, i) && t[i].f.h.kind == TYPE_FILE && p <= t[i].f.h.name ensures FileWithPrefix(t, i, p) {}
    if HasFileWithPrefix(t, p) {
      var i :| FileWithPrefix(t, i, p);
      assert Live(t, i);
    }
  }

  /** So with only a file "/ab" around, the directory "/a/" is refused. */
  lemma RefusedWithoutCause(now: Stamps, room: bool, h: Header)
    requires h.kind == TYPE_FILE
    ensures var t := [Used(File(h.(name := [SLASH, 97, 98]), []))];
            && CreateDir(t, [SLASH, 97, SLASH], now, room, h).status == FILEEXISTS
            && Find(t, [SLASH, 97], 0) == -1
  {
    var t := [Used(File(h.(name := [SLASH, 97, 98]), []))];
    assert [SLASH, 97, SLASH][..2] == [SLASH, 97];
    assert FileWithPrefix(t, 0, [SLASH, 97]);
  }

  // ----- The answers, exactly -----

  /** Entry `i` has this name. */
  ghost predicate Bears(t: Files, i: int, path: seq<byte>) {
    Live(t, i) && t[i].f.h.name == path
  }

  ghost predicate Exists(t: Files, path: seq<byte>) {
    exists i :: Bears(t, i, path)
  }

  /** Some ancestor is not there. */
  ghost predicate Orphan(t: Files, path: seq<byte>) {
    exists a :: Ancestor(a, path) && !HasDir(t, a)
  }

  ghost predicate Full(t: Files) {
    forall i :: 0 <= i < |t| ==> t[i].Used?
  }

  /** Some file name begins with `p`. */
  ghost predicate Begun(t: Files, p: seq<byte>) {
    exists i :: Live(t, i) && t[i].f.h.kind == TYPE_FILE && p <= t[i].f.h.name
  }

  /** The lowest empty slot has been filled with a file `f`, and nothing else has changed. */
  ghost predicate FilledIn(t: Files, u: Files, f: File) {
    exists i :: 0 <= i < |t| && t[i].Empty? && (forall j :: 0 <= j < i ==> t[j].Used?) && u == t[i := Used(f)]
  }

  lemma FindsBearer(t: Files, path: seq<byte>)
    requires Tree(t) && path != []
    ensures var i := Find(t, path, 0); (i == -1 <==> !Exists(t, path)) && (i != -1 ==> Bears(t, i, path))
  {
    forall j | Bears(t, j, path) ensures Named(t, j, path) {}
    var i := Find(t, path, 0);
    if i != -1 { assert Bears(t, i, path); }
  }

  lemma Fills(t: Files, f: File)
    ensures FreeIndex(t, 0) == -1 <==> Full(t)
    ensures FreeIndex(t, 0) != -1 ==> FilledIn(t, t[FreeIndex(t, 0) := Used(f)], f)
  {
  }

  /** What `fs_createDir` answers in a tree. */
  lemma CreateDirAnswer(t: Files, path: seq<byte>, now: Stamps, room: bool, was: Header)
    requires Tree(t) && CanonicalDir(path)
    ensures var o, p := CreateDir(t, path, now, room, was), path[..|path| - 1];
            && (o.status == FILEEXISTS <==> Begun(t, p))
            && (o.status == ALREADYEXISTS <==> !Begun(t, p) && Exists(t, path))
            && (o.status == PATHNOTFOUND <==> !Begun(t, p) && !Exists(t, path) && Orphan(t, path))
            && (o.status == OUTOFMEMORY <==>
                !Begun(t, p) && !Exists(t, path) && !Orphan(t, path) && (Full(t) || !room))
            && (o.status == SUCCESS <==> !Begun(t, p) && !Exists(t, path) && !Orphan(t, path) && !Full(t) && room)
            && (o.status != SUCCESS ==> o.files == t)
            && (o.status == SUCCESS ==>
                  FilledIn(t, o.files, File(Header(path, 0, 0, was.size, now.c, now.m, now.a, 511, 5, was.ftype,
                                                   was.devperm, was.mountslot), [])))
  {
    hide SplitOn, DirPath, CanonicalDir, ParentsLive, Ancestor, HasDir, Begun, Exists, Full, FilledIn;
    hide HasFileWithPrefix;
    DirNameEnds(path);
    RefusedAsFileIff(t, path, now, room, was);
    ParentsAreAncestors(t, path);
    FindsBearer(t, path);
    Fills(t, NewDir(path, was, now));
    BegunIff(t, path[..|path| - 1]);
    hide FreeIndex, EndsInSlash;
    var k := Find(t, path, 0);
    if k != -1 { DirBearer(t, k, path); }
  }

  lemma DirNameEnds(path: seq<byte>)
    requires CanonicalDir(path)
    ensures EndsInSlash(path) && 0 < |path| < MAX_PATHLEN
  {
  }

  lemma BegunIff(t: Files, p: seq<byte>)
    requires Tree(t)
    ensures HasFileWithPrefix(t, p) <==> Begun(t, p)
  {
    hide Ancestor, HasDir;
    forall i ensures FileWithPrefix(t, i, p) <==> Live(t, i) && t[i].f.h.kind == TYPE_FILE && p <= t[i].f.h.name {}
  }

  lemma DirBearer(t: Files, k: int, path: seq<byte>)
    requires Tree(t) && Bears(t, k, path) && EndsInSlash(path)
    ensures LiveDir(t, k, path)
  {
  }

  /** What `fs_writeFile` answers in a tree; an existing file is judged by memory alone. */
  lemma WriteFileAnswer(t: Files, path: seq<byte>, buf: seq<byte>, now: Stamps, room: bool, was: Header)
    requires Tree(t) && CanonicalFile(path) && |buf| < RAM_SIZE
    ensures var o, dir := WriteFile(t, path, buf, now, room, was), path + [SLASH];
            && (o.status == DIREXISTS <==> Exists(t, dir))
            && (o.status == PATHNOTFOUND <==> !Exists(t, dir) && !Exists(t, path) && Orphan(t, path))
            && (o.status == OUTOFMEMORY <==>
                !Exists(t, dir) && (Exists(t, path) || !Orphan(t, path)) &&
                (!room || (!Exists(t, path) && Full(t))))
            && (o.status == SUCCESS <==>
                !Exists(t, dir) && (Exists(t, path) || (!Orphan(t, path) && !Full(t))) && room)
            && (o.status != SUCCESS ==> o.files == t)
            && (o.status == SUCCESS && !Exists(t, path) ==>
                  FilledIn(t, o.files, File(Header(path, 0, 0, |buf|, now.c, now.m, now.a, 511, 0, 0, was.devperm,
                                                   was.mountslot), buf)))
  {
    hide SplitOn, DirPath, CanonicalFile, ParentsLive, Ancestor, HasDir, Exists, Full, FilledIn;
    FileNameEnds(path);
    ParentsAreAncestors(t, path);
    FindsBearer(t, path);
    Fills(t, NewFile(path, buf, was, now));
    TwinIff(t, path);
    hide FreeIndex, DirTwin;
  }

  lemma FileNameEnds(path: seq<byte>)
    requires CanonicalFile(path)
    ensures !EndsInSlash(path) && 0 < |path|
  {
    hide SplitOn, DirPath;
    var cs := Split(path, SLASH);
    var n := |cs| - 1;
    assert cs[n] in cs;
    assert path == DirPath(cs[..n]) + cs[n];
    assert path[|path| - 1] == cs[n][|cs[n]| - 1];
  }

  lemma TwinIff(t: Files, path: seq<byte>)
    requires Tree(t)
    ensures (exists j :: DirTwin(t, j, path)) <==> Exists(t, path + [SLASH])
  {
    hide Ancestor, HasDir;
    assert EndsInSlash(path + [SLASH]);
    forall j ensures DirTwin(t, j, path) <==> Bears(t, j, path + [SLASH]) {}
  }

  /** What `fs_remove` answers in a tree: only the root and a directory with something below it
      stay. */
  lemma RemoveAnswer(t: Files, path: seq<byte>)
    requires Tree(t) && path != []
    ensures var o := Remove(t, path);
            && (o.status == FAILURE <==> path == [SLASH])
            && (o.status == ENTRYNOTFOUND <==> path != [SLASH] && !Exists(t, path))
            && (o.status == DIRNOTEMPTY <==>
                path != [SLASH] && Exists(t, path) && EndsInSlash(path)
                && exists j :: Live(t, j) && path < t[j].f.h.name)
            && (o.status == SUCCESS <==>
                path != [SLASH] && Exists(t, path)
                && !(EndsInSlash(path) && exists j :: Live(t, j) && path < t[j].f.h.name))
            && (o.status != SUCCESS ==> o.files == t)
            && (o.status == SUCCESS ==> exists i :: Bears(t, i, path) && o.files == t[i := Empty])
  {
    hide Ancestor, HasDir;
    FindsBearer(t, path);
    var i := Find(t, path, 0);
    if i != -1 { OccupiedIff(t, i, path); }
  }

  lemma OccupiedIff(t: Files, i: int, path: seq<byte>)
    requires Tree(t) && Bears(t, i, path)
    ensures t[i].f.h.kind == TYPE_DIR <==> EndsInSlash(path)
    ensures EndsInSlash(path) ==>
              ((exists j :: Below(t, j, WithSlash(path)) && |t[j].f.h.name| > |WithSlash(path)|) <==>
               exists j :: Live(t, j) && path < t[j].f.h.name)
  {
    hide Ancestor, HasDir;
    if EndsInSlash(path) {
      forall j ensures Below(t, j, path) && |t[j].f.h.name| > |path| <==> Live(t, j) && path < t[j].f.h.name {}
    }
  }

  /** What `fs_bulkRemove` answers in a tree: everything of an existing directory goes, whatever is
      below it. */
  lemma BulkRemoveAnswer(t: Files, path: seq<byte>)
    requires Tree(t) && path != []
    ensures var o := BulkRemove(t, path);
            && (o.status == PATHNOTFOUND <==> !Exists(t, path)) && (o.status == SUCCESS <==> Exists(t, path))
            && (!Exists(t, path) ==> o.files == t) && |o.files| == |t|
            && (Exists(t, path) ==>
                  forall k :: 0 <= k < |t| ==>
                                o.files[k] == if Live(t, k) && (if EndsInSlash(path) then path <= t[k].f.h.name else
                                                                path == t[k].f.h.name) then Empty else t[k])
  {
    hide Ancestor, HasDir;
    FindsBearer(t, path);
    var i := Find(t, path, 0);
    if i != -1 { OccupiedIff(t, i, path); }
  }

  // ----- Parents -----

  /** Length of the name up to and including its last slash before the final character. */
  function ParentEnd(path: seq<byte>, i: nat): (r: nat)
    requires i <= |path|
    ensures r <= i && (r > 0 ==> path[r - 1] == SLASH) && forall k :: r <= k < i ==> path[k] != SLASH
  {
    if i == 0 then 0 else if path[i - 1] == SLASH then i else ParentEnd(path, i - 1)
  }

  /** What is left of a name without its last component, whose own final slash is no end. */
  function ParentPath(path: seq<byte>): (r: seq<byte>)
    requires path != []
    ensures r <= path && |r| < |path| && (r != [] ==> r[|r| - 1] == 47)
    ensures forall k :: |r| <= k < |path| - 1 ==> path[k] != 47
  {
    path[..ParentEnd(path, |path| - 1)]
  }

  lemma ParentOfCanonical(path: seq<byte>)
    requires (CanonicalDir(path) || CanonicalFile(path)) && |path| > 1
    ensures ParentPath(path) == [SLASH] || Ancestor(ParentPath(path), path)
  {
    var cs := Split(path, SLASH);
    var n := |cs| - 1;
    assert cs[n] in cs;
    var d := DirPath(cs[..n]);
    assert path[|d| - 1] == SLASH && d <= path;
    assert |d| <= ParentEnd(path, |path| - 1);
    DirPrefix(cs[..n], 0);
    assert DirPath(cs[..n][..0]) == [SLASH];
  }

  /** With the root in place, every other entry's parent is a live directory. */
  lemma ParentIsLive(t: Files, i: int)
    requires Tree(t) && Live(t, i) && HasDir(t, [SLASH]) && |t[i].f.h.name| > 1
    requires CanonicalDir(t[i].f.h.name) || CanonicalFile(t[i].f.h.name)
    ensures HasDir(t, ParentPath(t[i].f.h.name))
  {
    hide CanonicalDir, CanonicalFile, HasDir;
    ParentOfCanonical(t[i].f.h.name);
  }

  // ----- Reading back -----

  /** After a successful write of a file that is not mounted, a look-up finds exactly the bytes
      written; owner, permissions, creation date and kind of an existing file are kept; every other
      entry is untouched. */
  lemma WrittenIsFound(t: Files, path: seq<byte>, buf: seq<byte>, now: Stamps, room: bool, was: Header)
    requires |buf| < RAM_SIZE && WriteFile(t, path, buf, now, room, was).status == SUCCESS
    requires var i := Find(t, path, 0); i != -1 ==> t[i].f.h.kind == TYPE_FILE && t[i].f.h.ftype != TYPE_MOUNTED
    ensures var u := WriteFile(t, path, buf, now, room, was).files;
            var i, k := Find(t, path, 0), Find(u, path, 0);
            && k != -1 && u[k].f.data == buf && u[k].f.h.size == |buf| && u[k].f.h.name == path
            && u[k].f.h.kind == TYPE_FILE
            && (forall j :: 0 <= j < |t| && j != k ==> u[j] == t[j])
            && (i != -1 ==> k == i && u[k].f.h == t[i].f.h.(size := |buf|, mtime := now.m, atime := now.a))
            && (i == -1 ==> t[k].Empty? && u[k].f.h.ftype == TYPE_FILE && u[k].f.h.perm == PERM_ALL)
  {
    hide ParentsLive;
    var o, i := WriteFile(t, path, buf, now, room, was), Find(t, path, 0);
    var k := if i != -1 then i else FreeIndex(t, 0);
    forall j | j != k ensures Named(o.files, j, path) <==> Named(t, j, path) {}
    assert Named(o.files, k, path);
    assert forall j :: 0 <= j < k ==> !Named(t, j, path);
    assert Find(o.files, path, 0) == k;
  }
}
