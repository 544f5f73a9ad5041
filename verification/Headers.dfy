/** Entry headers as they lie in memory: the fields of the structure at their offsets in the first
    block of the entry's run. */
module Headers {
  import opened Bytes
  import opened Paths
  import opened FsSpec

  const HEADER := 4096
  const OFS_USER := 3840
  const OFS_GROUP := 3844
  const OFS_SIZE := 3848
  const OFS_CTIME := 3852
  const OFS_MTIME := 3860
  const OFS_ATIME := 3868
  const OFS_PERM := 3876
  const OFS_KIND := 3878
  const OFS_FTYPE := 3879
  const OFS_DEVPERM := 3880
  const OFS_SLOT := 3884

  /** The bytes of `s` before its first NUL. */
  function Cut(s: seq<byte>): (r: seq<byte>)
    ensures r <= s && NulFree(r) && (|r| < |s| ==> s[|r|] == 0)
    decreases |s|
  {
    if s == [] || s[0] == 0 then [] else [s[0]] + Cut(s[1..])
  }

  /** The C string in the `n` bytes at `a`. */
  function CStr(m: seq<byte>, a: nat, n: nat): seq<byte>
    requires a + n <= |m|
  {
    Cut(m[a..a + n])
  }

  /** A string without a NUL: the value of a C string. */
  predicate NulFree(s: seq<byte>) {
    forall i :: 0 <= i < |s| ==> s[i] != 0
  }

  lemma {:induction false} CutIs(s: seq<byte>, p: seq<byte>)
    requires |p| < |s| && NulFree(p) && p <= s && s[|p|] == 0
    ensures Cut(s) == p
    decreases |s|
  {
    if p != [] { CutIs(s[1..], p[1..]); }
  }

  function DateAt(m: seq<byte>, a: nat): Date
    requires a + 8 <= |m|
  {
    Date(Get32(m, a), Get32(m, a + 4))
  }

  function HeaderAt(m: seq<byte>, a: nat): Header
    requires a + HEADER <= |m|
  {
    Header(CStr(m, a, MAX_PATHLEN), Get32(m, a + OFS_USER), Get32(m, a + OFS_GROUP), Get32(m, a + OFS_SIZE),
           DateAt(m, a + OFS_CTIME), DateAt(m, a + OFS_MTIME), DateAt(m, a + OFS_ATIME),
           Get16(m, a + OFS_PERM), m[a + OFS_KIND], m[a + OFS_FTYPE], m[a + OFS_DEVPERM], Get32(m, a + OFS_SLOT))
  }

  lemma HeaderSlice(m: seq<byte>, a: nat)
    requires a + HEADER <= |m|
    ensures HeaderAt(m, a) == HeaderAt(m[a..a + HEADER], 0)
  {
    hide Cut;
    var x := m[a..a + HEADER];
    assert x[0..MAX_PATHLEN] == m[a..a + MAX_PATHLEN];
  }

  /** The header is a function of the block it lies in. */
  lemma HeaderMoved(m: seq<byte>, a: nat, r: seq<byte>, b: nat)
    requires a + HEADER <= |m| && b + HEADER <= |r| && m[a..a + HEADER] == r[b..b + HEADER]
    ensures HeaderAt(m, a) == HeaderAt(r, b)
  {
    hide HeaderAt;
    HeaderSlice(m, a);
    HeaderSlice(r, b);
  }

  /** Writing inside the fixed part changes only the fields it overlaps. */
  lemma HeaderKept(m: seq<byte>, r: seq<byte>, a: nat, ofs: nat, n: nat)
    requires a + HEADER <= |m| == |r| && OFS_USER <= ofs && ofs + n <= HEADER
    requires forall i :: a <= i < a + HEADER && !(a + ofs <= i < a + ofs + n) ==> r[i] == m[i]
    ensures var h, g := HeaderAt(m, a), HeaderAt(r, a);
            && g.name == h.name
            && (Off(ofs, n, OFS_USER, 4) ==> g.user == h.user) && (Off(ofs, n, OFS_GROUP, 4) ==> g.group == h.group)
            && (Off(ofs, n, OFS_SIZE, 4) ==> g.size == h.size) && (Off(ofs, n, OFS_CTIME, 8) ==> g.ctime == h.ctime)
            && (Off(ofs, n, OFS_MTIME, 8) ==> g.mtime == h.mtime) && (Off(ofs, n, OFS_ATIME, 8) ==> g.atime == h.atime)
            && (Off(ofs, n, OFS_PERM, 2) ==> g.perm == h.perm) && (Off(ofs, n, OFS_KIND, 1) ==> g.kind == h.kind)
            && (Off(ofs, n, OFS_FTYPE, 1) ==> g.ftype == h.ftype)
            && (Off(ofs, n, OFS_DEVPERM, 1) ==> g.devperm == h.devperm)
            && (Off(ofs, n, OFS_SLOT, 4) ==> g.mountslot == h.mountslot)
  {
    assert m[a..a + MAX_PATHLEN] == r[a..a + MAX_PATHLEN];
    hide Cut;
  }

  predicate Off(ofs: nat, n: nat, at: nat, k: nat) {
    ofs + n <= at || at + k <= ofs
  }

  // ----- Stores into a header -----

  method PutSize(ram: array<byte>, a: nat, w: word)
    requires a + HEADER <= ram.Length
    modifies ram
    ensures HeaderAt(ram[..], a) == old(HeaderAt(ram[..], a)).(size := w)
    ensures ram[..] == Splice(old(ram[..]), a + OFS_SIZE, Enc32(w))
  {
    ghost var m := ram[..];
    Store32(ram, a + OFS_SIZE, w);
    HeaderKept(m, ram[..], a, OFS_SIZE, 4);
  }

  method PutDate(ram: array<byte>, a: nat, ofs: nat, d: Date)
    requires a + HEADER <= ram.Length && ofs in {OFS_CTIME, OFS_MTIME, OFS_ATIME}
    modifies ram
    ensures var h := old(HeaderAt(ram[..], a));
            HeaderAt(ram[..], a) == if ofs == OFS_CTIME then h.(ctime := d)
            else if ofs == OFS_MTIME then h.(mtime := d) else h.(atime := d)
    ensures Same(old(ram[..]), ram[..], 0, a + ofs) && Same(old(ram[..]), ram[..], a + ofs + 8, ram.Length)
  {
    hide CStr, Get32, Get16, Splice, Enc32;
    ghost var m := ram[..];
    Store32(ram, a + ofs, d.lo);
    Store32(ram, a + ofs + 4, d.hi);
    HeaderKept(m, ram[..], a, ofs, 8);
  }

  method PutByte(ram: array<byte>, a: nat, ofs: nat, b: byte)
    requires a + HEADER <= ram.Length && ofs in {OFS_KIND, OFS_FTYPE, OFS_DEVPERM}
    modifies ram
    ensures var h := old(HeaderAt(ram[..], a));
            HeaderAt(ram[..], a) == if ofs == OFS_KIND then h.(kind := b)
            else if ofs == OFS_FTYPE then h.(ftype := b) else h.(devperm := b)
    ensures ram[..] == Splice(old(ram[..]), a + ofs, [b])
  {
    hide CStr, Get32, Get16;
    ghost var m := ram[..];
    CopyIn(ram, a + ofs, [b]);
    HeaderKept(m, ram[..], a, ofs, 1);
  }

  method PutSlot(ram: array<byte>, a: nat, w: word)
    requires a + HEADER <= ram.Length
    modifies ram
    ensures HeaderAt(ram[..], a) == old(HeaderAt(ram[..], a)).(mountslot := w)
    ensures ram[..] == Splice(old(ram[..]), a + OFS_SLOT, Enc32(w))
  {
    ghost var m := ram[..];
    Store32(ram, a + OFS_SLOT, w);
    HeaderKept(m, ram[..], a, OFS_SLOT, 4);
  }

  method PutPerm(ram: array<byte>, a: nat)
    requires a + HEADER <= ram.Length
    modifies ram
    ensures HeaderAt(ram[..], a) == old(HeaderAt(ram[..], a)).(perm := PERM_ALL)
    ensures Same(old(ram[..]), ram[..], 0, a + OFS_PERM) && Same(old(ram[..]), ram[..], a + OFS_PERM + 2, ram.Length)
  {
    hide CStr;
    ghost var m := ram[..];
    CopyIn(ram, a + OFS_PERM, [255, 1]);
    HeaderKept(m, ram[..], a, OFS_PERM, 2);
  }

  /** Owner and group are always 0. */
  method PutOwner(ram: array<byte>, a: nat)
    requires a + HEADER <= ram.Length
    modifies ram
    ensures HeaderAt(ram[..], a) == old(HeaderAt(ram[..], a)).(user := 0, group := 0)
    ensures Same(old(ram[..]), ram[..], 0, a + OFS_USER) && Same(old(ram[..]), ram[..], a + OFS_SIZE, ram.Length)
  {
    hide CStr, Get32, Get16, Splice, Enc32;
    ghost var m := ram[..];
    Store32(ram, a + OFS_USER, 0);
    Store32(ram, a + OFS_GROUP, 0);
    HeaderKept(m, ram[..], a, OFS_USER, 8);
  }

  /** `copy` of a path into the name field, terminator included. */
  method PutName(ram: array<byte>, a: nat, path: seq<byte>)
    requires a + HEADER <= ram.Length && NulFree(path) && |path| < MAX_PATHLEN
    modifies ram
    ensures HeaderAt(ram[..], a) == old(HeaderAt(ram[..], a)).(name := path)
    ensures ram[..] == Splice(old(ram[..]), a, path + [0])
  {
    ghost var m := ram[..];
    CopyIn(ram, a, path + [0]);
    ghost var r := ram[..];
    assert r[a..a + |path|] == path;
    assert r[a..a + MAX_PATHLEN][..|path|] == r[a..a + |path|];
    CutIs(r[a..a + MAX_PATHLEN], path);
    hide Cut;
    assert forall i :: a + OFS_USER <= i < a + HEADER ==> r[i] == m[i];
  }

  // ----- Names that do not fit -----

  /** Memory after `copy(ent->name, path)` and the stores of owner and group, whatever the length. */
  function Labelled(m: seq<byte>, a: nat, path: seq<byte>): seq<byte>
    requires a + HEADER <= |m| && a + |path| + 1 <= |m|
  {
    Splice(Splice(m, a, path + [0]), a + OFS_USER, Zeros(8))
  }

  /** The name that a later look-up compares is the path exactly when the path has at most 3840
      characters; of a longer one the first 3840 are left, and the file is never found again. */
  lemma NameKeptIff(m: seq<byte>, a: nat, path: seq<byte>)
    requires a + HEADER <= |m| && a + |path| + 1 <= |m| && NulFree(path)
    ensures var n := if |path| < MAX_PATHLEN then |path| else MAX_PATHLEN;
            CStr(Labelled(m, a, path), a, HEADER) == path[..n]
    ensures CStr(Labelled(m, a, path), a, HEADER) == path <==> |path| <= MAX_PATHLEN
  {
    var r := Labelled(m, a, path);
    var n := if |path| < MAX_PATHLEN then |path| else MAX_PATHLEN;
    var x := r[a..a + HEADER];
    assert forall i :: 0 <= i < HEADER ==> x[i] == r[a + i];
    assert path[..n] <= x && x[n] == 0;
    hide Splice;
    CutIs(x, path[..n]);
  }

  /** Past the fields that creation sets, a long name leaves its own bytes: the device permissions of
      the new file are a character of its path. */
  lemma LongNameSpills(m: seq<byte>, a: nat, path: seq<byte>)
    requires a + HEADER <= |m| && a + |path| + 1 <= |m| && |path| > OFS_DEVPERM
    ensures HeaderAt(Labelled(m, a, path), a).devperm == path[OFS_DEVPERM]
  {
  }
}
