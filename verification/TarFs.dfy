/** Mounting a tar archive that lies in memory: the walk over its blocks inverts an encoder. */
module TarFs {
  import opened Bytes
  import opened Paths
  import opened FsSpec
  import opened Headers
  import opened Memory
  import opened MountMgr
  import opened Store
  import opened CoreFs
  import opened Text

  const BLOCK := 512
  const OFS_OCTAL := 124
  const OFS_TYPE := 156
  const OFS_MAGIC := 257
  const REGULAR: byte := 48
  const DIRECTORY: byte := 53
  const USTAR: seq<byte> := [117, 115, 116, 97, 114]

  datatype Entry = Entry(name: seq<byte>, dir: bool, data: seq<byte>)

  // ----- Archives -----

  /** Bytes an entry takes: its header block and its content in whole blocks. */
  function Extent(e: Entry): (r: nat)
    ensures BLOCK + |e.data| <= r < 2 * BLOCK + |e.data|
  {
    BLOCK * (1 + (|e.data| + 511) / 512)
  }

  function Start(es: seq<Entry>, k: nat): nat
    requires k <= |es|
  {
    if k == 0 then 0 else Start(es, k - 1) + Extent(es[k - 1])
  }

  /** Every header lies at a multiple of 512. */
  lemma {:induction false} StartAligned(es: seq<Entry>, k: nat)
    requires k <= |es|
    ensures Start(es, k) % BLOCK == 0
  {
    if k > 0 {
      StartAligned(es, k - 1);
      ExtentAligned(es[k - 1], Start(es, k - 1));
    }
  }

  lemma ExtentAligned(e: Entry, s: nat)
    requires s % BLOCK == 0
    ensures (s + Extent(e)) % BLOCK == 0
  {
  }

  ghost predicate Tagged(m: seq<byte>, a: nat) {
    a + OFS_MAGIC + 5 <= |m| && m[a + OFS_MAGIC..a + OFS_MAGIC + 5] == USTAR
  }

  /** The entry lies at `a`. Fields that the mount does not look at may hold anything. */
  ghost predicate Laid(m: seq<byte>, a: nat, e: Entry) {
    && a + Extent(e) <= |m| && Tagged(m, a)
    && |e.name| < 100 && m[a..a + |e.name|] == e.name && m[a + |e.name|] == 0
    && m[a + OFS_OCTAL..a + OFS_OCTAL + 11] == Octal(|e.data|, 11)
    && m[a + OFS_TYPE] == (if e.dir then DIRECTORY else REGULAR) && m[a + OFS_TYPE + 1] == 0
    && m[a + BLOCK..a + BLOCK + |e.data|] == e.data
  }

  /** The entries one behind the other, and then no further header. */
  ghost predicate Archive(m: seq<byte>, base: nat, es: seq<Entry>) {
    && (forall k :: 0 <= k < |es| ==> Laid(m, base + Start(es, k), es[k]))
    && base + Start(es, |es|) + BLOCK <= |m| && !Tagged(m, base + Start(es, |es|))
  }

  // ----- A reference encoder -----

  /** Owner, times and the rest of the header, which the kernel ignores. */
  datatype Meta = Meta(owner: seq<byte>, times: seq<byte>, rest: seq<byte>)

  predicate MetaOk(x: Meta) {
    |x.owner| == 24 && |x.times| == 20 && |x.rest| == 250
  }

  function Pad(s: seq<byte>, n: nat): (r: seq<byte>)
    requires |s| <= n
    ensures |r| == n && r[..|s|] == s && forall k :: |s| <= k < n ==> r[k] == 0
  {
    s + Zeros(n - |s|)
  }

  function HeaderBlock(e: Entry, x: Meta): (b: seq<byte>)
    requires |e.name| < 100 && MetaOk(x)
    ensures |b| == BLOCK
    ensures b[..|e.name|] == e.name && b[|e.name|] == 0
    ensures b[OFS_OCTAL..OFS_OCTAL + 11] == Octal(|e.data|, 11)
    ensures b[OFS_TYPE] == (if e.dir then DIRECTORY else REGULAR) && b[OFS_TYPE + 1] == 0
    ensures b[OFS_MAGIC..OFS_MAGIC + 5] == USTAR
  {
    var b1 := Pad(e.name, 100) + x.owner;
    var b2 := b1 + Octal(|e.data|, 11) + [0] + x.times;
    var b3 := b2 + [if e.dir then DIRECTORY else REGULAR] + Zeros(100);
    var b := b3 + USTAR + x.rest;
    assert b[OFS_OCTAL..OFS_OCTAL + 11] == Octal(|e.data|, 11);
    b
  }

  function Encode(e: Entry, x: Meta): (b: seq<byte>)
    requires |e.name| < 100 && MetaOk(x)
    ensures |b| == Extent(e)
  {
    HeaderBlock(e, x) + Pad(e.data, Extent(e) - BLOCK)
  }

  predicate Encodable(es: seq<Entry>, xs: seq<Meta>) {
    |es| == |xs| && forall k :: 0 <= k < |es| ==> |es[k].name| < 100 && MetaOk(xs[k])
  }

  function Body(es: seq<Entry>, xs: seq<Meta>, n: nat): (b: seq<byte>)
    requires Encodable(es, xs) && n <= |es|
    ensures |b| == Start(es, n)
  {
    if n == 0 then [] else Body(es, xs, n - 1) + Encode(es[n - 1], xs[n - 1])
  }

  /** The archive: all entries and two blocks of zeros. */
  function EncodeAll(es: seq<Entry>, xs: seq<Meta>): seq<byte>
    requires Encodable(es, xs)
  {
    Body(es, xs, |es|) + Zeros(2 * BLOCK)
  }

  lemma {:induction false} StartSteps(es: seq<Entry>)
    ensures Start(es, 0) == 0 && forall n :: 0 <= n < |es| ==> Start(es, n + 1) == Start(es, n) + Extent(es[n])
  {
    hide Extent;
  }

  lemma {:induction false} StartGrows(es: seq<Entry>, k: nat, n: nat)
    requires k < n <= |es|
    ensures Start(es, k) + Extent(es[k]) <= Start(es, n)
    decreases n
  {
    if k < n - 1 { StartGrows(es, k, n - 1); }
  }

  lemma {:induction false} BodyHolds(es: seq<Entry>, xs: seq<Meta>, k: nat, n: nat)
    requires Encodable(es, xs) && k < n <= |es|
    ensures var b, s := Body(es, xs, n), Start(es, k);
            s + Extent(es[k]) <= |b| && b[s..s + Extent(es[k])] == Encode(es[k], xs[k])
    decreases n
  {
    hide Encode, Extent, Start, Body;
    BodySnoc(es, xs, n);
    if k < n - 1 {
      BodyHolds(es, xs, k, n - 1);
      InFront(Body(es, xs, n - 1), Encode(es[n - 1], xs[n - 1]), Start(es, k), Extent(es[k]));
    } else {
      Behind(Body(es, xs, k), Encode(es[k], xs[k]));
    }
  }

  lemma {:induction false} BodySnoc(es: seq<Entry>, xs: seq<Meta>, n: nat)
    requires Encodable(es, xs) && 0 < n <= |es|
    ensures Body(es, xs, n) == Body(es, xs, n - 1) + Encode(es[n - 1], xs[n - 1])
    ensures |Body(es, xs, n - 1)| == Start(es, n - 1)
  {
  }

  lemma InFront(b: seq<byte>, c: seq<byte>, s: nat, n: nat)
    requires s + n <= |b|
    ensures (b + c)[s..s + n] == b[s..s + n]
  {
  }

  lemma Behind(b: seq<byte>, c: seq<byte>)
    ensures (b + c)[|b|..|b| + |c|] == c
  {
  }

  lemma {:induction false} EncodedIsLaid(m: seq<byte>, a: nat, e: Entry, x: Meta)
    requires |e.name| < 100 && MetaOk(x) && a + Extent(e) <= |m| && m[a..a + Extent(e)] == Encode(e, x)
    ensures Laid(m, a, e)
  {
    var h := HeaderBlock(e, x);
    hide Encode, HeaderBlock, Extent, Octal;
    EncodeParts(e, x);
    FieldOf(m, a, e, x, 0, |e.name|);
    FieldOf(m, a, e, x, OFS_OCTAL, 11);
    FieldOf(m, a, e, x, OFS_MAGIC, 5);
    FieldOf(m, a, e, x, |e.name|, 1);
    FieldOf(m, a, e, x, OFS_TYPE, 1);
    FieldOf(m, a, e, x, OFS_TYPE + 1, 1);
    Within(m, a, Extent(e), BLOCK, |e.data|);
    Within(Encode(e, x), 0, Extent(e), BLOCK, |e.data|);
    assert Encode(e, x)[BLOCK..][..|e.data|] == Encode(e, x)[BLOCK..BLOCK + |e.data|];
  }

  /** A field of the header is where the encoder put it. */
  lemma {:induction false} FieldOf(m: seq<byte>, a: nat, e: Entry, x: Meta, ofs: nat, n: nat)
    requires |e.name| < 100 && MetaOk(x) && a + Extent(e) <= |m| && m[a..a + Extent(e)] == Encode(e, x)
    requires ofs + n <= BLOCK
    ensures m[a + ofs..a + ofs + n] == HeaderBlock(e, x)[ofs..ofs + n]
    ensures n == 1 ==> m[a + ofs] == HeaderBlock(e, x)[ofs]
  {
    hide Encode, HeaderBlock, Extent;
    EncodeParts(e, x);
    Within(m, a, Extent(e), ofs, n);
    var b := Encode(e, x);
    Within(b, 0, BLOCK, ofs, n);
    assert b[0..BLOCK] == b[..BLOCK];
    if n == 1 { assert m[a + ofs] == m[a..a + Extent(e)][ofs] == b[ofs] == b[..BLOCK][ofs]; }
  }

  lemma {:induction false} EncodeParts(e: Entry, x: Meta)
    requires |e.name| < 100 && MetaOk(x)
    ensures Encode(e, x)[..BLOCK] == HeaderBlock(e, x) && Encode(e, x)[BLOCK..] == Pad(e.data, Extent(e) - BLOCK)
  {
  }

  lemma {:induction false} Within(m: seq<byte>, a: nat, n: nat, ofs: nat, k: nat)
    requires a + n <= |m| && ofs + k <= n
    ensures m[a..a + n][ofs..ofs + k] == m[a + ofs..a + ofs + k]
  {
    var x, y := m[a..a + n][ofs..ofs + k], m[a + ofs..a + ofs + k];
    assert forall i :: 0 <= i < k ==> x[i] == m[a..a + n][ofs + i] == y[i];
  }

  /** Memory that holds the encoder's output holds the archive. */
  lemma {:induction false} EncodedIsArchive(m: seq<byte>, base: nat, es: seq<Entry>, xs: seq<Meta>)
    requires Encodable(es, xs)
    requires base + |EncodeAll(es, xs)| <= |m| && m[base..base + |EncodeAll(es, xs)|] == EncodeAll(es, xs)
    ensures Archive(m, base, es)
  {
    hide Laid, Tagged;
    forall k | 0 <= k < |es| ensures Laid(m, base + Start(es, k), es[k]) {
      EncodedEntry(m, base, es, xs, k);
    }
    EncodedEnd(m, base, es, xs);
  }

  lemma {:induction false} EncodedEntry(m: seq<byte>, base: nat, es: seq<Entry>, xs: seq<Meta>, k: nat)
    requires Encodable(es, xs) && k < |es|
    requires base + |EncodeAll(es, xs)| <= |m| && m[base..base + |EncodeAll(es, xs)|] == EncodeAll(es, xs)
    ensures Laid(m, base + Start(es, k), es[k])
  {
    hide Laid, Encode, Extent, Body, Start;
    var all, s, x := EncodeAll(es, xs), Start(es, k), Extent(es[k]);
    BodyHolds(es, xs, k, |es|);
    Within(m, base, |all|, s, x);
    Within(all, 0, |Body(es, xs, |es|)|, s, x);
    assert all[0..|Body(es, xs, |es|)|] == Body(es, xs, |es|);
    EncodedIsLaid(m, base + s, es[k], xs[k]);
  }

  lemma {:induction false} EncodedEnd(m: seq<byte>, base: nat, es: seq<Entry>, xs: seq<Meta>)
    requires Encodable(es, xs)
    requires base + |EncodeAll(es, xs)| <= |m| && m[base..base + |EncodeAll(es, xs)|] == EncodeAll(es, xs)
    ensures base + Start(es, |es|) + BLOCK <= |m| && !Tagged(m, base + Start(es, |es|))
  {
    hide Body, Start;
    var all, n := EncodeAll(es, xs), Start(es, |es|);
    assert all[n + OFS_MAGIC] == 0;
    assert m[base + (n + OFS_MAGIC)] == m[base..base + |all|][n + OFS_MAGIC];
    TagStart(m, base + n);
  }

  lemma {:induction false} TagStart(m: seq<byte>, a: nat)
    ensures Tagged(m, a) ==> m[a + OFS_MAGIC] == 117
  {
    if Tagged(m, a) { assert m[a + OFS_MAGIC] == m[a + OFS_MAGIC..a + OFS_MAGIC + 5][0]; }
  }

  // ----- What a mount does to the table -----

  /** The slot is the entry `e` at address `a`, under the mount path. */
  ghost predicate Shows(s: Slot, v: seq<nat>, path: seq<byte>, e: Entry, a: nat) {
    && s.Used? && s.f.h.name == path + e.name
    && if e.dir then s.f.h.kind == TYPE_DIR
       else
         && s.f.h.kind == TYPE_FILE && s.f.h.ftype == TYPE_MOUNTED && s.f.h.size == |e.data|
         && s.f.h.mountslot < |v| && v[s.f.h.mountslot] == a + BLOCK
  }

  /** Later entries of the same name replace earlier ones. */
  predicate Last(es: seq<Entry>, k: int, n: int) {
    0 <= k < n <= |es| && !Replaced(es, k, n)
  }

  predicate Replaced(es: seq<Entry>, k: int, n: int)
    requires 0 <= k < n <= |es|
  {
    exists j :: k < j < n && es[j].name == es[k].name
  }

  /** Entry `e` went into one slot; nothing else changed, and no mount slot in use was touched. */
  ghost predicate Stepped(t: Files, u: Files, v: seq<nat>, w: seq<nat>, path: seq<byte>, e: Entry, a: nat) {
    var i := Find(u, path + e.name, 0);
    && i != -1 && |u| == |t| && u == t[i := u[i]] && (t[i].Empty? || t[i].f.h.name == path + e.name)
    && Shows(u[i], w, path, e, a)
    && |w| == |v| && forall s :: 0 <= s < |v| && v[s] != 0 ==> w[s] == v[s]
  }

  /** The slot is one of the first `n` entries. */
  ghost predicate OneOf(s: Slot, v: seq<nat>, path: seq<byte>, es: seq<Entry>, base: nat, n: nat)
    requires n <= |es|
  {
    exists k :: Last(es, k, n) && Shows(s, v, path, es[k], base + Start(es, k))
  }

  /** Entry `e` is found under its name. */
  ghost predicate Found(u: Files, v: seq<nat>, path: seq<byte>, e: Entry, a: nat) {
    var i := Find(u, path + e.name, 0);
    i != -1 && Shows(u[i], v, path, e, a)
  }

  /** What was there under another name is there still, and no mount slot in use was touched. */
  ghost predicate Untouched(t: Files, u: Files, v: seq<nat>, w: seq<nat>) {
    && |u| == |t| && |w| == |v|
    && (forall i :: 0 <= i < |t| && t[i].Used? && u[i] != t[i] ==> u[i].Used? && u[i].f.h.name == t[i].f.h.name)
    && (forall s :: 0 <= s < |v| && v[s] != 0 ==> w[s] == v[s])
  }

  /** After `n` entries, from the table `t` and the mount slots `v`: every slot is as before or is one
      of them, only an entry of the same name is replaced, and each of them that no later one replaced
      is found under its name. */
  ghost predicate Gained(t: Files, u: Files, v: seq<nat>, w: seq<nat>, path: seq<byte>, es: seq<Entry>, base: nat,
                         n: nat)
    requires n <= |es|
  {
    && Untouched(t, u, v, w)
    && (forall i :: 0 <= i < |t| ==> u[i] == t[i] || OneOf(u[i], w, path, es, base, n))
    && (forall k :: Last(es, k, n) ==> Found(u, w, path, es[k], base + Start(es, k)))
  }

  lemma {:induction false} GainedNone(t: Files, v: seq<nat>, path: seq<byte>, es: seq<Entry>, base: nat)
    ensures Gained(t, t, v, v, path, es, base, 0)
  {
  }

  lemma {:induction false} UntouchedNext(t: Files, u: Files, u': Files, v0: seq<nat>, v: seq<nat>, v': seq<nat>,
                                         path: seq<byte>, e: Entry, a: nat)
    requires Untouched(t, u, v0, v) && Stepped(u, u', v, v', path, e, a)
    ensures Untouched(t, u', v0, v')
  {
    hide Find;
  }

  /** A file or directory that was there under a name the archive does not have is still found, as it was. */
  lemma {:induction false} OthersSurvive(t: Files, u: Files, v: seq<nat>, w: seq<nat>, path: seq<byte>, es: seq<Entry>,
                                         base: nat, n: nat, i: int)
    requires n <= |es| && Gained(t, u, v, w, path, es, base, n) && Tree(u) && Live(t, i)
    requires forall k :: 0 <= k < n ==> path + es[k].name != t[i].f.h.name
    ensures u[i] == t[i] && Find(u, t[i].f.h.name, 0) == i
  {
    hide Tree, Find, OneOf;
    OneOfNamed(u[i], w, path, es, base, n);
    FindsItself(u, i);
  }

  lemma {:induction false} OneOfNamed(s: Slot, w: seq<nat>, path: seq<byte>, es: seq<Entry>, base: nat, n: nat)
    requires n <= |es|
    ensures OneOf(s, w, path, es, base, n) ==> s.Used? && exists k :: 0 <= k < n && s.f.h.name == path + es[k].name
  {
    hide Start, Replaced;
  }

  lemma {:induction false} LastNext(es: seq<Entry>, k: int, n: nat)
    requires n < |es|
    ensures Last(es, k, n + 1) <==> k == n || (Last(es, k, n) && es[k].name != es[n].name)
    ensures Last(es, k, n) ==> 0 <= k < n
  {
  }

  lemma {:induction false} GainedNext(t: Files, u: Files, u': Files, v0: seq<nat>, v: seq<nat>, v': seq<nat>,
                                      path: seq<byte>, es: seq<Entry>, base: nat, n: nat)
    requires n < |es| && Gained(t, u, v0, v, path, es, base, n)
    requires Stepped(u, u', v, v', path, es[n], base + Start(es, n)) && Tree(u')
    ensures Gained(t, u', v0, v', path, es, base, n + 1)
  {
    hide Replaced, Shows, Find, Tree, OneOf, Start, Untouched;
    UntouchedNext(t, u, u', v0, v, v', path, es[n], base + Start(es, n));
    UntouchedLengths(t, u, v0, v);
    UntouchedLengths(t, u', v0, v');
    forall k | Last(es, k, n + 1) ensures Found(u', v', path, es[k], base + Start(es, k)) {
      LastNext(es, k, n);
      if k != n { OtherStays(u, u', v, v', path, es[n], base + Start(es, n), es[k], base + Start(es, k)); }
    }
    forall j | 0 <= j < |t| && u'[j] != t[j] ensures OneOf(u'[j], v', path, es, base, n + 1) {
      StillOneOf(u, u', v, v', path, es, base, n, j);
    }
  }

  lemma {:induction false} UntouchedLengths(t: Files, u: Files, v: seq<nat>, w: seq<nat>)
    requires Untouched(t, u, v, w)
    ensures |u| == |t| && |w| == |v|
  {
  }

  lemma {:induction false} StillOneOf(u: Files, u': Files, v: seq<nat>, v': seq<nat>, path: seq<byte>, es: seq<Entry>,
                                      base: nat, n: nat, j: nat)
    requires n < |es| && Stepped(u, u', v, v', path, es[n], base + Start(es, n)) && Tree(u') && j < |u|
    requires u'[j] != u[j] || OneOf(u[j], v, path, es, base, n)
    ensures OneOf(u'[j], v', path, es, base, n + 1)
  {
    hide Find, Tree, Start;
    var i := Find(u', path + es[n].name, 0);
    if j == i {
      LastNext(es, n, n);
    } else {
      var k :| Last(es, k, n) && Shows(u[j], v, path, es[k], base + Start(es, k));
      LastNext(es, k, n);
      OneOfAName(u', i, j);
      assert Shows(u'[j], v', path, es[k], base + Start(es, k));
    }
  }

  lemma {:induction false} OneOfAName(t: Files, i: int, j: int)
    requires Tree(t) && i != j
    ensures Live(t, i) && Live(t, j) ==> t[i].f.h.name != t[j].f.h.name
  {
  }

  lemma {:induction false} OtherStays(u: Files, u': Files, v: seq<nat>, v': seq<nat>, path: seq<byte>, e: Entry, a: nat,
                                      o: Entry, b: nat)
    requires Stepped(u, u', v, v', path, e, a) && o.name != e.name && Found(u, v, path, o, b)
    ensures Found(u', v', path, o, b)
  {
    var i, j := Find(u', path + e.name, 0), Find(u, path + o.name, 0);
    assert (path + o.name)[|path|..] == o.name && (path + e.name)[|path|..] == e.name;
    assert i != j;
    assert forall x :: Named(u', x, path + o.name) <==> Named(u, x, path + o.name);
  }

  /** A canonical name below the mount path, and a size that the 32-bit arithmetic carries. */
  ghost predicate Mountable(path: seq<byte>, e: Entry) {
    && NulFree(path) && NulFree(e.name) && |e.data| <= INT_MAX - 511
    && if e.dir then CanonicalDir(path + e.name) else CanonicalFile(path + e.name)
  }

  lemma {:induction false} DirStep(t: Files, u: Files, v: seq<nat>, path: seq<byte>, e: Entry, a: nat, now: Stamps,
                                   room: bool, was: Header)
    requires Tree(t) && e.dir && CanonicalDir(path + e.name)
    requires FsSpec.CreateDir(t, path + e.name, now, room, was) == Outcome(SUCCESS, u)
    ensures Stepped(t, u, v, v, path, e, a) && Tree(u)
  {
    hide Tree, CanonicalDir, ParentsLive, HasFileWithPrefix;
    CreateDirKeepsTree(t, path + e.name, now, room, was);
    FindsItself(u, FreeIndex(t, 0));
  }

  /** A file entry made to point at its mount. */
  function Mounted(f: File, slot: word, size: word): File {
    File(f.h.(ftype := TYPE_MOUNTED, mountslot := slot, size := size), [])
  }

  lemma {:induction false} FileMade(t: Files, u: Files, path: seq<byte>, e: Entry, now: Stamps, room: bool, was: Header)
    requires Tree(t) && !e.dir && CanonicalFile(path + e.name)
    requires FsSpec.WriteFile(t, path + e.name, [], now, room, was) == Outcome(SUCCESS, u)
    ensures Find(u, path + e.name, 0) != -1
  {
    hide Tree, CanonicalFile, ParentsLive;
    var p := path + e.name;
    WriteFileKeepsTree(t, p, [], now, room, was);
    FindsItself(u, if Find(t, p, 0) != -1 then Find(t, p, 0) else FreeIndex(t, 0));
  }

  lemma {:induction false} FileStep(t: Files, u: Files, w: Files, v: seq<nat>, slot: word, path: seq<byte>, e: Entry,
                                    a: nat, now: Stamps, room: bool, was: Header)
    requires Tree(t) && !e.dir && CanonicalFile(path + e.name) && |e.data| < RAM_SIZE
    requires FsSpec.WriteFile(t, path + e.name, [], now, room, was) == Outcome(SUCCESS, u) && slot < |v| && v[slot] == 0
    requires var i := Find(u, path + e.name, 0); i != -1 ==> w == u[i := Used(Mounted(u[i].f, slot, |e.data|))]
    ensures Find(u, path + e.name, 0) != -1 && Stepped(t, w, v, v[slot := a + BLOCK], path, e, a) && Tree(w) && Tree(u)
  {
    hide Tree, CanonicalFile, ParentsLive;
    var p := path + e.name;
    WriteFileKeepsTree(t, p, [], now, room, was);
    var k := if Find(t, p, 0) != -1 then Find(t, p, 0) else FreeIndex(t, 0);
    FileKind(t, k);
    FindsItself(u, k);
    RenameNothing(u, k, Mounted(u[k].f, slot, |e.data|));
    FindsItself(w, k);
  }

  lemma {:induction false} FileKind(t: Files, k: int)
    requires Tree(t)
    ensures Live(t, k) && t[k].f.h.kind != TYPE_DIR ==> t[k].f.h.kind == TYPE_FILE
  {
  }

  /** What a mounted file reads as: the address of its archived bytes, and its size. */
  lemma {:induction false} ReadsBack(t: Files, u: Files, v0: seq<nat>, v: seq<nat>, m: seq<byte>, path: seq<byte>,
                                     es: seq<Entry>, base: nat, k: nat)
    requires Gained(t, u, v0, v, path, es, base, |es|) && Archive(m, base, es) && Last(es, k, |es|) && !es[k].dir
    ensures var i := Find(u, path + es[k].name, 0);
            && i != -1 && u[i].f.h.kind == TYPE_FILE && u[i].f.h.ftype == TYPE_MOUNTED && u[i].f.h.mountslot < |v|
            && var p, n := v[u[i].f.h.mountslot], u[i].f.h.size; p + n <= |m| && m[p..p + n] == es[k].data
  {
    hide Find, Replaced, Extent, Start, Octal, Tagged, OneOf, Laid;
    assert Found(u, v, path, es[k], base + Start(es, k));
    assert Laid(m, base + Start(es, k), es[k]);
    DataLaid(m, base + Start(es, k), es[k]);
  }

  lemma {:induction false} DataLaid(m: seq<byte>, a: nat, e: Entry)
    requires Laid(m, a, e)
    ensures a + BLOCK + |e.data| <= |m| && m[a + BLOCK..a + BLOCK + |e.data|] == e.data
  {
    hide Octal, Tagged;
  }

  lemma {:induction false} LaidKept(m: seq<byte>, r: seq<byte>, a: nat, e: Entry)
    requires Laid(m, a, e) && Same(m, r, a, a + Extent(e))
    ensures Laid(r, a, e)
  {
    hide Extent, Octal;
    SameSlice(m, r, a, a + |e.name|);
    SameSlice(m, r, a + OFS_OCTAL, a + OFS_OCTAL + 11);
    SameSlice(m, r, a + OFS_MAGIC, a + OFS_MAGIC + 5);
    SameSlice(m, r, a + BLOCK, a + BLOCK + |e.data|);
  }

  lemma {:induction false} ArchiveKept(m: seq<byte>, r: seq<byte>, base: nat, es: seq<Entry>)
    requires Archive(m, base, es) && Same(m, r, base, base + Start(es, |es|) + BLOCK)
    ensures Archive(r, base, es)
  {
    hide Laid, Extent, Start;
    forall k | 0 <= k < |es| ensures Laid(r, base + Start(es, k), es[k]) {
      StartGrows(es, k, |es|);
      LaidKept(m, r, base + Start(es, k), es[k]);
    }
    var z := base + Start(es, |es|);
    SameSlice(m, r, z + OFS_MAGIC, z + OFS_MAGIC + 5);
  }

  lemma {:induction false} LaidIsTagged(m: seq<byte>, a: nat, e: Entry)
    requires Laid(m, a, e)
    ensures Tagged(m, a)
  {
  }

  lemma {:induction false} TagEnds(m: seq<byte>, base: nat, es: seq<Entry>, n: nat)
    requires Archive(m, base, es) && n <= |es|
    ensures base + Start(es, n) + BLOCK <= base + Start(es, |es|) + BLOCK <= |m|
    ensures Tagged(m, base + Start(es, n)) <==> n < |es|
  {
    hide Extent, Laid, Tagged, Start;
    if n < |es| {
      StartGrows(es, n, |es|);
      LaidIsTagged(m, base + Start(es, n), es[n]);
    }
  }

  lemma {:induction false} TagSame(m: seq<byte>, r: seq<byte>, a: nat)
    requires a + BLOCK <= |m| && Same(m, r, a, a + BLOCK)
    ensures Tagged(r, a) <==> Tagged(m, a)
  {
    SameSlice(m, r, a + OFS_MAGIC, a + OFS_MAGIC + 5);
  }

  /** Memory outside the allocator's pool is not touched. */
  lemma {:induction false} OutsideKept(f: Fs, g: Fs, a: nat, n: nat)
    requires Spared(f, g) && (a + n <= f.space || f.space + BLKSIZE * |f.table| <= a)
    ensures Same(f.mem, g.mem, a, a + n)
  {
  }

  /** Whether there is a block for one more entry, and what it holds. */
  ghost predicate OneMore(g: Fs)
    requires Consistent(g)
  {
    Room(g, HEADER)
  }

  ghost function OneLeft(g: Fs): Header
    requires Consistent(g)
  {
    Leftover(g, HEADER)
  }

  /** In state `g` the entry cannot be mounted: the file system refuses it, or there is no slot left.
      In the latter case the empty file stays behind. */
  ghost predicate Refused(g: Fs, u: Files, v: seq<nat>, up: bool, path: seq<byte>, e: Entry, now: Stamps)
    requires Consistent(g)
  {
    var p, room, was := path + e.name, OneMore(g), OneLeft(g);
    if e.dir then u == View(g) && FsSpec.CreateDir(View(g), p, now, room, was).status != SUCCESS
    else
      var o := FsSpec.WriteFile(View(g), p, [], now, room, was);
      u == o.files && (o.status != SUCCESS || !up || FreeSlot(v, 0) == -1)
  }

  // ----- The walk -----

  class TarFs {
    const fs: CoreFs
    const raBuffer: array<byte>

    constructor (fs: CoreFs, raBuffer: array<byte>)
      ensures this.fs == fs && this.raBuffer == raBuffer
    {
      this.fs, this.raBuffer := fs, raBuffer;
    }

    ghost predicate Valid()
      reads this, fs, fs.heap, fs.heap.blockV, fs.heap.ram, fs.entryV, fs.mounts
    {
      && fs.Valid() && (fs.initLock ==> Tree(fs.Files()))
      && raBuffer.Length == 64 && raBuffer != fs.heap.ram && raBuffer != fs.raPath
    }

    /** The path buffer is a run of its own, taken since state `f0`. */
    ghost predicate Ready(f0: Fs, pb: nat)
      reads this, fs, fs.heap, fs.heap.blockV, fs.heap.ram, fs.entryV, fs.mounts
    {
      && Valid() && fs.initLock && Spared(f0, fs.Now()) && RunLen(f0.table, f0.space, pb) == 0
      && RunLen(fs.heap.Table(), fs.heap.space, pb) > 0 && pb !in fs.entryV[..] && pb + BLKSIZE <= RAM_SIZE
    }

    predicate Outside(a: nat, n: nat)
      reads fs, fs.heap
    {
      a + n <= fs.heap.space || fs.heap.limit <= a
    }

    /** Whether a header begins here: the archive format puts its name at offset 257. */
    method IsTagged(a: nat) returns (b: bool)
      requires a + BLOCK <= fs.heap.ram.Length
      ensures b <==> Tagged(fs.heap.ram[..], a)
    {
      var i := 0;
      while i < 5
        invariant 0 <= i <= 5 && forall k :: 0 <= k < i ==> fs.heap.ram[a + OFS_MAGIC + k] == USTAR[k]
      {
        if fs.heap.ram[a + OFS_MAGIC + i] != USTAR[i] {
          assert fs.heap.ram[..][a + OFS_MAGIC..a + OFS_MAGIC + 5][i] != USTAR[i];
          return false;
        }
        i := i + 1;
      }
      return true;
    }

    lemma {:induction false} NameBytesAt(m: seq<byte>, a: nat, e: Entry)
      requires Laid(m, a, e) && NulFree(e.name)
      ensures forall i :: a <= i < a + |e.name| ==> m[i] != 0
    {
      assert forall i :: a <= i < a + |e.name| ==> m[i] == m[a..a + |e.name|][i - a];
    }

    /** The string in the name field. */
    method NameField(a: nat, ghost e: Entry) returns (name: seq<byte>)
      requires Laid(fs.heap.ram[..], a, e) && NulFree(e.name)
      ensures name == e.name
    {
      hide Extent, Octal;
      NameBytesAt(fs.heap.ram[..], a, e);
      var n := 0;
      while fs.heap.ram[a + n] != 0
        invariant 0 <= n <= |e.name|
        decreases |e.name| - n
      {
        n := n + 1;
      }
      name := fs.heap.ram[a..a + n];
    }

    /** The size field of a header, eleven octal digits. */
    method SizeField(a: nat, ghost e: Entry) returns (n: int)
      requires Laid(fs.heap.ram[..], a, e) && |e.data| <= INT_MAX
      ensures n == |e.data|
    {
      hide Octal, OctValue, Extent;
      n := Oct2Bin(fs.heap.ram, a + OFS_OCTAL, 11);
      assert fs.heap.ram[a + OFS_OCTAL..a + OFS_OCTAL + 11] == fs.heap.ram[..][a + OFS_OCTAL..a + OFS_OCTAL + 11];
      SizeSurvives(|e.data|);
    }

    /** The type of an entry as a number; the field has one character. */
    method TypeField(a: nat, ghost e: Entry) returns (n: int)
      requires Laid(fs.heap.ram[..], a, e)
      ensures n == if e.dir then 5 else 0
    {
      hide Octal, Extent;
      ghost var c := fs.heap.ram[a + OFS_TYPE];
      n := Atoi(fs.heap.ram, a + OFS_TYPE, [c]);
      OneDigit(c);
    }

    lemma {:induction false} OneDigit(c: byte)
      ensures IsDigit(c) ==> Number([c]) == c - ZERO
    {
      if IsDigit(c) {
        assert [c][0..] == [c] && [c][..1] == [c] && [c][..0] == [] && [c][1..] == [];
        assert Value([c], 10) == Value([], 10) * 10 + (c - ZERO);
        assert DigitRun([c]) == 1;
      }
    }

    /** The mount path and the name of the entry, one behind the other, go into the path buffer. */
    method BuildPath(path: seq<byte>, name: seq<byte>, pb: nat, ghost f0: Fs) returns (p: seq<byte>)
      requires Ready(f0, pb) && NulFree(path) && NulFree(name) && |path + name| < MAX_PATHLEN
      modifies fs.heap.ram, raBuffer
      ensures Ready(f0, pb) && fs.Files() == old(fs.Files()) && p == path + name && NulFree(p)
    {
      hide HeaderAt, FileAt, Consistent, View, Memory.WellFormed, RunLen, Tree, Spared;
      ghost var g := fs.Now();
      TwoStrings(path, name);
      var written := Snprintf(fs.heap.ram, pb, MAX_PATHLEN, [PERCENT, S, PERCENT, S], [Str(path), Str(name)], raBuffer);
      p := fs.heap.ram[pb..pb + written];
      ScratchWrite(f0, g, fs.Now(), pb, BLKSIZE);
    }

    lemma {:induction false} TwoStrings(path: seq<byte>, name: seq<byte>)
      requires NulFree(path) && NulFree(name)
      ensures var fmt, args := [PERCENT, S, PERCENT, S], [Str(path), Str(name)];
              Fits(fmt, args) && Expand(fmt, args) == path + name
    {
      var fmt, args := [PERCENT, S, PERCENT, S], [Str(path), Str(name)];
      assert fmt[2..] == [PERCENT, S] && args[1..] == [Str(name)];
      assert [PERCENT, S][2..] == [] && [Str(name)][1..] == [];
      assert Expand([PERCENT, S], [Str(name)]) == name + [];
    }

    /** The run of the path buffer survives what spares it. */
    lemma {:induction false} StillReady(f0: Fs, g: Fs, pb: nat)
      requires Spared(f0, g) && RunLen(f0.table, f0.space, pb) == 0 && RunLen(g.table, g.space, pb) > 0 && pb !in g.ptrs
      requires pb + BLKSIZE <= RAM_SIZE
      requires Valid() && fs.initLock && Spared(g, fs.Now())
      ensures Ready(f0, pb)
    {
      hide RunLen, Spared, Tree, View, Consistent;
      SparedTrans(f0, g, fs.Now());
      SparedKeeps(g, fs.Now(), pb);
    }

    method AddDir(p: seq<byte>, now: Stamps, ghost path: seq<byte>, ghost e: Entry, ghost a: nat, ghost f0: Fs,
                  ghost pb: nat) returns (ok: bool)
      requires Ready(f0, pb) && p == path + e.name && NulFree(p) && e.dir && CanonicalDir(p)
      modifies fs.raPath, fs.entryV, fs.heap.blockV, fs.heap.ram
      ensures Ready(f0, pb)
      ensures ok ==> Stepped(old(fs.Files()), fs.Files(), fs.mounts.mountV[..], fs.mounts.mountV[..], path, e, a)
      ensures !ok ==> Refused(old(fs.Now()), fs.Files(), fs.mounts.mountV[..], fs.mounts.initLock, path, e, now)
    {
      hide HeaderAt, FileAt, Consistent, View, Memory.WellFormed, RunLen, Tree, Spared, FsSpec.CreateDir, Room;
      hide Leftover, Stepped, CanonicalDir;
      ghost var g, t := fs.Now(), fs.Files();
      ghost var room, was := Room(g, BLKSIZE), Leftover(g, BLKSIZE);
      var sts := fs.CreateDir(p, now);
      CreateDirKeepsTree(t, p, now, room, was);
      StillReady(f0, g, pb);
      if sts != SUCCESS { return false; }
      DirStep(t, fs.Files(), fs.mounts.mountV[..], path, e, a, now, room, was);
      return true;
    }

    /** The empty file that has just been made is turned into a mounted one, with its slot and its size. */
    method Attach(fent: nat, slot: word, size: word, ghost i: nat, ghost f0: Fs, ghost pb: nat)
      requires Ready(f0, pb) && i < ENTCOUNT && fs.entryV[i] == fent != 0 && slot < MOUNTLIMIT
      modifies fs.heap.ram
      ensures Ready(f0, pb)
      ensures var h := old(fs.Files())[i].f.h.(ftype := TYPE_MOUNTED, mountslot := slot, size := size);
              fs.Files() == old(fs.Files())[i := Used(File(h, []))]
    {
      hide HeaderAt, FileAt, Consistent, View, Memory.WellFormed, RunLen, Tree, Spared;
      ghost var g, t := fs.Now(), fs.Files();
      fs.SlotFacts(i);
      EntryHoused(g, i);
      PutByte(fs.heap.ram, fent, OFS_FTYPE, TYPE_MOUNTED);
      PutSlot(fs.heap.ram, fent, slot);
      PutSize(fs.heap.ram, fent, size);
      EditEntry(g, fs.Now(), i);
      MountedAt(fs.heap.ram[..], fent);
      RenameNothing(t, i, Mounted(t[i].f, slot, size));
      StillReady(f0, g, pb);
    }

    lemma {:induction false} MountedAt(m: seq<byte>, a: nat)
      requires a + HEADER <= |m| && HeaderAt(m, a).ftype == TYPE_MOUNTED
      ensures FileAt(m, a) == File(HeaderAt(m, a), [])
    {
    }

    /** An empty file under the path in the buffer. */
    method MakeEmpty(p: seq<byte>, now: Stamps, ghost f0: Fs, ghost pb: nat)
      returns (ok: bool, ghost room: bool, ghost was: Header)
      requires Ready(f0, pb) && NulFree(p) && |p| < MAX_PATHLEN && CanonicalFile(p)
      modifies fs.raPath, fs.entryV, fs.heap.blockV, fs.heap.ram
      ensures Ready(f0, pb)
      ensures room == old(OneMore(fs.Now())) && was == old(OneLeft(fs.Now()))
      ensures ok <==> FsSpec.WriteFile(old(fs.Files()), p, [], now, room, was).status == SUCCESS
      ensures fs.Files() == FsSpec.WriteFile(old(fs.Files()), p, [], now, room, was).files
    {
      hide HeaderAt, FileAt, Consistent, View, Memory.WellFormed, RunLen, Tree, Spared, FsSpec.WriteFile, Room;
      hide Leftover, CanonicalFile;
      ghost var g := fs.Now();
      room, was := Room(g, HEADER), Leftover(g, HEADER);
      ghost var t := fs.Files();
      var sts := fs.WriteFile(p, 0, Null, now);
      WriteFileKeepsTree(t, p, [], now, room, was);
      StillReady(f0, g, pb);
      ok := sts == SUCCESS;
    }

    /** The size of an archived entry, read from an archive outside the pool. */
    method ArchivedSize(a: nat, ghost e: Entry, ghost f0: Fs, ghost pb: nat) returns (n: int)
      requires Ready(f0, pb) && Kept(f0, a, e)
      ensures n == |e.data|
    {
      hide Laid, Extent, Spared;
      OutsideKept(f0, fs.Now(), a, Extent(e));
      LaidKept(f0.mem, fs.heap.ram[..], a, e);
      n := SizeField(a, e);
    }

    /** The entry lies where neither the allocator nor the file system writes. */
    ghost predicate Kept(f0: Fs, a: nat, e: Entry)
      reads fs, fs.heap
    {
      && Laid(f0.mem, a, e) && Outside(a, Extent(e)) && f0.space == fs.heap.space && |f0.table| == fs.heap.blockC
      && |e.data| <= INT_MAX
    }

    /** An empty file is made and pointed at the archived bytes. */
    method AddFile(p: seq<byte>, a: nat, now: Stamps, ghost path: seq<byte>, ghost e: Entry, ghost f0: Fs,
                   ghost pb: nat) returns (ok: bool)
      requires Ready(f0, pb) && p == path + e.name && NulFree(p) && |p| < MAX_PATHLEN && !e.dir && CanonicalFile(p)
      requires Kept(f0, a, e)
      modifies fs.raPath, fs.entryV, fs.heap.blockV, fs.heap.ram, fs.mounts.mountV
      ensures Ready(f0, pb)
      ensures ok ==> Stepped(old(fs.Files()), fs.Files(), old(fs.mounts.mountV[..]), fs.mounts.mountV[..], path, e, a)
      ensures !ok ==> fs.mounts.mountV[..] == old(fs.mounts.mountV[..])
      ensures !ok ==> Refused(old(fs.Now()), fs.Files(), fs.mounts.mountV[..], fs.mounts.initLock, path, e, now)
    {
      hide HeaderAt, FileAt, Consistent, View, Memory.WellFormed, RunLen, Tree, Spared, FsSpec.WriteFile, Stepped, Laid;
      hide CanonicalFile, Extent, Find, OneMore, OneLeft;
      ghost var t, v := fs.Files(), fs.mounts.mountV[..];
      ghost var room, was;
      ok, room, was := MakeEmpty(p, now, f0, pb);
      if !ok { return; }
      ghost var u := fs.Files();
      ghost var i := Find(u, p, 0);
      FileMade(t, u, path, e, now, room, was);
      var fent := fs.Stat(p);
      if fent == 0 {
        assert false;
      }
      var slot := fs.mounts.GetSlot(a + BLOCK);
      if slot == -1 { return false; }
      var size := ArchivedSize(a, e, f0, pb);
      Attach(fent, slot, size, i, f0, pb);
      FileStep(t, u, fs.Files(), v, slot, path, e, a, now, room, was);
    }

    /** One round of the walk; `next` is the offset of the next header. */
    method MountEntry(path: seq<byte>, base: nat, ofs: nat, pb: nat, now: Stamps, ghost e: Entry, ghost f0: Fs)
      returns (ok: bool, next: nat, ghost g: Fs)
      requires Ready(f0, pb) && Mountable(path, e) && Kept(f0, base + ofs, e)
      modifies fs.raPath, fs.entryV, fs.heap.blockV, fs.heap.ram, fs.mounts.mountV, raBuffer
      ensures Ready(f0, pb)
      ensures ok ==> next == ofs + Extent(e) && Stepped(old(fs.Files()), fs.Files(), old(fs.mounts.mountV[..]),
                                                        fs.mounts.mountV[..], path, e, base + ofs)
      ensures Consistent(g) && View(g) == old(fs.Files())
      ensures !ok ==> fs.mounts.mountV[..] == old(fs.mounts.mountV[..])
      ensures !ok ==> Refused(g, fs.Files(), fs.mounts.mountV[..], fs.mounts.initLock, path, e, now)
    {
      hide Refused, HeaderAt, FileAt, Consistent, View, Memory.WellFormed, RunLen, Tree, Spared, Stepped, Laid;
      hide CanonicalFile, CanonicalDir, Find;
      next := ofs;
      OutsideKept(f0, fs.Now(), base + ofs, Extent(e));
      LaidKept(f0.mem, fs.heap.ram[..], base + ofs, e);
      var name := NameField(base + ofs, e);
      var kind := TypeField(base + ofs, e);
      CanonicalFits(path, e);
      var p := BuildPath(path, name, pb, f0);
      g := fs.Now();
      if kind == 5 {
        ok := AddDir(p, now, path, e, base + ofs, f0, pb);
      } else {
        ok := AddFile(p, base + ofs, now, path, e, f0, pb);
      }
      if !ok { return; }
      var size := ArchivedSize(base + ofs, e, f0, pb);
      next := ofs + ((size + 511) / 512 + 1) * 512;
    }

    lemma {:induction false} CanonicalFits(path: seq<byte>, e: Entry)
      requires Mountable(path, e)
      ensures |path + e.name| < MAX_PATHLEN
    {
    }

    ghost predicate NoBuffer()
      requires Valid() && fs.initLock
      reads this, fs, fs.heap, fs.heap.blockV, fs.heap.ram, fs.entryV, fs.mounts
    {
      MallocOf(fs.heap.Table(), fs.heap.space, MAX_PATHLEN).ptr == 0
    }

    /** `malloc(FS_MAX_PATHLEN)`: the path buffer, which is never given back. */
    method TakeBuffer() returns (pb: nat)
      requires Valid() && fs.initLock
      modifies fs.heap.blockV
      ensures Valid() && fs.Files() == old(fs.Files())
      ensures pb != 0 ==> Ready(old(fs.Now()), pb)
      ensures pb == 0 <==> old(NoBuffer())
      ensures pb == 0 ==> fs.Now() == old(fs.Now())
    {
      hide HeaderAt, FileAt, Consistent, View, MallocOf, FreeOf, Memory.WellFormed, RunLen, Tree, Spared;
      ghost var g := fs.Now();
      ShapeOf(g);
      MallocAdds(g.table, g.space, MAX_PATHLEN);
      pb := fs.heap.Malloc(MAX_PATHLEN);
      if pb != 0 { OtherMalloc(g, fs.Now(), MAX_PATHLEN); }
    }

    /** Nothing can be mounted: there is no such path, no archive, or no memory for the path buffer. */
    ghost predicate Hopeless(path: seq<byte>, base: nat, size: word, es: seq<Entry>)
      requires Valid()
      reads this, fs, fs.heap, fs.heap.blockV, fs.heap.ram, fs.entryV, fs.mounts
    {
      || base == 0 || size == 0 || es == [] || !fs.initLock || Find(fs.Files(), path, 0) == -1
      || NoBuffer()
    }

    /** `tarfs_mount`. The archive lies outside the allocator's pool, its names are canonical below
        `path`, and `clock` is what the clock says at each entry. */
    method Mount(path: seq<byte>, base: nat, size: word, clock: nat -> Stamps, ghost es: seq<Entry>)
      returns (r: int, ghost n: nat, ghost g: Fs)
      requires Valid() && NulFree(path)
      requires Archive(fs.heap.ram[..], base, es) && Outside(base, Start(es, |es|) + BLOCK) && Start(es, |es|) <= size
      requires forall e :: e in es ==> Mountable(path, e)
      modifies fs.raPath, fs.entryV, fs.heap.blockV, fs.heap.ram, fs.mounts.mountV, raBuffer
      ensures Valid() && (r == 0 || r == -1)
      ensures r == 0 ==>
                && fs.initLock && es != [] && Archive(fs.heap.ram[..], base, es)
                && Gained(old(fs.Files()), fs.Files(), old(fs.mounts.mountV[..]), fs.mounts.mountV[..], path, es, base,
                          |es|)
      ensures fs.initLock ==> Spared(old(fs.Now()), fs.Now())
      ensures old(Hopeless(path, base, size, es)) ==>
                r == -1 && fs.Now() == old(fs.Now()) && fs.mounts.mountV[..] == old(fs.mounts.mountV[..])
      ensures !old(Hopeless(path, base, size, es)) && r == -1 ==>
                && fs.initLock && n < |es| && Consistent(g)
                && Gained(old(fs.Files()), View(g), old(fs.mounts.mountV[..]), fs.mounts.mountV[..], path, es, base, n)
                && Refused(g, fs.Files(), fs.mounts.mountV[..], fs.mounts.initLock, path, es[n], clock(n))
    {
      hide Refused, HeaderAt, FileAt, Consistent, View, Memory.WellFormed, RunLen, Tree, Spared, Stepped, Laid, Find;
      hide Gained, Mountable, Start, Archive, Tagged;
      SparedRefl(fs.Now());
      ghost var f0 := fs.Now();
      r, n, g := -1, 0, f0;
      if base == 0 || size == 0 { return; }
      var at := fs.Stat(path);
      if at == 0 { return; }
      StartSteps(es);
      TagEnds(fs.heap.ram[..], base, es, 0);
      var tagged := IsTagged(base);
      if !tagged { return; }
      ghost var t := fs.Files();
      var pb := TakeBuffer();
      if pb == 0 { return; }
      r, n, g := Walk(path, base, size, pb, clock, es, f0, t);
      if r == 0 {
        OutsideKept(f0, fs.Now(), base, Start(es, |es|) + BLOCK);
        ArchiveKept(f0.mem, fs.heap.ram[..], base, es);
      }
    }

    lemma {:induction false} EntryKept(f0: Fs, path: seq<byte>, base: nat, es: seq<Entry>, n: nat)
      requires n < |es| && Archive(f0.mem, base, es) && Outside(base, Start(es, |es|) + BLOCK)
      requires f0.space == fs.heap.space && |f0.table| == fs.heap.blockC && forall e :: e in es ==> Mountable(path, e)
      ensures Kept(f0, base + Start(es, n), es[n]) && Mountable(path, es[n])
    {
      hide Laid, Start, Extent;
      StartGrows(es, n, |es|);
      assert es[n] in es;
    }

    /** The loop over the headers. */
    method Walk(path: seq<byte>, base: nat, size: word, pb: nat,
                clock: nat -> Stamps, ghost es: seq<Entry>, ghost f0: Fs, ghost t: Files)
      returns (r: int, ghost n: nat, ghost g: Fs)
      requires Ready(f0, pb) && t == fs.Files() && f0.space == fs.heap.space && |f0.table| == fs.heap.blockC
      requires |f0.mem| == RAM_SIZE
      requires Archive(f0.mem, base, es) && Outside(base, Start(es, |es|) + BLOCK) && Start(es, |es|) <= size
      requires forall e :: e in es ==> Mountable(path, e)
      modifies fs.raPath, fs.entryV, fs.heap.blockV, fs.heap.ram, fs.mounts.mountV, raBuffer
      ensures Ready(f0, pb) && (r == 0 || r == -1)
      ensures r == 0 ==> Gained(t, fs.Files(), old(fs.mounts.mountV[..]), fs.mounts.mountV[..], path, es, base, |es|)
      ensures r == -1 ==>
                && n < |es| && Consistent(g)
                && Gained(t, View(g), old(fs.mounts.mountV[..]), fs.mounts.mountV[..], path, es, base, n)
                && Refused(g, fs.Files(), fs.mounts.mountV[..], fs.mounts.initLock, path, es[n], clock(n))
    {
      hide Refused, HeaderAt, FileAt, Consistent, View, Memory.WellFormed, RunLen, Tree, Spared, Stepped, Laid, Find;
      hide Gained, Mountable, Start, Extent, Archive, Kept, Tagged;
      var ofs, k := 0, 0;
      n, g := 0, f0;
      ghost var v0 := fs.mounts.mountV[..];
      GainedNone(t, v0, path, es, base);
      StartSteps(es);
      while true
        invariant k == n <= |es| && ofs == Start(es, n) && Ready(f0, pb)
        invariant Gained(t, fs.Files(), v0, fs.mounts.mountV[..], path, es, base, n)
        decreases |es| - n
      {
        TagEnds(f0.mem, base, es, n);
        OutsideKept(f0, fs.Now(), base, Start(es, |es|) + BLOCK);
        TagSame(f0.mem, fs.heap.ram[..], base + ofs);
        var tagged := IsTagged(base + ofs);
        if n < |es| { StartGrows(es, n, |es|); }
        if !tagged || ofs >= size { break; }
        ghost var u, v := fs.Files(), fs.mounts.mountV[..];
        EntryKept(f0, path, base, es, n);
        var ok, next;
        ok, next, g := MountEntry(path, base, ofs, pb, clock(k), es[n], f0);
        if !ok { return -1, n, g; }
        GainedNext(t, u, fs.Files(), v0, v, fs.mounts.mountV[..], path, es, base, n);
        ofs, k, n := next, k + 1, n + 1;
      }
      r := 0;
    }
  }
}
