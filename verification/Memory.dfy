/** The block allocator: first fit over a table of 4096-byte blocks in which only the head of
    an allocated run carries the length of the run. */
module Memory {
  import opened Bytes

  const BLKSIZE := 4096

  datatype Block = Block(count: nat, used: bool)
  type Table = seq<Block>

  // ----- The table as a set of runs -----

  predicate InRun(t: Table, h: int, k: int) {
    0 <= h <= k < |t| && k - h < t[h].count
  }

  /** The allocated blocks are partitioned into runs; a run has its length at its head and 0 in
      every other cell, and free blocks have 0. */
  ghost predicate WellFormed(t: Table) {
    && (forall i :: 0 <= i < |t| && !t[i].used ==> t[i].count == 0)
    && (forall h :: 0 <= h < |t| && t[h].count > 0 ==> h + t[h].count <= |t|)
    && (forall h, k :: InRun(t, h, k) && h < k ==> t[k] == Block(0, true))
    && (forall k :: 0 <= k < |t| && t[k].used ==> exists h :: InRun(t, h, k))
  }

  /** Head of each run, with its length. */
  function Runs(t: Table): map<int, nat> {
    map h: int | 0 <= h < |t| && t[h].count > 0 :: t[h].count
  }

  lemma RunsDisjoint(t: Table, g: int, h: int, k: int)
    requires WellFormed(t) && InRun(t, g, k) && InRun(t, h, k)
    ensures g == h
  {
    if g < h { assert InRun(t, g, h); }
    if h < g { assert InRun(t, h, g); }
  }

  /** The runs determine the table: nothing else is recorded in it. */
  lemma RunsDetermine(t: Table, u: Table)
    requires WellFormed(t) && WellFormed(u) && |t| == |u| && Runs(t) == Runs(u)
    ensures t == u
  {
    forall k | 0 <= k < |t| ensures t[k].count == u[k].count {
      assert k in Runs(t) <==> k in Runs(u);
    }
    assert forall h, k :: InRun(t, h, k) <==> InRun(u, h, k);
  }

  // ----- Searching and marking -----

  predicate Gap(t: Table, i: int, n: nat) {
    0 <= i && i + n <= |t| && forall j :: i <= j < i + n ==> !t[j].used
  }

  /** First fit: the lowest gap of `n` blocks at or above `i`, or -1. */
  function FirstFit(t: Table, n: nat, i: nat): (r: int)
    ensures r != -1 ==> Gap(t, r, n) && i <= r
    ensures forall g :: i <= g && (r == -1 || g < r) ==> !Gap(t, g, n)
    decreases |t| - i
  {
    if i + n > |t| then -1
    else if Gap(t, i, n) then i
    else if i < |t| then FirstFit(t, n, i + 1)
    else -1
  }

  function Marked(t: Table, b: nat, n: nat, k: nat): Block
    requires b < |t| && k < |t|
  {
    if k == b then Block(n, n > 0 || t[b].used) else if b < k < b + n then Block(0, true) else t[k]
  }

  /** Blocks [b, b + n) marked as one run. With `n == 0` only the count of block `b` is cleared. */
  function Mark(t: Table, b: nat, n: nat): (r: Table)
    requires b + n <= |t| && b < |t|
    ensures |r| == |t| && forall k :: 0 <= k < |t| ==> r[k] == Marked(t, b, n, k)
  {
    seq(|t|, k requires 0 <= k < |t| => Marked(t, b, n, k))
  }

  /** The run headed by block `b` released; nothing happens when `b` heads no run. */
  function Release(t: Table, b: nat): (r: Table)
    requires b < |t|
    ensures |r| == |t| && forall k :: 0 <= k < |t| ==> r[k] == if b <= k < b + t[b].count then Block(0, false) else t[k]
  {
    seq(|t|, k requires 0 <= k < |t| => if b <= k < b + t[b].count then Block(0, false) else t[k])
  }

  lemma MarkRuns(t: Table, b: nat, n: nat)
    requires WellFormed(t) && Gap(t, b, n) && n > 0
    ensures forall h, k :: InRun(Mark(t, b, n), h, k) <==> InRun(t, h, k) || (h == b && b <= k < b + n)
    ensures forall h, k :: InRun(t, h, k) ==> !(b <= k < b + n)
  {
    hide Mark;
    forall h, k | InRun(t, h, k) ensures !(b <= k < b + n) && !(b <= h < b + n) {
      assert t[h].count > 0 && t[h].used;
      if h < k { assert t[k] == Block(0, true); }
    }
  }

  lemma MarkWellFormed(t: Table, b: nat, n: nat)
    requires WellFormed(t) && Gap(t, b, n) && n > 0
    ensures WellFormed(Mark(t, b, n))
    ensures Runs(Mark(t, b, n)) == Runs(t)[b := n] && b !in Runs(t)
  {
    MarkRuns(t, b, n);
    MarkCovers(t, b, n);
    MarkHeads(t, b, n);
    MarkCells(t, b, n);
    hide Mark, Runs, Gap;
  }

  lemma MarkCovers(t: Table, b: nat, n: nat)
    requires WellFormed(t) && Gap(t, b, n) && n > 0
    ensures var r := Mark(t, b, n); forall k :: 0 <= k < |r| && r[k].used ==> exists h :: InRun(r, h, k)
  {
    hide Mark;
    var r := Mark(t, b, n);
    MarkRuns(t, b, n);
    hide InRun, Gap;
    forall k | 0 <= k < |r| && r[k].used ensures exists h :: InRun(r, h, k) {
      if b <= k < b + n {
        assert InRun(r, b, k);
      } else {
        assert t[k].used;
        var h :| InRun(t, h, k);
        assert InRun(r, h, k);
      }
    }
  }

  lemma MarkCells(t: Table, b: nat, n: nat)
    requires WellFormed(t) && Gap(t, b, n) && n > 0
    ensures var r := Mark(t, b, n);
            && (forall i :: 0 <= i < |r| && !r[i].used ==> r[i].count == 0)
            && (forall h :: 0 <= h < |r| && r[h].count > 0 ==> h + r[h].count <= |r|)
            && (forall h, k :: InRun(r, h, k) && h < k ==> r[k] == Block(0, true))
  {
    hide Mark;
    MarkRuns(t, b, n);
  }

  lemma MarkHeads(t: Table, b: nat, n: nat)
    requires WellFormed(t) && Gap(t, b, n) && n > 0
    ensures Runs(Mark(t, b, n)) == Runs(t)[b := n] && b !in Runs(t)
  {
    hide Mark;
    assert forall h :: b <= h < b + n ==> t[h].count == 0;
  }

  lemma ReleaseRuns(t: Table, b: nat)
    requires WellFormed(t) && b < |t|
    ensures forall h, k :: InRun(Release(t, b), h, k) <==> InRun(t, h, k) && h != b
    ensures forall h, k :: InRun(t, h, k) && h != b ==> !(b <= k < b + t[b].count) && !(b <= h < b + t[b].count)
  {
    hide Release;
    forall h, k | InRun(t, h, k) && h != b ensures !(b <= k < b + t[b].count) && !(b <= h < b + t[b].count) {
      if b <= k < b + t[b].count { RunsDisjoint(t, b, h, k); }
      if b <= h < b + t[b].count { RunsDisjoint(t, b, h, h); }
    }
  }

  lemma ReleaseWellFormed(t: Table, b: nat)
    requires WellFormed(t) && b < |t|
    ensures WellFormed(Release(t, b)) && Runs(Release(t, b)) == map h | h in Runs(t) && h != b :: Runs(t)[h]
  {
    ReleaseCovers(t, b);
    ReleaseCells(t, b);
    ReleaseHeads(t, b);
    hide Release, Runs;
  }

  lemma ReleaseCovers(t: Table, b: nat)
    requires WellFormed(t) && b < |t|
    ensures var r := Release(t, b); forall k :: 0 <= k < |r| && r[k].used ==> exists h :: InRun(r, h, k)
  {
    hide Release;
    var r := Release(t, b);
    ReleaseRuns(t, b);
    forall k | 0 <= k < |r| && r[k].used ensures exists h :: InRun(r, h, k) {
      assert t[k].used && !(b <= k < b + t[b].count);
      var h :| InRun(t, h, k);
      assert InRun(r, h, k);
    }
  }

  lemma ReleaseCells(t: Table, b: nat)
    requires WellFormed(t) && b < |t|
    ensures var r := Release(t, b);
            && (forall i :: 0 <= i < |r| && !r[i].used ==> r[i].count == 0)
            && (forall h :: 0 <= h < |r| && r[h].count > 0 ==> h + r[h].count <= |r|)
            && (forall h, k :: InRun(r, h, k) && h < k ==> r[k] == Block(0, true))
  {
    hide Release;
    var r := Release(t, b);
    ReleaseRuns(t, b);
    forall h, k | InRun(r, h, k) && h < k ensures r[k] == Block(0, true) {
      assert InRun(t, h, k);
    }
  }

  lemma ReleaseHeads(t: Table, b: nat)
    requires WellFormed(t) && b < |t|
    ensures Runs(Release(t, b)) == map h | h in Runs(t) && h != b :: Runs(t)[h]
  {
    hide Release;
    var r := Release(t, b);
    ReleaseRuns(t, b);
    hide WellFormed;
    forall h | 0 <= h < |t| && t[h].count > 0 && h != b ensures r[h] == t[h] {
      assert InRun(t, h, h);
    }
    forall h | 0 <= h < |t| && r[h].count > 0 ensures r[h] == t[h] && h != b {
      assert r[h] != Block(0, false);
    }
  }

  /** Releasing what was just marked gives the table back, cell for cell. */
  lemma MarkReleaseRestores(t: Table, b: nat, n: nat)
    requires WellFormed(t) && Gap(t, b, n) && n > 0
    ensures Release(Mark(t, b, n), b) == t
  {
  }

  // ----- Conservation -----

  function FreeFrom(t: Table, i: nat): nat
    requires i <= |t|
    decreases |t| - i
  {
    if i == |t| then 0 else (if t[i].used then 0 else 1) + FreeFrom(t, i + 1)
  }

  function RunSumFrom(t: Table, i: nat): nat
    requires i <= |t|
    decreases |t| - i
  {
    if i == |t| then 0 else t[i].count + RunSumFrom(t, i + 1)
  }

  /** The free blocks and the lengths of all runs add up to the size of the table. */
  lemma Conservation(t: Table)
    requires WellFormed(t)
    ensures FreeFrom(t, 0) + RunSumFrom(t, 0) == |t|
  {
    ConservationFrom(t, 0);
  }

  lemma {:induction false} ConservationFrom(t: Table, i: nat)
    requires WellFormed(t) && i <= |t|
    requires forall h :: 0 <= h < i ==> h + t[h].count <= i
    ensures FreeFrom(t, i) + RunSumFrom(t, i) == |t| - i
    decreases |t| - i
  {
    if i < |t| {
      var n := if t[i].used then t[i].count else 1;
      if t[i].used {
        HeadAt(t, i);
        SkipRun(t, i, n);
      }
      FreeCell(t, i);
      hide FreeFrom, RunSumFrom;
      assert forall h :: 0 <= h < i + n ==> h + t[h].count <= i + n;
      hide WellFormed;
      ConservationFrom(t, i + n);
    }
  }

  lemma FreeCell(t: Table, i: nat)
    requires WellFormed(t) && i < |t|
    ensures !t[i].used ==>
              t[i].count == 0 && FreeFrom(t, i) + RunSumFrom(t, i) == FreeFrom(t, i + 1) + RunSumFrom(t, i + 1) + 1
  {
  }

  lemma SkipRun(t: Table, i: nat, n: nat)
    requires 0 < n && i + n <= |t| && t[i] == Block(n, true) && forall k :: i < k < i + n ==> t[k] == Block(0, true)
    ensures FreeFrom(t, i) + RunSumFrom(t, i) == FreeFrom(t, i + n) + RunSumFrom(t, i + n) + n
  {
    SkipInterior(t, i + 1, i + n);
  }

  lemma HeadAt(t: Table, i: nat)
    requires WellFormed(t) && i < |t| && t[i].used
    requires forall h :: 0 <= h < i ==> h + t[h].count <= i
    ensures t[i].count > 0 && i + t[i].count <= |t|
    ensures forall k :: i < k < i + t[i].count ==> t[k] == Block(0, true)
    ensures forall h :: 0 <= h < i + t[i].count ==> h + t[h].count <= i + t[i].count
  {
    var h :| InRun(t, h, i);
    assert h == i;
    var n := t[i].count;
    assert n > 0 && i + n <= |t|;
    forall k | i < k < i + n ensures t[k] == Block(0, true) {
      assert InRun(t, i, k);
    }
    forall g | 0 <= g < i + n ensures g + t[g].count <= i + n {
      if g > i { assert t[g] == Block(0, true); }
    }
  }

  lemma {:induction false} SkipInterior(t: Table, i: nat, j: nat)
    requires i <= j <= |t| && forall k :: i <= k < j ==> t[k] == Block(0, true)
    ensures FreeFrom(t, i) == FreeFrom(t, j) && RunSumFrom(t, i) == RunSumFrom(t, j)
    decreases j - i
  {
    if i < j { SkipInterior(t, i + 1, j); }
  }

  // ----- Addresses -----

  /** Length of the run whose first byte is at `p`, or 0. */
  function RunLen(t: Table, space: nat, p: int): nat {
    if space <= p && (p - space) % BLKSIZE == 0 && (p - space) / BLKSIZE < |t| then
      t[(p - space) / BLKSIZE].count else 0
  }

  /** The block count `malloc` computes in 32-bit arithmetic. */
  function Blocks(size: word): nat {
    (size + BLKSIZE - 1) % RAM_SIZE / BLKSIZE
  }

  /** A size whose rounding does not wrap around. */
  predicate Sane(size: word) {
    size <= UINT_MAX - (BLKSIZE - 1)
  }

  datatype Alloc = Alloc(ptr: nat, table: Table)

  /** What `malloc` returns and leaves behind; 0 is the null pointer. */
  function MallocOf(t: Table, space: nat, size: word): (a: Alloc)
    requires 0 < |t| && Blocks(size) <= |t|
    ensures |a.table| == |t|
  {
    var b := FirstFit(t, Blocks(size), 0);
    if size == 0 || b == -1 then Alloc(0, t) else Alloc(space + b * BLKSIZE, Mark(t, b, Blocks(size)))
  }

  /** `free`, for any address in the pool. */
  function FreeOf(t: Table, space: nat, p: nat): (r: Table)
    ensures |r| == |t|
  {
    if space <= p < space + |t| * BLKSIZE then Release(t, (p - space) / BLKSIZE) else t
  }

  lemma Reach(t: Table, b: nat)
    requires WellFormed(t) && b < |t|
    ensures b + t[b].count <= |t|
  {
  }

  /** Two live runs at different addresses share no byte. */
  lemma RunsApart(t: Table, space: nat, p: int, q: int)
    requires WellFormed(t) && RunLen(t, space, p) > 0 && RunLen(t, space, q) > 0 && p != q
    ensures p + BLKSIZE * RunLen(t, space, p) <= q || q + BLKSIZE * RunLen(t, space, q) <= p
  {
    var g, h := (p - space) / BLKSIZE, (q - space) / BLKSIZE;
    HeadsApart(t, g, h);
  }

  lemma HeadsApart(t: Table, g: nat, h: nat)
    requires WellFormed(t) && g < |t| && h < |t| && g != h && t[g].count > 0 && t[h].count > 0
    ensures g + t[g].count <= h || h + t[h].count <= g
  {
    assert InRun(t, g, g) && InRun(t, h, h);
    assert !InRun(t, g, h) && !InRun(t, h, g);
  }

  lemma RunInside(t: Table, space: nat, p: int)
    requires WellFormed(t) && RunLen(t, space, p) > 0
    ensures space <= p && p + BLKSIZE * RunLen(t, space, p) <= space + BLKSIZE * |t|
  {
  }

  /** A successful `malloc` adds one run of exactly ceil(size / 4096) blocks at the lowest place
      where it fits, and leaves every other run as it was. */
  lemma BlocksCeil(size: word)
    requires Sane(size)
    ensures size <= BLKSIZE * Blocks(size) < size + BLKSIZE && (size > 0 <==> Blocks(size) > 0)
  {
  }

  lemma MarkLens(t: Table, space: nat, b: nat, n: nat)
    requires WellFormed(t) && Gap(t, b, n) && n > 0
    ensures var p, r := space + b * BLKSIZE, Mark(t, b, n);
            && RunLen(t, space, p) == 0 && RunLen(r, space, p) == n && FreeOf(r, space, p) == t
            && forall q: int {:trigger RunLen(r, space, q)} :: q != p ==> RunLen(r, space, q) == RunLen(t, space, q)
  {
    hide Mark;
    MarkReleaseRestores(t, b, n);
    var p, r := space + b * BLKSIZE, Mark(t, b, n);
    assert (p - space) / BLKSIZE == b;
    forall q: int | q != p ensures RunLen(r, space, q) == RunLen(t, space, q) {
      var h := (q - space) / BLKSIZE;
      if space <= q && (q - space) % BLKSIZE == 0 && h < |t| {
        assert r[h] == Marked(t, b, n, h);
      }
    }
  }

  lemma MallocAdds(t: Table, space: nat, size: word)
    requires WellFormed(t) && 0 < |t| && Blocks(size) <= |t| && Sane(size) && space > 0
    ensures var a := MallocOf(t, space, size);
            && WellFormed(a.table)
            && (a.ptr == 0 <==> size == 0 || forall g :: !Gap(t, g, Blocks(size)))
            && (a.ptr == 0 ==> a.table == t)
            && (a.ptr != 0 ==>
                  && RunLen(t, space, a.ptr) == 0 && RunLen(a.table, space, a.ptr) == Blocks(size)
                  && size <= BLKSIZE * Blocks(size) < size + BLKSIZE
                  && (forall q: int {:trigger RunLen(a.table, space, q)} ::
                        q != a.ptr ==> RunLen(a.table, space, q) == RunLen(t, space, q))
                  && FreeOf(a.table, space, a.ptr) == t)
  {
    hide Mark, RunLen, FreeOf, Blocks;
    BlocksCeil(size);
    var n := Blocks(size);
    var b := FirstFit(t, n, 0);
    if size != 0 && b != -1 {
      MarkWellFormed(t, b, n);
      MarkLens(t, space, b, n);
    }
  }

  /** The lowest place for `n` blocks, and one for `m` more beside it. */
  ghost predicate BothFit(t: Table, g: int, n: nat, h: int, m: nat) {
    Gap(t, g, n) && (forall k :: Gap(t, k, n) ==> g <= k) && Gap(t, h, m) && (h + m <= g || g + n <= h)
  }

  ghost predicate TwoFit(t: Table, n: nat, m: nat) {
    exists g, h :: BothFit(t, g, n, h, m)
  }

  lemma GapsLeft(t: Table, b: nat, n: nat, m: nat)
    requires n > 0 && m > 0 && b + n <= |t|
    ensures forall h :: Gap(Mark(t, b, n), h, m) <==> Gap(t, h, m) && (h + m <= b || b + n <= h)
  {
    var r := Mark(t, b, n);
    forall j | 0 <= j < |t| ensures r[j].used <==> t[j].used || b <= j < b + n {
      assert r[j] == Marked(t, b, n, j);
    }
    forall h | Gap(r, h, m) ensures Gap(t, h, m) && (h + m <= b || b + n <= h) {
      forall j | h <= j < h + m ensures !t[j].used && !(b <= j < b + n) {
        assert !r[j].used;
      }
      var j := if h <= b < h + m then b else h;
      assert !t[j].used;
    }
  }

  /** Two requests in a row are served exactly when there are such places. */
  lemma BothServedIff(t: Table, space: nat, size: word, more: word)
    requires WellFormed(t) && 0 < |t| && space > 0 && Sane(size) && Sane(more) && Blocks(size) <= |t| && more > 0
    requires Blocks(more) <= |t|
    ensures var a := MallocOf(t, space, size);
            a.ptr != 0 && MallocOf(a.table, space, more).ptr != 0 <==>
            size > 0 && TwoFit(t, Blocks(size), Blocks(more))
  {
    hide Blocks, WellFormed, Mark;
    BlocksCeil(size);
    BlocksCeil(more);
    var n, m, a := Blocks(size), Blocks(more), MallocOf(t, space, size);
    var b := FirstFit(t, n, 0);
    assert forall k :: Gap(t, k, n) ==> 0 <= k;
    assert forall k :: Gap(a.table, k, m) ==> 0 <= k;
    if size > 0 && b != -1 {
      GapsLeft(t, b, n, m);
      assert forall h :: Gap(a.table, h, m) <==> BothFit(t, b, n, h, m);
      assert forall g, h :: BothFit(t, g, n, h, m) ==> g == b;
    }
  }

  /** `free` of any address at all releases exactly the run that starts in the addressed block,
      or changes nothing when no run starts there. */
  lemma FreeExact(t: Table, space: nat, p: nat)
    requires WellFormed(t)
    ensures var r, q := FreeOf(t, space, p), space + (p - space) / BLKSIZE * BLKSIZE;
            && WellFormed(r)
            && (p < space || RunLen(t, space, q) == 0 ==> r == t)
            && (p >= space ==>
                  RunLen(r, space, q) == 0
                  && forall x: int {:trigger RunLen(r, space, x)} ::
                    x != q ==> RunLen(r, space, x) == RunLen(t, space, x))
  {
    hide Release, WellFormed;
    if space <= p < space + |t| * BLKSIZE {
      var b := (p - space) / BLKSIZE;
      ReleaseWellFormed(t, b);
      ReleaseCounts(t, b);
    }
  }

  lemma ReleaseCounts(t: Table, b: nat)
    requires WellFormed(t) && b < |t|
    ensures var r := Release(t, b);
            && |r| == |t| && (t[b].count == 0 ==> r == t)
            && forall h :: 0 <= h < |t| ==> r[h].count == if h == b then 0 else t[h].count
  {
    hide Release;
    var r := Release(t, b);
    ReleaseRuns(t, b);
    forall h | 0 <= h < |t| ensures r[h].count == if h == b then 0 else t[h].count {
      if t[h].count > 0 { assert InRun(t, h, h); }
    }
  }

  /** Exactly when a call of `malloc` keeps the table well formed: the one way to break it is a
      size that wraps to a block count of 0 while block 0 heads a run, whose length is then lost. */
  lemma MallocKeepsWellFormedIff(t: Table, space: nat, size: word)
    requires WellFormed(t) && 0 < |t| && Blocks(size) <= |t| && space > 0
    ensures WellFormed(MallocOf(t, space, size).table) <==> Sane(size) || t[0].count == 0
  {
    if Sane(size) {
      MallocAdds(t, space, size);
    } else {
      assert Blocks(size) == 0 && Gap(t, 0, 0);
      assert MallocOf(t, space, size).table == Mark(t, 0, 0);
      MarkNothing(t);
    }
  }

  lemma MarkNothing(t: Table)
    requires WellFormed(t) && 0 < |t|
    ensures WellFormed(Mark(t, 0, 0)) <==> t[0].count == 0
  {
    hide Mark;
    var r := Mark(t, 0, 0);
    if t[0].count == 0 {
      assert r == t;
    } else {
      assert InRun(t, 0, 0) && r[0] == Block(0, true);
      assert forall h :: !InRun(r, h, 0);
    }
  }

  /** A caller that asks for almost the whole address space is handed the pool's first block. */
  lemma MallocWrapLosesARun()
    ensures var t := [Block(1, true)];
            && WellFormed(t) && MallocOf(t, BLKSIZE, UINT_MAX) == Alloc(BLKSIZE, [Block(0, true)])
            && !WellFormed([Block(0, true)])
  {
    var t, u := [Block(1, true)], [Block(0, true)];
    assert InRun(t, 0, 0);
    assert Blocks(UINT_MAX) == 0 && Gap(t, 0, 0);
    assert Mark(t, 0, 0) == u;
    assert forall h :: !InRun(u, h, 0);
    assert u[0].used;
  }

  // ----- Histories -----

  datatype Request = Malloc(size: word) | Calloc(nmemb: word, each: word) | Realloc(blk: nat, to: word) | Free(ptr: nat)

  function Product(nmemb: word, each: word): word {
    nmemb * each % RAM_SIZE
  }

  /** What the code demands of a caller in a pool of `n` blocks. */
  predicate Allowed(n: nat, q: Request) {
    match q
    case Malloc(size) => Sane(size) && Blocks(size) <= n
    case Calloc(nmemb, each) => Sane(Product(nmemb, each)) && Blocks(Product(nmemb, each)) <= n
    case Realloc(_, to) => Sane(to) && Blocks(to) <= n
    case Free(_) => true
  }

  function InPool(t: Table, space: nat, p: nat): bool {
    space <= p < space + |t| * BLKSIZE
  }

  function Serve(t: Table, space: nat, q: Request): (r: Table)
    requires 0 < |t| && Allowed(|t|, q)
    ensures |r| == |t|
  {
    match q
    case Malloc(size) => MallocOf(t, space, size).table
    case Calloc(nmemb, each) => MallocOf(t, space, Product(nmemb, each)).table
    case Realloc(blk, to) =>
      if !InPool(t, space, blk) then t
      else
        var a := MallocOf(t, space, to);
        if a.ptr == 0 then t else FreeOf(a.table, space, blk)
    case Free(p) => FreeOf(t, space, p)
  }

  function ServeAll(t: Table, space: nat, qs: seq<Request>): (r: Table)
    requires 0 < |t| && forall q :: q in qs ==> Allowed(|t|, q)
    ensures |r| == |t|
    decreases |qs|
  {
    if qs == [] then t else ServeAll(Serve(t, space, qs[0]), space, qs[1..])
  }

  lemma ServeWellFormed(t: Table, space: nat, q: Request)
    requires WellFormed(t) && 0 < |t| && Allowed(|t|, q) && space > 0
    ensures WellFormed(Serve(t, space, q))
    ensures forall p: int {:trigger RunLen(Serve(t, space, q), space, p)} ::
              RunLen(t, space, p) > 0 && !Names(q, space, p) ==>
                RunLen(Serve(t, space, q), space, p) == RunLen(t, space, p)
  {
    hide RunLen, MallocOf, FreeOf, Blocks;
    match q
    case Malloc(size) => MallocAdds(t, space, size);
    case Calloc(nmemb, each) => MallocAdds(t, space, Product(nmemb, each));
    case Realloc(blk, to) =>
      MallocAdds(t, space, to);
      FreeExact(MallocOf(t, space, to).table, space, blk);
    case Free(p) => FreeExact(t, space, p);
  }

  /** The request gives up the run at `p`. */
  predicate Names(q: Request, space: nat, p: int) {
    match q
    case Free(x) => space <= x && p == space + (x - space) / BLKSIZE * BLKSIZE
    case Realloc(x, _) => space <= x && p == space + (x - space) / BLKSIZE * BLKSIZE
    case _ => false
  }

  /** Over any history of requests the table stays partitioned, free blocks and runs add up to
      the pool, and a run nobody gives up keeps its place and length. */
  lemma {:induction false} HistoryKeepsRuns(t: Table, space: nat, qs: seq<Request>)
    requires WellFormed(t) && 0 < |t| && space > 0 && forall q :: q in qs ==> Allowed(|t|, q)
    ensures var r := ServeAll(t, space, qs);
            && WellFormed(r) && FreeFrom(r, 0) + RunSumFrom(r, 0) == |t|
            && forall p: int {:trigger RunLen(r, space, p)} ::
                 RunLen(t, space, p) > 0 && (forall q :: q in qs ==> !Names(q, space, p)) ==>
                   RunLen(r, space, p) == RunLen(t, space, p)
    decreases |qs|
  {
    hide RunLen, Serve, FreeFrom, RunSumFrom, WellFormed, Allowed, Names;
    if qs == [] {
      Conservation(t);
    } else {
      ServeWellFormed(t, space, qs[0]);
      var u := Serve(t, space, qs[0]);
      HistoryKeepsRuns(u, space, qs[1..]);
      assert forall q :: q in qs[1..] ==> q in qs;
      assert forall p: int :: RunLen(t, space, p) > 0 && (forall q :: q in qs ==> !Names(q, space, p)) ==>
                                RunLen(u, space, p) == RunLen(t, space, p);
    }
  }

  lemma EmptyWellFormed(t: Table)
    requires forall i :: 0 <= i < |t| ==> t[i] == Block(0, false)
    ensures WellFormed(t)
  {
  }

  // ----- The allocator -----

  const SIZEOF_BLOCK := 8

  /** Block count, pool start and pool end that `memory_init` derives from a region. */
  function PoolBlocks(size: word): int { size / (BLKSIZE + SIZEOF_BLOCK) - 1 }

  function PoolStart(base: nat, blocks: nat): (r: nat)
    ensures r % BLKSIZE == 0
  {
    (base + blocks * SIZEOF_BLOCK + BLKSIZE) / BLKSIZE * BLKSIZE
  }

  /** The table at `base` and the aligned pool behind it do not overlap, and both lie inside the
      region the allocator was given. */
  lemma InitLayout(size: word, base: nat)
    requires PoolBlocks(size) > 0
    ensures var n := PoolBlocks(size);
            var space := PoolStart(base, n);
            && base + n * SIZEOF_BLOCK <= space <= base + n * SIZEOF_BLOCK + BLKSIZE
            && space + n * BLKSIZE <= base + size && space % BLKSIZE == 0
            && (n + 1) * 4104 <= size < (n + 2) * 4104
  {
  }

  class Heap {
    const ram: array<byte>
    var initLock: bool
    var space: nat
    var limit: nat
    var blockV: array<Block>
    var blockC: nat

    constructor (ram: array<byte>)
      requires ram.Length == RAM_SIZE
      ensures this.ram == ram && !initLock && Valid()
    {
      this.ram := ram;
      initLock, space, limit, blockC := false, 0, 0, 0;
      blockV := new Block[0];
    }

    ghost predicate Valid()
      reads this
    {
      && ram.Length == RAM_SIZE
      && (initLock ==>
            && blockV.Length == blockC > 0
            && 0 < space && space % BLKSIZE == 0 && limit == space + blockC * BLKSIZE <= RAM_SIZE)
    }

    function Table(): Table
      reads this, blockV
    {
      blockV[..]
    }

    /** Initialised, and with a partitioned table. */
    ghost predicate Good()
      reads this, blockV
    {
      Valid() && initLock && WellFormed(Table())
    }

    /** What `malloc` of this size would return and leave behind. */
    function Next(size: word): Alloc
      requires Valid() && initLock && Blocks(size) <= blockC
      reads this, blockV
    {
      MallocOf(Table(), space, size)
    }

    method Malloc(size: word) returns (p: nat)
      requires Valid() && (initLock ==> Blocks(size) <= blockC)
      modifies blockV
      ensures if initLock then Alloc(p, Table()) == MallocOf(old(Table()), space, size)
              else p == 0 && Table() == old(Table())
    {
      if !initLock { return 0; }
      if size == 0 { return 0; }
      var count := Blocks(size);
      var base, status := 0, false;
      var i := 0;
      while i <= blockC - count && !status
        invariant 0 <= i <= blockC - count + 1
        invariant status ==> base < blockC && base == FirstFit(blockV[..], count, 0)
        invariant !status ==> FirstFit(blockV[..], count, 0) == FirstFit(blockV[..], count, i)
        decreases blockC - count + 1 - i, !status
      {
        var ok := true;
        var j := 0;
        while j < count && ok
          invariant 0 <= j <= count
          invariant ok ==> forall k :: i <= k < i + j ==> !blockV[k].used
          invariant !ok ==> j < count && blockV[i + j].used
          decreases count - j, ok
        {
          if blockV[i + j].used { ok := false; } else { j := j + 1; }
        }
        if ok {
          base, status := i, true;
        } else {
          i := i + 1;
        }
      }
      if !status { return 0; }
      ghost var t := blockV[..];
      i := 0;
      while i < count
        invariant 0 <= i <= count
        invariant blockV.Length == |t| == blockC
        invariant forall k :: 0 <= k < blockC ==> blockV[k] == if base <= k < base + i then Block(0, true) else t[k]
      {
        blockV[base + i] := Block(0, true);
        i := i + 1;
      }
      blockV[base] := blockV[base].(count := count);
      assert forall k :: 0 <= k < blockC ==> blockV[k] == Marked(t, base, count, k);
      assert blockV[..] == Mark(t, base, count);
      return space + base * BLKSIZE;
    }

    method Free(blk: nat)
      requires Valid() && (initLock ==> WellFormed(Table()))
      modifies blockV
      ensures Table() == if initLock then FreeOf(old(Table()), space, blk) else old(Table())
    {
      if !initLock || blk == 0 || blk < space || blk >= limit { return; }
      hide WellFormed, Release;
      ghost var t := blockV[..];
      var num := (blk - space) / BLKSIZE;
      var count := blockV[num].count;
      Reach(t, num);
      if count == 0 {
        assert blockV[..] == Release(t, num);
        return;
      }
      var i := 0;
      while i < count
        invariant 0 <= i <= count
        invariant forall k :: 0 <= k < blockC ==> blockV[k] == if num <= k < num + i then Block(0, false) else t[k]
      {
        blockV[num + i] := Block(0, false);
        i := i + 1;
      }
      assert blockV[..] == Release(t, num);
    }

    method Calloc(nmemb: word, each: word) returns (p: nat)
      requires Valid() && (initLock ==> Allowed(blockC, Request.Calloc(nmemb, each)))
      modifies blockV, ram
      ensures initLock ==> Alloc(p, Table()) == MallocOf(old(Table()), space, nmemb * each % 0x1_0000_0000)
      ensures !initLock ==> p == 0 && Table() == old(Table())
      ensures p == 0 ==> ram[..] == old(ram[..])
      ensures p != 0 ==> p + nmemb * each % 0x1_0000_0000 <= RAM_SIZE &&
                         ram[..] == Splice(old(ram[..]), p, Zeros(nmemb * each % 0x1_0000_0000))
    {
      if !initLock { return 0; }
      var n := nmemb * each % RAM_SIZE;
      p := Malloc(n);
      if p == 0 { return 0; }
      BlocksCeil(n);
      Fill(ram, p, 0, n);
      assert seq(n, _ => 0 as byte) == Zeros(n);
    }

    /** Always relocates, and copies as many bytes as the new size asks for even when the old run
        is shorter: only the common prefix means anything. */
    method Realloc(blk: nat, size: word) returns (p: nat)
      requires Valid() && (initLock ==> Allowed(blockC, Request.Realloc(blk, size)) && WellFormed(Table()))
      modifies blockV, ram
      ensures !initLock || !(space <= blk < limit) ==> p == 0
      ensures p == 0 ==> Table() == old(Table()) && ram[..] == old(ram[..])
      ensures initLock ==> Table() == Serve(old(Table()), space, Request.Realloc(blk, size))
      ensures initLock && space <= blk < limit ==> p == MallocOf(old(Table()), space, size).ptr
      ensures p != 0 ==> Copied(old(ram[..]), ram[..], p, blk, size)
    {
      if !initLock || blk == 0 || blk < space || blk >= limit { return 0; }
      ghost var t := Table();
      var newblk := Malloc(size);
      if newblk == 0 { return 0; }
      BlocksCeil(size);
      MallocAdds(t, space, size);
      Ncopy(ram, newblk, blk, size);
      Free(blk);
      p := newblk;
    }

    method Mavail() returns (n: nat)
      requires Valid()
      ensures n == if initLock then BLKSIZE * FreeFrom(Table(), 0) else 0
    {
      if !initLock { return 0; }
      n := 0;
      var i := 0;
      while i < blockC
        invariant 0 <= i <= blockC
        invariant n + BLKSIZE * FreeFrom(Table(), i) == BLKSIZE * FreeFrom(Table(), 0)
      {
        if !blockV[i].used { n := n + BLKSIZE; }
        i := i + 1;
      }
    }

    /** `base` is the end of the kernel image and its module. A false result stands for the panic. */
    method Init(size: word, base: nat) returns (ok: bool)
      requires Valid() && 0 < base && base + size <= RAM_SIZE
      modifies this
      ensures initLock
      ensures old(initLock) ==> ok && unchanged(this)
      ensures !old(initLock) && PoolBlocks(size) <= 0 ==> !ok
      ensures !old(initLock) && PoolBlocks(size) > 0 ==>
                && ok && Good() && blockC == PoolBlocks(size) && space == PoolStart(base, blockC)
                && fresh(blockV) && forall i :: 0 <= i < blockC ==> blockV[i] == Block(0, false)
    {
      if initLock { return true; }
      initLock := true;
      var supblkc := size / (BLKSIZE + SIZEOF_BLOCK);
      supblkc := supblkc - (if supblkc != 0 then 1 else 0);
      if supblkc == 0 { return false; }
      InitLayout(size, base);
      space := PoolStart(base, supblkc);
      limit := space + supblkc * BLKSIZE;
      blockC := supblkc;
      blockV := new Block[supblkc];
      var i := 0;
      while i < blockC
        invariant 0 <= i <= blockC == blockV.Length
        invariant fresh(blockV)
        invariant forall k :: 0 <= k < i ==> blockV[k] == Block(0, false)
        modifies blockV
      {
        blockV[i] := Block(0, false);
        i := i + 1;
      }
      EmptyWellFormed(blockV[..]);
      return true;
    }
  }
}
