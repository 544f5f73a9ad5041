/** Whole sessions on descriptor 3: what a sequence of calls comes to. */
module Sessions {
  import opened Bytes
  import opened FsSpec
  import opened CoreFs
  import opened Streams
  import IoCall

  /** The file table and the descriptor between two calls. */
  datatype Moment = Moment(t: Files, d: IoCall.FileDesc)

  ghost predicate OnFile(m: Moment) {
    && 0 <= m.d.entry < |m.t| && m.t[m.d.entry].Used? && m.t[m.d.entry].f.h.kind == TYPE_FILE
    && m.t[m.d.entry].f.h.ftype == TYPE_FILE
  }

  function Content(m: Moment): seq<byte>
    requires 0 <= m.d.entry < |m.t| && m.t[m.d.entry].Used?
  {
    m.t[m.d.entry].f.data
  }

  /** Nothing but the open entry has changed, and that one keeps its name. */
  ghost predicate OnlyOpen(a: Moment, b: Moment) {
    && |a.t| == |b.t| && b.d.entry == a.d.entry && (forall j :: 0 <= j < |a.t| && j != a.d.entry ==> b.t[j] == a.t[j])
    && (InUse(a) ==> InUse(b) && b.t[b.d.entry].f.h.name == a.t[a.d.entry].f.h.name)
  }

  lemma OnlyThrough(a: Moment, b: Moment, c: Moment)
    requires OnlyOpen(a, b) && OnlyOpen(b, c)
    ensures OnlyOpen(a, c)
  {
  }

  lemma OnlyNothing(a: Moment)
    ensures OnlyOpen(a, a)
  {
  }

  ghost predicate InUse(m: Moment) {
    0 <= m.d.entry < |m.t| && m.t[m.d.entry].Used?
  }

  // ----- Regular files -----

  /** A successful `write`. */
  ghost predicate WriteStep(a: Moment, b: Moment, bytes: seq<byte>) {
    && OnFile(a) && b.d == a.d.(ptr := a.d.ptr + |bytes|)
    && exists at, now :: IoCall.Stored(a.t, b.t, a.d, bytes, at, now)
  }

  lemma WriteEffect(a: Moment, b: Moment, bytes: seq<byte>)
    requires WriteStep(a, b, bytes)
    ensures OnFile(b) && OnlyOpen(a, b) && Content(b) == Overlay(Content(a), a.d.ptr, bytes)
  {
    hide Overlay;
    var at, now :| IoCall.Stored(a.t, b.t, a.d, bytes, at, now);
  }

  ghost predicate Writes(ms: seq<Moment>, bs: seq<seq<byte>>) {
    |ms| == |bs| + 1 && OnFile(ms[0]) && forall k :: 0 <= k < |bs| ==> WriteStep(ms[k], ms[k + 1], bs[k])
  }

  /** Any sequence of successful writes is one write of everything at the first offset; no other
      file changes. */
  lemma {:induction false} WriteSession(ms: seq<Moment>, bs: seq<seq<byte>>)
    requires Writes(ms, bs)
    ensures var a, b := ms[0], ms[|bs|];
            && OnFile(b) && OnlyOpen(a, b) && Content(b) == WriteAll(Content(a), a.d.ptr, bs)
            && (bs != [] ==> Content(b) == Overlay(Content(a), a.d.ptr, Concat(bs)))
    decreases |bs|
  {
    hide Overlay, OnFile, WriteStep;
    if bs != [] {
      WriteEffect(ms[0], ms[1], bs[0]);
      assert WriteStep(ms[0], ms[0 + 1], bs[0]);
      Shift(ms, bs);
      WriteSession(ms[1..], bs[1..]);
      DescriptorMoves(ms[0], ms[1], bs[0]);
      InFile(ms[0]);
      WritesAreOneWrite(Content(ms[0]), ms[0].d.ptr, bs);
    }
  }

  lemma InFile(m: Moment)
    requires OnFile(m)
    ensures 0 <= m.d.entry < |m.t| && m.t[m.d.entry].Used?
  {
  }

  lemma DescriptorMoves(a: Moment, b: Moment, bytes: seq<byte>)
    requires WriteStep(a, b, bytes)
    ensures b.d == a.d.(ptr := a.d.ptr + |bytes|)
  {
  }

  lemma {:induction false} Shift(ms: seq<Moment>, bs: seq<seq<byte>>)
    requires Writes(ms, bs) && bs != [] && OnFile(ms[1])
    ensures Writes(ms[1..], bs[1..])
  {
    hide WriteStep, OnFile;
    forall k | 0 <= k < |bs| - 1 ensures WriteStep(ms[1..][k], ms[1..][k + 1], bs[1..][k]) {
      assert WriteStep(ms[k + 1], ms[k + 1 + 1], bs[k + 1]);
    }
  }

  /** A `read`: how many bytes were asked for, and which came. */
  datatype Reading = Reading(count: nat, out: seq<byte>)

  ghost predicate ReadStep(a: Moment, b: Moment, r: Reading) {
    OnFile(a) && exists now :: IoCall.Received(a.t, b.t, a.d, b.d, r.count, r.out, now)
  }

  ghost predicate Reads(ms: seq<Moment>, rs: seq<Reading>) {
    |ms| == |rs| + 1 && OnFile(ms[0]) && forall k :: 0 <= k < |rs| ==> ReadStep(ms[k], ms[k + 1], rs[k])
  }

  lemma ReadEffect(a: Moment, b: Moment, r: Reading)
    requires ReadStep(a, b, r)
    ensures OnFile(b) && OnlyOpen(a, b) && Content(b) == Content(a)
    ensures r.out == Slice(Content(a), a.d.ptr, r.count) && b.d.ptr == a.d.ptr + |r.out|
  {
    var now :| IoCall.Received(a.t, b.t, a.d, b.d, r.count, r.out, now);
  }

  function Counts(rs: seq<Reading>): seq<nat> {
    if rs == [] then [] else [rs[0].count] + Counts(rs[1..])
  }

  function Outs(rs: seq<Reading>): seq<byte> {
    if rs == [] then [] else rs[0].out + Outs(rs[1..])
  }

  lemma {:induction false} ReadSession(ms: seq<Moment>, rs: seq<Reading>)
    requires Reads(ms, rs)
    ensures var a, b := ms[0], ms[|rs|];
            && OnFile(b) && OnlyOpen(a, b) && Content(b) == Content(a)
            && Outs(rs) == ReadAll(Content(a), a.d.ptr, Counts(rs))
            && b.d.ptr == OffsetAfter(Content(a), a.d.ptr, Counts(rs))
    decreases |rs|
  {
    hide OnFile, ReadStep, Slice, OnlyOpen, ReadAll, OffsetAfter, Counts, Outs;
    InFile(ms[0]);
    ReadsUnfold(Content(ms[0]), ms[0].d.ptr, rs);
    if rs == [] {
      OnlyNothing(ms[0]);
    } else {
      assert ReadStep(ms[0], ms[0 + 1], rs[0]);
      ReadEffect(ms[0], ms[1], rs[0]);
      assert Reads(ms[1..], rs[1..]) by {
        forall k | 0 <= k < |rs| - 1 ensures ReadStep(ms[1..][k], ms[1..][k + 1], rs[1..][k]) {
          assert ReadStep(ms[k + 1], ms[k + 1 + 1], rs[k + 1]);
        }
      }
      ReadSession(ms[1..], rs[1..]);
      OnlyThrough(ms[0], ms[1], ms[|rs|]);
    }
  }

  lemma ReadsUnfold(c: seq<byte>, p: nat, rs: seq<Reading>)
    ensures rs == [] ==> Outs(rs) == ReadAll(c, p, Counts(rs)) && OffsetAfter(c, p, Counts(rs)) == p
    ensures rs != [] ==> var s, ns := Slice(c, p, rs[0].count), Counts(rs[1..]);
                         && Outs(rs) == rs[0].out + Outs(rs[1..])
                         && ReadAll(c, p, Counts(rs)) == s + ReadAll(c, p + |s|, ns)
                         && OffsetAfter(c, p, Counts(rs)) == OffsetAfter(c, p + |s|, ns)
  {
    hide Slice;
    if rs != [] { assert Counts(rs)[1..] == Counts(rs[1..]); }
  }

  /** Reading a freshly opened file with any positive counts until nothing comes yields the file. */
  lemma {:induction false} WholeFileRead(ms: seq<Moment>, rs: seq<Reading>)
    requires Reads(ms, rs) && ms[0].d.ptr == 0 && rs != [] && rs[|rs| - 1].count > 0 && rs[|rs| - 1].out == []
    ensures Outs(rs[..|rs| - 1]) == Content(ms[0])
  {
    hide OnFile, ReadStep;
    var n := |rs| - 1;
    assert Reads(ms[..n + 1], rs[..n]) by {
      forall k | 0 <= k < n ensures ReadStep(ms[..n + 1][k], ms[..n + 1][k + 1], rs[..n][k]) {
        assert ReadStep(ms[k], ms[k + 1], rs[k]);
      }
    }
    ReadSession(ms[..n + 1], rs[..n]);
    assert ReadStep(ms[n], ms[n + 1], rs[n]);
    ReadEffect(ms[n], ms[n + 1], rs[n]);
    InFile(ms[0]);
    ReadsReassemble(Content(ms[0]), Counts(rs[..n]), rs[n].count);
  }

  /** What was in the file when the writes began, with the bytes written laid over it, is what a later
      `open` of the same path without truncation reads back, in whatever pieces. */
  lemma {:induction false} WrittenIsReadBack(ms: seq<Moment>, bs: seq<seq<byte>>, path: seq<byte>, open: Call,
                                             ns: seq<Moment>, rs: seq<Reading>)
    requires Writes(ms, bs) && bs != [] && Find(ms[0].t, path, 0) == ms[0].d.entry
    requires Reads(ns, rs) && rs != [] && rs[|rs| - 1].count > 0 && rs[|rs| - 1].out == []
    requires open.Open? && open.path == path && open.r == IoCall.TYPEFD && !IoCall.Has(open.flags, IoCall.O_TRUNC)
    requires Step(ms[|bs|], ns[0], open)
    ensures ns[0].d.entry == ms[0].d.entry
    ensures Outs(rs[..|rs| - 1]) == Overlay(Content(ms[0]), ms[0].d.ptr, Concat(bs))
  {
    hide OnFile, WriteStep, ReadStep, Overlay, FsSpec.WriteFile;
    WriteSession(ms, bs);
    InFile(ms[0]);
    FoundAgain(ms[0], ms[|bs|], path);
    WholeFileRead(ns, rs);
  }

  lemma FoundAgain(a: Moment, b: Moment, path: seq<byte>)
    requires OnlyOpen(a, b) && InUse(a) && Find(a.t, path, 0) == a.d.entry
    ensures Find(b.t, path, 0) == a.d.entry
  {
    assert forall k :: Named(b.t, k, path) <==> Named(a.t, k, path);
  }

  // ----- Any calls -----

  /** A call and what it returned. */
  datatype Call =
    | Open(path: seq<byte>, flags: bv32, r: int)
    | Write(bytes: seq<byte>, r: int)
    | Read(count: nat, r: int, out: seq<byte>)

  /** What a call does, whichever file the descriptor is on: it is turned away, or it has its effect. */
  ghost predicate Step(a: Moment, b: Moment, c: Call) {
    match c
    case Open(path, flags, r) =>
      && b.d == (if r == IoCall.TYPEFD then IoCall.FileDesc(Find(b.t, path, 0), flags, 0, false)
                 else IoCall.FileDesc(0, 0, 0, false))
      && exists force, now, room, was ::
           IoCall.Opened(force, a.t, b.t, FsSpec.WriteFile(a.t, path, [], now, room, was), path, flags, r)
    case Write(bytes, r) =>
      || (r == -1 && b == a)
      || (InUse(a) && exists at, now :: IoCall.Written(a.t, b.t, a.d, b.d, bytes, r, at, now))
    case Read(count, r, out) =>
      || (r == -1 && out == [] && b == a)
      || (InUse(a) && r == |out| && exists now :: IoCall.Received(a.t, b.t, a.d, b.d, count, out, now))
  }

  ghost predicate Calls(ms: seq<Moment>, cs: seq<Call>) {
    |ms| == |cs| + 1 && forall k :: 0 <= k < |cs| ==> Step(ms[k], ms[k + 1], cs[k])
  }

  /** The slot that a call works on. */
  ghost predicate Touches(a: Moment, b: Moment, c: Call, j: int) {
    if c.Open? then Find(b.t, c.path, 0) == j else a.d.entry == j
  }

  lemma OpenSpares(t: Files, path: seq<byte>, now: Stamps, room: bool, was: Header, j: nat)
    requires j < |t|
    ensures var u := FsSpec.WriteFile(t, path, [], now, room, was).files;
            && |u| == |t|
            && (u[j] == t[j] || (t[j].Used? && Find(t, path, 0) == j)
                || (t[j].Empty? && Find(t, path, 0) == -1 && Named(u, j, path)))
  {
    hide ParentsLive, DirTwin;
  }

  lemma Placed(t: Files, path: seq<byte>, now: Stamps, room: bool, was: Header, j: nat)
    requires j < |t|
    ensures var u := FsSpec.WriteFile(t, path, [], now, room, was).files; u[j] != t[j] ==> Find(u, path, 0) == j
  {
    hide ParentsLive, DirTwin;
    var u := FsSpec.WriteFile(t, path, [], now, room, was).files;
    OpenSpares(t, path, now, room, was, j);
    if u[j] != t[j] {
      assert Named(u, j, path);
      assert forall k :: k != j ==> (Named(u, k, path) <==> Named(t, k, path));
    }
  }

  /** A call changes no slot but the one it works on. */
  lemma StepTouches(a: Moment, b: Moment, c: Call, j: nat)
    requires Step(a, b, c) && j < |a.t|
    ensures |b.t| == |a.t| && (!Touches(a, b, c, j) ==> b.t[j] == a.t[j])
  {
    hide FsSpec.WriteFile;
    if c.Open? {
      var force, now, room, was :|
        IoCall.Opened(force, a.t, b.t, FsSpec.WriteFile(a.t, c.path, [], now, room, was), c.path, c.flags, c.r);
      OpenSpares(a.t, c.path, now, room, was, j);
      Placed(a.t, c.path, now, room, was, j);
    }
  }

  lemma {:induction false} Bystander(ms: seq<Moment>, cs: seq<Call>, j: nat)
    requires Calls(ms, cs) && j < |ms[0].t| && forall k :: 0 <= k < |cs| ==> !Touches(ms[k], ms[k + 1], cs[k], j)
    ensures var t, u := ms[0].t, ms[|cs|].t; |u| == |t| && u[j] == t[j]
    decreases |cs|
  {
    hide Step, Touches;
    if cs != [] {
      assert Step(ms[0], ms[0 + 1], cs[0]) && !Touches(ms[0], ms[0 + 1], cs[0], j);
      StepTouches(ms[0], ms[1], cs[0], j);
      CallsRest(ms, cs);
      forall k | 0 <= k < |cs| - 1 ensures !Touches(ms[1..][k], ms[1..][k + 1], cs[1..][k], j) {
        assert !Touches(ms[k + 1], ms[k + 1 + 1], cs[k + 1], j);
      }
      Bystander(ms[1..], cs[1..], j);
    }
  }

  lemma {:induction false} CallsRest(ms: seq<Moment>, cs: seq<Call>)
    requires Calls(ms, cs) && cs != []
    ensures Calls(ms[1..], cs[1..])
  {
    hide Step;
    forall k | 0 <= k < |cs| - 1 ensures Step(ms[1..][k], ms[1..][k + 1], cs[1..][k]) {
      assert Step(ms[k + 1], ms[k + 1 + 1], cs[k + 1]);
    }
  }

  // ----- Character devices -----

  ghost predicate OnDevice(t: Files, e: nat) {
    && e < |t| && t[e].Used? && t[e].f.h.kind == TYPE_FILE && t[e].f.h.ftype == TYPE_CHARDEV && Device(t[e].f.data)
  }

  function Held(t: Files, e: nat): seq<byte>
    requires e < |t| && t[e].Used?
  {
    t[e].f.data
  }

  /** A call that opens the device with truncation. */
  predicate Empties(a: Moment, c: Call, e: nat) {
    c.Open? && IoCall.Has(c.flags, IoCall.O_TRUNC) && Find(a.t, c.path, 0) == e
  }

  /** The calls that reach device `e`, as events of its queue. */
  function EventOf(a: Moment, c: Call, e: nat): seq<Event> {
    if a.d.entry != e then [] else
    match c
    case Open(_, _, _) => []
    case Write(bytes, r) => if r == -1 then [] else [Put(bytes)]
    case Read(count, r, _) => if r == -1 then [] else [Get(count)]
  }

  function BroughtBy(a: Moment, c: Call, e: nat): seq<byte> {
    if a.d.entry == e && c.Read? then c.out else []
  }

  function Events(ms: seq<Moment>, cs: seq<Call>, e: nat): seq<Event>
    requires |ms| == |cs| + 1
    decreases |cs|
  {
    if cs == [] then [] else EventOf(ms[0], cs[0], e) + Events(ms[1..], cs[1..], e)
  }

  /** Everything the reads of the device brought. */
  function Brought(ms: seq<Moment>, cs: seq<Call>, e: nat): seq<byte>
    requires |ms| == |cs| + 1
    decreases |cs|
  {
    if cs == [] then [] else BroughtBy(ms[0], cs[0], e) + Brought(ms[1..], cs[1..], e)
  }

  lemma Elsewhere(a: Moment, b: Moment, c: Call, e: nat)
    requires OnDevice(a.t, e) && Step(a, b, c) && !Empties(a, c, e) && EventOf(a, c, e) == []
    ensures |b.t| == |a.t| && b.t[e] == a.t[e] && BroughtBy(a, c, e) == []
  {
    hide Device, Queue;
    if c.Open? {
      var force, now, room, was :|
        IoCall.Opened(force, a.t, b.t, FsSpec.WriteFile(a.t, c.path, [], now, room, was), c.path, c.flags, c.r);
      OpenSpares(a.t, c.path, now, room, was, e);
    }
  }

  /** A call moves the device's queue as its events say. */
  lemma DeviceEffect(a: Moment, b: Moment, c: Call, e: nat, taken: seq<byte>, given: seq<byte>)
    requires OnDevice(a.t, e) && Step(a, b, c) && !Empties(a, c, e)
    ensures OnDevice(b.t, e) && |Held(b.t, e)| == |Held(a.t, e)|
    ensures var l := AfterAll(Log(Queue(Held(a.t, e)), taken, given), |Held(a.t, e)| - 4, EventOf(a, c, e));
            l.q == Queue(Held(b.t, e)) && l.given == given + BroughtBy(a, c, e)
  {
    hide Queue, Device, Accepted;
    InDevice(a.t, e);
    if EventOf(a, c, e) == [] {
      Elsewhere(a, b, c, e);
      assert given + [] == given;
    } else {
      match c
      case Write(bytes, r) =>
        var at, now :| IoCall.Written(a.t, b.t, a.d, b.d, bytes, r, at, now);
        OneEvent(Log(Queue(Held(a.t, e)), taken, given), |Held(a.t, e)| - 4, Put(bytes));
        assert given + [] == given;
      case Read(count, r, out) =>
        var now :| IoCall.Received(a.t, b.t, a.d, b.d, count, out, now);
        Shorter(Queue(Held(a.t, e)), count);
        OneEvent(Log(Queue(Held(a.t, e)), taken, given), |Held(a.t, e)| - 4, Get(count));
    }
  }

  lemma OneEvent(l: Log, cap: nat, ev: Event)
    requires |l.q| <= cap
    ensures AfterAll(l, cap, [ev]) == After(l, cap, ev)
  {
    hide After;
    assert AfterAll(After(l, cap, ev), cap, [ev][1..]) == After(l, cap, ev);
  }

  lemma {:induction false} AfterBoth(l: Log, cap: nat, es: seq<Event>, fs: seq<Event>)
    requires |l.q| <= cap
    ensures AfterAll(l, cap, es + fs) == AfterAll(AfterAll(l, cap, es), cap, fs)
    decreases |es|
  {
    hide After;
    if es == [] {
      assert es + fs == fs;
    } else {
      assert (es + fs)[0] == es[0] && (es + fs)[1..] == es[1..] + fs;
      AfterBoth(After(l, cap, es[0]), cap, es[1..], fs);
    }
  }

  lemma Shorter(q: seq<byte>, n: nat)
    ensures |Delivered(q, n)| == Min(|q|, n)
  {
  }

  ghost predicate KeptOpen(ms: seq<Moment>, cs: seq<Call>, e: nat)
    requires |ms| == |cs| + 1
  {
    forall k :: 0 <= k < |cs| ==> !Empties(ms[k], cs[k], e)
  }

  /** From queue to queue through these events, and what they brought. */
  ghost predicate Logged(t: Files, u: Files, e: nat, l: Log, r: Log, es: seq<Event>, brought: seq<byte>) {
    && OnDevice(t, e) && OnDevice(u, e) && |Held(u, e)| == |Held(t, e)| && l.q == Queue(Held(t, e))
    && |l.q| <= |Held(t, e)| - 4 && r == AfterAll(l, |Held(t, e)| - 4, es)
    && r.q == Queue(Held(u, e)) && r.given == l.given + brought
  }

  lemma LogsJoin(t: Files, u: Files, v: Files, e: nat, l: Log, m: Log, r: Log, es: seq<Event>, fs: seq<Event>,
                 b: seq<byte>, c: seq<byte>)
    requires Logged(t, u, e, l, m, es, b) && Logged(u, v, e, m, r, fs, c)
    ensures Logged(t, v, e, l, r, es + fs, b + c)
  {
    hide OnDevice, Queue, AfterAll;
    InDevice(t, e);
    AfterBoth(l, |Held(t, e)| - 4, es, fs);
    assert l.given + b + c == l.given + (b + c);
  }

  lemma {:induction false} DeviceLog(ms: seq<Moment>, cs: seq<Call>, e: nat, l: Log) returns (r: Log)
    requires Calls(ms, cs) && OnDevice(ms[0].t, e) && KeptOpen(ms, cs, e) && l.q == Queue(Held(ms[0].t, e))
    ensures Logged(ms[0].t, ms[|cs|].t, e, l, r, Events(ms, cs, e), Brought(ms, cs, e))
    decreases |cs|
  {
    hide OnDevice, Step, After, Queue, Device, AfterAll, EventOf, BroughtBy, Empties, Calls, KeptOpen;
    OneMoreMoment(ms, cs);
    InDevice(ms[0].t, e);
    if cs == [] {
      r := l;
      Nothing(l, |Held(ms[0].t, e)| - 4);
      assert l.given + [] == l.given;
    } else {
      FirstCall(ms, cs, e);
      DeviceEffect(ms[0], ms[1], cs[0], e, l.taken, l.given);
      CallsRest(ms, cs);
      KeptRest(ms, cs, e);
      var m := AfterAll(l, |Held(ms[0].t, e)| - 4, EventOf(ms[0], cs[0], e));
      r := DeviceLog(ms[1..], cs[1..], e, m);
      LogsJoin(ms[0].t, ms[1].t, ms[|cs|].t, e, l, m, r, EventOf(ms[0], cs[0], e), Events(ms[1..], cs[1..], e),
               BroughtBy(ms[0], cs[0], e), Brought(ms[1..], cs[1..], e));
    }
  }

  lemma OneMoreMoment(ms: seq<Moment>, cs: seq<Call>)
    requires Calls(ms, cs)
    ensures |ms| == |cs| + 1
  {
  }

  lemma FirstCall(ms: seq<Moment>, cs: seq<Call>, e: nat)
    requires Calls(ms, cs) && KeptOpen(ms, cs, e) && cs != []
    ensures Step(ms[0], ms[1], cs[0]) && !Empties(ms[0], cs[0], e)
  {
    hide Step, Empties;
    assert Step(ms[0], ms[0 + 1], cs[0]);
  }

  lemma Nothing(l: Log, cap: nat)
    requires |l.q| <= cap
    ensures AfterAll(l, cap, []) == l
  {
  }

  lemma {:induction false} KeptRest(ms: seq<Moment>, cs: seq<Call>, e: nat)
    requires |ms| == |cs| + 1 && cs != [] && KeptOpen(ms, cs, e)
    ensures KeptOpen(ms[1..], cs[1..], e)
  {
    hide Empties;
    forall k | 0 <= k < |cs| - 1 ensures !Empties(ms[1..][k], cs[1..][k], e) {
      assert !Empties(ms[k + 1], cs[k + 1], e);
    }
  }

  lemma InDevice(t: Files, e: nat)
    requires OnDevice(t, e)
    ensures e < |t| && t[e].Used? && Device(Held(t, e)) && |Held(t, e)| >= 4 && |Queue(Held(t, e))| <= |Held(t, e)| - 4
  {
  }

  /** Over any calls on any files, opens between them included, that do not open the device with
      truncation: what was read from the device followed by what is queued is what was queued at
      first followed by what was accepted, in order. */
  lemma {:induction false} DeviceSession(ms: seq<Moment>, cs: seq<Call>, e: nat)
    requires Calls(ms, cs) && OnDevice(ms[0].t, e) && KeptOpen(ms, cs, e)
    ensures var t, u := ms[0].t, ms[|cs|].t;
            && OnDevice(u, e) && |Held(u, e)| == |Held(t, e)|
            && var q := Queue(Held(t, e));
            Brought(ms, cs, e) + Queue(Held(u, e)) == AfterAll(Log(q, q, []), |Held(t, e)| - 4, Events(ms, cs, e)).taken
  {
    hide OnDevice, Step, After, Queue, Brought, AfterAll, Events, Device;
    InDevice(ms[0].t, e);
    var q := Queue(Held(ms[0].t, e));
    var r := DeviceLog(ms, cs, e, Log(q, q, []));
    assert [] + q == q && [] + Brought(ms, cs, e) == Brought(ms, cs, e);
    FirstInFirstOut(Log(q, q, []), |Held(ms[0].t, e)| - 4, Events(ms, cs, e));
  }

  /** An `open` that succeeds on a device leaves a sound queue exactly if it does not truncate. */
  lemma TruncationEndsIt(a: Moment, b: Moment, c: Call, e: nat)
    requires OnDevice(a.t, e) && Step(a, b, c) && c.Open? && c.r == IoCall.TYPEFD && Find(a.t, c.path, 0) == e
    ensures OnDevice(b.t, e) <==> !IoCall.Has(c.flags, IoCall.O_TRUNC)
  {
    hide Queue, ParentsLive;
  }

  // ----- Mouse packets -----

  /** Writes to the device carry one packet, reads of it ask for one. */
  predicate PacketWise(es: seq<Event>) {
    forall x :: x in es ==> if x.Put? then |x.bytes| == PACKET else x.count == PACKET
  }

  function Mice(es: seq<Event>): (r: seq<Mouse>)
    decreases |es|
  {
    if es == [] then [] else [if es[0].Put? then Send(es[0].bytes) else Poll] + Mice(es[1..])
  }

  lemma {:induction false} MiceAreEvents(es: seq<Event>)
    requires PacketWise(es)
    ensures ToEvents(Mice(es)) == es && forall m :: m in Mice(es) ==> m.Send? ==> |m.packet| == PACKET
    decreases |es|
  {
    if es != [] {
      assert es[0] in es;
      MiceAreEvents(es[1..]);
      assert Mice(es)[1..] == Mice(es[1..]);
    }
  }

  /** On a device file of 4096 bytes that holds whole packets at first, whatever else is opened, read
      and written in between: what was read is whole packets, what is queued is whole packets, and
      the two are, in order, the packets held at first followed by those accepted. */
  lemma {:induction false} PacketSession(ms: seq<Moment>, cs: seq<Call>, e: nat, ps: seq<seq<byte>>)
    requires Calls(ms, cs) && OnDevice(ms[0].t, e) && KeptOpen(ms, cs, e) && |Held(ms[0].t, e)| == MOUSE_CAPACITY + 4
    requires Packets(ps) && Queue(Held(ms[0].t, e)) == Concat(ps) && PacketWise(Events(ms, cs, e))
    ensures var u, x := ms[|cs|].t, AfterTraffic(Traffic(ps, ps, []), Mice(Events(ms, cs, e)));
            && OnDevice(u, e) && Queue(Held(u, e)) == Concat(x.q) && Brought(ms, cs, e) == Concat(x.given)
            && Packets(x.q) && Packets(x.given) && x.given + x.q == x.taken
  {
    hide OnDevice, Step, After, Queue, Brought, AfterAll, Events, Device, AfterTraffic, PacketWise;
    InDevice(ms[0].t, e);
    var q, es := Concat(ps), Events(ms, cs, e);
    var r := DeviceLog(ms, cs, e, Log(q, q, []));
    MiceAreEvents(es);
    assert [] + ps == ps && [] + Brought(ms, cs, e) == Brought(ms, cs, e);
    PacketsStayWhole(Log(q, q, []), Traffic(ps, ps, []), Mice(es));
    var x := AfterTraffic(Traffic(ps, ps, []), Mice(es));
    assert forall p :: p in x.given ==> p in x.given + x.q;
  }
}
