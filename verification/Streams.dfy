/** What reading and writing mean: a regular file as a string of bytes with a running offset, and
    a character device as a bounded first-in first-out queue. */
module Streams {
  import opened Bytes

  // ----- Regular files -----

  function Max(a: nat, b: nat): nat { if a < b then b else a }
  function Min(a: nat, b: nat): nat { if a < b then a else b }

  /** `c` with `b` written at `p`, extended as far as needed; a gap reads as zeros. */
  function Overlay(c: seq<byte>, p: nat, b: seq<byte>): (r: seq<byte>)
    ensures |r| == Max(|c|, p + |b|)
    ensures forall i :: 0 <= i < |r| ==> r[i] == if p <= i < p + |b| then b[i - p] else if i < |c| then c[i] else 0
  {
    seq(Max(|c|, p + |b|), i requires 0 <= i => if p <= i < p + |b| then b[i - p] else if i < |c| then c[i] else 0)
  }

  /** What a read of `n` bytes at offset `p` delivers. */
  function Slice(c: seq<byte>, p: nat, n: nat): seq<byte> {
    if p >= |c| then [] else c[p..Min(|c|, p + n)]
  }

  function Concat(bs: seq<seq<byte>>): seq<byte> {
    if bs == [] then [] else bs[0] + Concat(bs[1..])
  }

  function WriteAll(c: seq<byte>, p: nat, bs: seq<seq<byte>>): seq<byte>
    decreases |bs|
  {
    if bs == [] then c else WriteAll(Overlay(c, p, bs[0]), p + |bs[0]|, bs[1..])
  }

  lemma OverlayTwice(c: seq<byte>, p: nat, a: seq<byte>, b: seq<byte>)
    ensures Overlay(Overlay(c, p, a), p + |a|, b) == Overlay(c, p, a + b)
  {
  }

  /** Any sequence of writes through one descriptor is one write of everything at the first offset. */
  lemma {:induction false} WritesAreOneWrite(c: seq<byte>, p: nat, bs: seq<seq<byte>>)
    requires bs != []
    ensures WriteAll(c, p, bs) == Overlay(c, p, Concat(bs))
    decreases |bs|
  {
    if |bs| == 1 {
      assert Concat(bs) == bs[0] + Concat([]);
      assert Concat(bs) == bs[0];
      assert WriteAll(c, p, bs) == WriteAll(Overlay(c, p, bs[0]), p + |bs[0]|, []);
    } else {
      WritesAreOneWrite(Overlay(c, p, bs[0]), p + |bs[0]|, bs[1..]);
      OverlayTwice(c, p, bs[0], Concat(bs[1..]));
    }
  }

  /** Everything that reads of these sizes deliver from offset `p` on. */
  function ReadAll(c: seq<byte>, p: nat, ns: seq<nat>): seq<byte>
    decreases |ns|
  {
    if ns == [] then [] else Slice(c, p, ns[0]) + ReadAll(c, p + |Slice(c, p, ns[0])|, ns[1..])
  }

  /** The offset after those reads. */
  function OffsetAfter(c: seq<byte>, p: nat, ns: seq<nat>): nat
    decreases |ns|
  {
    if ns == [] then p else OffsetAfter(c, p + |Slice(c, p, ns[0])|, ns[1..])
  }

  lemma {:induction false} ReadsInOrder(c: seq<byte>, p: nat, ns: seq<nat>)
    requires p <= |c|
    ensures p <= OffsetAfter(c, p, ns) <= |c| && ReadAll(c, p, ns) == c[p..OffsetAfter(c, p, ns)]
    decreases |ns|
  {
    hide Slice;
    if ns != [] {
      SliceInside(c, p, ns[0]);
      var q := p + |Slice(c, p, ns[0])|;
      ReadsInOrder(c, q, ns[1..]);
      var e := OffsetAfter(c, q, ns[1..]);
      assert c[p..e] == c[p..q] + c[q..e];
    }
  }

  lemma SliceInside(c: seq<byte>, p: nat, n: nat)
    requires p <= |c|
    ensures var q := p + |Slice(c, p, n)|; q <= |c| && Slice(c, p, n) == c[p..q]
  {
  }

  /** Reading a file from the start with any positive counts until a read returns nothing yields
      the whole file. */
  lemma ReadsReassemble(c: seq<byte>, ns: seq<nat>, last: nat)
    requires last > 0 && Slice(c, OffsetAfter(c, 0, ns), last) == []
    ensures ReadAll(c, 0, ns) == c
  {
    ReadsInOrder(c, 0, ns);
    assert OffsetAfter(c, 0, ns) == |c|;
  }

  /** What was written in pieces to an empty file is read back in any other pieces. */
  lemma WrittenIsRead(bs: seq<seq<byte>>, ns: seq<nat>, last: nat)
    requires bs != [] && last > 0 && Slice(WriteAll([], 0, bs), OffsetAfter(WriteAll([], 0, bs), 0, ns), last) == []
    ensures ReadAll(WriteAll([], 0, bs), 0, ns) == Concat(bs)
  {
    WritesAreOneWrite([], 0, bs);
    ReadsReassemble(WriteAll([], 0, bs), ns, last);
    assert Overlay([], 0, Concat(bs)) == Concat(bs);
  }

  // ----- Character devices -----

  /** The content of a device file: a length word, then the queued bytes. */
  predicate Device(d: seq<byte>) {
    |d| >= 4 && Get32(d, 0) <= |d| - 4
  }

  function Queue(d: seq<byte>): seq<byte>
    requires Device(d)
  {
    d[4..4 + Get32(d, 0)]
  }

  function Accepted(q: seq<byte>, cap: nat, s: seq<byte>): seq<byte>
    requires |q| <= cap
  {
    s[..Min(|s|, cap - |q|)]
  }

  function Delivered(q: seq<byte>, n: nat): seq<byte> {
    q[..Min(|q|, n)]
  }

  datatype Event = Put(bytes: seq<byte>) | Get(count: nat)

  /** Queue, accepted bytes and delivered bytes of a run. */
  datatype Log = Log(q: seq<byte>, taken: seq<byte>, given: seq<byte>)

  function After(l: Log, cap: nat, e: Event): (r: Log)
    requires |l.q| <= cap
    ensures |r.q| <= cap
  {
    match e
    case Put(s) => Log(l.q + Accepted(l.q, cap, s), l.taken + Accepted(l.q, cap, s), l.given)
    case Get(n) => Log(l.q[Min(|l.q|, n)..], l.taken, l.given + Delivered(l.q, n))
  }

  function AfterAll(l: Log, cap: nat, es: seq<Event>): (r: Log)
    requires |l.q| <= cap
    ensures |r.q| <= cap
    decreases |es|
  {
    if es == [] then l else AfterAll(After(l, cap, es[0]), cap, es[1..])
  }

  /** First in, first out, nothing lost that was accepted: over any interleaving of writes and reads,
      what was read followed by what is still queued is what was accepted. */
  lemma {:induction false} FirstInFirstOut(l: Log, cap: nat, es: seq<Event>)
    requires |l.q| <= cap && l.given + l.q == l.taken
    ensures var r := AfterAll(l, cap, es); r.given + r.q == r.taken && |r.q| <= cap
    decreases |es|
  {
    if es != [] {
      var r := After(l, cap, es[0]);
      match es[0]
      case Put(s) =>
        var a := Accepted(l.q, cap, s);
        assert l.given + (l.q + a) == l.given + l.q + a;
        FirstInFirstOut(r, cap, es[1..]);
      case Get(n) =>
        assert l.given + Delivered(l.q, n) + l.q[Min(|l.q|, n)..] == l.given + l.q;
        FirstInFirstOut(r, cap, es[1..]);
    }
  }

  // ----- Mouse packets -----

  const PACKET := 3
  const MOUSE_CAPACITY := 4092  // a device file of 4096 bytes

  predicate Packets(ps: seq<seq<byte>>) {
    forall p :: p in ps ==> |p| == PACKET
  }

  lemma {:induction false} ConcatLength(ps: seq<seq<byte>>)
    requires Packets(ps)
    ensures |Concat(ps)| == PACKET * |ps|
    decreases |ps|
  {
    if ps != [] {
      assert ps[0] in ps;
      ConcatLength(ps[1..]);
    }
  }

  lemma {:induction false} ConcatSnoc(ps: seq<seq<byte>>, p: seq<byte>)
    ensures Concat(ps + [p]) == Concat(ps) + p
    decreases |ps|
  {
    if ps == [] {
      assert [p][1..] == [] && ps + [p] == [p];
      assert Concat([p]) == p + Concat([]);
    } else {
      assert (ps + [p])[1..] == ps[1..] + [p];
      ConcatSnoc(ps[1..], p);
    }
  }

  /** The mouse writes packets and the kernel reads packets: a full packet or nothing. */
  datatype Mouse = Send(packet: seq<byte>) | Poll

  function ToEvent(m: Mouse): Event {
    match m
    case Send(p) => Put(p)
    case Poll => Get(PACKET)
  }

  /** Packets queued, packets accepted, packets delivered. */
  datatype Traffic = Traffic(q: seq<seq<byte>>, taken: seq<seq<byte>>, given: seq<seq<byte>>)

  function AfterMouse(t: Traffic, m: Mouse): Traffic {
    match m
    case Send(p) => if PACKET * |t.q| < MOUSE_CAPACITY then Traffic(t.q + [p], t.taken + [p], t.given) else t
    case Poll => if t.q == [] then t else Traffic(t.q[1..], t.taken, t.given + [t.q[0]])
  }

  ghost predicate Framed(l: Log, t: Traffic) {
    Packets(t.q) && Packets(t.taken) && l.q == Concat(t.q) && l.taken == Concat(t.taken) && l.given == Concat(t.given)
  }

  /** The byte queue moves in step with a queue of whole packets: a write is all or nothing, a read
      returns one packet as written or nothing. */
  lemma PacketStep(l: Log, t: Traffic, m: Mouse)
    requires Framed(l, t) && |l.q| <= MOUSE_CAPACITY && (m.Send? ==> |m.packet| == PACKET)
    ensures Framed(After(l, MOUSE_CAPACITY, ToEvent(m)), AfterMouse(t, m))
  {
    ConcatLength(t.q);
    match m
    case Send(p) =>
      if PACKET * |t.q| < MOUSE_CAPACITY {
        ConcatSnoc(t.q, p);
        ConcatSnoc(t.taken, p);
        assert Accepted(l.q, MOUSE_CAPACITY, p) == p;
      } else {
        assert Accepted(l.q, MOUSE_CAPACITY, p) == [];
        assert l.q + [] == l.q && l.taken + [] == l.taken;
      }
    case Poll =>
      if t.q == [] {
        assert l.q == [] && l.given + [] == l.given;
      } else {
        assert t.q[0] in t.q;
        ConcatSnoc(t.given, t.q[0]);
        assert l.q == t.q[0] + Concat(t.q[1..]);
        assert l.q[PACKET..] == Concat(t.q[1..]) && l.q[..PACKET] == t.q[0];
      }
  }

  function AfterTraffic(t: Traffic, ms: seq<Mouse>): Traffic
    decreases |ms|
  {
    if ms == [] then t else AfterTraffic(AfterMouse(t, ms[0]), ms[1..])
  }

  function ToEvents(ms: seq<Mouse>): (r: seq<Event>)
    ensures |r| == |ms|
    decreases |ms|
  {
    if ms == [] then [] else [ToEvent(ms[0])] + ToEvents(ms[1..])
  }

  lemma FramedLength(l: Log, t: Traffic)
    requires Framed(l, t)
    ensures |l.q| % PACKET == 0
  {
    ConcatLength(t.q);
  }

  lemma MouseInOrder(t: Traffic, m: Mouse)
    requires t.given + t.q == t.taken
    ensures var u := AfterMouse(t, m); u.given + u.q == u.taken
  {
    if m.Poll? && t.q != [] { assert t.given + [t.q[0]] + t.q[1..] == t.given + t.q; }
    if m.Send? { assert t.given + (t.q + [m.packet]) == t.given + t.q + [m.packet]; }
  }

  /** Over any run on the 4096-byte device file, packets stay whole and in order. */
  lemma {:induction false} PacketsStayWhole(l: Log, t: Traffic, ms: seq<Mouse>)
    requires Framed(l, t) && |l.q| <= MOUSE_CAPACITY && t.given + t.q == t.taken
    requires forall m :: m in ms ==> m.Send? ==> |m.packet| == PACKET
    ensures var r, u := AfterAll(l, MOUSE_CAPACITY, ToEvents(ms)), AfterTraffic(t, ms);
            Framed(r, u) && u.given + u.q == u.taken && |r.q| % PACKET == 0
    decreases |ms|
  {
    hide Framed, After, AfterMouse;
    if ms == [] {
      FramedLength(l, t);
    } else {
      assert ms[0] in ms;
      PacketStep(l, t, ms[0]);
      MouseInOrder(t, ms[0]);
      var es := ToEvents(ms);
      assert es[0] == ToEvent(ms[0]) && es[1..] == ToEvents(ms[1..]);
      PacketsStayWhole(After(l, MOUSE_CAPACITY, es[0]), AfterMouse(t, ms[0]), ms[1..]);
    }
  }
}
