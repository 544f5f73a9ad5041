/** The mouse: the driver puts packets into its device file, the kernel loop takes them out. */
module Mouse {
  import opened Bytes
  import opened Paths
  import opened FsSpec
  import opened Headers
  import opened Memory
  import opened Store
  import opened CoreFs
  import opened Streams
  import opened Sessions
  import IoCall

  const MOUSE: seq<byte> := [47, 100, 101, 118, 47, 109, 111, 117, 115, 101]  // "/dev/mouse"

  /** The device file is in place and holds these packets. */
  ghost predicate Pending(t: Files, ps: seq<seq<byte>>) {
    var e := Find(t, MOUSE, 0);
    && e > 0 && OnDevice(t, e) && |Held(t, e)| == MOUSE_CAPACITY + 4 && t[e].f.h.devperm as bv32 == IoCall.O_RDONLY
    && Packets(ps) && Queue(Held(t, e)) == Concat(ps)
  }

  /** A write of one packet: all of it or nothing. */
  lemma Put1(t: Files, u: Files, e: nat, p: seq<byte>, c: nat, at: Date, ps: seq<seq<byte>>)
    requires Pending(t, ps) && e == Find(t, MOUSE, 0) && |p| == PACKET && IoCall.Queued(t, u, e, p, c, at)
    ensures Pending(u, AfterSend(ps, p))
  {
    hide Device, Queue;
    StillThere(t, u, e);
    ConcatLength(ps);
    ConcatSnoc(ps, p);
    assert Concat(ps) + [] == Concat(ps);
  }

  lemma Get1(t: Files, u: Files, d: IoCall.FileDesc, d': IoCall.FileDesc, out: seq<byte>, now: Date, ps: seq<seq<byte>>)
    requires Pending(t, ps) && d.entry == Find(t, MOUSE, 0) && IoCall.Received(t, u, d, d', PACKET, out, now)
    ensures out == (if ps == [] then [] else ps[0]) && Pending(u, if ps == [] then [] else ps[1..])
  {
    hide Device, Queue;
    StillThere(t, u, d.entry);
    var q := Concat(ps);
    if ps != [] {
      assert ps[0] in ps;
      assert q == ps[0] + Concat(ps[1..]);
      assert q[..PACKET] == ps[0] && q[PACKET..] == Concat(ps[1..]);
    }
  }

  lemma StillThere(t: Files, u: Files, e: nat)
    requires Find(t, MOUSE, 0) == e && |u| == |t| && u[e].Used? && u == t[e := u[e]]
    requires u[e].f.h.name == t[e].f.h.name
    ensures Find(u, MOUSE, 0) == e
  {
    assert forall k :: Named(u, k, MOUSE) <==> Named(t, k, MOUSE);
  }

  /** The device file can be opened by the driver by force, and by the kernel for reading. */
  lemma Opens(force: bool, t: Files, u: Files, o: Outcome, flags: bv32, r: int, ps: seq<seq<byte>>)
    requires Pending(t, ps) && IoCall.Opened(force, t, u, o, MOUSE, flags, r)
    requires flags == if force then IoCall.O_WRONLY else IoCall.O_RDONLY
    ensures r == IoCall.TYPEFD && u == t
  {
    hide Device, Queue, Find;
  }

  lemma Usable(io: IoCall.IoCall, t: Files, d: IoCall.FileDesc, way: bv32, ps: seq<seq<byte>>)
    requires Pending(t, ps) && d.entry == Find(t, MOUSE, 0) && d.flags == way
    requires way == if io.forceAccess then IoCall.O_WRONLY else IoCall.O_RDONLY
    ensures io.Usable(t, d, way) && IoCall.DeviceSound(t, d.entry)
    ensures 0 <= d.entry < |t| && t[d.entry].Used? && t[d.entry].f.h.ftype == TYPE_CHARDEV
  {
    hide Device, Queue, Find;
  }

  function Packet(stat: byte, x: byte, y: byte): (p: seq<byte>)
    ensures |p| == PACKET && p[0] == stat % 8 && p[1] == x && p[2] == y
  {
    [stat % 8, x, y]
  }

  function AfterSend(ps: seq<seq<byte>>, p: seq<byte>): (r: seq<seq<byte>>)
    ensures r == ps || r == ps + [p]
    ensures r == ps <==> |ps| >= 1364
  {
    if PACKET * |ps| < MOUSE_CAPACITY then ps + [p] else ps
  }

  /** The driver reports a movement. Its packet is queued whole, or dropped whole when the file is full.
      (The `close` that follows looks at a slot that is never in use and does nothing.) */
  method Send(io: IoCall.IoCall, stat: byte, x: byte, y: byte, at: Date, now: Stamps, ghost ps: seq<seq<byte>>)
    requires io.Valid() && io.fs.Fitting(0) && Pending(io.fs.Files(), ps)
    modifies io`forceAccess, io.fileDesc, io.fs.raPath, io.fs.entryV, io.fs.heap.blockV, io.fs.heap.ram
    ensures Spared(old(io.fs.Now()), io.fs.Now())
    ensures io.Valid() && !io.forceAccess && Pending(io.fs.Files(), AfterSend(ps, Packet(stat, x, y)))
  {
    hide HeaderAt, FileAt, Consistent, View, Memory.WellFormed, RunLen, Tree, Find, Spared, NoLeak, Pending, Device;
    hide Queue;
    hide IoCall.Opened, IoCall.Queued, IoCall.Stored, FsSpec.WriteFile, Room, Leftover, AfterSend, Packet;
    io.forceAccess := true;
    ghost var f0, t, o := io.fs.Now(), io.fs.Files(), io.fs.WriteOutcome(MOUSE, 0, [], now);
    var dev := io.Open(MOUSE, IoCall.O_WRONLY, now);
    ghost var f1 := io.fs.Now();
    Opens(true, t, io.fs.Files(), o, IoCall.O_WRONLY, dev, ps);
    Usable(io, t, io.fileDesc[0], IoCall.O_WRONLY, ps);
    var sts := io.Write(dev, Packet(stat, x, y), at, now);
    SparedTrans(f0, f1, io.fs.Now());
    Put1(t, io.fs.Files(), Find(t, MOUSE, 0), Packet(stat, x, y), sts, at, ps);
    io.forceAccess := false;
  }

  /** One turn of the kernel loop: the oldest packet, whole, or nothing. */
  method Poll(io: IoCall.IoCall, at: Date, now: Stamps, ghost ps: seq<seq<byte>>) returns (r: int, out: seq<byte>)
    requires io.Valid() && io.fs.Fitting(0) && Pending(io.fs.Files(), ps) && !io.forceAccess
    modifies io.fileDesc, io.fs.raPath, io.fs.entryV, io.fs.heap.blockV, io.fs.heap.ram
    ensures Spared(old(io.fs.Now()), io.fs.Now())
    ensures io.Valid() && Pending(io.fs.Files(), if ps == [] then [] else ps[1..])
    ensures out == (if ps == [] then [] else ps[0]) && r == |out|
  {
    hide HeaderAt, FileAt, Consistent, View, Memory.WellFormed, RunLen, Tree, Find, Spared, NoLeak, Pending, Device;
    hide Queue;
    hide IoCall.Opened, IoCall.Queued, IoCall.Stored, IoCall.Received, FsSpec.WriteFile, Room, Leftover;
    ghost var f0, t, o := io.fs.Now(), io.fs.Files(), io.fs.WriteOutcome(MOUSE, 0, [], now);
    var dev := io.Open(MOUSE, IoCall.O_RDONLY, now);
    ghost var f1 := io.fs.Now();
    Opens(false, t, io.fs.Files(), o, IoCall.O_RDONLY, dev, ps);
    ghost var d := io.fileDesc[0];
    Usable(io, t, d, IoCall.O_RDONLY, ps);
    r, out := io.Read(dev, PACKET, at);
    SparedTrans(f0, f1, io.fs.Now());
    Get1(t, io.fs.Files(), d, io.fileDesc[0], out, at, ps);
  }
}
