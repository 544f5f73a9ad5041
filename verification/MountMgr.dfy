/** The mount manager: a table of pointers to the data of mounted files. */
module MountMgr {
  import opened Bytes
  import opened Memory

  const MOUNTLIMIT := 1024

  /** Lowest empty slot from `i` on, or -1. */
  function FreeSlot(v: seq<nat>, i: nat): (r: int)
    requires i <= |v|
    ensures r == -1 || (i <= r < |v| && v[r] == 0)
    ensures forall k :: i <= k < |v| && (r == -1 || k < r) ==> v[k] != 0
    decreases |v| - i
  {
    if i == |v| then -1 else if v[i] == 0 then i else FreeSlot(v, i + 1)
  }

  /** What a call answers, and the slots after it. */
  datatype Answer = Answer(code: int, slots: seq<nat>)

  function GetOf(up: bool, v: seq<nat>, data: nat): Answer {
    var s := FreeSlot(v, 0);
    if !up || data == 0 || s == -1 then Answer(-1, v) else Answer(s, v[s := data])
  }

  function ReleaseOf(up: bool, v: seq<nat>, slot: int): Answer {
    if up && 0 <= slot < |v| && v[slot] != 0 then Answer(0, v[slot := 0]) else Answer(-1, v)
  }

  class MountMgr {
    var initLock: bool
    var mountV: array<nat>

    constructor ()
      ensures !initLock && fresh(mountV) && Valid()
    {
      initLock := false;
      mountV := new nat[MOUNTLIMIT](_ => 0);
    }

    ghost predicate Valid()
      reads this
    {
      mountV.Length == MOUNTLIMIT
    }

    /** `mountmgr_init`. A true result stands for the panic when memory runs out. */
    method Init(heap: Heap) returns (panic: bool)
      requires Valid() && heap.Good()
      modifies this, heap.blockV, heap.ram
      ensures old(initLock) ==> !panic && unchanged(this) && unchanged(heap.blockV) && unchanged(heap.ram)
      ensures !old(initLock) ==>
                && initLock && (panic <==> old(heap.Next(MOUNTLIMIT * 4)).ptr == 0)
                && heap.Table() == old(heap.Next(MOUNTLIMIT * 4)).table
      ensures !old(initLock) && panic ==> heap.ram[..] == old(heap.ram[..])
      ensures !old(initLock) && !panic ==>
                var p := old(heap.Next(MOUNTLIMIT * 4)).ptr;
                && Valid() && fresh(mountV) && (forall i :: 0 <= i < MOUNTLIMIT ==> mountV[i] == 0)
                && p + MOUNTLIMIT * 4 <= RAM_SIZE && heap.ram[..] == Splice(old(heap.ram[..]), p, Zeros(MOUNTLIMIT * 4))
    {
      hide MallocOf, Memory.WellFormed;
      if initLock { return false; }
      initLock := true;
      var p := heap.Calloc(MOUNTLIMIT, 4);
      if p == 0 { return true; }
      mountV := new nat[MOUNTLIMIT](_ => 0);
      return false;
    }

    /** The slot `data` was put in: the lowest empty one. */
    method GetSlot(data: nat) returns (slot: int)
      requires Valid()
      modifies mountV
      ensures Answer(slot, mountV[..]) == GetOf(initLock, old(mountV[..]), data)
    {
      if !initLock || data == 0 { return -1; }
      var i := 0;
      while i < MOUNTLIMIT
        invariant 0 <= i <= MOUNTLIMIT && mountV[..] == old(mountV[..])
        invariant FreeSlot(mountV[..], 0) == FreeSlot(mountV[..], i)
      {
        if mountV[i] == 0 {
          mountV[i] := data;
          return i;
        }
        i := i + 1;
      }
      return -1;
    }

    method ReleaseSlot(slot: int) returns (r: int)
      requires Valid()
      modifies mountV
      ensures Answer(r, mountV[..]) == ReleaseOf(initLock, old(mountV[..]), slot)
    {
      if !initLock || slot < 0 || slot >= MOUNTLIMIT || mountV[slot] == 0 { return -1; }
      mountV[slot] := 0;
      return 0;
    }
  }

  /** A slot that was taken and released is empty again, and no slot has changed; released once more,
      it is refused. A call that found no slot left all of them alone. */
  lemma TakeThenRelease(v: seq<nat>, data: nat)
    ensures var a := GetOf(true, v, data);
            && (a.code == -1 <==> data == 0 || forall i :: 0 <= i < |v| ==> v[i] != 0)
            && ReleaseOf(true, a.slots, a.code) == Answer(if a.code == -1 then -1 else 0, v)
            && (a.code != -1 ==> ReleaseOf(true, v, a.code) == Answer(-1, v))
  {
  }
}
