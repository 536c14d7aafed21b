/** Owning buffers: who owns each allocation while buffers are made, moved, swapped and destroyed. */
module Buffers {
  import opened Options

  // What a buffer object holds: an address and the size allocated there, or nothing and zero.
  datatype Buffer = Buffer(ptr: Option<nat>, bytes: nat)

  const EMPTY := Buffer(None, 0)

  // The allocator's live blocks by address, the buffer objects by name, and what was asked of the
  // allocator: blocks given out, blocks returned, and whether something not live was ever returned.
  datatype Heap = Heap(live: map<nat, nat>, buffers: map<nat, Buffer>, given: nat, returned: nat, misused: bool)

  const START := Heap(map[], map[], 0, 0, false)

  // `got` is the allocator's answer, used only for a size above zero; none means that it failed.
  datatype Op = Default(name: nat)
              | Construct(name: nat, bytes: nat, got: Option<nat>)
              | MoveConstruct(name: nat, from: nat)
              | MoveAssign(to: nat, from: nat)
              | Destroy(name: nat)

  // What the language and the allocator guarantee of an operation: an object is constructed once,
  // used and destroyed while it exists, and no live block is given out again.
  predicate Enabled(h: Heap, op: Op) {
    match op
    case Default(n) => n !in h.buffers
    case Construct(n, bytes, got) => n !in h.buffers && (got.Some? ==> got.value !in h.live)
    case MoveConstruct(n, from) => n !in h.buffers && from in h.buffers
    case MoveAssign(to, from) => to in h.buffers && from in h.buffers
    case Destroy(n) => n in h.buffers
  }

  function Free(h: Heap, p: nat): Heap {
    h.(live := h.live - {p}, returned := h.returned + 1, misused := h.misused || p !in h.live)
  }

  function SwapIn(h: Heap, to: nat, from: nat): Heap
    requires to in h.buffers && from in h.buffers
  {
    h.(buffers := h.buffers[to := h.buffers[from]][from := h.buffers[to]])
  }

  function Step(h: Heap, op: Op): Heap
    requires Enabled(h, op)
  {
    match op
    case Default(n) => h.(buffers := h.buffers[n := EMPTY])
    case Construct(n, bytes, got) =>
      if bytes == 0 then h.(buffers := h.buffers[n := EMPTY])
      else if got.None? then h
      else h.(live := h.live[got.value := bytes], buffers := h.buffers[n := Buffer(got, bytes)], given := h.given + 1)
    case MoveConstruct(n, from) => SwapIn(h.(buffers := h.buffers[n := EMPTY]), n, from)
    case MoveAssign(to, from) => SwapIn(h, to, from)
    case Destroy(n) =>
      var freed := if h.buffers[n].ptr.Some? then Free(h, h.buffers[n].ptr.value) else h;
      freed.(buffers := freed.buffers - {n})
  }

  // ----- ownership -----

  predicate Owns(h: Heap, n: nat, p: nat) {
    n in h.buffers && h.buffers[n].ptr == Some(p)
  }

  // What each buffer holds is live with its size.
  predicate HoldsLive(h: Heap) {
    forall n <- h.buffers ::
      if h.buffers[n].ptr.None? then h.buffers[n].bytes == 0
      else h.buffers[n].ptr.value in h.live && h.live[h.buffers[n].ptr.value] == h.buffers[n].bytes > 0
  }

  ghost predicate EveryBlockOwned(h: Heap) {
    forall p <- h.live :: exists n :: Owns(h, n, p)
  }

  ghost predicate OneOwner(h: Heap) {
    forall m, n, p :: Owns(h, m, p) && Owns(h, n, p) ==> m == n
  }

  // Each live block has exactly one owner, of its size, and the allocator was never misused.
  ghost predicate Owned(h: Heap) {
    HoldsLive(h) && EveryBlockOwned(h) && OneOwner(h) && !h.misused && h.given == h.returned + |h.live|
  }

  // Who holds, after a swap of `to` and `from`, what `n` held before it, and the other way round.
  function Other(n: nat, to: nat, from: nat): nat {
    if n == to then from else if n == from then to else n
  }

  lemma SwapOwns(h: Heap, to: nat, from: nat, n: nat, p: nat)
    requires to in h.buffers && from in h.buffers
    ensures Owns(SwapIn(h, to, from), n, p) <==> Owns(h, Other(n, to, from), p)
    ensures Other(Other(n, to, from), to, from) == n
  {
  }

  lemma SwapKeeps(h: Heap, to: nat, from: nat)
    requires Owned(h) && to in h.buffers && from in h.buffers
    ensures Owned(SwapIn(h, to, from))
  {
    var now := SwapIn(h, to, from);
    assert HoldsLive(now);
    assert now.live == h.live;
    hide SwapIn;
    hide Owns;
    hide HoldsLive;
    forall p | p in now.live ensures exists n :: Owns(now, n, p) {
      var n :| Owns(h, n, p);
      SwapOwns(h, to, from, Other(n, to, from), p);
    }
    forall m, n, p | Owns(now, m, p) && Owns(now, n, p) ensures m == n {
      SwapOwns(h, to, from, m, p);
      SwapOwns(h, to, from, n, p);
    }
  }

  lemma NewEmptyKeeps(h: Heap, n: nat)
    requires Owned(h) && n !in h.buffers
    ensures Owned(h.(buffers := h.buffers[n := EMPTY]))
  {
    var now := h.(buffers := h.buffers[n := EMPTY]);
    assert forall m, p :: Owns(now, m, p) <==> Owns(h, m, p);
  }

  lemma AllocateOwns(h: Heap, n: nat, bytes: nat, p: nat, m: nat, q: nat)
    requires n !in h.buffers && p !in h.live && bytes > 0 && HoldsLive(h)
    ensures Owns(Step(h, Construct(n, bytes, Some(p))), m, q) <==> Owns(h, m, q) || (m == n && q == p)
    ensures !Owns(h, m, p) && !Owns(h, n, q)
  {
  }

  lemma AllocateCounts(h: Heap, n: nat, bytes: nat, p: nat)
    requires n !in h.buffers && p !in h.live && bytes > 0
    ensures
      var now := Step(h, Construct(n, bytes, Some(p)));
      && (forall q :: q in now.live <==> q in h.live || q == p)
      && |now.live| == |h.live| + 1 && now.given == h.given + 1 && now.returned == h.returned && now.misused == h.misused
  {
    var now := Step(h, Construct(n, bytes, Some(p)));
    assert now.live.Keys == h.live.Keys + {p};
    assert |now.live| == |now.live.Keys| && |h.live| == |h.live.Keys|;
  }

  lemma AllocateKeeps(h: Heap, n: nat, bytes: nat, p: nat)
    requires Owned(h) && n !in h.buffers && p !in h.live && bytes > 0
    ensures Owned(Step(h, Construct(n, bytes, Some(p))))
  {
    var now := Step(h, Construct(n, bytes, Some(p)));
    assert HoldsLive(now);
    AllocateCounts(h, n, bytes, p);
    hide Step;
    hide Owns;
    hide HoldsLive;
    forall q | q in now.live ensures exists m :: Owns(now, m, q) {
      if q == p {
        AllocateOwns(h, n, bytes, p, n, p);
      } else {
        assert q in h.live;
        var m :| Owns(h, m, q);
        AllocateOwns(h, n, bytes, p, m, q);
      }
    }
    forall m, k, q | Owns(now, m, q) && Owns(now, k, q) ensures m == k {
      AllocateOwns(h, n, bytes, p, m, q);
      AllocateOwns(h, n, bytes, p, k, q);
    }
  }

  lemma DestroyKeeps(h: Heap, n: nat)
    requires Owned(h) && n in h.buffers
    ensures Owned(Step(h, Destroy(n)))
  {
    var now := Step(h, Destroy(n));
    var b := h.buffers[n];
    assert forall m, q :: Owns(now, m, q) <==> Owns(h, m, q) && m != n;
    if b.ptr.Some? {
      assert Owns(h, n, b.ptr.value);
      assert now.live.Keys == h.live.Keys - {b.ptr.value};
      forall m | m in now.buffers && now.buffers[m].ptr.Some? ensures now.buffers[m].ptr != b.ptr {
        assert Owns(h, m, now.buffers[m].ptr.value);
      }
    }
    forall q | q in now.live ensures exists m :: Owns(now, m, q) {
      var m :| Owns(h, m, q);
      assert Owns(now, m, q);
    }
  }

  lemma StepKeeps(h: Heap, op: Op)
    requires Owned(h) && Enabled(h, op)
    ensures Owned(Step(h, op))
  {
    match op
    case Default(n) => NewEmptyKeeps(h, n);
    case Construct(n, bytes, got) =>
      if bytes == 0 { NewEmptyKeeps(h, n); } else if got.Some? { AllocateKeeps(h, n, bytes, got.value); }
    case MoveConstruct(n, from) =>
      NewEmptyKeeps(h, n);
      SwapKeeps(h.(buffers := h.buffers[n := EMPTY]), n, from);
    case MoveAssign(to, from) => SwapKeeps(h, to, from);
    case Destroy(n) => DestroyKeeps(h, n);
  }

  // ----- whole runs -----

  // The heap after these operations, if each was allowed when its turn came.
  function Run(h: Heap, ops: seq<Op>): Option<Heap>
    decreases |ops|
  {
    if ops == [] then Some(h)
    else if !Enabled(h, ops[0]) then None
    else Run(Step(h, ops[0]), ops[1..])
  }

  lemma {:induction false} RunKeeps(h: Heap, ops: seq<Op>)
    requires Owned(h) && Run(h, ops).Some?
    ensures Owned(Run(h, ops).value)
    decreases |ops|
  {
    if ops != [] {
      hide Owned;
      StepKeeps(h, ops[0]);
      RunKeeps(Step(h, ops[0]), ops[1..]);
    }
  }

  // Operations one after another: a run goes on exactly as far as each is allowed.
  lemma {:induction false} RunExtends(h: Heap, ops: seq<Op>, op: Op)
    ensures Run(h, []) == Some(h)
    ensures Run(h, ops + [op]) ==
      match Run(h, ops)
      case Some(now) => if Enabled(now, op) then Some(Step(now, op)) else None
      case None => None
    decreases |ops|
  {
    hide Step;
    hide Enabled;
    if ops == [] {
      assert ops + [op] == [op] && [op][1..] == [];
    } else {
      assert (ops + [op])[0] == ops[0] && (ops + [op])[1..] == ops[1..] + [op];
      if Enabled(h, ops[0]) { RunExtends(Step(h, ops[0]), ops[1..], op); }
    }
  }

  lemma BuildAndMove(h: Heap, n: nat, m: nat, bytes: nat, p: nat)
    requires n !in h.buffers && m !in h.buffers && m != n && p !in h.live && bytes > 0
    ensures
      var moved := h.(live := h.live[p := bytes], buffers := h.buffers[n := EMPTY][m := Buffer(Some(p), bytes)], given := h.given + 1);
      Run(h, [Construct(n, bytes, Some(p)), MoveConstruct(m, n)]) == Some(moved)
  {
    var one := Construct(n, bytes, Some(p));
    RunExtends(h, [], one);
    RunExtends(h, [one], MoveConstruct(m, n));
    assert [] + [one] == [one] && [one] + [MoveConstruct(m, n)] == [one, MoveConstruct(m, n)];
    hide Run;
    assert Step(Step(h, one), MoveConstruct(m, n)).buffers == h.buffers[n := EMPTY][m := Buffer(Some(p), bytes)];
  }

  lemma DropBoth(h: Heap, n: nat, m: nat, bytes: nat, p: nat)
    requires n !in h.buffers && m !in h.buffers && m != n && p !in h.live && !h.misused
    ensures
      var moved := h.(live := h.live[p := bytes], buffers := h.buffers[n := EMPTY][m := Buffer(Some(p), bytes)]);
      var dropped := Step(moved, Destroy(n));
      Enabled(moved, Destroy(n)) && Enabled(dropped, Destroy(m)) && Step(dropped, Destroy(m)) == h.(returned := h.returned + 1)
  {
    var moved := h.(live := h.live[p := bytes], buffers := h.buffers[n := EMPTY][m := Buffer(Some(p), bytes)]);
    var dropped := Step(moved, Destroy(n));
    assert dropped.buffers == h.buffers[m := Buffer(Some(p), bytes)];
    var last := Step(dropped, Destroy(m));
    assert last.buffers == h.buffers && last.live == h.live;
  }

  /** A buffer that comes and goes leaves the memory as it found it, whichever new name the block is
      moved to meanwhile. */
  lemma ComesAndGoes(h: Heap, n: nat, m: nat, bytes: nat, p: nat)
    requires n !in h.buffers && m !in h.buffers && m != n && p !in h.live && bytes > 0 && !h.misused
    ensures
      var run := [Construct(n, bytes, Some(p)), MoveConstruct(m, n), Destroy(n), Destroy(m)];
      Run(h, run) == Some(h.(given := h.given + 1, returned := h.returned + 1))
  {
    var two := [Construct(n, bytes, Some(p)), MoveConstruct(m, n)];
    BuildAndMove(h, n, m, bytes, p);
    DropBoth(h.(given := h.given + 1), n, m, bytes, p);
    RunExtends(h, two, Destroy(n));
    RunExtends(h, two + [Destroy(n)], Destroy(m));
    hide *;
    assert two + [Destroy(n)] + [Destroy(m)] == [Construct(n, bytes, Some(p)), MoveConstruct(m, n), Destroy(n), Destroy(m)];
  }

  /** Over any run of constructions, moves, self-moves and destructions, failed allocations included:
      every live block has exactly one owner, which knows its size; nothing was returned twice or
      without having been given out; and once no buffer is left, neither is a block. */
  lemma EveryRunOwns(ops: seq<Op>)
    requires Run(START, ops).Some?
    ensures
      var h := Run(START, ops).value;
      Owned(h) && (h.buffers == map[] ==> h.live == map[] && h.given == h.returned)
  {
    RunKeeps(START, ops);
    var h := Run(START, ops).value;
    if h.buffers == map[] {
      assert forall p :: p in h.live ==> exists n :: Owns(h, n, p);
      assert h.live.Keys == {};
      assert |h.live| == |h.live.Keys|;
    }
  }

  /** A move gives nothing back to the allocator: the block the target held goes to the source and is
      freed with it. Moving a buffer onto itself changes nothing, and a moved-from buffer that was
      moved into a new one is empty. */
  lemma MoveReleasesNothing(h: Heap, to: nat, from: nat, n: nat)
    requires to in h.buffers && from in h.buffers && n !in h.buffers
    ensures
      var moved := Step(h, MoveAssign(to, from));
      && moved.live == h.live && moved.returned == h.returned
      && moved.buffers[to] == h.buffers[from] && moved.buffers[from] == h.buffers[to]
      && Step(moved, MoveAssign(to, from)) == h
      && (to == from ==> moved == h)
    ensures
      var built := Step(h, MoveConstruct(n, from));
      built.buffers == h.buffers[n := h.buffers[from]][from := EMPTY] && built.live == h.live
  {
    var moved := Step(h, MoveAssign(to, from));
    assert Step(moved, MoveAssign(to, from)).buffers == h.buffers;
    if to == from { assert moved.buffers == h.buffers; }
    assert Step(h, MoveConstruct(n, from)).buffers == h.buffers[n := h.buffers[from]][from := EMPTY];
  }

  // ----- the objects -----

  // A device's allocator.
  class Device {
    var live: map<nat, nat>
    var next: nat

    ghost predicate Valid()
      reads this
    {
      forall p <- live :: p < next
    }

    constructor ()
      ensures Valid() && live == map[]
    {
      live := map[];
      next := 0;
    }

    method Malloc(bytes: nat) returns (p: nat)
      requires Valid()
      modifies this
      ensures Valid() && p !in old(live) && live == old(live)[p := bytes]
    {
      p := next;
      live := live[p := bytes];
      next := next + 1;
    }

    method Free(p: nat)
      requires Valid() && p in live
      modifies this
      ensures Valid() && live == old(live) - {p}
    {
      live := live - {p};
    }
  }

  class DeviceBuffer {
    var ptr: Option<nat>
    var bytes: nat

    function View(): Buffer
      reads this
    {
      Buffer(ptr, bytes)
    }

    constructor Empty()
      ensures View() == EMPTY
    {
      ptr, bytes := None, 0;
    }

    constructor (device: Device, bytes: nat)
      requires device.Valid()
      modifies device
      ensures device.Valid()
      ensures bytes == 0 ==> View() == EMPTY && device.live == old(device.live)
      ensures bytes > 0 ==>
        && ptr.Some? && this.bytes == bytes
        && ptr.value !in old(device.live) && device.live == old(device.live)[ptr.value := bytes]
    {
      ptr := None;
      this.bytes := bytes;
      new;
      if bytes > 0 {
        var p := device.Malloc(bytes);
        ptr := Some(p);
      }
    }

    constructor MoveFrom(other: DeviceBuffer)
      modifies other
      ensures View() == old(other.View()) && other.View() == EMPTY
    {
      ptr, bytes := None, 0;
      new;
      Swap(other);
    }

    method Swap(other: DeviceBuffer)
      modifies this, other
      ensures View() == old(other.View()) && other.View() == old(View())
    {
      var p := ptr;
      ptr := other.ptr;
      other.ptr := p;
      var b := bytes;
      bytes := other.bytes;
      other.bytes := b;
    }

    method MoveAssign(other: DeviceBuffer)
      modifies this, other
      ensures View() == old(other.View()) && other.View() == old(View())
      ensures other == this ==> View() == old(View())
    {
      Swap(other);
    }

    method Destroy(device: Device)
      requires device.Valid() && (ptr.Some? ==> ptr.value in device.live)
      modifies device
      ensures device.Valid()
      ensures device.live == if ptr.Some? then old(device.live) - {ptr.value} else old(device.live)
    {
      if ptr.Some? { device.Free(ptr.value); }
    }
  }
}
