/** Carving objects out of untyped memory with a watermark, and what any sequence of carvings keeps. */
module Retype {
  import opened Abi
  import opened Descriptors
  import opened Caps

  datatype RetypeError = BadSlot | NotUntyped | Exhausted | NoFreeSlot | PrepFailed

  /** `retype` up to the call of `prep`: the address to carve, or the reason not to. */
  function CarveAt(caps: seq<Cap>, slot: nat, g: Granule): (r: Result<nat, RetypeError>)
    ensures r.Ok? ==> slot < |caps| && caps[slot].Untyped? && caps[slot].base + caps[slot].used <= r.value
  {
    if slot >= |caps| then Err(BadSlot)
    else if !caps[slot].Untyped? then Err(NotUntyped)
    else if |caps| == CNODE_SLOTS then Err(NoFreeSlot)
    else
      var c := caps[slot];
      var mark := c.base + c.used;
      RoundUp(g, mark);
      var carve := (mark + Size(g) - 1) / Size(g) * Size(g);
      if mark >= TWO_64 || mark + Size(g) - 1 >= TWO_64 || carve + Size(g) >= TWO_64 then Err(Exhausted)
      else if carve + Size(g) > c.base + c.size then Err(Exhausted)
      else Ok(carve)
  }

  function NewCap(kind: ObjKind, base: nat): Cap {
    match kind
    case FrameObj => Frame(base, false)
    case PageTableObj => PageTable(base, false)
    case TcbObj => Tcb(base)
    case EndpointObj => Endpoint(base)
  }

  /** `retype` after a successful `prep`: the watermark moves past the object, which gets a new slot. */
  function Commit(caps: seq<Cap>, slot: nat, kind: ObjKind, carve: nat, g: Granule): seq<Cap>
    requires slot < |caps| && caps[slot].Untyped? && carve + Size(g) >= caps[slot].base
  {
    caps[slot := caps[slot].(used := carve + Size(g) - caps[slot].base)] + [NewCap(kind, carve)]
  }

  predicate Aligned(g: Granule, a: nat) {
    a % Size(g) == 0
  }

  /** The carved granule is the lowest aligned one above the watermark that still fits. */
  lemma CarveIsLowest(caps: seq<Cap>, slot: nat, g: Granule)
    requires slot < |caps| && caps[slot].Untyped? && |caps| != CNODE_SLOTS && caps[slot].base + caps[slot].size < TWO_64
    ensures var c, r := caps[slot], CarveAt(caps, slot, g);
            var mark, end := c.base + c.used, c.base + c.size;
            && (r.Ok? ==> Aligned(g, r.value) && mark <= r.value && r.value + Size(g) <= end)
            && (r.Ok? ==> forall a :: mark <= a < r.value ==> !Aligned(g, a))
            && (r.Err? ==> r.error == Exhausted && forall a :: mark <= a && Aligned(g, a) ==> a + Size(g) > end)
  {
    var c := caps[slot];
    var mark := c.base + c.used;
    RoundUp(g, mark);
    var carve := (mark + Size(g) - 1) / Size(g) * Size(g);
    forall a | mark <= a && Aligned(g, a)
      ensures carve <= a
    {
      RoundUpLeast(g, mark, a);
    }
  }

  lemma RoundUp(g: Granule, a: nat)
    ensures var up := (a + Size(g) - 1) / Size(g) * Size(g);
            a <= up < a + Size(g) && up % Size(g) == 0
  {
    var q := (a + Size(g) - 1) / Size(g);
    match g
    case K4 => assert (q * 4096) % 4096 == 0;
    case K16 => assert (q * 16384) % 16384 == 0;
  }

  lemma RoundUpLeast(g: Granule, a: nat, b: nat)
    requires a <= b && b % Size(g) == 0
    ensures (a + Size(g) - 1) / Size(g) * Size(g) <= b
  {
    match g
    case K4 => assert b == 4096 * (b / 4096);
    case K16 => assert b == 16384 * (b / 16384);
  }

  // ---------------------------------------------------------------- the bookkeeping invariant

  /** The granule an object capability stands for. */
  function ObjBase(c: Cap): Option<nat> {
    match c
    case Tcb(b) => Some(b)
    case Frame(b, _) => Some(b)
    case PageTable(b, _) => Some(b)
    case Endpoint(b) => Some(b)
    case _ => None
  }

  predicate IsObj(c: Cap) {
    ObjBase(c).Some?
  }

  /** The object lies in the consumed part of an untyped capability. */
  predicate CarvedFrom(g: Granule, u: Cap, c: Cap) {
    u.Untyped? && IsObj(c) && u.base <= ObjBase(c).value && ObjBase(c).value + Size(g) <= u.base + u.used
  }

  ghost predicate UntypedsOk(memory: seq<PhysRegion>, reserved: seq<PhysRegion>, caps: seq<Cap>) {
    && (forall i :: 0 <= i < |caps| && caps[i].Untyped? ==>
          caps[i].used <= caps[i].size && caps[i].base + caps[i].size < TWO_64)
    && (forall i, pa :: 0 <= i < |caps| && Covers(caps[i], pa) ==> FreeRam(memory, reserved, pa))
    && (forall i, j, pa :: 0 <= i < |caps| && 0 <= j < |caps| && Covers(caps[i], pa) && Covers(caps[j], pa) ==> i == j)
  }

  ghost predicate Carved(g: Granule, caps: seq<Cap>, c: Cap) {
    exists j :: 0 <= j < |caps| && CarvedFrom(g, caps[j], c)
  }

  ghost predicate ObjectsOk(g: Granule, caps: seq<Cap>) {
    && (forall i :: 0 <= i < |caps| && IsObj(caps[i]) ==>
          Aligned(g, ObjBase(caps[i]).value) && Carved(g, caps, caps[i]))
    && (forall i, j :: 0 <= i < |caps| && 0 <= j < |caps| && IsObj(caps[i]) && ObjBase(caps[i]) == ObjBase(caps[j]) ==>
          i == j)
  }

  /** Objects are aligned granules of free RAM, each carved once, below the watermark of one untyped. */
  ghost predicate CapsOk(g: Granule, memory: seq<PhysRegion>, reserved: seq<PhysRegion>, caps: seq<Cap>) {
    UntypedsOk(memory, reserved, caps) && ObjectsOk(g, caps)
  }

  /** What bootstrap leaves satisfies the invariant. */
  lemma BootCapsOk(g: Granule, memory: seq<PhysRegion>, reserved: seq<PhysRegion>, rootPa: nat, ut: seq<Cap>)
    requires MemoryDone(memory, reserved, ut)
    ensures CapsOk(g, memory, reserved, BootCaps(rootPa) + ut)
  {
    var caps := BootCaps(rootPa) + ut;
    forall i, pa | 0 <= i < |caps| && Covers(caps[i], pa)
      ensures i >= 4 && caps[i] == ut[i - 4] && FreeRam(memory, reserved, pa)
    {
      assert Covers(ut[i - 4], pa);
      assert CoveredBy(ut, pa);
    }
  }

  lemma CommitUntypeds(g: Granule, memory: seq<PhysRegion>, reserved: seq<PhysRegion>, caps: seq<Cap>, slot: nat,
                       kind: ObjKind, carve: nat)
    requires UntypedsOk(memory, reserved, caps) && slot < |caps| && caps[slot].Untyped?
    requires caps[slot].base + caps[slot].used <= carve && carve + Size(g) <= caps[slot].base + caps[slot].size
    ensures UntypedsOk(memory, reserved, Commit(caps, slot, kind, carve, g))
  {
    var caps' := Commit(caps, slot, kind, carve, g);
    forall i, pa | 0 <= i < |caps'| && Covers(caps'[i], pa)
      ensures i < |caps| && Covers(caps[i], pa)
    {
    }
  }

  lemma CommitObjects(g: Granule, memory: seq<PhysRegion>, reserved: seq<PhysRegion>, caps: seq<Cap>, slot: nat,
                      kind: ObjKind, carve: nat)
    requires CapsOk(g, memory, reserved, caps) && slot < |caps| && caps[slot].Untyped?
    requires caps[slot].base + caps[slot].used <= carve && carve + Size(g) <= caps[slot].base + caps[slot].size
    requires Aligned(g, carve)
    ensures ObjectsOk(g, Commit(caps, slot, kind, carve, g))
    ensures forall i :: 0 <= i < |caps| && IsObj(caps[i]) ==> ObjBase(caps[i]) != Some(carve)
  {
    var caps' := Commit(caps, slot, kind, carve, g);
    var n := |caps|;
    forall i | 0 <= i < n && IsObj(caps[i])
      ensures Carved(g, caps', caps[i]) && ObjBase(caps[i]).value != carve
    {
      var j :| 0 <= j < n && CarvedFrom(g, caps[j], caps[i]);
      assert CarvedFrom(g, caps'[j], caps[i]);
      if ObjBase(caps[i]).value == carve {
        assert Covers(caps[j], carve) && Covers(caps[slot], carve);
      }
    }
    assert CarvedFrom(g, caps'[slot], caps'[n]);
    assert Carved(g, caps', caps'[n]);
    assert forall i :: 0 <= i < n && i != slot ==> caps'[i] == caps[i];
    assert !IsObj(caps'[slot]);
  }

  /**
    A successful retype keeps the bookkeeping: the new object is an aligned granule of free RAM
    that no other object and no untyped remainder shares, and every watermark only grows.
  */
  lemma RetypeKeepsCaps(g: Granule, memory: seq<PhysRegion>, reserved: seq<PhysRegion>, caps: seq<Cap>, slot: nat,
                        kind: ObjKind)
    requires CapsOk(g, memory, reserved, caps) && CarveAt(caps, slot, g).Ok?
    ensures var carve := CarveAt(caps, slot, g).value;
            && slot < |caps| && caps[slot].Untyped? && carve + Size(g) >= caps[slot].base
            && Aligned(g, carve)
            && CapsOk(g, memory, reserved, Commit(caps, slot, kind, carve, g))
            && (forall i :: 0 <= i < |caps| && IsObj(caps[i]) ==> ObjBase(caps[i]) != Some(carve))
            && (forall i :: 0 <= i < |caps| && caps[i].Untyped? ==>
                  var u := Commit(caps, slot, kind, carve, g)[i];
                  u.Untyped? && u.base == caps[i].base && u.size == caps[i].size && u.used >= caps[i].used)
            && (forall pa :: carve <= pa < carve + Size(g) ==> FreeRam(memory, reserved, pa))
  {
    CarveIsLowest(caps, slot, g);
    hide CarveAt, Size, Aligned;
    var carve := CarveAt(caps, slot, g).value;
    CommitUntypeds(g, memory, reserved, caps, slot, kind, carve);
    CommitObjects(g, memory, reserved, caps, slot, kind, carve);
    forall pa: nat | carve <= pa < carve + Size(g)
      ensures FreeRam(memory, reserved, pa)
    {
      assert Covers(caps[slot], pa);
    }
  }

  /** Distinct objects share no address, and none reaches into the unused part of any untyped. */
  lemma ObjectsDisjoint(g: Granule, memory: seq<PhysRegion>, reserved: seq<PhysRegion>, caps: seq<Cap>, i: nat, j: nat,
                        pa: nat)
    requires CapsOk(g, memory, reserved, caps) && i < |caps| && j < |caps| && i != j && IsObj(caps[i])
    requires ObjBase(caps[i]).value <= pa < ObjBase(caps[i]).value + Size(g)
    ensures FreeRam(memory, reserved, pa)
    ensures IsObj(caps[j]) ==> !(ObjBase(caps[j]).value <= pa < ObjBase(caps[j]).value + Size(g))
    ensures caps[j].Untyped? ==> !(caps[j].base + caps[j].used <= pa < caps[j].base + caps[j].size)
  {
    var a := ObjBase(caps[i]).value;
    var k :| 0 <= k < |caps| && CarvedFrom(g, caps[k], caps[i]);
    assert Covers(caps[k], pa);
    if IsObj(caps[j]) {
      var b := ObjBase(caps[j]).value;
      assert a != b;
      AlignedApart(g, a, b);
    }
    assert Covers(caps[j], pa) ==> j == k;
  }

  lemma AlignedApart(g: Granule, a: nat, b: nat)
    requires Aligned(g, a) && Aligned(g, b) && a != b
    ensures a + Size(g) <= b || b + Size(g) <= a
  {
    match g
    case K4 => assert a == 4096 * (a / 4096) && b == 4096 * (b / 4096);
    case K16 => assert a == 16384 * (a / 16384) && b == 16384 * (b / 16384);
  }

  // ---------------------------------------------------------------- over a run

  /** One request: which slot, which kind, and whether preparing the memory succeeded. */
  datatype Request = Request(slot: nat, kind: ObjKind, prepared: bool)

  function Apply(caps: seq<Cap>, q: Request, g: Granule): seq<Cap> {
    var c := CarveAt(caps, q.slot, g);
    if c.Ok? && q.prepared then Commit(caps, q.slot, q.kind, c.value, g) else caps
  }

  function ApplyAll(caps: seq<Cap>, qs: seq<Request>, g: Granule): seq<Cap>
    decreases |qs|
  {
    if qs == [] then caps else ApplyAll(Apply(caps, qs[0], g), qs[1..], g)
  }

  /** After boot and any sequence of retypes from any slots, the bookkeeping holds and no slot is lost. */
  lemma {:induction false} RetypesKeepCaps(g: Granule, memory: seq<PhysRegion>, reserved: seq<PhysRegion>,
                                           caps: seq<Cap>, qs: seq<Request>)
    requires CapsOk(g, memory, reserved, caps) && |caps| <= CNODE_SLOTS
    ensures CapsOk(g, memory, reserved, ApplyAll(caps, qs, g))
    ensures |caps| <= |ApplyAll(caps, qs, g)| <= CNODE_SLOTS
    decreases |qs|
  {
    hide CapsOk, Commit;
    if qs != [] {
      var q := qs[0];
      if CarveAt(caps, q.slot, g).Ok? {
        RetypeKeepsCaps(g, memory, reserved, caps, q.slot, q.kind);
        CommitLength(caps, q.slot, q.kind, CarveAt(caps, q.slot, g).value, g);
      }
      RetypesKeepCaps(g, memory, reserved, Apply(caps, q, g), qs[1..]);
    }
  }

  lemma CommitLength(caps: seq<Cap>, slot: nat, kind: ObjKind, carve: nat, g: Granule)
    requires slot < |caps| && caps[slot].Untyped? && carve + Size(g) >= caps[slot].base
    ensures |Commit(caps, slot, kind, carve, g)| == |caps| + 1
  {
  }
}
