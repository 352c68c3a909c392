/** The root CNode: filling it with untyped memory at boot, and carving objects out of it afterwards. */
module Caps {
  import opened Abi

  const CNODE_SLOTS := 32

  datatype PhysRegion = PhysRegion(base: nat, size: nat) {
    function End(): nat {
      base + size
    }

    predicate Has(pa: nat) {
      base <= pa < base + size
    }

    /** Not empty, and the end does not overflow 64 bits. */
    predicate Sound() {
      size > 0 && base + size < TWO_64
    }
  }

  datatype Cap =
    | Empty
    | RootTcb
    | AddrSpace(rootPa: nat)
    | Console
    | Tcb(base: nat)
    | Untyped(base: nat, size: nat, used: nat)
    | Frame(base: nat, mapped: bool)
    | PageTable(base: nat, installed: bool)
    | Endpoint(base: nat)

  datatype ObjKind = FrameObj | PageTableObj | TcbObj | EndpointObj

  datatype CapError = OutOfSlots | BadRegion

  // ---------------------------------------------------------------- what bootstrap must produce

  predicate Covers(c: Cap, pa: nat) {
    c.Untyped? && c.base <= pa < c.base + c.size
  }

  ghost predicate Reserved(reserved: seq<PhysRegion>, pa: nat) {
    exists i :: 0 <= i < |reserved| && reserved[i].Has(pa)
  }

  ghost predicate InMemory(memory: seq<PhysRegion>, pa: nat) {
    exists i :: 0 <= i < |memory| && memory[i].Has(pa)
  }

  /** RAM that nobody has reserved. */
  ghost predicate FreeRam(memory: seq<PhysRegion>, reserved: seq<PhysRegion>, pa: nat) {
    InMemory(memory, pa) && !Reserved(reserved, pa)
  }

  ghost predicate CoveredBy(ut: seq<Cap>, pa: nat) {
    exists i :: 0 <= i < |ut| && Covers(ut[i], pa)
  }

  /** Fresh untyped capabilities, none empty, no two sharing an address. */
  ghost predicate FreshUntypeds(ut: seq<Cap>) {
    && (forall i :: 0 <= i < |ut| ==>
          ut[i].Untyped? && ut[i].used == 0 && ut[i].size > 0 && ut[i].base + ut[i].size < TWO_64)
    && (forall i, j, pa :: 0 <= i < |ut| && 0 <= j < |ut| && Covers(ut[i], pa) && Covers(ut[j], pa) ==> i == j)
  }

  /** The piece cannot be extended: both its neighbours are reserved or outside the region. */
  ghost predicate Maximal(m: PhysRegion, reserved: seq<PhysRegion>, c: Cap)
    requires c.Untyped?
  {
    && m.base <= c.base && c.base + c.size <= m.End()
    && (c.base == m.base || Reserved(reserved, c.base - 1))
    && (c.base + c.size == m.End() || Reserved(reserved, c.base + c.size))
  }

  /** Every piece is a maximal piece of one of the memory regions. */
  ghost predicate AllMaximal(memory: seq<PhysRegion>, reserved: seq<PhysRegion>, ut: seq<Cap>) {
    forall i :: 0 <= i < |ut| ==>
      ut[i].Untyped? && exists k :: 0 <= k < |memory| && Maximal(memory[k], reserved, ut[i])
  }

  predicate Overlapping(a: PhysRegion, b: PhysRegion) {
    a.base < b.End() && b.base < a.End()
  }

  /** Two regions overlap exactly when they share an address. */
  lemma OverlappingIsSharing(a: PhysRegion, b: PhysRegion)
    requires a.Sound() && b.Sound()
    ensures Overlapping(a, b) <==> exists pa: nat :: a.Has(pa) && b.Has(pa)
  {
    if Overlapping(a, b) {
      assert a.Has(if a.base < b.base then b.base else a.base);
    }
  }

  predicate GoodMemory(memory: seq<PhysRegion>) {
    && (forall i :: 0 <= i < |memory| ==> memory[i].Sound())
    && (forall i, j :: 0 <= i < j < |memory| ==> !Overlapping(memory[i], memory[j]))
  }

  predicate GoodReserved(reserved: seq<PhysRegion>) {
    forall i :: 0 <= i < |reserved| ==> reserved[i].Sound()
  }

  // ---------------------------------------------------------------- one region

  /** The pieces pushed so far cover exactly the unreserved addresses of `m` below the cursor. */
  ghost predicate Swept(m: PhysRegion, reserved: seq<PhysRegion>, ut: seq<Cap>, cursor: nat) {
    && FreshUntypeds(ut)
    && (forall i :: 0 <= i < |ut| ==>
          ut[i].Untyped? && Maximal(m, reserved, ut[i]) && ut[i].base + ut[i].size <= cursor)
    && (forall pa :: m.base <= pa < cursor && pa < m.End() ==> (CoveredBy(ut, pa) <==> !Reserved(reserved, pa)))
    && (m.base < cursor ==> Reserved(reserved, cursor - 1))
  }

  /** `r` is a reservation with the lowest base among those that matter from the cursor on. */
  ghost predicate LowestAhead(m: PhysRegion, seen: seq<PhysRegion>, cursor: nat, next: Option<PhysRegion>) {
    match next
    case None => forall i :: 0 <= i < |seen| ==> !(seen[i].End() > cursor && seen[i].base < m.End())
    case Some(r) =>
      && r in seen && r.End() > cursor && r.base < m.End()
      && forall i :: 0 <= i < |seen| && seen[i].End() > cursor && seen[i].base < m.End() ==> r.base <= seen[i].base
  }

  /** Nothing is reserved between the cursor and the next reservation. */
  lemma GapIsFree(m: PhysRegion, reserved: seq<PhysRegion>, cursor: nat, next: Option<PhysRegion>, pa: nat)
    requires LowestAhead(m, reserved, cursor, next) && m.base <= cursor <= pa < m.End()
    requires next.Some? ==> pa < next.value.base
    ensures !Reserved(reserved, pa)
  {
  }

  /** Adding the gap from the cursor to `stop` to the pieces. */
  lemma PushGap(m: PhysRegion, reserved: seq<PhysRegion>, ut: seq<Cap>, cursor: nat, next: Option<PhysRegion>,
                stop: nat)
    requires Swept(m, reserved, ut, cursor) && m.base <= cursor < stop <= m.End() && m.End() < TWO_64
    requires LowestAhead(m, reserved, cursor, next) && GoodReserved(reserved)
    requires stop == if next.None? then m.End() else next.value.base
    ensures var piece := Untyped(cursor, stop - cursor, 0);
            && FreshUntypeds(ut + [piece])
            && Maximal(m, reserved, piece)
            && (forall pa :: m.base <= pa < stop ==> (CoveredBy(ut + [piece], pa) <==> !Reserved(reserved, pa)))
            && FreeRam([m], reserved, cursor) && !CoveredBy(ut, cursor)
  {
    var piece := Untyped(cursor, stop - cursor, 0);
    var ut' := ut + [piece];
    forall pa: nat | cursor <= pa < stop
      ensures !Reserved(reserved, pa)
    {
      GapIsFree(m, reserved, cursor, next, pa);
    }
    forall pa: nat | m.base <= pa < stop
      ensures CoveredBy(ut', pa) <==> !Reserved(reserved, pa)
    {
      CoveredAppend(ut, piece, pa);
      if pa >= cursor {
        assert ut'[|ut|] == piece && Covers(ut'[|ut|], pa);
      }
    }
    assert [m][0].Has(cursor);
    if next.Some? {
      var k :| 0 <= k < |reserved| && reserved[k] == next.value;
      assert reserved[k].Has(stop);
    }
  }

  lemma CoveredAppend(ut: seq<Cap>, piece: Cap, pa: nat)
    ensures CoveredBy(ut + [piece], pa) <==> CoveredBy(ut, pa) || Covers(piece, pa)
  {
    var ut' := ut + [piece];
    if CoveredBy(ut, pa) {
      var i :| 0 <= i < |ut| && Covers(ut[i], pa);
      assert Covers(ut'[i], pa);
    }
    if Covers(piece, pa) {
      assert Covers(ut'[|ut|], pa);
    }
  }

  /** Skipping the next reservation: what it covers is not free. */
  lemma SkipReserved(m: PhysRegion, reserved: seq<PhysRegion>, ut: seq<Cap>, cursor: nat, r: PhysRegion, cursor': nat)
    requires r in reserved && r.Sound() && r.End() > cursor && m.base <= cursor
    requires FreshUntypeds(ut) && cursor' == r.End()
    requires forall i :: 0 <= i < |ut| ==> ut[i].Untyped? && Maximal(m, reserved, ut[i])
    requires forall i :: 0 <= i < |ut| ==> ut[i].base + ut[i].size <= (if r.base > cursor then r.base else cursor)
    requires forall pa :: m.base <= pa < (if r.base > cursor then r.base else cursor) && pa < m.End() ==>
               (CoveredBy(ut, pa) <==> !Reserved(reserved, pa))
    ensures Swept(m, reserved, ut, cursor')
  {
    var k :| 0 <= k < |reserved| && reserved[k] == r;
    assert reserved[k].Has(cursor' - 1);
    forall pa | m.base <= pa < cursor' && pa < m.End()
      ensures CoveredBy(ut, pa) <==> !Reserved(reserved, pa)
    {
      if pa >= r.base && pa >= cursor {
        assert reserved[k].Has(pa);
      }
    }
  }

  /** The sweep of one region is complete. */
  ghost predicate RegionDone(m: PhysRegion, reserved: seq<PhysRegion>, ut: seq<Cap>) {
    && FreshUntypeds(ut)
    && (forall i :: 0 <= i < |ut| ==> ut[i].Untyped? && Maximal(m, reserved, ut[i]))
    && (forall pa :: m.Has(pa) ==> (CoveredBy(ut, pa) <==> !Reserved(reserved, pa)))
  }

  /** The sweep stopped for lack of slots: all pieces are maximal, and a free address is still uncovered. */
  ghost predicate RegionShort(m: PhysRegion, reserved: seq<PhysRegion>, ut: seq<Cap>) {
    && FreshUntypeds(ut)
    && (forall i :: 0 <= i < |ut| ==> ut[i].Untyped? && Maximal(m, reserved, ut[i]))
    && exists pa :: m.Has(pa) && !Reserved(reserved, pa) && !CoveredBy(ut, pa)
  }

  class CNode {
    const slots: array<Cap>
    var used: nat

    ghost predicate Valid()
      reads this
    {
      slots.Length == CNODE_SLOTS && used <= CNODE_SLOTS
    }

    /** The filled slots. */
    function Contents(): seq<Cap>
      requires Valid()
      reads this, slots
    {
      slots[..used]
    }

    constructor ()
      ensures Valid() && fresh(slots) && Contents() == []
    {
      slots := new Cap[CNODE_SLOTS](_ => Empty);
      used := 0;
    }

    method Push(cap: Cap) returns (r: Result<(), CapError>)
      requires Valid()
      modifies this`used, slots
      ensures Valid()
      ensures r.Err? <==> old(used) == CNODE_SLOTS
      ensures r.Err? ==> r.error == OutOfSlots && Contents() == old(Contents())
      ensures r.Ok? ==> Contents() == old(Contents()) + [cap]
    {
      if used == CNODE_SLOTS {
        return Err(OutOfSlots);
      }
      slots[used] := cap;
      used := used + 1;
      r := Ok(());
    }

    /** Find the lowest reservation that matters from the cursor on, checking every reservation. */
    method LowestNext(m: PhysRegion, reserved: seq<PhysRegion>, cursor: nat)
      returns (r: Result<Option<PhysRegion>, CapError>)
      ensures r.Ok? <==> GoodReserved(reserved)
      ensures r.Ok? ==> LowestAhead(m, reserved, cursor, r.value)
      ensures r.Err? ==> r.error == BadRegion
    {
      var next: Option<PhysRegion> := None;
      for i := 0 to |reserved|
        invariant GoodReserved(reserved[..i])
        invariant LowestAhead(m, reserved[..i], cursor, next)
      {
        var x := reserved[i];
        assert reserved[..i + 1] == reserved[..i] + [x];
        if x.size == 0 || x.base + x.size >= TWO_64 {
          return Err(BadRegion);
        }
        if x.End() > cursor && x.base < m.End() {
          if !(next.Some? && next.value.base <= x.base) {
            next := Some(x);
          }
        }
      }
      assert reserved[..|reserved|] == reserved;
      r := Ok(next);
    }

    /** `push_untypeds`: one memory region minus all reservations, as untyped capabilities. */
    method PushUntypeds(m: PhysRegion, reserved: seq<PhysRegion>) returns (r: Result<(), CapError>, ghost ut: seq<Cap>)
      requires Valid() && m.Sound()
      modifies this`used, slots
      ensures Valid() && Contents() == old(Contents()) + ut
      ensures r == Err(BadRegion) <==> !GoodReserved(reserved)
      ensures r == Err(BadRegion) ==> ut == []
      ensures r.Ok? ==> RegionDone(m, reserved, ut)
      ensures r == Err(OutOfSlots) ==> used == CNODE_SLOTS && RegionShort(m, reserved, ut)
    {
      hide Swept, LowestAhead, RegionDone, RegionShort, GoodReserved;
      var cursor := m.base;
      ut := [];
      SweepStart(m, reserved);
      while true
        invariant Valid() && Contents() == old(Contents()) + ut
        invariant m.base <= cursor < m.End()
        invariant Swept(m, reserved, ut, cursor)
        invariant ut != [] ==> GoodReserved(reserved)
        decreases m.End() - cursor
      {
        var found := LowestNext(m, reserved, cursor);
        if found.Err? {
          return Err(found.error), ut;
        }
        var next := found.value;
        if next.None? {
          SweepRest(m, reserved, ut, cursor);
          var piece := Untyped(cursor, m.End() - cursor, 0);
          r := Push(piece);
          if r.Ok? {
            ut := ut + [piece];
          }
          return;
        }
        var x := next.value;
        SweepNext(m, reserved, ut, cursor, x);
        if x.base > cursor {
          var stop := if x.base < m.End() then x.base else m.End();
          var piece := Untyped(cursor, stop - cursor, 0);
          r := Push(piece);
          if r.Err? {
            return;
          }
          ut := ut + [piece];
        }
        if x.End() >= m.End() {
          return Ok(()), ut;
        }
        cursor := if x.End() > cursor then x.End() else cursor;
      }
    }

    /** The checks `populate` makes on the memory map before it touches the CNode. */
    method CheckMemory(memory: seq<PhysRegion>) returns (ok: bool)
      ensures ok <==> GoodMemory(memory)
    {
      for i := 0 to |memory|
        invariant GoodMemory(memory[..i])
      {
        var m := memory[i];
        assert memory[..i + 1] == memory[..i] + [m];
        if m.size == 0 || m.base + m.size >= TWO_64 {
          return false;
        }
        for j := 0 to i
          invariant forall k :: 0 <= k < j ==> !Overlapping(memory[k], m)
        {
          if memory[j].base < m.End() && m.base < memory[j].End() {
            return false;
          }
        }
      }
      assert memory[..|memory|] == memory;
      ok := true;
    }

    method PushBootCaps(rootPa: nat)
      requires Valid() && Contents() == []
      modifies this`used, slots
      ensures Valid() && Contents() == BootCaps(rootPa)
    {
      var r := Push(Empty);
      r := Push(RootTcb);
      r := Push(AddrSpace(rootPa));
      r := Push(Console);
    }

    /** Overwrite a filled slot, as `cap_mut` allows. */
    method SetCap(slot: nat, cap: Cap)
      requires Valid() && slot < used
      modifies slots
      ensures Valid() && Contents() == old(Contents())[slot := cap]
    {
      slots[slot] := cap;
    }

    /**
      `populate`: on success each physical address lies in exactly one untyped capability if it is
      unreserved RAM, and in none otherwise, whatever the order and overlap of the reservations.
    */
    method Populate(memory: seq<PhysRegion>, reserved: seq<PhysRegion>, rootPa: nat)
      returns (r: Result<(), CapError>, ghost ut: seq<Cap>)
      requires Valid() && Contents() == []
      modifies this`used, slots
      ensures Valid()
      ensures r == Err(BadRegion) <==> !GoodMemory(memory) || (memory != [] && !GoodReserved(reserved))
      ensures r.Ok? ==> Contents() == BootCaps(rootPa) + ut && MemoryDone(memory, reserved, ut)
      ensures r.Ok? ==>
                && |Contents()| == 4 + |ut| && Contents()[0] == Empty && Contents()[1] == RootTcb
                && Contents()[2] == AddrSpace(rootPa) && Contents()[3] == Console && Contents()[4..] == ut
      ensures r == Err(OutOfSlots) ==>
                used == CNODE_SLOTS && Contents() == BootCaps(rootPa) + ut && MemoryShort(memory, reserved, ut)
    {
      hide GoodMemory, GoodReserved, MemoryDone, MemoryShort, RegionDone, RegionShort;
      ut := [];
      var ok := CheckMemory(memory);
      if !ok {
        return Err(BadRegion), ut;
      }
      PushBootCaps(rootPa);
      assert Contents() == BootCaps(rootPa) + ut;
      NothingDone(memory, reserved);
      var k := 0;
      while k < |memory|
        invariant k <= |memory|
        invariant Valid() && Contents() == BootCaps(rootPa) + ut
        invariant MemoryDone(memory[..k], reserved, ut)
        invariant k > 0 ==> GoodReserved(reserved)
      {
        RegionOk(memory, k);
        ghost var piece;
        r, piece := PushUntypeds(memory[k], reserved);
        assert memory[..k + 1] == memory[..k] + [memory[k]];
        if r.Err? {
          if r == Err(OutOfSlots) {
            OneShort(memory, k, reserved, ut, piece);
          }
          ut := ut + piece;
          return;
        }
        OneMore(memory, k, reserved, ut, piece);
        ut := ut + piece;
        k := k + 1;
      }
      assert memory[..k] == memory;
      r := Ok(());
    }
  }

  function BootCaps(rootPa: nat): seq<Cap> {
    [Empty, RootTcb, AddrSpace(rootPa), Console]
  }

  /** The untyped capabilities are exactly the unreserved RAM, cut into maximal pieces. */
  ghost predicate MemoryDone(memory: seq<PhysRegion>, reserved: seq<PhysRegion>, ut: seq<Cap>) {
    && FreshUntypeds(ut)
    && AllMaximal(memory, reserved, ut)
    && forall pa :: CoveredBy(ut, pa) <==> FreeRam(memory, reserved, pa)
  }

  /** The slots ran out: every piece is maximal, and some unreserved RAM is in none of them. */
  ghost predicate MemoryShort(memory: seq<PhysRegion>, reserved: seq<PhysRegion>, ut: seq<Cap>) {
    && FreshUntypeds(ut)
    && AllMaximal(memory, reserved, ut)
    && exists pa :: FreeRam(memory, reserved, pa) && !CoveredBy(ut, pa)
  }

  lemma NothingDone(memory: seq<PhysRegion>, reserved: seq<PhysRegion>)
    ensures MemoryDone(memory[..0], reserved, [])
  {
  }

  lemma RegionOk(memory: seq<PhysRegion>, k: nat)
    requires GoodMemory(memory) && k < |memory|
    ensures memory[k].Sound()
  {
  }

  lemma InMemoryAppend(memory: seq<PhysRegion>, k: nat, pa: nat)
    requires k < |memory|
    ensures InMemory(memory[..k + 1], pa) <==> InMemory(memory[..k], pa) || memory[k].Has(pa)
  {
    if InMemory(memory[..k], pa) {
      var i :| 0 <= i < k && memory[..k][i].Has(pa);
      assert memory[..k + 1][i].Has(pa);
    }
    if memory[k].Has(pa) {
      assert memory[..k + 1][k].Has(pa);
    }
    if InMemory(memory[..k + 1], pa) && !memory[k].Has(pa) {
      var i :| 0 <= i < k + 1 && memory[..k + 1][i].Has(pa);
      assert memory[..k][i].Has(pa);
    }
  }

  lemma CoveredConcat(a: seq<Cap>, b: seq<Cap>, pa: nat)
    ensures CoveredBy(a + b, pa) <==> CoveredBy(a, pa) || CoveredBy(b, pa)
  {
    var c := a + b;
    if CoveredBy(a, pa) {
      var i :| 0 <= i < |a| && Covers(a[i], pa);
      assert Covers(c[i], pa);
    }
    if CoveredBy(b, pa) {
      var i :| 0 <= i < |b| && Covers(b[i], pa);
      assert Covers(c[|a| + i], pa);
    }
    if CoveredBy(c, pa) {
      var i :| 0 <= i < |c| && Covers(c[i], pa);
      assert if i < |a| then c[i] == a[i] else c[i] == b[i - |a|];
    }
  }

  /** Pieces of one region stay inside it, and memory regions do not overlap. */
  lemma PiecesApart(memory: seq<PhysRegion>, k: nat, reserved: seq<PhysRegion>, ut: seq<Cap>, piece: seq<Cap>)
    requires GoodMemory(memory) && k < |memory|
    requires FreshUntypeds(ut) && AllMaximal(memory[..k], reserved, ut) && FreshUntypeds(piece)
    requires forall i :: 0 <= i < |piece| ==> piece[i].Untyped? && Maximal(memory[k], reserved, piece[i])
    ensures FreshUntypeds(ut + piece) && AllMaximal(memory[..k + 1], reserved, ut + piece)
    ensures forall pa :: CoveredBy(piece, pa) ==> memory[k].Has(pa)
    ensures forall pa :: CoveredBy(ut, pa) ==> !memory[k].Has(pa)
  {
    var all := ut + piece;
    forall i, pa: nat | 0 <= i < |ut| && Covers(ut[i], pa)
      ensures !memory[k].Has(pa)
    {
      var n :| 0 <= n < k && Maximal(memory[..k][n], reserved, ut[i]);
      assert !Overlapping(memory[n], memory[k]);
    }
    forall i, j, pa | 0 <= i < |all| && 0 <= j < |all| && Covers(all[i], pa) && Covers(all[j], pa)
      ensures i == j
    {
      assert i < |ut| ==> all[i] == ut[i];
      assert j < |ut| ==> all[j] == ut[j];
      assert i >= |ut| ==> all[i] == piece[i - |ut|];
      assert j >= |ut| ==> all[j] == piece[j - |ut|];
    }
    var front := memory[..k + 1];
    forall i | 0 <= i < |all|
      ensures all[i].Untyped? && exists n :: 0 <= n < |front| && Maximal(front[n], reserved, all[i])
    {
      if i < |ut| {
        var n :| 0 <= n < k && Maximal(memory[..k][n], reserved, ut[i]);
        assert Maximal(front[n], reserved, all[i]);
      } else {
        assert all[i] == piece[i - |ut|];
        assert Maximal(front[k], reserved, all[i]);
      }
    }
    assert AllMaximal(front, reserved, all);
  }

  lemma OneMore(memory: seq<PhysRegion>, k: nat, reserved: seq<PhysRegion>, ut: seq<Cap>, piece: seq<Cap>)
    requires GoodMemory(memory) && k < |memory|
    requires MemoryDone(memory[..k], reserved, ut) && RegionDone(memory[k], reserved, piece)
    ensures MemoryDone(memory[..k + 1], reserved, ut + piece)
  {
    hide FreshUntypeds, AllMaximal, CoveredBy, InMemory, Reserved, GoodMemory, Maximal;
    PiecesApart(memory, k, reserved, ut, piece);
    forall pa
      ensures CoveredBy(ut + piece, pa) <==> FreeRam(memory[..k + 1], reserved, pa)
    {
      CoveredConcat(ut, piece, pa);
      InMemoryAppend(memory, k, pa);
    }
  }

  lemma OneShort(memory: seq<PhysRegion>, k: nat, reserved: seq<PhysRegion>, ut: seq<Cap>, piece: seq<Cap>)
    requires GoodMemory(memory) && k < |memory|
    requires MemoryDone(memory[..k], reserved, ut) && RegionShort(memory[k], reserved, piece)
    ensures MemoryShort(memory, reserved, ut + piece)
  {
    hide FreshUntypeds, CoveredBy, Reserved, GoodMemory, Maximal;
    PiecesApart(memory, k, reserved, ut, piece);
    var pa :| memory[k].Has(pa) && !Reserved(reserved, pa) && !CoveredBy(piece, pa);
    CoveredConcat(ut, piece, pa);
    assert FreeRam(memory, reserved, pa);
    var all, front := ut + piece, memory[..k + 1];
    forall i | 0 <= i < |all|
      ensures all[i].Untyped? && exists n :: 0 <= n < |memory| && Maximal(memory[n], reserved, all[i])
    {
      var n :| 0 <= n < |front| && Maximal(front[n], reserved, all[i]);
      assert memory[n] == front[n];
    }
  }

  lemma SweepStart(m: PhysRegion, reserved: seq<PhysRegion>)
    ensures Swept(m, reserved, [], m.base)
  {
  }

  /** The last stretch of a region, with no reservation ahead. */
  lemma SweepRest(m: PhysRegion, reserved: seq<PhysRegion>, ut: seq<Cap>, cursor: nat)
    requires Swept(m, reserved, ut, cursor) && m.base <= cursor < m.End() < TWO_64
    requires LowestAhead(m, reserved, cursor, None) && GoodReserved(reserved)
    ensures RegionDone(m, reserved, ut + [Untyped(cursor, m.End() - cursor, 0)])
    ensures RegionShort(m, reserved, ut)
  {
    PushGap(m, reserved, ut, cursor, None, m.End());
    assert m.Has(cursor);
  }

  /** One step of the sweep: the gap before the reservation, then the reservation itself. */
  lemma SweepNext(m: PhysRegion, reserved: seq<PhysRegion>, ut: seq<Cap>, cursor: nat, x: PhysRegion)
    requires Swept(m, reserved, ut, cursor) && m.base <= cursor < m.End() < TWO_64
    requires LowestAhead(m, reserved, cursor, Some(x)) && GoodReserved(reserved)
    ensures x.End() > cursor && x.base < m.End()
    ensures x.base > cursor ==> RegionShort(m, reserved, ut)
    ensures var ut' := if x.base > cursor then ut + [Untyped(cursor, x.base - cursor, 0)] else ut;
            && (x.End() >= m.End() ==> RegionDone(m, reserved, ut'))
            && (x.End() < m.End() ==> Swept(m, reserved, ut', x.End()))
  {
    hide Swept, RegionDone, RegionShort, GoodReserved;
    if x.base > cursor {
      SweepGap(m, reserved, ut, cursor, x);
    } else {
      SweepTouch(m, reserved, ut, cursor, x);
    }
    var ut' := if x.base > cursor then ut + [Untyped(cursor, x.base - cursor, 0)] else ut;
    if x.End() >= m.End() {
      SweptIsDone(m, reserved, ut', x.End());
    }
  }

  lemma SweepGap(m: PhysRegion, reserved: seq<PhysRegion>, ut: seq<Cap>, cursor: nat, x: PhysRegion)
    requires Swept(m, reserved, ut, cursor) && m.base <= cursor < m.End() < TWO_64 && x.base > cursor
    requires LowestAhead(m, reserved, cursor, Some(x)) && GoodReserved(reserved)
    ensures RegionShort(m, reserved, ut) && Swept(m, reserved, ut + [Untyped(cursor, x.base - cursor, 0)], x.End())
  {
    PushGap(m, reserved, ut, cursor, Some(x), x.base);
    assert m.Has(cursor);
    hide CoveredBy, Reserved, FreshUntypeds, Maximal;
    SkipReserved(m, reserved, ut + [Untyped(cursor, x.base - cursor, 0)], cursor, x, x.End());
  }

  lemma SweepTouch(m: PhysRegion, reserved: seq<PhysRegion>, ut: seq<Cap>, cursor: nat, x: PhysRegion)
    requires Swept(m, reserved, ut, cursor) && m.base <= cursor < m.End() < TWO_64 && x.base <= cursor
    requires LowestAhead(m, reserved, cursor, Some(x)) && GoodReserved(reserved)
    ensures Swept(m, reserved, ut, x.End())
  {
    hide CoveredBy, Reserved, FreshUntypeds, Maximal;
    SkipReserved(m, reserved, ut, cursor, x, x.End());
  }

  /** A sweep that has passed the end of the region is complete. */
  lemma SweptIsDone(m: PhysRegion, reserved: seq<PhysRegion>, ut: seq<Cap>, cursor: nat)
    requires Swept(m, reserved, ut, cursor) && cursor >= m.End()
    ensures RegionDone(m, reserved, ut)
  {
    hide CoveredBy, Reserved, FreshUntypeds, Maximal;
  }
}
