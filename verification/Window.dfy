/** The search for the boot frame window: sound, complete and minimal, and never cut short. */
module Window {
  import opened Abi
  import opened Descriptors
  import opened Caps
  import opened Retype

  const WINDOW_SIZE: nat := 0x20_0000

  /** The window from `w` shares an address with the obstacle. */
  predicate Hits(o: PhysRegion, w: nat) {
    o.End() > w && o.base < w + WINDOW_SIZE
  }

  lemma HitsIsSharing(o: PhysRegion, w: nat)
    requires o.size > 0
    ensures Hits(o, w) <==> exists pa :: w <= pa < w + WINDOW_SIZE && o.Has(pa)
  {
    if Hits(o, w) {
      var pa := if o.base > w then o.base else w;
      assert o.Has(pa);
    }
  }

  predicate Inside(m: PhysRegion, w: nat) {
    m.base <= w && w + WINDOW_SIZE <= m.End()
  }

  lemma InsideIsWhole(m: PhysRegion, w: nat)
    ensures Inside(m, w) <==> forall pa: nat :: w <= pa < w + WINDOW_SIZE ==> m.Has(pa)
  {
    if !Inside(m, w) {
      assert !m.Has(w) || !m.Has(w + WINDOW_SIZE - 1);
    }
  }

  /** A usable window: aligned, past the kernel, inside one memory region, clear of every obstacle. */
  ghost predicate Usable(g: Granule, memory: seq<PhysRegion>, obstacles: seq<PhysRegion>, kernelEnd: nat, w: nat) {
    && Aligned(g, w) && kernelEnd <= w
    && (exists i :: 0 <= i < |memory| && Inside(memory[i], w))
    && (forall i :: 0 <= i < |obstacles| ==> !Hits(obstacles[i], w))
  }

  /** No usable window starts below `start`. */
  ghost predicate NoneBelow(g: Granule, memory: seq<PhysRegion>, obstacles: seq<PhysRegion>, kernelEnd: nat,
                            start: nat) {
    forall w :: Usable(g, memory, obstacles, kernelEnd, w) ==> start <= w
  }

  predicate NoOverflow(rs: seq<PhysRegion>) {
    forall i :: 0 <= i < |rs| ==> rs[i].End() < TWO_64
  }

  /** Round up to the granule, unless that leaves 64 bits. */
  function AlignUp64(g: Granule, a: nat): Option<nat> {
    if a + Size(g) - 1 >= TWO_64 then None else Some((a + Size(g) - 1) / Size(g) * Size(g))
  }

  lemma AlignUp64Is(g: Granule, a: nat, b: nat)
    requires a <= b && Aligned(g, b)
    ensures AlignUp64(g, a).None? ==> b + WINDOW_SIZE >= TWO_64
    ensures AlignUp64(g, a).Some? ==> AlignUp64(g, a).value <= b
  {
    RoundUpLeast(g, a, b);
  }

  lemma AlignedUp(g: Granule, a: nat)
    ensures AlignUp64(g, a).Some? ==> a <= AlignUp64(g, a).value && Aligned(g, AlignUp64(g, a).value)
  {
    RoundUp(g, a);
  }

  // ---------------------------------------------------------------- why 64 rounds are enough

  /** Obstacles not yet passed. */
  function EndsAfter(rs: seq<PhysRegion>, start: nat): nat {
    if rs == [] then 0 else (if rs[0].End() > start then 1 else 0) + EndsAfter(rs[1..], start)
  }

  /** Memory regions that start later. */
  function BasesAfter(rs: seq<PhysRegion>, start: nat): nat {
    if rs == [] then 0 else (if rs[0].base > start then 1 else 0) + BasesAfter(rs[1..], start)
  }

  lemma {:induction false} EndsShrink(rs: seq<PhysRegion>, a: nat, b: nat)
    requires a <= b
    ensures EndsAfter(rs, b) <= EndsAfter(rs, a) <= |rs|
    ensures (exists i :: 0 <= i < |rs| && a < rs[i].End() <= b) ==> EndsAfter(rs, b) < EndsAfter(rs, a)
  {
    if rs != [] {
      EndsShrink(rs[1..], a, b);
      if exists i :: 0 <= i < |rs| && a < rs[i].End() <= b {
        var i :| 0 <= i < |rs| && a < rs[i].End() <= b;
        assert i > 0 ==> rs[i] == rs[1..][i - 1];
      }
    }
  }

  lemma {:induction false} BasesShrink(rs: seq<PhysRegion>, a: nat, b: nat)
    requires a <= b
    ensures BasesAfter(rs, b) <= BasesAfter(rs, a) <= |rs|
    ensures (exists i :: 0 <= i < |rs| && a < rs[i].base <= b) ==> BasesAfter(rs, b) < BasesAfter(rs, a)
  {
    if rs != [] {
      BasesShrink(rs[1..], a, b);
      if exists i :: 0 <= i < |rs| && a < rs[i].base <= b {
        var i :| 0 <= i < |rs| && a < rs[i].base <= b;
        assert i > 0 ==> rs[i] == rs[1..][i - 1];
      }
    }
  }

  // ---------------------------------------------------------------- the search

  /** One pass over the obstacles: move past every one the window would hit. */
  method Bump(g: Granule, ghost memory: seq<PhysRegion>, obstacles: seq<PhysRegion>, ghost kernelEnd: nat, start: nat)
    returns (r: Option<nat>)
    requires Aligned(g, start) && NoOverflow(memory) && NoOverflow(obstacles) && kernelEnd <= start
    requires NoneBelow(g, memory, obstacles, kernelEnd, start)
    ensures r.None? ==> forall w :: !Usable(g, memory, obstacles, kernelEnd, w)
    ensures r.Some? ==> start <= r.value && Aligned(g, r.value) && NoneBelow(g, memory, obstacles, kernelEnd, r.value)
    ensures r == Some(start) ==> forall i :: 0 <= i < |obstacles| ==> !Hits(obstacles[i], start)
    ensures r.Some? && r.value > start ==> exists i :: 0 <= i < |obstacles| && start < obstacles[i].End() <= r.value
  {
    hide Usable, Aligned;
    var end := start + WINDOW_SIZE;
    var at := start;
    for i := 0 to |obstacles|
      invariant start <= at && Aligned(g, at) && NoneBelow(g, memory, obstacles, kernelEnd, at)
      invariant at == start ==> forall k :: 0 <= k < i ==> !Hits(obstacles[k], start)
      invariant at > start ==> exists k :: 0 <= k < |obstacles| && start < obstacles[k].End() <= at
    {
      var o := obstacles[i];
      if o.End() > at && o.base < end {
        PastObstacle(g, memory, obstacles, kernelEnd, start, at, i);
        AlignedUp(g, o.End());
        var up := AlignUp64(g, o.End());
        if up.None? {
          return None;
        }
        if up.value > at {
          at := up.value;
        }
        assert start < obstacles[i].End() <= at;
      }
    }
    r := Some(at);
  }

  lemma PastObstacle(g: Granule, memory: seq<PhysRegion>, obstacles: seq<PhysRegion>, kernelEnd: nat, start: nat,
                     at: nat, i: nat)
    requires NoneBelow(g, memory, obstacles, kernelEnd, at) && start <= at && i < |obstacles| && NoOverflow(memory)
    requires obstacles[i].base < start + WINDOW_SIZE
    ensures var up := AlignUp64(g, obstacles[i].End());
            if up.Some? then NoneBelow(g, memory, obstacles, kernelEnd, up.value)
            else forall w :: !Usable(g, memory, obstacles, kernelEnd, w)
  {
    forall w | Usable(g, memory, obstacles, kernelEnd, w)
      ensures AlignUp64(g, obstacles[i].End()).Some? && AlignUp64(g, obstacles[i].End()).value <= w
    {
      assert !Hits(obstacles[i], w);
      AlignUp64Is(g, obstacles[i].End(), w);
    }
  }

  method InSomeRegion(memory: seq<PhysRegion>, start: nat) returns (found: bool)
    ensures found <==> exists i :: 0 <= i < |memory| && Inside(memory[i], start)
  {
    for i := 0 to |memory|
      invariant forall k :: 0 <= k < i ==> !Inside(memory[k], start)
    {
      if memory[i].base <= start && start + WINDOW_SIZE <= memory[i].End() {
        return true;
      }
    }
    found := false;
  }

  /** The lowest region base above `start`. */
  method NextBase(memory: seq<PhysRegion>, start: nat) returns (r: Option<nat>)
    ensures r.None? ==> forall i :: 0 <= i < |memory| ==> memory[i].base <= start
    ensures r.Some? ==> r.value > start && (exists i :: 0 <= i < |memory| && memory[i].base == r.value)
    ensures r.Some? ==> forall i :: 0 <= i < |memory| && memory[i].base > start ==> r.value <= memory[i].base
  {
    r := None;
    for i := 0 to |memory|
      invariant r.None? ==> forall k :: 0 <= k < i ==> memory[k].base <= start
      invariant r.Some? ==> r.value > start && (exists k :: 0 <= k < |memory| && memory[k].base == r.value)
      invariant r.Some? ==> forall k :: 0 <= k < i && memory[k].base > start ==> r.value <= memory[k].base
    {
      if memory[i].base > start && (r.None? || memory[i].base < r.value) {
        r := Some(memory[i].base);
      }
    }
  }

  /** If the window at `start` is in no region, no usable window starts before the next region does. */
  lemma PastGap(g: Granule, memory: seq<PhysRegion>, obstacles: seq<PhysRegion>, kernelEnd: nat, start: nat, w: nat)
    requires NoneBelow(g, memory, obstacles, kernelEnd, start) && Usable(g, memory, obstacles, kernelEnd, w)
    requires forall i :: 0 <= i < |memory| ==> !Inside(memory[i], start)
    ensures exists i :: 0 <= i < |memory| && start < memory[i].base <= w
  {
    var i :| 0 <= i < |memory| && Inside(memory[i], w);
    assert !Inside(memory[i], start);
  }

  /**
    `pick_window`: the lowest granule-aligned 2 MiB window at or above the kernel end that fits in
    one memory region and misses the DTB and every reserved range; none only if there is none.
  */
  method PickWindow(g: Granule, memory: seq<PhysRegion>, reserved: seq<PhysRegion>, dtb: PhysRegion, kernelEnd: nat)
    returns (r: Option<nat>)
    requires |memory| <= 8 && |reserved| <= 8 && kernelEnd < TWO_64
    requires NoOverflow(memory) && NoOverflow(reserved) && dtb.End() < TWO_64
    ensures r.Some? ==> Usable(g, memory, [dtb] + reserved, kernelEnd, r.value)
    ensures r.Some? ==> forall w :: Usable(g, memory, [dtb] + reserved, kernelEnd, w) ==> r.value <= w
    ensures r.None? ==> forall w :: !Usable(g, memory, [dtb] + reserved, kernelEnd, w)
  {
    var obstacles := [dtb] + reserved;
    var first := AlignUp64(g, kernelEnd);
    FirstStart(g, memory, obstacles, kernelEnd);
    if first.None? {
      return None;
    }
    var start := first.value;
    hide Usable, Aligned, NoneBelow, AlignUp64;
    EndsShrink(obstacles, start, start);
    BasesShrink(memory, start, start);
    for round := 0 to 64
      invariant kernelEnd <= start && Aligned(g, start) && NoneBelow(g, memory, obstacles, kernelEnd, start)
      invariant EndsAfter(obstacles, start) + BasesAfter(memory, start) + round <= 17
    {
      if start + WINDOW_SIZE >= TWO_64 {
        TooHigh(g, memory, obstacles, kernelEnd, start);
        return None;
      }
      var bumped := Bump(g, memory, obstacles, kernelEnd, start);
      if bumped.None? {
        return None;
      }
      BasesShrink(memory, start, bumped.value);
      EndsShrink(obstacles, start, bumped.value);
      if bumped.value > start {
        start := bumped.value;
        continue;
      }
      var found := InSomeRegion(memory, start);
      if found {
        Found(g, memory, obstacles, kernelEnd, start);
        return Some(start);
      }
      var next := NextBase(memory, start);
      NextStart(g, memory, obstacles, kernelEnd, start, next);
      if next.None? {
        return None;
      }
      AlignedUp(g, next.value);
      var up := AlignUp64(g, next.value);
      if up.None? {
        return None;
      }
      BasesShrink(memory, start, up.value);
      EndsShrink(obstacles, start, up.value);
      start := up.value;
    }
    r := None;
  }

  lemma FirstStart(g: Granule, memory: seq<PhysRegion>, obstacles: seq<PhysRegion>, kernelEnd: nat)
    requires NoOverflow(memory)
    ensures var up := AlignUp64(g, kernelEnd);
            if up.Some? then
              kernelEnd <= up.value && Aligned(g, up.value) && NoneBelow(g, memory, obstacles, kernelEnd, up.value)
            else forall w :: !Usable(g, memory, obstacles, kernelEnd, w)
  {
    AlignedUp(g, kernelEnd);
    forall w | Usable(g, memory, obstacles, kernelEnd, w)
      ensures AlignUp64(g, kernelEnd).Some? && AlignUp64(g, kernelEnd).value <= w
    {
      AlignUp64Is(g, kernelEnd, w);
    }
  }

  lemma TooHigh(g: Granule, memory: seq<PhysRegion>, obstacles: seq<PhysRegion>, kernelEnd: nat, start: nat)
    requires NoOverflow(memory) && NoneBelow(g, memory, obstacles, kernelEnd, start) && start + WINDOW_SIZE >= TWO_64
    ensures forall w :: !Usable(g, memory, obstacles, kernelEnd, w)
  {
  }

  lemma Found(g: Granule, memory: seq<PhysRegion>, obstacles: seq<PhysRegion>, kernelEnd: nat, start: nat)
    requires kernelEnd <= start && Aligned(g, start) && NoneBelow(g, memory, obstacles, kernelEnd, start)
    requires exists i :: 0 <= i < |memory| && Inside(memory[i], start)
    requires forall i :: 0 <= i < |obstacles| ==> !Hits(obstacles[i], start)
    ensures Usable(g, memory, obstacles, kernelEnd, start)
    ensures forall w :: Usable(g, memory, obstacles, kernelEnd, w) ==> start <= w
  {
  }

  /** Jumping to the next region base, rounded up, skips nothing. */
  lemma NextStart(g: Granule, memory: seq<PhysRegion>, obstacles: seq<PhysRegion>, kernelEnd: nat, start: nat,
                  next: Option<nat>)
    requires NoOverflow(memory) && NoneBelow(g, memory, obstacles, kernelEnd, start)
    requires forall i :: 0 <= i < |memory| ==> !Inside(memory[i], start)
    requires next.None? ==> forall i :: 0 <= i < |memory| ==> memory[i].base <= start
    requires next.Some? ==> forall i :: 0 <= i < |memory| && memory[i].base > start ==> next.value <= memory[i].base
    ensures next.Some? && AlignUp64(g, next.value).Some? ==>
              NoneBelow(g, memory, obstacles, kernelEnd, AlignUp64(g, next.value).value)
    ensures next.None? || AlignUp64(g, next.value).None? ==> forall w :: !Usable(g, memory, obstacles, kernelEnd, w)
  {
    forall w: nat | Usable(g, memory, obstacles, kernelEnd, w)
      ensures next.Some? && AlignUp64(g, next.value).Some? && AlignUp64(g, next.value).value <= w
    {
      PastGap(g, memory, obstacles, kernelEnd, start, w);
      AlignUp64Is(g, next.value, w);
    }
  }
}
