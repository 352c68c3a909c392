/** What user space is told: each return code of RETYPE, MAP and TCB_CONFIGURE, exactly when it is given. */
module Answers {
  import opened Abi
  import opened Descriptors
  import opened Tables
  import opened Paging
  import opened UserSpace
  import opened UserPages
  import opened Tasks
  import opened Ipc
  import opened Caps
  import opened Retype
  import opened Syscalls
  import opened Ownership

  predicate IsSpace(caps: seq<Cap>, slot: nat) {
    slot < |caps| && caps[slot].AddrSpace?
  }

  predicate FreshFrame(caps: seq<Cap>, slot: nat) {
    slot < |caps| && caps[slot].Frame? && !caps[slot].mapped
  }

  predicate FreshPageTable(caps: seq<Cap>, slot: nat) {
    slot < |caps| && caps[slot].PageTable? && !caps[slot].installed
  }

  /** A frame address that MAP accepts. */
  predicate GoodPage(g: Granule, va: nat) {
    va % Size(g) == 0 && Size(g) <= va && va + Size(g) <= TWO_48
  }

  /** MAP: each code has one meaning in terms of the capabilities and of what the hardware walk finds. */
  lemma MapAnswers(b: Boot, caps: seq<Cap>, mem: Mem, sh: Shape, pages: Pages, slot: nat, va: nat, perm: nat,
                   aspace: nat)
    requires BootOk(b) && CNodeOk(b, caps) && MemoryOk(b, caps, mem, sh, pages)
    ensures var code := DoMap(b.g, caps, mem, slot, va, perm, aspace).code;
            var space, frame, table := IsSpace(caps, aspace), FreshFrame(caps, slot), FreshPageTable(caps, slot);
            var gap, leaf := Missing(b.g, mem, b.root, va), Walk(b.g, mem, b.root, va);
            && (code == Some(AsWord(BAD_SLOT)) <==> aspace >= |caps| || (space && slot >= |caps|))
            && (code == Some(AsWord(BAD_CAP)) <==>
                  || (aspace < |caps| && !space)
                  || (space && slot < |caps| && !caps[slot].Frame? && !caps[slot].PageTable?))
            && (code == Some(AsWord(ALREADY_MAPPED)) <==>
                  space && slot < |caps| && ((caps[slot].Frame? && !frame) || (caps[slot].PageTable? && !table)))
            && (code == Some(AsWord(BAD_PERM)) <==> space && frame && perm != PERM_RO && perm != PERM_RW)
            && (code == Some(AsWord(BAD_VA)) <==>
                  space && ((frame && perm <= PERM_RW && !GoodPage(b.g, va)) || (table && va >= TWO_48)))
            && (code == Some(AsWord(MISSING_TABLE)) <==>
                  space && frame && perm <= PERM_RW && GoodPage(b.g, va) && gap > 0)
            && (code == Some(AsWord(OVERLAP)) <==>
                  space && (|| (frame && perm <= PERM_RW && GoodPage(b.g, va) && leaf != 0)
                            || (table && va < TWO_48 && gap == 0)))
            && (code == Some(0) <==>
                  space && (|| (frame && perm <= PERM_RW && GoodPage(b.g, va) && gap == 0 && leaf == 0)
                            || (table && va < TWO_48 && gap > 0)))
  {
    hide BootOk, CNodeOk, MemoryOk, MapFrame, InstallTable, Missing, Walk;
    if IsSpace(caps, aspace) {
      MapRoot(b, caps, mem, sh, pages);
      SpaceIsRoot(b, caps, aspace);
      if FreshFrame(caps, slot) && PermAt(perm).Some? {
        FrameAnswers(b, caps, mem, sh, pages, slot, va, PermAt(perm).value);
      } else if FreshPageTable(caps, slot) {
        UninstalledFresh(b, caps, mem, sh, pages, slot, caps[slot].base);
        InstallExact(b.g, mem, sh, b.root, va, caps[slot].base);
        MissingBounds(b.g, mem, b.root, va);
      }
    }
  }

  lemma FrameAnswers(b: Boot, caps: seq<Cap>, mem: Mem, sh: Shape, pages: Pages, slot: nat, va: nat, perm: UserPerm)
    requires BootOk(b) && CNodeOk(b, caps) && MemoryOk(b, caps, mem, sh, pages) && FreshFrame(caps, slot)
    ensures var r := MapFrame(b.g, mem, b.root, va, caps[slot].base, perm);
            && (r.Err? && (r.error == Misaligned || r.error == NullPage) <==> !GoodPage(b.g, va))
            && (r == Err(MissingTable) <==> GoodPage(b.g, va) && Missing(b.g, mem, b.root, va) > 0)
            && (r == Err(Overlap) <==> GoodPage(b.g, va) && Walk(b.g, mem, b.root, va) != 0)
            && (r.Ok? <==> GoodPage(b.g, va) && Missing(b.g, mem, b.root, va) == 0 && Walk(b.g, mem, b.root, va) == 0)
  {
    hide BootOk, CNodeOk, MapFrame, Missing, Walk;
    MapRoot(b, caps, mem, sh, pages);
    var c := caps[slot];
    assert c in caps;
    ObjIsFree(b, caps, c);
    MapFrameExact(b.g, mem, sh, b.root, va, c.base, perm);
    ArgsAre(b.g, mem, b.root, va, c.base, perm);
  }

  lemma ArgsAre(g: Granule, mem: Mem, root: nat, va: nat, pa: nat, perm: UserPerm)
    requires IsFrame(g, pa)
    ensures FrameArgs(g, va, pa).Ok? <==> GoodPage(g, va)
    ensures !GoodPage(g, va) ==>
              var r := MapFrame(g, mem, root, va, pa, perm);
              r.Err? && (r.error == Misaligned || r.error == NullPage)
  {
    hide Follow, Leaf, UserAttrs, PutEntry, Entry;
  }

  /** RETYPE: each code has one meaning; an object is made exactly when no other code applies. */
  lemma RetypeAnswers(g: Granule, caps: seq<Cap>, slot: nat, kind: nat, ready: bool)
    requires slot < |caps| && caps[slot].Untyped? ==> caps[slot].base + caps[slot].size < TWO_64
    ensures var r := RetypePlan(g, caps, slot, kind, ready);
            var known := OBJ_FRAME <= kind <= OBJ_ENDPOINT;
            var untyped := slot < |caps| && caps[slot].Untyped?;
            && (r == Err(AsWord(BAD_TYPE)) <==> !known)
            && (r == Err(AsWord(BAD_SLOT)) <==> known && slot >= |caps|)
            && (r == Err(AsWord(NOT_UNTYPED)) <==> known && slot < |caps| && !untyped)
            && (r == Err(AsWord(OUT_OF_SLOTS)) <==> known && untyped && |caps| == CNODE_SLOTS)
            && (r == Err(AsWord(EXHAUSTED)) <==> known && untyped && |caps| != CNODE_SLOTS && NoRoom(g, caps[slot]))
            && (r == Err(AsWord(KERNEL_RESOURCE)) <==>
                  known && untyped && |caps| != CNODE_SLOTS && !NoRoom(g, caps[slot]) && !ready)
            && (r.Ok? <==> known && untyped && |caps| != CNODE_SLOTS && !NoRoom(g, caps[slot]) && ready)
            && (r.Ok? ==> KindOf(kind) == Some(r.value.1) && !NoRoomAt(g, caps[slot], r.value.0))
  {
    hide Size;
    if slot < |caps| && caps[slot].Untyped? && |caps| != CNODE_SLOTS {
      CarveIsLowest(caps, slot, g);
      hide CarveAt, Aligned;
      var c, at := caps[slot], CarveAt(caps, slot, g);
      if at.Ok? {
        assert !NoRoomAt(g, c, at.value);
      }
    } else {
      CarveRefused(caps, slot, g);
      hide CarveAt;
    }
  }

  lemma CarveRefused(caps: seq<Cap>, slot: nat, g: Granule)
    requires !(slot < |caps| && caps[slot].Untyped? && |caps| != CNODE_SLOTS)
    ensures CarveAt(caps, slot, g) == Err(if slot >= |caps| then BadSlot
                                          else if !caps[slot].Untyped? then NotUntyped else NoFreeSlot)
  {
  }

  /** No granule at `a` can be carved from the rest of the untyped memory. */
  predicate NoRoomAt(g: Granule, c: Cap, a: nat)
    requires c.Untyped?
  {
    !(Aligned(g, a) && c.base + c.used <= a && a + Size(g) <= c.base + c.size)
  }

  ghost predicate NoRoom(g: Granule, c: Cap)
    requires c.Untyped?
  {
    forall a: nat :: NoRoomAt(g, c, a)
  }

  predicate GoodAddresses(g: Granule, entry: Word, stack: Word) {
    entry % 4 == 0 && Size(g) <= entry < TWO_48 && stack % 16 == 0 && Size(g) <= stack <= TWO_48
  }

  /** TCB_CONFIGURE reaches the TCB exactly when addresses and slots are good, and with those very arguments. */
  lemma ConfigureAnswers(g: Granule, caps: seq<Cap>, slot: nat, entry: Word, stack: Word, aspace: nat)
    requires forall r: nat :: AddrSpace(r) in caps ==> r < TWO_64
    ensures var ev := ConfigureEvent(g, caps, slot, entry, stack, aspace);
            var va := GoodAddresses(g, entry, stack);
            var space, tcb := IsSpace(caps, aspace), slot < |caps| && caps[slot].Tcb?;
            && (ev == Return(AsWord(BAD_VA)) <==> !va)
            && (ev == Return(AsWord(BAD_SLOT)) <==> va && (aspace >= |caps| || (space && slot >= |caps|)))
            && (ev == Return(AsWord(BAD_CAP)) <==>
                  va && ((aspace < |caps| && !space) || (space && slot < |caps| && !tcb)))
            && (ev.Configure? <==> va && space && tcb)
            && (ev.Configure? ==> ev == Configure(Alias(caps[slot].base), entry, stack, caps[aspace].rootPa))
  {
    if IsSpace(caps, aspace) {
      assert caps[aspace] in caps;
    }
  }

  /**
    TCB_CONFIGURE on the machine: each code has one meaning in terms of the capabilities and of the state
    of the TCB, and 0 means the TCB is Stopped with a cleared context but for the given entry and stack,
    in the one address space.
  */
  lemma ConfigureOutcome(b: Boot, s: System, ready: bool)
    requires Safe(s.sys) && !s.sys.halted && OneAddrSpace(b, s.caps) && Calls(s, SYS_TCB_CONFIGURE)
    ensures var c, cur := CtxOf(s.sys, s.sys.current), s.sys.current;
            var s' := Step(b, s, Svc(ready)).sys;
            var code, slot, aspace := CtxOf(s', cur).x0, c.x0, c.mr.m1;
            var va, space := GoodAddresses(b.g, c.x1, c.mr.m0), IsSpace(s.caps, aspace);
            var tcb := slot < |s.caps| && s.caps[slot].Tcb?;
            var t := if tcb then Alias(s.caps[slot].base) else 0;
            && (code == AsWord(BAD_VA) <==> !va)
            && (code == AsWord(BAD_SLOT) <==> va && (aspace >= |s.caps| || (space && slot >= |s.caps|)))
            && (code == AsWord(BAD_CAP) <==>
                  va && ((aspace < |s.caps| && !space) || (space && slot < |s.caps| && !tcb)))
            && (code == AsWord(BAD_STATE) <==> va && space && tcb && StateOf(s.sys, t) != Inactive)
            && (code == 0 <==> va && space && tcb && StateOf(s.sys, t) == Inactive)
            && (code == 0 ==>
                  && StateOf(s', t) == Stopped && CtxOf(s', t) == ZERO_CONTEXT.(elr := c.x1, sp := c.mr.m0)
                  && s' == SetX0(ConfiguredTcb(s.sys, t, c.x1, c.mr.m0, b.root), cur, 0))
  {
    hide Inv, Next, DoConfigure, RetypePlan, DoMap, Size;
    var c := CtxOf(s.sys, s.sys.current);
    SpacesAreWords(b, s.caps);
    ConfigureAnswers(b.g, s.caps, c.x0, c.x1, c.mr.m0, c.mr.m1);
    hide ConfigureEvent;
    var ev := EventOf(b, s, Svc(ready));
    ConfigureEvents(b.g, s.caps, c.x0, c.x1, c.mr.m0, c.mr.m1);
    if ev.Configure? {
      assert s.caps[c.mr.m1] in s.caps;
      ConfigureStep(s.sys, ev.t, ev.entry, ev.stack, ev.root);
    } else {
      ReturnStep(s.sys, ev.x0);
    }
  }

  function ConfiguredTcb(s: Sys, t: Ptr, entry: Word, stack: Word, root: Word): Sys {
    SetState(SetCtx(s, t, ZERO_CONTEXT.(elr := entry, sp := stack)), t, Stopped).(ttbr0 := s.ttbr0[t := root])
  }

  lemma SpacesAreWords(b: Boot, caps: seq<Cap>)
    requires OneAddrSpace(b, caps)
    ensures forall r: nat :: AddrSpace(r) in caps ==> r < TWO_64
  {
  }

  lemma ConfigureEvents(g: Granule, caps: seq<Cap>, slot: nat, entry: Word, stack: Word, aspace: nat)
    ensures var ev := ConfigureEvent(g, caps, slot, entry, stack, aspace);
            ev.Configure? || (ev.Return? && ev.x0 in {AsWord(BAD_VA), AsWord(BAD_SLOT), AsWord(BAD_CAP)})
  {
  }

  lemma ConfigureStep(s: Sys, t: Ptr, entry: Word, stack: Word, root: Word)
    requires Safe(s) && !s.halted
    ensures var s' := Next(s, Configure(t, entry, stack, root));
            if StateOf(s, t) != Inactive then CtxOf(s', s.current).x0 == AsWord(BAD_STATE)
            else
              && s' == SetX0(ConfiguredTcb(s, t, entry, stack, root), s.current, 0) && CtxOf(s', s.current).x0 == 0
              && StateOf(s', t) == Stopped && CtxOf(s', t) == ZERO_CONTEXT.(elr := entry, sp := stack)
  {
    hide Inv, DoSend, DoRecv, DoCall, DoKill, Reply, Rotate, DoResume;
    Facts(s, {}, false);
  }

  lemma ReturnStep(s: Sys, x0: Word)
    ensures CtxOf(Next(s, Return(x0)), s.current).x0 == x0
  {
    hide DoSend, DoRecv, DoCall, DoKill, Reply, Rotate, DoConfigure, DoResume;
  }
}
