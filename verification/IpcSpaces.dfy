/** Which objects exist after a kernel entry, and which address space each task runs in. */
module IpcSpaces {
  import opened Abi
  import opened Tasks
  import opened Ipc
  import opened IpcEffects
  import opened IpcRuns

  ghost predicate SameObjects(s: Sys, s': Sys) {
    && (forall t :: t in s'.state <==> t in s.state)
    && (forall e :: e in s'.eps <==> e in s.eps)
    && s'.ttbr0 == s.ttbr0
  }

  ghost predicate ReadyKnown(s: Sys) {
    s.ready != [] ==> s.ready[0] in s.state
  }

  lemma SwitchObjects(s: Sys)
    requires ReadyKnown(s)
    ensures SameObjects(s, SwitchNext(s))
  {
  }

  lemma AbortObjects(s: Sys, h: Ptr)
    requires ReplyOf(s, h) != 0 ==> ReplyOf(s, h) in s.state
    ensures SameObjects(s, AbortReply(s, h))
    ensures ReadyKnown(s) ==> ReadyKnown(AbortReply(s, h))
  {
  }

  lemma BlockObjects(s: Sys, e: Ptr, st: TaskState)
    requires ReadyKnown(s) && e in s.eps && s.current in s.state
    ensures SameObjects(s, Block(s, e, st))
  {
    hide SwitchNext;
    SwitchObjects(PushEp(SetState(s, s.current, st), e, s.current));
  }

  lemma SendObjects(s: Sys, e: Ptr)
    requires Safe(s) && !s.halted && e in s.eps
    ensures SameObjects(s, DoSend(s, e))
  {
    hide Inv, Block;
    Facts(s, {}, false);
    HeadFacts(s, {}, false, e);
    ReadyFacts(s, {}, false);
    BlockObjects(s, e, BlockedSend);
  }

  lemma RecvObjects(s: Sys, e: Ptr)
    requires Safe(s) && !s.halted && e in s.eps
    ensures SameObjects(s, DoRecv(s, e))
  {
    hide Inv, Block, AbortReply;
    Facts(s, {}, false);
    HeadFacts(s, {}, false, e);
    ReadyFacts(s, {}, false);
    RightFacts(s, {}, false, s.current);
    BlockObjects(s, e, BlockedRecv);
    if SenderWaits(s, e) {
      AbortObjects(SetCtx(PopEp(s, e), s.current, Deliver(CtxOf(s, Queue(s, e)[0]), CtxOf(s, s.current))), s.current);
    }
  }

  lemma CallObjects(s: Sys, e: Ptr)
    requires Safe(s) && !s.halted && e in s.eps
    ensures SameObjects(s, DoCall(s, e))
  {
    hide Inv, Block, AbortReply, SwitchNext;
    Facts(s, {}, false);
    HeadFacts(s, {}, false, e);
    ReadyFacts(s, {}, false);
    BlockObjects(s, e, BlockedCall);
    if ReceiverWaits(s, e) {
      var rcv := Queue(s, e)[0];
      RightFacts(s, {}, false, rcv);
      AbortObjects(SetCtx(PopEp(s, e), rcv, Deliver(CtxOf(s, s.current), CtxOf(s, rcv))), rcv);
      SwitchObjects(CallNow(s, e));
    }
  }

  lemma ReplyObjects(s: Sys)
    requires Safe(s) && !s.halted
    ensures SameObjects(s, Reply(s))
  {
    hide Inv;
    Facts(s, {}, false);
    RightFacts(s, {}, false, s.current);
  }

  lemma KillObjects(s: Sys)
    requires Safe(s) && !s.halted
    ensures SameObjects(s, DoKill(s))
  {
    hide Inv, AbortReply, SwitchNext;
    Facts(s, {}, false);
    RightFacts(s, {}, false, s.current);
    ReadyFacts(s, {}, false);
    AbortObjects(s, s.current);
    SwitchObjects(SetState(AbortReply(s, s.current), s.current, Dead));
  }

  lemma RotateObjects(s: Sys)
    requires Safe(s) && !s.halted
    ensures SameObjects(s, Rotate(s))
  {
    hide Inv;
    Facts(s, {}, false);
    ReadyFacts(s, {}, false);
  }

  /** Only RETYPE makes objects, and only TCB_CONFIGURE of an Inactive task sets an address space. */
  ghost predicate ObjectsAfter(s: Sys, ev: Event, s': Sys) {
    && (forall t :: t in s'.state <==> t in s.state || (ev.NewTcb? && t == ev.p))
    && (forall e :: e in s'.eps <==> e in s.eps || (ev.NewEndpoint? && e == ev.p))
    && s'.ttbr0 == match ev
                   case NewTcb(p, _) => s.ttbr0[p := 0]
                   case Configure(t, _, _, root) => if StateOf(s, t) == Inactive then s.ttbr0[t := root] else s.ttbr0
                   case _ => s.ttbr0
  }

  lemma NextObjects(s: Sys, ev: Event)
    requires Safe(s) && Enabled(s, ev)
    ensures ObjectsAfter(s, ev, Next(s, ev))
  {
    hide Inv, DoSend, DoRecv, DoCall, DoKill, Reply, Rotate, DoConfigure, DoResume, SameObjects, ObjectsAfter;
    match ev
    case Send(e) => SendObjects(s, e); SameIsAfter(s, ev, Next(s, ev));
    case Recv(e) => RecvObjects(s, e); SameIsAfter(s, ev, Next(s, ev));
    case Call(e) => CallObjects(s, e); SameIsAfter(s, ev, Next(s, ev));
    case ReplyRecv(e) => ReplyRecvObjects(s, e); SameIsAfter(s, ev, Next(s, ev));
    case Kill => KillObjects(s); SameIsAfter(s, ev, Next(s, ev));
    case Tick => RotateObjects(s); SameIsAfter(s, ev, Next(s, ev));
    case Yield => YieldObjects(s); SameIsAfter(s, ev, Next(s, ev));
    case _ => PlainObjects(s, ev);
  }

  lemma SameIsAfter(s: Sys, ev: Event, s': Sys)
    requires SameObjects(s, s') && !ev.NewTcb? && !ev.NewEndpoint? && !ev.Configure?
    ensures ObjectsAfter(s, ev, s')
  {
  }

  lemma ReplyRecvObjects(s: Sys, e: Ptr)
    requires Safe(s) && !s.halted && e in s.eps
    ensures SameObjects(s, DoRecv(Reply(s), e))
  {
    hide Inv, DoRecv, Reply;
    ReplyObjects(s);
    ReplySafe(s);
    ReplyRunning(s);
    RecvObjects(Reply(s), e);
  }

  lemma YieldObjects(s: Sys)
    requires Safe(s) && !s.halted
    ensures SameObjects(s, Next(s, Yield))
  {
    hide Inv, Rotate;
    SetX0Safe(s, 0);
    RotateObjects(SetX0(s, s.current, 0));
  }

  lemma PlainObjects(s: Sys, ev: Event)
    requires Safe(s) && Enabled(s, ev)
    requires ev.UserRuns? || ev.Return? || ev.NewTcb? || ev.NewEndpoint? || ev.Configure? || ev.Resume?
    ensures ObjectsAfter(s, ev, Next(s, ev))
  {
    hide Inv, DoSend, DoRecv, DoCall, DoKill, Reply, Rotate;
    Facts(s, {}, false);
  }

  lemma ReplyRunning(s: Sys)
    ensures Reply(s).halted == s.halted
  {
  }

  // ---------------------------------------------------------------- the address space of every task

  /** Every task that has ever been configured runs in the one address space. */
  ghost predicate OneSpace(s: Sys, root: Word) {
    forall t :: t in s.state && s.state[t] != Inactive ==> t in s.ttbr0 && s.ttbr0[t] == root
  }

  lemma InactiveNotTouched(s: Sys, ev: Event, t: Ptr)
    requires Safe(s) && Enabled(s, ev) && t in s.state && s.state[t] == Inactive && !(ev.Configure? && ev.t == t)
    ensures t !in Touched(s, ev)
  {
    hide Inv;
    Facts(s, {}, false);
    RightFacts(s, {}, false, s.current);
    match ev
    case Send(e) => HeadFacts(s, {}, false, e);
    case Recv(e) => HeadFacts(s, {}, false, e);
    case ReplyRecv(e) => HeadFacts(s, {}, false, e);
    case Call(e) =>
      HeadFacts(s, {}, false, e);
      if ReceiverWaits(s, e) {
        RightFacts(s, {}, false, Queue(s, e)[0]);
      }
    case _ =>
  }

  lemma InactiveStays(s: Sys, ev: Event, t: Ptr)
    requires Safe(s) && Enabled(s, ev) && t in s.state && s.state[t] == Inactive && !(ev.Configure? && ev.t == t)
    ensures StateOf(Next(s, ev), t) == Inactive
  {
    hide Inv, Next;
    Facts(s, {}, false);
    PlaceFacts(s, t);
    InactiveNotTouched(s, ev, t);
    NextEffect(s, ev);
    assert Spared(s, Next(s, ev), t);
    assert forall x :: x in s.ready + Woken(s, ev) ==> x in s.ready || x in Touched(s, ev);
  }

  /** No entry lets a task run in another address space than the one it was configured with. */
  lemma NextSpace(s: Sys, ev: Event, root: Word)
    requires Safe(s) && Enabled(s, ev) && OneSpace(s, root)
    requires ev.Configure? ==> ev.root == root
    ensures OneSpace(Next(s, ev), root)
  {
    hide Inv, Next;
    var s' := Next(s, ev);
    NextObjects(s, ev);
    forall t | t in s'.state && s'.state[t] != Inactive
      ensures t in s'.ttbr0 && s'.ttbr0[t] == root
    {
      if t !in s.state {
        NewIsInactive(s, ev);
      } else if s.state[t] == Inactive && !(ev.Configure? && ev.t == t) {
        InactiveStays(s, ev, t);
      }
    }
  }

  lemma NewIsInactive(s: Sys, ev: Event)
    requires ev.NewTcb?
    ensures StateOf(Next(s, ev), ev.p) == Inactive
  {
  }
}
