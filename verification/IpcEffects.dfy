/** What one kernel entry can touch, wake, append and switch to.  Everything else is left alone. */
module IpcEffects {
  import opened Abi
  import opened Tasks
  import opened Ipc

  /** A task to wake, if there is one. */
  function OneOrNone(t: Ptr): seq<Ptr> {
    if t == 0 then [] else [t]
  }

  predicate WillBlock(s: Sys) {
    !Nonblock(CtxOf(s, s.current))
  }

  /** The tasks an entry makes Ready, in the order it appends them to the ready queue. */
  function Woken(s: Sys, ev: Event): seq<Ptr> {
    match ev
    case Tick => if s.ready == [] then [] else [s.current]
    case Yield => if s.ready == [] then [] else [s.current]
    case Kill => OneOrNone(ReplyOf(s, s.current))
    case Resume(t) => if StateOf(s, t) == Stopped then [t] else []
    case Send(e) => if ReceiverWaits(s, e) then [Queue(s, e)[0]] else []
    case Recv(e) => WokenByRecv(s, e, ReplyOf(s, s.current))
    case Call(e) => if ReceiverWaits(s, e) then OneOrNone(ReplyOf(s, Queue(s, e)[0])) + [Queue(s, e)[0]] else []
    case ReplyRecv(e) => OneOrNone(ReplyOf(s, s.current)) + WokenByRecv(s, e, 0)
    case _ => []
  }

  function WokenByRecv(s: Sys, e: Ptr, right: Ptr): seq<Ptr> {
    if !SenderWaits(s, e) then []
    else if StateOf(s, Queue(s, e)[0]) == BlockedCall then OneOrNone(right)
    else [Queue(s, e)[0]]
  }

  /** Whether the current task gives the processor up. */
  predicate Leaves(s: Sys, ev: Event) {
    match ev
    case Tick => s.ready != []
    case Yield => s.ready != []
    case Kill => true
    case Send(e) => !ReceiverWaits(s, e) && WillBlock(s)
    case Recv(e) => !SenderWaits(s, e) && WillBlock(s)
    case Call(e) => ReceiverWaits(s, e) || WillBlock(s)
    case ReplyRecv(e) => !SenderWaits(s, e) && WillBlock(s)
    case _ => false
  }

  /** Every task whose TCB an entry may write, apart from marking the next task Running. */
  function Touched(s: Sys, ev: Event): set<Ptr> {
    {s.current} + (set t | t in Woken(s, ev)) +
    match ev
    case NewTcb(p, _) => {p}
    case Configure(t, _, _, _) => if StateOf(s, t) == Inactive then {t} else {}
    case Recv(e) => if SenderWaits(s, e) then {Queue(s, e)[0]} else {}
    case ReplyRecv(e) => if SenderWaits(s, e) then {Queue(s, e)[0]} else {}
    case _ => {}
  }

  /** The ready queue and the current task after an entry, in terms of who was woken and who left. */
  ghost predicate FlowsTo(s: Sys, woken: seq<Ptr>, leaves: bool, s': Sys) {
    var line := s.ready + woken;
    if !leaves then s'.ready == line && s'.current == s.current && s'.halted == s.halted
    else if line == [] then s'.ready == [] && s'.current == s.current && s'.halted
    else s'.ready == line[1..] && s'.current == line[0] && s'.halted == s.halted
  }

  ghost predicate SameTcb(s: Sys, s': Sys, u: Ptr) {
    CtxOf(s', u) == CtxOf(s, u) && ReplyOf(s', u) == ReplyOf(s, u) && StateOf(s', u) == StateOf(s, u)
  }

  /** Untouched, or only marked Running as the next task. */
  ghost predicate Spared(s: Sys, s': Sys, u: Ptr) {
    && CtxOf(s', u) == CtxOf(s, u) && ReplyOf(s', u) == ReplyOf(s, u)
    && (StateOf(s', u) == StateOf(s, u) || (StateOf(s', u) == Running && s'.current == u))
  }

  lemma AbortEffect(s: Sys, h: Ptr)
    ensures FlowsTo(s, OneOrNone(ReplyOf(s, h)), false, AbortReply(s, h))
    ensures AbortReply(s, h).eps == s.eps
    ensures forall u :: u != h && u !in OneOrNone(ReplyOf(s, h)) ==> SameTcb(s, AbortReply(s, h), u)
  {
  }

  lemma ReplyEffect(s: Sys)
    ensures FlowsTo(s, OneOrNone(ReplyOf(s, s.current)), false, Reply(s))
    ensures Reply(s).eps == s.eps && ReplyOf(Reply(s), s.current) == 0
    ensures forall u :: u != s.current && u !in OneOrNone(ReplyOf(s, s.current)) ==> SameTcb(s, Reply(s), u)
    ensures s.current != ReplyOf(s, s.current) ==> CtxOf(Reply(s), s.current) == CtxOf(s, s.current)
  {
  }

  lemma SwitchEffect(s: Sys)
    ensures FlowsTo(s, [], true, SwitchNext(s))
    ensures SwitchNext(s).eps == s.eps && SwitchNext(s).ctx == s.ctx && SwitchNext(s).replyTo == s.replyTo
    ensures forall u :: Spared(s, SwitchNext(s), u)
  {
    assert s.ready + [] == s.ready;
  }

  lemma BlockEffect(s: Sys, e: Ptr, st: TaskState)
    ensures FlowsTo(s, [], true, Block(s, e, st))
    ensures forall u :: u != s.current ==> Spared(s, Block(s, e, st), u)
    ensures Block(s, e, st).eps == s.eps[e := Queue(s, e) + [s.current]]
  {
    hide SwitchNext, Spared;
    SwitchEffect(PushEp(SetState(s, s.current, st), e, s.current));
    BlockSpares(s, e, st);
  }

  lemma BlockSpares(s: Sys, e: Ptr, st: TaskState)
    ensures forall u :: u != s.current ==> Spared(s, Block(s, e, st), u)
  {
    hide SwitchNext;
    var s1 := PushEp(SetState(s, s.current, st), e, s.current);
    SwitchEffect(s1);
    forall u | u != s.current
      ensures Spared(s, Block(s, e, st), u)
    {
      assert SameTcb(s, s1, u);
      assert Spared(s1, SwitchNext(s1), u);
    }
  }

  lemma SendEffect(s: Sys, e: Ptr)
    ensures FlowsTo(s, Woken(s, Send(e)), Leaves(s, Send(e)), DoSend(s, e))
    ensures forall u :: u !in Touched(s, Send(e)) ==> Spared(s, DoSend(s, e), u)
  {
    hide Block;
    if ReceiverWaits(s, e) {
      assert Queue(s, e)[0] in Woken(s, Send(e));
    } else if WillBlock(s) {
      BlockEffect(s, e, BlockedSend);
    }
  }

  lemma RecvEffect(s: Sys, e: Ptr)
    ensures FlowsTo(s, Woken(s, Recv(e)), Leaves(s, Recv(e)), DoRecv(s, e))
    ensures forall u :: u !in Touched(s, Recv(e)) ==> Spared(s, DoRecv(s, e), u)
  {
    hide Block, AbortReply;
    if SenderWaits(s, e) {
      var snd := Queue(s, e)[0];
      var s1 := SetCtx(PopEp(s, e), s.current, Deliver(CtxOf(s, snd), CtxOf(s, s.current)));
      AbortEffect(s1, s.current);
      var c := ReplyOf(s, s.current);
      forall u | u !in Touched(s, Recv(e))
        ensures Spared(s, DoRecv(s, e), u)
      {
        assert SameTcb(s, s1, u);
        if StateOf(s, snd) == BlockedCall {
          assert u !in OneOrNone(ReplyOf(s1, s.current));
          assert SameTcb(s1, AbortReply(s1, s.current), u);
        }
      }
    } else if WillBlock(s) {
      BlockEffect(s, e, BlockedRecv);
    }
  }

  lemma CallEffect(s: Sys, e: Ptr)
    ensures FlowsTo(s, Woken(s, Call(e)), Leaves(s, Call(e)), DoCall(s, e))
    ensures forall u :: u !in Touched(s, Call(e)) ==> Spared(s, DoCall(s, e), u)
  {
    hide Block, AbortReply, SwitchNext;
    if ReceiverWaits(s, e) {
      CallNowEffect(s, e);
      var s1 := CallNow(s, e);
      SwitchEffect(s1);
      assert s1.ready + [] == s.ready + Woken(s, Call(e));
      forall u | u !in Touched(s, Call(e))
        ensures Spared(s, DoCall(s, e), u)
      {
        assert SameTcb(s, s1, u);
        assert Spared(s1, SwitchNext(s1), u);
      }
    } else if WillBlock(s) {
      BlockEffect(s, e, BlockedCall);
    }
  }

  lemma CallNowEffect(s: Sys, e: Ptr)
    requires ReceiverWaits(s, e)
    ensures FlowsTo(s, Woken(s, Call(e)), false, CallNow(s, e))
    ensures forall u :: u !in Touched(s, Call(e)) ==> SameTcb(s, CallNow(s, e), u)
  {
    hide AbortReply;
    var rcv, w := Queue(s, e)[0], Woken(s, Call(e));
    var s1 := SetCtx(PopEp(s, e), rcv, Deliver(CtxOf(s, s.current), CtxOf(s, rcv)));
    AbortEffect(s1, rcv);
    assert s.ready + OneOrNone(ReplyOf(s, rcv)) + [rcv] == s.ready + w;
    forall u | u !in Touched(s, Call(e))
      ensures SameTcb(s, CallNow(s, e), u)
    {
      assert w[|w| - 1] == rcv;
      assert forall t :: t in OneOrNone(ReplyOf(s, rcv)) ==> t in w;
      assert SameTcb(s, s1, u);
      assert SameTcb(s1, AbortReply(s1, rcv), u);
    }
  }

  lemma ReplyRecvEffect(s: Sys, e: Ptr)
    requires ReplyOf(s, s.current) != s.current
    requires SenderWaits(s, e) <==> SenderWaits(Reply(s), e)
    requires SenderWaits(s, e) ==> StateOf(s, Queue(s, e)[0]) == StateOf(Reply(s), Queue(s, e)[0])
    ensures FlowsTo(s, Woken(s, ReplyRecv(e)), Leaves(s, ReplyRecv(e)), DoRecv(Reply(s), e))
    ensures forall u :: u !in Touched(s, ReplyRecv(e)) ==> Spared(s, DoRecv(Reply(s), e), u)
  {
    hide Reply, DoRecv;
    var s1 := Reply(s);
    ReplyEffect(s);
    RecvEffect(s1, e);
    var c, w := ReplyOf(s, s.current), WokenByRecv(s, e, 0);
    assert Queue(s1, e) == Queue(s, e);
    assert Woken(s1, Recv(e)) == w;
    assert s1.ready + w == s.ready + Woken(s, ReplyRecv(e));
    forall u | u !in Touched(s, ReplyRecv(e))
      ensures Spared(s, DoRecv(s1, e), u)
    {
      assert forall t :: t in w || t in OneOrNone(c) ==> t in OneOrNone(c) + w;
      assert u !in Touched(s1, Recv(e));
      assert SameTcb(s, s1, u);
      assert Spared(s1, DoRecv(s1, e), u);
    }
  }

  lemma KillEffect(s: Sys)
    ensures FlowsTo(s, Woken(s, Kill), true, DoKill(s))
    ensures forall u :: u !in Touched(s, Kill) ==> Spared(s, DoKill(s), u)
  {
    hide AbortReply, SwitchNext;
    AbortEffect(s, s.current);
    var s1 := SetState(AbortReply(s, s.current), s.current, Dead);
    SwitchEffect(s1);
    assert s1.ready + [] == s.ready + Woken(s, Kill);
    forall u | u !in Touched(s, Kill)
      ensures Spared(s, DoKill(s), u)
    {
      assert SameTcb(s, s1, u);
      assert Spared(s1, SwitchNext(s1), u);
    }
  }

  /** One entry changes only what it names, wakes whom it names, and switches to the head of the line. */
  lemma NextEffect(s: Sys, ev: Event)
    requires Safe(s) && Enabled(s, ev)
    ensures FlowsTo(s, Woken(s, ev), Leaves(s, ev), Next(s, ev))
    ensures forall u :: u !in Touched(s, ev) ==> Spared(s, Next(s, ev), u)
  {
    hide Inv, DoSend, DoRecv, DoCall, DoKill, Reply, Rotate, FlowsTo, Spared;
    match ev
    case Send(e) => SendEffect(s, e);
    case Recv(e) => RecvEffect(s, e);
    case Call(e) => CallEffect(s, e);
    case Kill => KillEffect(s);
    case ReplyRecv(e) =>
      ReplyLeavesQueue(s, e);
      assert SenderWaits(s, e) ==> Queue(s, e)[0] in Queue(s, e);
      ReplyRecvEffect(s, e);
    case Tick => RotateEffect(s);
    case Yield => YieldEffect(s);
    case _ => PlainEffect(s, ev);
  }

  lemma RotateEffect(s: Sys)
    ensures FlowsTo(s, Woken(s, Tick), Leaves(s, Tick), Rotate(s))
    ensures forall u :: u != s.current ==> Spared(s, Rotate(s), u)
  {
    assert s.ready + [] == s.ready;
    if s.ready != [] {
      assert (s.ready + [s.current])[1..] == s.ready[1..] + [s.current];
    }
  }

  lemma YieldEffect(s: Sys)
    ensures FlowsTo(s, Woken(s, Yield), Leaves(s, Yield), Next(s, Yield))
    ensures forall u :: u !in Touched(s, Yield) ==> Spared(s, Next(s, Yield), u)
  {
    hide Rotate;
    var s1 := SetX0(s, s.current, 0);
    RotateEffect(s1);
    forall u | u != s.current
      ensures Spared(s, Next(s, Yield), u)
    {
      assert SameTcb(s, s1, u);
      assert Spared(s1, Rotate(s1), u);
    }
  }

  /** Entries that never switch. */
  lemma PlainEffect(s: Sys, ev: Event)
    requires ev.UserRuns? || ev.Return? || ev.NewTcb? || ev.NewEndpoint? || ev.Configure? || ev.Resume?
    ensures FlowsTo(s, Woken(s, ev), Leaves(s, ev), Next(s, ev))
    ensures forall u :: u !in Touched(s, ev) ==> Spared(s, Next(s, ev), u)
  {
    hide DoSend, DoRecv, DoCall, DoKill, Reply, Rotate;
    assert s.ready + [] == s.ready;
    match ev
    case Configure(t, entry, stack, root) => ConfigureEffect(s, t, entry, stack, root);
    case Resume(t) =>
      hide DoConfigure;
      assert StateOf(s, t) == Stopped ==> t in Woken(s, ev);
    case _ =>
      hide DoConfigure, DoResume;
  }

  lemma ConfigureEffect(s: Sys, t: Ptr, entry: Word, stack: Word, root: Word)
    ensures FlowsTo(s, [], false, DoConfigure(s, t, entry, stack, root))
    ensures forall u :: u != s.current && (u != t || StateOf(s, t) != Inactive) ==>
              Spared(s, DoConfigure(s, t, entry, stack, root), u)
  {
    assert s.ready + [] == s.ready;
  }

  /** Replying first does not change what REPLY_RECV finds on the endpoint. */
  lemma ReplyLeavesQueue(s: Sys, e: Ptr)
    requires Safe(s) && !s.halted && e in s.eps
    ensures ReplyOf(s, s.current) != s.current
    ensures Queue(Reply(s), e) == Queue(s, e)
    ensures SenderWaits(s, e) <==> SenderWaits(Reply(s), e)
    ensures forall t :: t in Queue(s, e) ==> SameTcb(s, Reply(s), t)
  {
    hide Inv, Reply;
    Facts(s, {}, false);
    RightFacts(s, {}, false, s.current);
    HeadFacts(s, {}, false, e);
    ReplyEffect(s);
    forall t | t in Queue(s, e)
      ensures SameTcb(s, Reply(s), t)
    {
      QueueFacts(s, {}, false, e, t);
    }
    if Queue(s, e) != [] {
      assert Queue(s, e)[0] in Queue(s, e);
    }
  }
}
