/** The life of a CALL: accepted once, completed at most once, and by whom. */
module IpcCalls {
  import opened Abi
  import opened Tasks
  import opened Ipc
  import opened IpcEffects
  import opened IpcRuns
  import opened IpcMessages

  /** The task has an unfinished CALL: queued, or waiting for its reply. */
  predicate InCall(s: Sys, t: Ptr) {
    StateOf(s, t) == BlockedCall || StateOf(s, t) == BlockedReply
  }

  /** `h` takes the message of the queued caller `t` and with it the right to reply. */
  ghost predicate TakesCall(s: Sys, ev: Event, s': Sys, h: Ptr, t: Ptr) {
    && StateOf(s', t) == BlockedReply && Holds(s'.replyTo, h, t)
    && Handed(CtxOf(s, t), CtxOf(s, h), CtxOf(s', h))
  }

  /** The holder answers: the caller gets x0 = 0 and exactly the words of the holder, and keeps its own registers. */
  ghost predicate Answered(s: Sys, ev: Event, s': Sys, h: Ptr, t: Ptr) {
    && ev.ReplyRecv? && s.current == h && Holds(s.replyTo, h, t)
    && Handed(CtxOf(s, h), CtxOf(s, t), CtxOf(s', t))
    && StateOf(s', t) in {Ready, Running}
  }

  /** The holder is killed, or takes a newer CALL; the caller gets NO_REPLY and nothing else. */
  ghost predicate Lost(s: Sys, ev: Event, s': Sys, h: Ptr, t: Ptr) {
    && Holds(s.replyTo, h, t)
    && ((ev == Kill && s.current == h) || (ReplyOf(s', h) != 0 && ReplyOf(s', h) != t))
    && CtxOf(s', t) == CtxOf(s, t).(x0 := AsWord(NO_REPLY))
    && StateOf(s', t) in {Ready, Running}
  }

  /** The holder of a waiting caller, if the entry makes the caller Ready. */
  lemma WokenCaller(s: Sys, ev: Event, t: Ptr)
    requires Safe(s) && Enabled(s, ev) && t in s.state && s.state[t] == BlockedReply && t in Touched(s, ev)
    ensures (ev == Kill && ReplyOf(s, s.current) == t)
         || (ev.ReplyRecv? && ReplyOf(s, s.current) == t)
         || (&& ev.Recv? && ReplyOf(s, s.current) == t
             && SenderWaits(s, ev.e) && StateOf(s, Queue(s, ev.e)[0]) == BlockedCall)
         || (ev.Call? && ReceiverWaits(s, ev.e) && ReplyOf(s, Queue(s, ev.e)[0]) == t)
  {
    hide Inv;
    Facts(s, {}, false);
    PlaceFacts(s, t);
    match ev
    case Send(e) => HeadFacts(s, {}, false, e);
    case Recv(e) => HeadFacts(s, {}, false, e);
    case Call(e) => HeadFacts(s, {}, false, e);
    case ReplyRecv(e) => HeadFacts(s, {}, false, e);
    case _ =>
  }

  lemma KillLoses(s: Sys, t: Ptr)
    requires Safe(s) && !s.halted && t != 0 && ReplyOf(s, s.current) == t
    ensures Lost(s, Kill, DoKill(s), s.current, t)
  {
    hide Inv;
    Facts(s, {}, false);
    RightFacts(s, {}, false, s.current);
  }

  lemma RecvLoses(s: Sys, e: Ptr, t: Ptr)
    requires Safe(s) && !s.halted && e in s.eps && t != 0 && ReplyOf(s, s.current) == t
    requires SenderWaits(s, e) && StateOf(s, Queue(s, e)[0]) == BlockedCall
    ensures Lost(s, Recv(e), DoRecv(s, e), s.current, t)
  {
    hide Inv;
    Facts(s, {}, false);
    RightFacts(s, {}, false, s.current);
    HeadFacts(s, {}, false, e);
  }

  lemma CallLoses(s: Sys, e: Ptr, t: Ptr)
    requires Safe(s) && !s.halted && e in s.eps && ReceiverWaits(s, e)
    requires t != 0 && ReplyOf(s, Queue(s, e)[0]) == t
    ensures Lost(s, Call(e), DoCall(s, e), Queue(s, e)[0], t)
  {
    hide Inv;
    var rcv := Queue(s, e)[0];
    Facts(s, {}, false);
    HeadFacts(s, {}, false, e);
    RightFacts(s, {}, false, rcv);
    SwitchEffect(CallNow(s, e));
    hide SwitchNext;
    assert Spared(CallNow(s, e), SwitchNext(CallNow(s, e)), t);
  }

  lemma ReplyAnswers(s: Sys, e: Ptr, t: Ptr)
    requires Safe(s) && !s.halted && e in s.eps && t != 0 && ReplyOf(s, s.current) == t
    ensures Answered(s, ReplyRecv(e), DoRecv(Reply(s), e), s.current, t)
  {
    hide Inv, DoRecv;
    Facts(s, {}, false);
    RightFacts(s, {}, false, s.current);
    ReplySafe(s);
    var s1 := Reply(s);
    assert StateOf(s1, t) == Ready && CtxOf(s1, t) == Deliver(CtxOf(s, s.current), CtxOf(s, t));
    assert s1.current == s.current && s1.eps == s.eps && ReplyOf(s1, s.current) == 0;
    hide Reply;
    RecvEffect(s1, e);
    HeadFacts(s1, {}, false, e);
    assert t !in Touched(s1, Recv(e));
    assert Spared(s1, DoRecv(s1, e), t);
  }

  /** A reply right stays with its holder unless the entry wakes the caller. */
  lemma RightKept(s: Sys, ev: Event, h: Ptr, t: Ptr)
    requires Safe(s) && Enabled(s, ev) && Holds(s.replyTo, h, t) && t !in Touched(s, ev)
    ensures Holds(Next(s, ev).replyTo, h, t)
  {
    hide Inv, Block, SwitchNext, Rotate, DoConfigure, AbortReply, Reply;
    Facts(s, {}, false);
    HolderKnown(s, h);
    match ev
    case Kill =>
      AbortRights(s, s.current);
      SwitchEffect(SetState(AbortReply(s, s.current), s.current, Dead));
    case Send(e) => BlockRights(s, e, BlockedSend);
    case Recv(e) => RecvRights(s, e, h, t);
    case ReplyRecv(e) =>
      ReplyRights(s);
      ReplyLeavesQueue(s, e);
      RecvRights(Reply(s), e, h, t);
    case Call(e) =>
      if ReceiverWaits(s, e) {
        var rcv := Queue(s, e)[0];
        AbortRights(SetCtx(PopEp(s, e), rcv, Deliver(CtxOf(s, s.current), CtxOf(s, rcv))), rcv);
        SwitchEffect(CallNow(s, e));
        assert h != rcv by {
          assert forall x :: x in OneOrNone(ReplyOf(s, rcv)) ==> x in Woken(s, ev);
        }
      } else {
        BlockRights(s, e, BlockedCall);
      }
    case Tick => RotateRights(s);
    case Yield => RotateRights(SetX0(s, s.current, 0));
    case Configure(u, entry, stack, root) => ConfigureRights(s, u, entry, stack, root);
    case _ =>
  }

  lemma HolderKnown(s: Sys, h: Ptr)
    requires Safe(s) && h in s.replyTo
    ensures h in s.state
  {
    hide RunnersOk, QueuesOk, RightsOk;
  }

  lemma AbortRights(s: Sys, h: Ptr)
    ensures ReplyOf(s, h) == 0 ==> AbortReply(s, h).replyTo == s.replyTo
    ensures ReplyOf(s, h) != 0 ==> AbortReply(s, h).replyTo == s.replyTo[h := 0]
    ensures AbortReply(s, h).current == s.current
  {
  }

  lemma ReplyRights(s: Sys)
    ensures ReplyOf(s, s.current) == 0 ==> Reply(s).replyTo == s.replyTo
    ensures ReplyOf(s, s.current) != 0 ==> Reply(s).replyTo == s.replyTo[s.current := 0]
    ensures Reply(s).current == s.current
  {
  }

  lemma BlockRights(s: Sys, e: Ptr, st: TaskState)
    ensures Block(s, e, st).replyTo == s.replyTo
  {
    SwitchEffect(PushEp(SetState(s, s.current, st), e, s.current));
  }

  lemma RotateRights(s: Sys)
    ensures Rotate(s).replyTo == s.replyTo
  {
  }

  lemma ConfigureRights(s: Sys, u: Ptr, entry: Word, stack: Word, root: Word)
    ensures DoConfigure(s, u, entry, stack, root).replyTo == s.replyTo
  {
  }

  lemma RecvRights(s: Sys, e: Ptr, h: Ptr, t: Ptr)
    requires Holds(s.replyTo, h, t)
    requires SenderWaits(s, e) && StateOf(s, Queue(s, e)[0]) == BlockedCall ==> h != s.current
    ensures Holds(DoRecv(s, e).replyTo, h, t)
  {
    hide Block, SwitchNext, AbortReply;
    if SenderWaits(s, e) {
      AbortRights(SetCtx(PopEp(s, e), s.current, Deliver(CtxOf(s, Queue(s, e)[0]), CtxOf(s, s.current))), s.current);
    } else {
      BlockRights(s, e, BlockedRecv);
    }
  }

  lemma HeldCallStep(s: Sys, ev: Event, t: Ptr)
    requires Safe(s) && Enabled(s, ev) && t in s.state && s.state[t] == BlockedReply
    ensures var s' := Next(s, ev);
            || (SameTcb(s, s', t) && forall h :: Holds(s.replyTo, h, t) ==> Holds(s'.replyTo, h, t))
            || exists h :: Answered(s, ev, s', h, t) || Lost(s, ev, s', h, t)
  {
    hide Inv, DoSend, DoRecv, DoCall, DoKill, Reply, Rotate, DoConfigure, DoResume, Answered, Lost;
    Facts(s, {}, false);
    if t in Touched(s, ev) {
      WokenCaller(s, ev, t);
      match ev
      case Kill => KillLoses(s, t);
      case Recv(e) => RecvLoses(s, e, t);
      case Call(e) => CallLoses(s, e, t);
      case ReplyRecv(e) => ReplyAnswers(s, e, t);
    } else {
      NextEffect(s, ev);
      PlaceFacts(s, t);
      hide Next;
      assert Spared(s, Next(s, ev), t);
      assert forall x :: x in s.ready + Woken(s, ev) ==> x in s.ready || x in Touched(s, ev);
      assert SameTcb(s, Next(s, ev), t);
      forall h | Holds(s.replyTo, h, t)
        ensures Holds(Next(s, ev).replyTo, h, t)
      {
        RightKept(s, ev, h, t);
      }
    }
  }

  lemma QueuedCallStep(s: Sys, ev: Event, t: Ptr)
    requires Safe(s) && Enabled(s, ev) && t in s.state && s.state[t] == BlockedCall
    ensures var s' := Next(s, ev);
            || SameTcb(s, s', t)
            || (CtxOf(s', t) == CtxOf(s, t) && TakesCall(s, ev, s', s.current, t))
  {
    hide Inv, DoSend, DoRecv, DoCall, DoKill, Reply, Rotate, DoConfigure, DoResume;
    Facts(s, {}, false);
    PlaceFacts(s, t);
    var e :| e in s.eps && t in s.eps[e];
    var i :| 0 <= i < |s.eps[e]| && s.eps[e][i] == t;
    if Takes(s, ev, e) && i == 0 {
      match ev
      case Recv(_) => ReceivedWords(s, e);
      case ReplyRecv(_) =>
        ReplyLeavesQueue(s, e);
        ReplyKeeps(s);
        ReplySafe(s);
        assert SameTcb(s, Reply(s), t);
        ReceivedWords(Reply(s), e);
    } else {
      hide Next;
      WaiterSpared(s, ev, e, i);
    }
  }

  /** One entry and one unfinished CALL: it stays as it is, moves on to its receiver, or completes. */
  lemma CallStep(s: Sys, ev: Event, t: Ptr)
    requires Safe(s) && Enabled(s, ev) && t in s.state && InCall(s, t)
    ensures var s' := Next(s, ev);
            || (SameTcb(s, s', t) && (s.state[t] == BlockedReply ==>
                  forall h :: Holds(s.replyTo, h, t) ==> Holds(s'.replyTo, h, t)))
            || (s.state[t] == BlockedCall && CtxOf(s', t) == CtxOf(s, t) && TakesCall(s, ev, s', s.current, t))
            || (s.state[t] == BlockedReply && exists h :: Answered(s, ev, s', h, t) || Lost(s, ev, s', h, t))
  {
    hide Inv, Next, Answered, Lost;
    if s.state[t] == BlockedCall {
      QueuedCallStep(s, ev, t);
    } else {
      HeldCallStep(s, ev, t);
    }
  }

  // ---------------------------------------------------------------- over a run

  /** The CALL task `t` made at entry `i` is unfinished in every state up to `j`. */
  ghost predicate OpenCall(ss: seq<Sys>, evs: seq<Event>, i: nat, j: nat, t: Ptr) {
    && IsRun(ss, evs) && i < j <= |evs|
    && evs[i].Call? && t == ss[i].current
    && forall k :: i < k <= j ==> InCall(ss[k], t)
  }

  /** Task `h` received the words of the CALL when state `d` was reached, and has held the right ever since. */
  ghost predicate Custody(ss: seq<Sys>, i: nat, d: nat, j: nat, h: Ptr, t: Ptr)
    requires i < |ss| && j < |ss|
  {
    && i < d <= j
    && CtxOf(ss[d], h).mr == CtxOf(ss[i], t).mr && CtxOf(ss[d], h).x0 == 0
    && (d == i + 1 || StateOf(ss[d - 1], t) == BlockedCall)
    && forall k :: d <= k <= j ==> Holds(ss[k].replyTo, h, t)
  }

  lemma AcceptedCall(s: Sys, e: Ptr)
    requires Safe(s) && !s.halted && e in s.eps && InCall(Next(s, Call(e)), s.current)
    ensures var s', t := Next(s, Call(e)), s.current;
            && CtxOf(s', t) == CtxOf(s, t)
            && (StateOf(s', t) == BlockedCall || exists h :: TakesCall(s, Call(e), s', h, t))
  {
    hide Inv, DoSend, DoRecv, DoKill, Reply, Rotate, DoConfigure, DoResume;
    var t := s.current;
    Facts(s, {}, false);
    if ReceiverWaits(s, e) {
      CallTaken(s, e);
    } else if WillBlock(s) {
      JoinState(s, Call(e), e);
    } else {
      hide CallNow, Block;
    }
  }

  lemma CallTaken(s: Sys, e: Ptr)
    requires Safe(s) && !s.halted && e in s.eps && ReceiverWaits(s, e)
    ensures TakesCall(s, Call(e), DoCall(s, e), Queue(s, e)[0], s.current)
    ensures CtxOf(DoCall(s, e), s.current) == CtxOf(s, s.current)
  {
    hide Inv, SwitchNext, AbortReply;
    var rcv, t := Queue(s, e)[0], s.current;
    Facts(s, {}, false);
    HeadFacts(s, {}, false, e);
    RightFacts(s, {}, false, rcv);
    var s1 := SetCtx(PopEp(s, e), rcv, Deliver(CtxOf(s, t), CtxOf(s, rcv)));
    AbortWords(s1, rcv, rcv);
    AbortWords(s1, rcv, t);
    CallNowSafe(s, e);
    SwitchEffect(CallNow(s, e));
    ReadyFacts(CallNow(s, e), {}, true);
    assert Spared(CallNow(s, e), SwitchNext(CallNow(s, e)), t);
  }

  lemma {:induction false} OpenCallFacts(ss: seq<Sys>, evs: seq<Event>, i: nat, j: nat, t: Ptr)
    requires OpenCall(ss, evs, i, j, t)
    ensures CtxOf(ss[j], t) == CtxOf(ss[i], t)
    ensures StateOf(ss[j], t) == BlockedCall || exists d, h :: Custody(ss, i, d, j, h, t)
    decreases j
  {
    hide Inv, Next, Answered, Lost;
    RunSafe(ss, evs, j - 1);
    if j == i + 1 {
      assert InCall(ss[i + 1], t) && ss[i + 1] == Next(ss[i], evs[i]) && evs[i] == Call(evs[i].e);
      AcceptedCall(ss[i], evs[i].e);
      if StateOf(ss[j], t) != BlockedCall {
        var h :| TakesCall(ss[i], evs[i], ss[j], h, t);
        assert Custody(ss, i, j, j, h, t);
      }
    } else {
      OpenCallFacts(ss, evs, i, j - 1, t);
      CallStep(ss[j - 1], evs[j - 1], t);
      NotFinished(ss[j - 1], evs[j - 1], ss[j], t);
      if StateOf(ss[j - 1], t) == BlockedReply {
        var d, h :| Custody(ss, i, d, j - 1, h, t);
        assert Custody(ss, i, d, j, h, t);
      } else if StateOf(ss[j], t) != BlockedCall {
        assert Custody(ss, i, j, j, ss[j - 1].current, t);
      }
    }
  }

  lemma NotFinished(s: Sys, ev: Event, s': Sys, t: Ptr)
    ensures forall h :: Answered(s, ev, s', h, t) || Lost(s, ev, s', h, t) ==> !InCall(s', t) && Holds(s.replyTo, h, t)
  {
  }

  /**
    A CALL completes at most once.  Until it does, no entry alters the caller's registers; when it
    does, it is the task that received the words of this very CALL, and has held the right without
    a break, that either replies (x0 = 0 and exactly its words) or is killed or takes a newer CALL
    (x0 = NO_REPLY and nothing else).
  */
  lemma CallCompletesOnce(ss: seq<Sys>, evs: seq<Event>, i: nat, j: nat, t: Ptr)
    requires OpenCall(ss, evs, i, j, t) && j < |evs| && !InCall(ss[j + 1], t)
    ensures forall k :: i < k <= j ==> CtxOf(ss[k], t) == CtxOf(ss[i], t)
    ensures exists d, h :: Custody(ss, i, d, j, h, t)
              && (Answered(ss[j], evs[j], ss[j + 1], h, t) || Lost(ss[j], evs[j], ss[j + 1], h, t))
  {
    hide Inv, Next, Answered, Lost;
    forall k | i < k <= j
      ensures CtxOf(ss[k], t) == CtxOf(ss[i], t)
    {
      OpenCallFacts(ss, evs, i, k, t);
    }
    OpenCallFacts(ss, evs, i, j, t);
    RunSafe(ss, evs, j);
    CallStep(ss[j], evs[j], t);
    NotFinished(ss[j], evs[j], ss[j + 1], t);
    var g :| Answered(ss[j], evs[j], ss[j + 1], g, t) || Lost(ss[j], evs[j], ss[j + 1], g, t);
    var d, h :| Custody(ss, i, d, j, h, t);
    assert Holds(ss[j].replyTo, h, t);
    PlaceFacts(ss[j], t);
    assert g == h;
  }

  /** The entries that release the caller of `h`: `h` replies, dies or takes another CALL. */
  predicate Completes(s: Sys, ev: Event, h: Ptr) {
    match ev
    case Kill => s.current == h
    case ReplyRecv(_) => s.current == h
    case Recv(e) => s.current == h && SenderWaits(s, e) && StateOf(s, Queue(s, e)[0]) == BlockedCall
    case Call(e) => ReceiverWaits(s, e) && Queue(s, e)[0] == h
    case _ => false
  }

  lemma TouchedCaller(s: Sys, ev: Event, h: Ptr, t: Ptr)
    requires Safe(s) && Enabled(s, ev) && Holds(s.replyTo, h, t) && t in s.state && s.state[t] == BlockedReply
    ensures t in Touched(s, ev) <==> Completes(s, ev, h)
  {
    hide Inv;
    Facts(s, {}, false);
    PlaceFacts(s, t);
    OnlyHolder(s, h, t, s.current);
    match ev
    case Send(e) => HeadFacts(s, {}, false, e);
    case Recv(e) => HeadFacts(s, {}, false, e);
    case ReplyRecv(e) => HeadFacts(s, {}, false, e);
    case Call(e) =>
      HeadFacts(s, {}, false, e);
      if ReceiverWaits(s, e) {
        OnlyHolder(s, h, t, Queue(s, e)[0]);
      }
    case _ =>
  }

  lemma OnlyHolder(s: Sys, h: Ptr, t: Ptr, g: Ptr)
    requires Safe(s) && Holds(s.replyTo, h, t) && t in s.state && g in s.state
    ensures ReplyOf(s, g) == t <==> g == h
  {
    hide Inv;
    PlaceFacts(s, t);
    RightFacts(s, {}, s.halted, g);
  }

  /** A delivered CALL ends at an entry if and only if that entry is one of the completing ones. */
  lemma CompletesExactly(s: Sys, ev: Event, h: Ptr, t: Ptr)
    requires Safe(s) && Enabled(s, ev) && Holds(s.replyTo, h, t) && t in s.state && s.state[t] == BlockedReply
    ensures !InCall(Next(s, ev), t) <==> Completes(s, ev, h)
  {
    hide Inv, Next, Completes;
    TouchedCaller(s, ev, h, t);
    if t in Touched(s, ev) {
      TouchedEnds(s, ev, t);
    } else {
      CallStep(s, ev, t);
      NextEffect(s, ev);
      PlaceFacts(s, t);
      assert Spared(s, Next(s, ev), t);
      assert forall x :: x in s.ready + Woken(s, ev) ==> x in s.ready || x in Touched(s, ev);
    }
  }

  lemma TouchedEnds(s: Sys, ev: Event, t: Ptr)
    requires Safe(s) && Enabled(s, ev) && t in s.state && s.state[t] == BlockedReply && t in Touched(s, ev)
    ensures !InCall(Next(s, ev), t)
  {
    hide Inv, DoSend, DoRecv, DoCall, DoKill, Reply, Rotate, DoConfigure, DoResume, Answered, Lost;
    Facts(s, {}, false);
    WokenCaller(s, ev, t);
    match ev {
      case Kill => KillLoses(s, t);
      case Recv(e) => RecvLoses(s, e, t);
      case Call(e) => CallLoses(s, e, t);
      case ReplyRecv(e) => ReplyAnswers(s, e, t);
    }
    hide Next;
    NotFinished(s, ev, Next(s, ev), t);
  }
}
