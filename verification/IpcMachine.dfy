/**
  The scheduler and the IPC handlers as the kernel runs them: queues are linked through one `next`
  field per TCB, which the ready queue and every endpoint queue share, and no queue knows its length.
  Each method is proved to be the corresponding step on sequences (modules `Tasks` and `Ipc`).
*/
module IpcMachine {
  import opened Abi
  import opened Tasks
  import opened Ipc

  datatype Endpoint = Endpoint(head: Ptr, tail: Ptr)

  /** The TCBs of `q`, in order, are chained by `next` from `head` to `tail`. */
  ghost predicate Linked(next: map<Ptr, Ptr>, head: Ptr, tail: Ptr, q: seq<Ptr>) {
    && (forall i :: 0 <= i < |q| ==> q[i] != 0 && q[i] in next)
    && (forall i :: 0 <= i < |q| - 1 ==> next[q[i]] == q[i + 1])
    && (if q == [] then head == 0 && tail == 0 else head == q[0] && tail == q[|q| - 1] && next[tail] == 0)
  }

  ghost predicate AllLinked(next: map<Ptr, Ptr>, eps: map<Ptr, Endpoint>, queues: map<Ptr, seq<Ptr>>) {
    eps.Keys == queues.Keys && forall e :: e in eps ==> Linked(next, eps[e].head, eps[e].tail, queues[e])
  }

  /** A TCB outside every queue has a null link. */
  ghost predicate LooseEnds(next: map<Ptr, Ptr>, ready: seq<Ptr>, queues: map<Ptr, seq<Ptr>>) {
    forall t :: t in next && t !in ready && !Queued(queues, t) ==> next[t] == 0
  }

  /** The shared `next` field represents the ready queue and all endpoint queues at once. */
  ghost predicate Represents(next: map<Ptr, Ptr>, head: Ptr, tail: Ptr, eps: map<Ptr, Endpoint>,
                             ready: seq<Ptr>, queues: map<Ptr, seq<Ptr>>) {
    && Linked(next, head, tail, ready)
    && AllLinked(next, eps, queues)
    && LooseEnds(next, ready, queues)
  }

  /** No TCB is in two queues or twice in one. */
  ghost predicate Apart(ready: seq<Ptr>, queues: map<Ptr, seq<Ptr>>) {
    && NoDup(ready)
    && (forall e :: e in queues ==> NoDup(queues[e]))
    && (forall e, t :: e in queues && t in queues[e] ==> t !in ready)
    && (forall e, f, t :: e in queues && f in queues && t in queues[e] && t in queues[f] ==> e == f)
  }

  /** The global invariant gives the linked code the separation it relies on and never checks. */
  lemma InvApart(s: Sys, limbo: set<Ptr>, idle: bool)
    requires Inv(s, limbo, idle)
    ensures Apart(s.ready, s.eps) && 0 !in s.state
    ensures forall t :: t in limbo ==> t !in s.ready && !Queued(s.eps, t)
  {
    hide RunnersOk, QueuesOk, RightsOk;
    ApartOf(s.state, s.ready, s.current, s.eps, limbo, idle);
  }

  lemma ApartOf(state: States, ready: seq<Ptr>, current: Ptr, eps: map<Ptr, seq<Ptr>>, limbo: set<Ptr>, idle: bool)
    requires RunnersOk(state, ready, current, limbo, idle) && QueuesOk(state, eps, limbo)
    ensures Apart(ready, eps)
    ensures forall t :: t in limbo ==> t !in ready && !Queued(eps, t)
  {
  }

  lemma RunnableHead(s: Sys, idle: bool)
    requires Inv(s, {}, idle)
    ensures s.ready != [] ==> s.ready[0] in s.state && s.ready[0] in s.ttbr0
  {
    hide Inv;
    ReadyFacts(s, {}, idle);
    if s.ready != [] {
      SpaceFacts(s, {}, idle, s.ready[0]);
    }
  }

  /** A task without a right can be retired. */
  lemma Retired(s: Sys)
    requires Safe(s) && !s.halted && ReplyOf(s, s.current) == 0
    ensures Safe(SwitchNext(SetState(s, s.current, Dead)))
  {
    hide Inv;
    var cur := s.current;
    Facts(s, {}, false);
    TakeCurrent(s, {});
    assert {} + {cur} == {cur};
    KeepState(s, {cur}, true, cur, Dead);
    LeaveTransit(SetState(s, cur, Dead), true, cur);
    Switched(SetState(s, cur, Dead));
  }

  // ---------------------------------------------------------------- append and remove on links

  lemma LinkedAppend(next: map<Ptr, Ptr>, head: Ptr, tail: Ptr, q: seq<Ptr>, t: Ptr)
    requires Linked(next, head, tail, q) && NoDup(q) && t !in q && t != 0 && t in next
    ensures tail == 0 <==> q == []
    ensures tail != 0 ==> tail in next && tail in q
    ensures tail == 0 ==> Linked(next[t := 0], t, t, q + [t])
    ensures tail != 0 ==> Linked(next[t := 0][tail := t], head, t, q + [t])
  {
  }

  lemma LinkedHead(next: map<Ptr, Ptr>, head: Ptr, tail: Ptr, q: seq<Ptr>)
    requires Linked(next, head, tail, q)
    ensures head == 0 <==> q == []
    ensures tail == 0 <==> q == []
    ensures q != [] ==> head == q[0] && tail in q && tail in next
  {
  }

  lemma LinkedRemove(next: map<Ptr, Ptr>, head: Ptr, tail: Ptr, q: seq<Ptr>)
    requires Linked(next, head, tail, q) && NoDup(q) && q != []
    ensures head != 0 && head == q[0] && head in next
    ensures Linked(next[head := 0], next[head], if next[head] == 0 then 0 else tail, q[1..])
  {
    if |q| == 1 {
      assert tail == head;
    } else {
      assert next[q[0]] == q[1] && q[1] != 0;
    }
  }

  /** Links of one queue do not depend on TCBs outside it. */
  lemma LinkedFrame(next: map<Ptr, Ptr>, next': map<Ptr, Ptr>, head: Ptr, tail: Ptr, q: seq<Ptr>)
    requires Linked(next, head, tail, q)
    requires next.Keys <= next'.Keys && forall t :: t in q && t in next ==> next'[t] == next[t]
    ensures Linked(next', head, tail, q)
  {
    assert q != [] ==> tail in q;
    forall i | 0 <= i < |q|
      ensures q[i] in next' && next'[q[i]] == next[q[i]]
    {
      assert q[i] in q;
    }
  }

  /** All endpoint queues survive a change to links of TCBs outside them. */
  lemma AllLinkedFrame(next: map<Ptr, Ptr>, next': map<Ptr, Ptr>, eps: map<Ptr, Endpoint>,
                       queues: map<Ptr, seq<Ptr>>, touched: set<Ptr>)
    requires AllLinked(next, eps, queues) && next.Keys <= next'.Keys
    requires forall t :: t in next && t !in touched ==> next'[t] == next[t]
    requires forall e, t :: e in queues && t in queues[e] ==> t !in touched
    ensures AllLinked(next', eps, queues)
  {
    forall e | e in eps
      ensures Linked(next', eps[e].head, eps[e].tail, queues[e])
    {
      LinkedFrame(next, next', eps[e].head, eps[e].tail, queues[e]);
    }
  }

  lemma ReadyPush(next: map<Ptr, Ptr>, head: Ptr, tail: Ptr, eps: map<Ptr, Endpoint>,
                  ready: seq<Ptr>, queues: map<Ptr, seq<Ptr>>, t: Ptr)
    requires Represents(next, head, tail, eps, ready, queues) && Apart(ready, queues)
    requires t in next && t != 0 && t !in ready && !Queued(queues, t)
    ensures tail == 0 ==> Represents(next[t := 0], t, t, eps, ready + [t], queues)
    ensures tail != 0 ==> Represents(next[t := 0][tail := t], head, t, eps, ready + [t], queues)
    ensures tail != 0 ==> tail in next
  {
    hide Linked, AllLinked;
    LinkedAppend(next, head, tail, ready, t);
    var next' := if tail == 0 then next[t := 0] else next[t := 0][tail := t];
    AllLinkedFrame(next, next', eps, queues, if tail == 0 then {t} else {t, tail});
    assert (ready + [t])[|ready|] == t;
  }

  lemma ReadyPop(next: map<Ptr, Ptr>, head: Ptr, tail: Ptr, eps: map<Ptr, Endpoint>,
                 ready: seq<Ptr>, queues: map<Ptr, seq<Ptr>>)
    requires Represents(next, head, tail, eps, ready, queues) && Apart(ready, queues)
    ensures head == 0 <==> ready == []
    ensures head != 0 ==> head == ready[0] && head in next
    ensures head != 0 ==>
              Represents(next[head := 0], next[head], if next[head] == 0 then 0 else tail, eps, ready[1..], queues)
  {
    hide Linked, AllLinked;
    LinkedHead(next, head, tail, ready);
    if ready != [] {
      LinkedRemove(next, head, tail, ready);
      assert head in ready;
      AllLinkedFrame(next, next[head := 0], eps, queues, {head});
      assert ready == [head] + ready[1..];
    }
  }

  lemma EndpointPush(next: map<Ptr, Ptr>, head: Ptr, tail: Ptr, eps: map<Ptr, Endpoint>,
                     ready: seq<Ptr>, queues: map<Ptr, seq<Ptr>>, e: Ptr, t: Ptr)
    requires Represents(next, head, tail, eps, ready, queues) && Apart(ready, queues) && e in eps
    requires t in next && t != 0 && t !in ready && !Queued(queues, t)
    ensures var queues' := queues[e := queues[e] + [t]]; var last := eps[e].tail;
            if last == 0
            then Represents(next[t := 0], head, tail, eps[e := Endpoint(t, t)], ready, queues')
            else last in next
                 && Represents(next[t := 0][last := t], head, tail, eps[e := Endpoint(eps[e].head, t)], ready, queues')
  {
    hide Linked;
    var last := eps[e].tail;
    var next' := if last == 0 then next[t := 0] else next[t := 0][last := t];
    var eps' := eps[e := Endpoint(if last == 0 then t else eps[e].head, t)];
    var queues' := queues[e := queues[e] + [t]];
    assert t !in queues[e];
    LinkedAppend(next, eps[e].head, last, queues[e], t);
    OtherQueues(next, next', eps, queues, e, t);
    AllLinkedPut(next', eps, queues, e, eps'[e], queues'[e]);
    LinkedFrame(next, next', head, tail, ready);
    QueuedAfterAppend(queues, e, t);
    assert LooseEnds(next', ready, queues');
  }

  lemma EndpointPop(next: map<Ptr, Ptr>, head: Ptr, tail: Ptr, eps: map<Ptr, Endpoint>,
                    ready: seq<Ptr>, queues: map<Ptr, seq<Ptr>>, e: Ptr)
    requires Represents(next, head, tail, eps, ready, queues) && Apart(ready, queues)
    requires e in eps && queues[e] != []
    ensures var h := eps[e].head;
            && h == queues[e][0] && h != 0 && h in next
            && Represents(next[h := 0], head, tail,
                          eps[e := Endpoint(next[h], if next[h] == 0 then 0 else eps[e].tail)],
                          ready, queues[e := queues[e][1..]])
  {
    hide Linked;
    var h := eps[e].head;
    LinkedRemove(next, h, eps[e].tail, queues[e]);
    var next' := next[h := 0];
    var eps' := eps[e := Endpoint(next[h], if next[h] == 0 then 0 else eps[e].tail)];
    var queues' := queues[e := queues[e][1..]];
    assert h in queues[e];
    OtherQueues(next, next', eps, queues, e, h);
    AllLinkedPut(next', eps, queues, e, eps'[e], queues'[e]);
    LinkedFrame(next, next', head, tail, ready);
    QueuedAfterRemove(queues, e);
    assert LooseEnds(next', ready, queues');
  }

  /** Changing links of TCBs that only `e` may hold leaves the other endpoint queues linked. */
  lemma OtherQueues(next: map<Ptr, Ptr>, next': map<Ptr, Ptr>, eps: map<Ptr, Endpoint>,
                    queues: map<Ptr, seq<Ptr>>, e: Ptr, t: Ptr)
    requires AllLinked(next, eps, queues) && next.Keys <= next'.Keys && e in eps
    requires forall f, g, u :: f in queues && g in queues && u in queues[f] && u in queues[g] ==> f == g
    requires forall u :: u in next && u != t && u !in queues[e] ==> next'[u] == next[u]
    requires forall f :: f in queues && f != e ==> t !in queues[f]
    ensures forall f :: f in eps && f != e ==> Linked(next', eps[f].head, eps[f].tail, queues[f])
  {
    forall f | f in eps && f != e
      ensures Linked(next', eps[f].head, eps[f].tail, queues[f])
    {
      LinkedFrame(next, next', eps[f].head, eps[f].tail, queues[f]);
    }
  }

  lemma AllLinkedPut(next: map<Ptr, Ptr>, eps: map<Ptr, Endpoint>, queues: map<Ptr, seq<Ptr>>,
                     e: Ptr, ep: Endpoint, q: seq<Ptr>)
    requires eps.Keys == queues.Keys && Linked(next, ep.head, ep.tail, q)
    requires forall f :: f in eps && f != e ==> Linked(next, eps[f].head, eps[f].tail, queues[f])
    ensures AllLinked(next, eps[e := ep], queues[e := q])
  {
  }

  lemma QueuedAfterAppend(queues: map<Ptr, seq<Ptr>>, e: Ptr, t: Ptr)
    requires e in queues
    ensures forall u :: Queued(queues, u) || u == t ==> Queued(queues[e := queues[e] + [t]], u)
  {
    var queues' := queues[e := queues[e] + [t]];
    assert queues'[e][|queues[e]|] == t;
    assert t in queues'[e];
    forall u | Queued(queues, u)
      ensures Queued(queues', u)
    {
      var f :| f in queues && u in queues[f];
      assert u in queues'[f];
    }
  }

  lemma QueuedAfterRemove(queues: map<Ptr, seq<Ptr>>, e: Ptr)
    requires e in queues && queues[e] != []
    ensures forall u :: u != queues[e][0] && Queued(queues, u) ==> Queued(queues[e := queues[e][1..]], u)
  {
    var t, queues' := queues[e][0], queues[e := queues[e][1..]];
    assert queues[e] == [t] + queues'[e];
    forall u | u != t && Queued(queues, u)
      ensures Queued(queues', u)
    {
      var f :| f in queues && u in queues[f];
      assert u in queues'[f];
    }
  }

  class Machine {
    // TCB memory, one map per field.
    var state: map<Ptr, TaskState>
    var replyTo: map<Ptr, Ptr>
    var ctx: map<Ptr, Context>
    var ttbr0: map<Ptr, Word>
    var next: map<Ptr, Ptr>
    // Endpoint memory.
    var eps: map<Ptr, Endpoint>
    // The scheduler's own three words.
    var current: Ptr
    var head: Ptr
    var tail: Ptr
    // The root table in TTBR0.
    var space: Word
    // Set when a handler reports that nothing is ready and the kernel parks.
    var halted: bool

    // The queues as sequences.
    ghost var ready: seq<Ptr>
    ghost var queues: map<Ptr, seq<Ptr>>

    ghost function View(): Sys
      reads this
    {
      Sys(state, replyTo, ctx, ttbr0, queues, ready, current, halted)
    }

    /** The words in memory hold the queues, and the processor translates for the current task. */
    ghost predicate Links()
      reads this
    {
      && next.Keys == state.Keys && Represents(next, head, tail, eps, ready, queues)
      && current in ttbr0 && space == ttbr0[current]
    }

    ghost predicate Valid()
      reads this
    {
      Links() && Safe(View())
    }

    /** `handoff`: the root task becomes the first Running task. */
    constructor (root: Ptr, entry: Context, rootPa: Word)
      requires root != 0
      ensures Valid() && !halted && View() == Handoff(root, entry, rootPa)
    {
      state, replyTo, ctx, ttbr0, next :=
        map[root := Running], map[root := 0], map[root := entry], map[root := rootPa], map[root := 0];
      eps, current, head, tail, space, halted := map[], root, 0, 0, rootPa, false;
      ready, queues := [], map[];
      new;
      HandoffSafe(root, entry, rootPa);
    }

    // ---------------------------------------------------------------- k0-sched

    method Push(t: Ptr, ghost limbo: set<Ptr>, ghost idle: bool)
      requires Links() && Inv(View(), limbo, idle) && t in limbo && t in state
      modifies this
      ensures Links() && View() == Enqueue(old(View()), t) && eps == old(eps)
    {
      hide Inv, Represents, Apart;
      InvApart(View(), limbo, idle);
      ReadyPush(next, head, tail, eps, ready, queues, t);
      state := state[t := Ready];
      next := next[t := 0];
      if tail == 0 {
        head := t;
      } else {
        next := next[tail := t];
      }
      tail := t;
      ready := ready + [t];
    }

    method Pop() returns (t: Ptr)
      requires Links() && Apart(ready, queues)
      modifies this
      ensures Links() && eps == old(eps)
      ensures old(ready) == [] ==> t == 0 && View() == old(View())
      ensures old(ready) != [] ==> t == old(ready)[0] && t != 0 && View() == PopReady(old(View()))
    {
      hide Represents, Apart;
      ReadyPop(next, head, tail, eps, ready, queues);
      t := head;
      if t == 0 {
        return;
      }
      head := next[t];
      next := next[t := 0];
      if head == 0 {
        tail := 0;
      }
      ready := ready[1..];
    }

    /** The address space is replaced, and the TLB flushed with it, only if it differs. */
    method SwitchTo(t: Ptr) returns (flushed: bool)
      requires Links() && t in state && t in ttbr0
      modifies this
      ensures Links() && View() == RunTask(old(View()), t) && eps == old(eps)
      ensures space == ttbr0[t] && (flushed <==> ttbr0[t] != old(ttbr0[current]))
    {
      state := state[t := Running];
      current := t;
      flushed := ttbr0[t] != space;
      if flushed {
        space := ttbr0[t];
      }
    }

    method RotateTasks()
      requires Valid() && !halted
      modifies this
      ensures Valid() && View() == Rotate(old(View())) && eps == old(eps)
    {
      hide Inv;
      ghost var s := View();
      RotateSafe(s);
      Facts(s, {}, false);
      ReadyFacts(s, {}, false);
      InvApart(s, {}, false);
      var t := Pop();
      if t == 0 {
        return;
      }
      SpaceFacts(s, {}, false, t);
      var cur := current;
      TakeReady(s, {}, false);
      TakeCurrent(PopReady(s), {} + {t});
      Push(cur, {} + {t} + {cur}, true);
      var _ := SwitchTo(t);
    }

    /** Run the head of the line, or report that there is none. */
    method RunHead() returns (ok: bool)
      requires Links() && Apart(ready, queues) && !halted
      requires ready != [] ==> ready[0] in state && ready[0] in ttbr0
      modifies this
      ensures Links() && View() == SwitchNext(old(View())) && eps == old(eps)
      ensures ok <==> old(ready) != []
      ensures ok == !halted
    {
      hide Apart, Represents;
      var t := Pop();
      if t == 0 {
        halted := true;
        return false;
      }
      var _ := SwitchTo(t);
      ok := true;
    }

    /** Whether a task was ready; if none was, the caller parks. */
    method BlockAndSwitch() returns (ok: bool)
      requires Links() && Inv(View(), {}, true) && !halted
      modifies this
      ensures Valid() && View() == SwitchNext(old(View())) && eps == old(eps)
      ensures ok <==> old(ready) != []
      ensures ok == !halted
    {
      hide Inv, Apart, Represents;
      Switched(View());
      InvApart(View(), {}, true);
      RunnableHead(View(), true);
      ok := RunHead();
    }

    /** A task that still holds a right keeps it; the invariant holds afterwards if it held none. */
    method ExitCurrent() returns (ok: bool)
      requires Valid() && !halted
      modifies this
      ensures Links() && View() == SwitchNext(SetState(old(View()), old(current), Dead)) && eps == old(eps)
      ensures ReplyOf(old(View()), old(current)) == 0 ==> Valid()
      ensures ok <==> old(ready) != []
      ensures ok == !halted
    {
      hide Inv, Apart, Represents;
      ghost var s := View();
      Facts(s, {}, false);
      InvApart(s, {}, false);
      RunnableHead(s, false);
      if ReplyOf(s, current) == 0 {
        Retired(s);
      }
      state := state[current := Dead];
      ok := RunHead();
    }

    // ---------------------------------------------------------------- Endpoint::push and Endpoint::pop

    method EpPush(e: Ptr, t: Ptr, ghost limbo: set<Ptr>, ghost idle: bool)
      requires Links() && Inv(View(), limbo, idle) && t in limbo && t in state && e in eps && e in queues
      modifies this
      ensures Links() && View() == PushEp(old(View()), e, t) && eps.Keys == old(eps.Keys)
    {
      hide Inv, Represents, Apart;
      InvApart(View(), limbo, idle);
      EndpointPush(next, head, tail, eps, ready, queues, e, t);
      var ep := eps[e];
      next := next[t := 0];
      if ep.tail == 0 {
        ep := ep.(head := t);
      } else {
        next := next[ep.tail := t];
      }
      eps := eps[e := ep.(tail := t)];
      queues := queues[e := queues[e] + [t]];
    }

    lemma EndpointHead(e: Ptr)
      requires Links() && e in eps
      ensures e in queues
      ensures eps[e].head == 0 <==> queues[e] == []
      ensures queues[e] != [] ==> eps[e].head == queues[e][0]
    {
      LinkedHead(next, eps[e].head, eps[e].tail, queues[e]);
    }

    /** The head word of an endpoint is the first waiting TCB, or 0. */
    lemma HeadWord(e: Ptr)
      requires Valid() && e in eps
      ensures e in queues && Queue(View(), e) == queues[e]
      ensures eps[e].head == 0 <==> queues[e] == []
      ensures queues[e] != [] ==> eps[e].head == queues[e][0]
    {
      hide Inv, Represents;
      EndpointHead(e);
    }

    /** The first waiting TCB, taken off the queue, or 0. */
    method EpPop(e: Ptr, ghost limbo: set<Ptr>, ghost idle: bool) returns (t: Ptr)
      requires Links() && Inv(View(), limbo, idle) && e in eps && e in queues
      modifies this
      ensures Links() && eps.Keys == old(eps.Keys)
      ensures old(queues)[e] == [] ==> t == 0 && View() == old(View()) && eps == old(eps)
      ensures old(queues)[e] != [] ==> t == old(queues)[e][0] && t in state && View() == PopEp(old(View()), e)
    {
      hide Inv, Represents, Apart;
      InvApart(View(), limbo, idle);
      EndpointHead(e);
      var ep := eps[e];
      t := ep.head;
      if t == 0 {
        return;
      }
      EndpointPop(next, head, tail, eps, ready, queues, e);
      ep := ep.(head := next[t]);
      next := next[t := 0];
      if ep.head == 0 {
        ep := ep.(tail := 0);
      }
      eps := eps[e := ep];
      queues := queues[e := queues[e][1..]];
    }

    // ---------------------------------------------------------------- k0-ipc

    /** `abort_reply`: the caller of a right that is lost wakes up with NO_REPLY. */
    method AbortRight(holder: Ptr, ghost limbo: set<Ptr>, ghost idle: bool)
      requires Links() && Inv(View(), limbo, idle) && holder in state
      modifies this
      ensures Links() && View() == AbortReply(old(View()), holder) && eps == old(eps)
      ensures Inv(View(), limbo, idle) && ReplyOf(View(), holder) == 0
    {
      hide Inv, Represents;
      ghost var s := View();
      AbortSafe(s, limbo, idle, holder);
      RightFacts(s, limbo, idle, holder);
      var caller := replyTo[holder];
      replyTo := replyTo[holder := 0];
      if caller == 0 {
        assert replyTo == old(replyTo);
        return;
      }
      TakeReply(s, limbo, idle, holder, caller);
      KeepCtx(SetReply(s, holder, 0), limbo + {caller}, idle, caller, ctx[caller].(x0 := AsWord(NO_REPLY)));
      ctx := ctx[caller := ctx[caller].(x0 := AsWord(NO_REPLY))];
      Push(caller, limbo + {caller}, idle);
    }

    /** Dequeue the head of `e` and copy the message from the current task to it, or the other way. */
    method Exchange(e: Ptr, toPartner: bool) returns (t: Ptr)
      requires Valid() && !halted && e in eps && Queue(View(), e) != []
      modifies this
      ensures Links() && Inv(View(), {t}, false) && eps.Keys == old(eps.Keys) && !halted && t in state
      ensures t == old(Queue(View(), e))[0] && t != current && current == old(current) && current in state
      ensures t in ctx && current in ctx
      ensures old(t in ctx && current in ctx)
      ensures View() == if toPartner then SetCtx(PopEp(old(View()), e), t, Deliver(old(ctx[current]), old(ctx[t])))
                        else SetCtx(PopEp(old(View()), e), current, Deliver(old(ctx[t]), old(ctx[current])))
    {
      hide Inv, Represents;
      ghost var s := View();
      Facts(s, {}, false);
      HeadWord(e);
      HeadFacts(s, {}, false, e);
      TakeEp(s, {}, false, e);
      t := EpPop(e, {}, false);
      assert {} + {t} == {t};
      if toPartner {
        KeepCtx(View(), {t}, false, t, Deliver(ctx[current], ctx[t]));
        ctx := ctx[t := Deliver(ctx[current], ctx[t])];
      } else {
        KeepCtx(View(), {t}, false, current, Deliver(ctx[t], ctx[current]));
        ctx := ctx[current := Deliver(ctx[t], ctx[current])];
      }
    }

    /** Hand the message of the current task to the receiver at the head of `e`. */
    method SendNow(e: Ptr)
      requires Valid() && !halted && e in eps && ReceiverWaits(View(), e)
      modifies this
      ensures Valid() && View() == DoSend(old(View()), e) && eps.Keys == old(eps.Keys)
    {
      hide Inv, Represents, PopEp;
      HeadWord(e);
      SendSafe(View(), e);
      var rcv := Exchange(e, true);
      Push(rcv, {rcv}, false);
      ctx := ctx[current := ctx[current].(x0 := 0)];
    }

    method SendTo(e: Ptr) returns (ok: bool)
      requires Valid() && !halted && e in eps
      modifies this
      ensures Valid() && View() == DoSend(old(View()), e) && eps.Keys == old(eps.Keys) && ok == !halted
    {
      hide Inv, Represents, Block;
      ghost var s := View();
      Facts(s, {}, false);
      HeadWord(e);
      SendSafe(s, e);
      HeadFacts(s, {}, false, e);
      var nonblock := ctx[current].x1 % 2 == 1;
      var h := eps[e].head;
      if h != 0 && state[h] == BlockedRecv {
        SendNow(e);
        return true;
      }
      if nonblock {
        ctx := ctx[current := ctx[current].(x0 := AsWord(WOULD_BLOCK))];
        return true;
      }
      ok := BlockOn(e, BlockedSend);
    }

    method SysSend(ep: Result<Ptr, Word>) returns (ok: bool)
      requires Valid() && !halted && (ep.Ok? ==> ep.value in eps)
      modifies this
      ensures Valid() && eps.Keys == old(eps.Keys) && ok == !halted
      ensures View() == Next(old(View()), if ep.Ok? then Send(ep.value) else Return(ep.error))
    {
      hide Inv, Represents, DoSend;
      if ep.Err? {
        ReturnX0(ep.error);
        return true;
      }
      ok := SendTo(ep.value);
    }

    /** Finish a system call that only returns a code. */
    method ReturnX0(x0: Word)
      requires Valid() && !halted
      modifies this
      ensures Valid() && View() == Next(old(View()), Return(x0)) && eps == old(eps) && !halted
    {
      hide Inv, Represents;
      Facts(View(), {}, false);
      SetX0Safe(View(), x0);
      ctx := ctx[current := ctx[current].(x0 := x0)];
    }

    /** Mark the current task, queue it on `e` and switch away. */
    method BlockOn(e: Ptr, st: TaskState) returns (ok: bool)
      requires Valid() && !halted && e in eps && e in queues && Waiting(st)
      requires queues[e] == [] || (StateOf(View(), queues[e][0]) == BlockedRecv <==> st == BlockedRecv)
      modifies this
      ensures Valid() && View() == Block(old(View()), e, st) && eps.Keys == old(eps.Keys) && ok == !halted
    {
      hide Inv, Represents;
      ghost var s, cur := View(), current;
      Facts(s, {}, false);
      BlockInv(s, e, st);
      state := state[current := st];
      EpPush(e, current, {cur}, true);
      ok := BlockAndSwitch();
    }

    /** The current task takes the reply right of a caller whose message it has just received. */
    method AcceptCall(snd: Ptr)
      requires Links() && Inv(View(), {snd}, false) && snd in state
      modifies this
      ensures Links() && eps == old(eps) && halted == old(halted)
      ensures var s := old(View());
              View() == SetReply(SetState(AbortReply(s, s.current), snd, BlockedReply), s.current, snd)
    {
      hide Inv, Represents, AbortReply;
      Facts(View(), {snd}, false);
      AbortKeeps(View(), {snd}, false, current);
      AbortRight(current, {snd}, false);
      Facts(View(), {snd}, false);
      state := state[snd := BlockedReply];
      replyTo := replyTo[current := snd];
    }

    /** Take the message of the sender at the head of `e`. */
    method ReceiveNow(e: Ptr)
      requires Valid() && !halted && e in eps && SenderWaits(View(), e)
      modifies this
      ensures Valid() && View() == Receive(old(View()), e) && eps.Keys == old(eps.Keys) && !halted
    {
      hide Inv, Represents, PopEp, AbortReply;
      HeadWord(e);
      ReceiveSafe(View(), e);
      PopEpKeeps(View(), e);
      var cur := current;
      var snd := Exchange(e, false);
      if state[snd] == BlockedCall {
        AcceptCall(snd);
      } else {
        KeepCtx(View(), {snd}, false, snd, ctx[snd].(x0 := 0));
        ctx := ctx[snd := ctx[snd].(x0 := 0)];
        Push(snd, {snd}, false);
      }
    }

    method RecvInner(e: Ptr, nonblock: bool) returns (ok: bool)
      requires Valid() && !halted && e in eps && nonblock == Nonblock(CtxOf(View(), current))
      modifies this
      ensures Valid() && View() == DoRecv(old(View()), e) && eps.Keys == old(eps.Keys) && ok == !halted
    {
      hide Inv, Represents, Block, Receive;
      ghost var s := View();
      HeadWord(e);
      RecvSafe(s, e);
      Facts(s, {}, false);
      HeadFacts(s, {}, false, e);
      var h := eps[e].head;
      if h != 0 && state[h] != BlockedRecv {
        ReceiveNow(e);
        return true;
      }
      if nonblock {
        ctx := ctx[current := ctx[current].(x0 := AsWord(WOULD_BLOCK))];
        return true;
      }
      ok := BlockOn(e, BlockedRecv);
    }

    method SysRecv(ep: Result<Ptr, Word>) returns (ok: bool)
      requires Valid() && !halted && (ep.Ok? ==> ep.value in eps)
      modifies this
      ensures Valid() && eps.Keys == old(eps.Keys) && ok == !halted
      ensures View() == Next(old(View()), if ep.Ok? then Recv(ep.value) else Return(ep.error))
    {
      hide Inv, Represents, DoRecv;
      if ep.Err? {
        ReturnX0(ep.error);
        return true;
      }
      Facts(View(), {}, false);
      var nonblock := ctx[current].x1 % 2 == 1;
      ok := RecvInner(ep.value, nonblock);
    }

    /** A receiver in transit takes the reply right of the current task. */
    method OfferCall(rcv: Ptr)
      requires Links() && Inv(View(), {rcv}, false) && rcv in state && !Idle(state[rcv])
      modifies this
      ensures Links() && Inv(View(), {rcv}, true) && eps == old(eps) && halted == old(halted) && rcv in state
      ensures var s := old(View());
              View() == SetState(SetReply(AbortReply(s, rcv), rcv, s.current), s.current, BlockedReply)
    {
      hide Inv, Represents, AbortReply;
      AbortKeeps(View(), {rcv}, false, rcv);
      AbortRight(rcv, {rcv}, false);
      Facts(View(), {rcv}, false);
      CallInv(View(), rcv);
      replyTo := replyTo[rcv := current];
      state := state[current := BlockedReply];
    }

    /** Hand the message over and leave the current task behind the receiver's reply right. */
    method DeliverCall(e: Ptr)
      requires Valid() && !halted && e in eps && ReceiverWaits(View(), e)
      modifies this
      ensures Links() && Inv(View(), {}, true) && !halted
      ensures View() == CallNow(old(View()), e) && eps.Keys == old(eps.Keys)
    {
      hide Inv, Represents, PopEp, AbortReply;
      HeadWord(e);
      CallNowSafe(View(), e);
      PopEpKeeps(View(), e);
      HeadFacts(View(), {}, false, e);
      var cur := current;
      var rcv := Exchange(e, true);
      OfferCall(rcv);
      Push(rcv, {rcv}, true);
    }

    method CallTo(e: Ptr) returns (ok: bool)
      requires Valid() && !halted && e in eps
      modifies this
      ensures Valid() && View() == DoCall(old(View()), e) && eps.Keys == old(eps.Keys) && ok == !halted
    {
      hide Inv, Represents, Block, CallNow, SwitchNext;
      ghost var s := View();
      Facts(s, {}, false);
      HeadWord(e);
      CallSafe(s, e);
      HeadFacts(s, {}, false, e);
      var nonblock := ctx[current].x1 % 2 == 1;
      var h := eps[e].head;
      if h != 0 && state[h] == BlockedRecv {
        DeliverCall(e);
        ok := BlockAndSwitch();
      } else {
        if nonblock {
          ctx := ctx[current := ctx[current].(x0 := AsWord(WOULD_BLOCK))];
          return true;
        }
        ok := BlockOn(e, BlockedCall);
      }
    }

    method SysCall(ep: Result<Ptr, Word>) returns (ok: bool)
      requires Valid() && !halted && (ep.Ok? ==> ep.value in eps)
      modifies this
      ensures Valid() && eps.Keys == old(eps.Keys) && ok == !halted
      ensures View() == Next(old(View()), if ep.Ok? then Call(ep.value) else Return(ep.error))
    {
      hide Inv, Represents, DoCall;
      if ep.Err? {
        ReturnX0(ep.error);
        return true;
      }
      ok := CallTo(ep.value);
    }

    /** The reply half of REPLY_RECV. */
    method ReplyNow()
      requires Valid() && !halted
      modifies this
      ensures Valid() && View() == Reply(old(View())) && eps == old(eps) && !halted
      ensures current == old(current) && CtxOf(View(), current) == old(CtxOf(View(), current))
    {
      hide Inv, Represents;
      ghost var s := View();
      Facts(s, {}, false);
      ReplySafe(s);
      var cur := current;
      RightFacts(s, {}, false, cur);
      var caller := replyTo[cur];
      if caller != 0 {
        TakeReply(s, {}, false, cur, caller);
        assert {} + {caller} == {caller};
        replyTo := replyTo[cur := 0];
        KeepCtx(View(), {caller}, false, caller, Deliver(ctx[cur], ctx[caller]));
        ctx := ctx[caller := Deliver(ctx[cur], ctx[caller])];
        Push(caller, {caller}, false);
      }
    }

    method SysReplyRecv(ep: Result<Ptr, Word>) returns (ok: bool)
      requires Valid() && !halted && (ep.Ok? ==> ep.value in eps)
      modifies this
      ensures Valid() && eps.Keys == old(eps.Keys) && ok == !halted
      ensures View() == Next(old(View()), if ep.Ok? then ReplyRecv(ep.value) else Return(ep.error))
    {
      hide Inv, Represents, DoRecv, Reply;
      if ep.Err? {
        ReturnX0(ep.error);
        return true;
      }
      Facts(View(), {}, false);
      var nonblock := ctx[current].x1 % 2 == 1;
      ReplyNow();
      ok := RecvInner(ep.value, nonblock);
    }

    // ---------------------------------------------------------------- the rest of the system call layer

    /** EXIT, a fault, and an unknown system call number. */
    method KillCurrent() returns (ok: bool)
      requires Valid() && !halted
      modifies this
      ensures Valid() && View() == Next(old(View()), Kill) && eps == old(eps) && ok == !halted
    {
      hide Inv, Represents;
      Facts(View(), {}, false);
      AbortRight(current, {}, false);
      Facts(View(), {}, false);
      ok := ExitCurrent();
    }

    method SysYield()
      requires Valid() && !halted
      modifies this
      ensures Valid() && View() == Next(old(View()), Yield) && eps == old(eps) && !halted
    {
      hide Inv, Represents;
      Facts(View(), {}, false);
      SetX0Safe(View(), 0);
      ctx := ctx[current := ctx[current].(x0 := 0)];
      RotateTasks();
    }

    /** What the current task makes of its own registers between two entries. */
    method RunUser(c: Context)
      requires Valid() && !halted
      modifies this
      ensures Valid() && View() == Next(old(View()), UserRuns(c)) && eps == old(eps) && !halted
    {
      hide Inv, Represents, DoSend, DoRecv, DoCall, DoKill, Reply, Rotate, DoConfigure, DoResume;
      NextSafe(View(), UserRuns(c));
      ctx := ctx[current := c];
    }

    method Preempt()
      requires Valid() && !halted
      modifies this
      ensures Valid() && View() == Next(old(View()), Tick) && eps == old(eps) && !halted
    {
      hide Inv, Represents;
      RotateTasks();
    }

    /** The last part of `sys_tcb_configure`, once slots and addresses have been checked. */
    method TcbConfigure(t: Ptr, entry: Word, stack: Word, root: Word)
      requires Valid() && !halted && t in state
      modifies this
      ensures Valid() && View() == Next(old(View()), Configure(t, entry, stack, root)) && eps == old(eps) && !halted
    {
      hide Inv, Represents;
      ghost var s := View();
      Facts(s, {}, false);
      ConfigureSafe(s, t, entry, stack, root);
      var x0 := 0;
      if state[t] != Inactive {
        x0 := AsWord(BAD_STATE);
      } else {
        ctx := ctx[t := ZERO_CONTEXT.(elr := entry, sp := stack)];
        ttbr0 := ttbr0[t := root];
        state := state[t := Stopped];
      }
      ctx := ctx[current := ctx[current].(x0 := x0)];
    }

    method TcbResume(t: Ptr)
      requires Valid() && !halted && t in state
      modifies this
      ensures Valid() && View() == Next(old(View()), Resume(t)) && eps == old(eps) && !halted
    {
      hide Inv, Represents;
      ghost var s := View();
      Facts(s, {}, false);
      ResumeSafe(s, t);
      var x0 := 0;
      if state[t] != Stopped {
        x0 := AsWord(BAD_STATE);
      } else {
        IdleTransit(s, {}, false, t);
        assert {} + {t} == {t};
        Push(t, {t}, false);
      }
      ctx := ctx[current := ctx[current].(x0 := x0)];
    }

    /** A granule cleared by RETYPE, used as a TCB from now on. */
    method ClearTcb(p: Ptr)
      requires Links() && p != 0 && p !in state && p != current
      modifies this
      ensures Links() && View() == AddTcb(old(View()), p) && eps == old(eps)
    {
      hide Represents;
      NewLink(next, head, tail, eps, ready, queues, p);
      KeysGrow(next, state, p, 0, Inactive);
      state, replyTo, ctx, ttbr0, next :=
        state[p := Inactive], replyTo[p := 0], ctx[p := ZERO_CONTEXT], ttbr0[p := 0], next[p := 0];
    }

    method CreateTcb(p: Ptr, slot: Word)
      requires Valid() && Enabled(View(), NewTcb(p, slot))
      modifies this
      ensures Valid() && View() == Next(old(View()), NewTcb(p, slot)) && eps == old(eps) && !halted
    {
      hide Inv, Represents, DoSend, DoRecv, DoCall, DoKill, Reply, Rotate, DoConfigure, DoResume;
      ghost var s := View();
      Facts(s, {}, false);
      NextSafe(s, NewTcb(p, slot));
      ClearTcb(p);
      ctx := ctx[current := ctx[current].(x0 := slot)];
    }

    /** A granule cleared by RETYPE, used as an endpoint from now on. */
    method CreateEndpoint(p: Ptr, slot: Word)
      requires Valid() && Enabled(View(), NewEndpoint(p, slot))
      modifies this
      ensures Valid() && View() == Next(old(View()), NewEndpoint(p, slot)) && !halted
      ensures eps.Keys == old(eps.Keys) + {p}
    {
      hide Inv, Represents, DoSend, DoRecv, DoCall, DoKill, Reply, Rotate, DoConfigure, DoResume;
      ghost var s := View();
      Facts(s, {}, false);
      NextSafe(s, NewEndpoint(p, slot));
      EpKeys(next, head, tail, eps, ready, queues);
      NewQueue(next, head, tail, eps, ready, queues, p);
      eps := eps[p := Endpoint(0, 0)];
      queues := queues[p := []];
      ctx := ctx[current := ctx[current].(x0 := slot)];
    }
  }

  lemma KeysGrow(next: map<Ptr, Ptr>, state: map<Ptr, TaskState>, p: Ptr, link: Ptr, st: TaskState)
    requires next.Keys == state.Keys
    ensures next[p := link].Keys == state[p := st].Keys
  {
  }

  lemma NewLink(next: map<Ptr, Ptr>, head: Ptr, tail: Ptr, eps: map<Ptr, Endpoint>,
                ready: seq<Ptr>, queues: map<Ptr, seq<Ptr>>, p: Ptr)
    requires Represents(next, head, tail, eps, ready, queues) && p !in next
    ensures Represents(next[p := 0], head, tail, eps, ready, queues)
  {
    hide Linked;
    var next' := next[p := 0];
    LinkedFrame(next, next', head, tail, ready);
    forall e | e in eps
      ensures Linked(next', eps[e].head, eps[e].tail, queues[e])
    {
      LinkedFrame(next, next', eps[e].head, eps[e].tail, queues[e]);
    }
  }

  lemma EpKeys(next: map<Ptr, Ptr>, head: Ptr, tail: Ptr, eps: map<Ptr, Endpoint>,
               ready: seq<Ptr>, queues: map<Ptr, seq<Ptr>>)
    requires Represents(next, head, tail, eps, ready, queues)
    ensures eps.Keys == queues.Keys
  {
  }

  lemma NewQueue(next: map<Ptr, Ptr>, head: Ptr, tail: Ptr, eps: map<Ptr, Endpoint>,
                 ready: seq<Ptr>, queues: map<Ptr, seq<Ptr>>, p: Ptr)
    requires Represents(next, head, tail, eps, ready, queues) && p !in eps
    ensures Represents(next, head, tail, eps[p := Endpoint(0, 0)], ready, queues[p := []])
  {
    var queues' := queues[p := []];
    AllLinkedPut(next, eps, queues, p, Endpoint(0, 0), []);
    forall t | Queued(queues, t)
      ensures Queued(queues', t)
    {
      var e :| e in queues && t in queues[e];
      assert t in queues'[e];
    }
  }
}
