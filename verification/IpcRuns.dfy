/** Whole runs of the kernel: every task is always in exactly one place, and chains of callers end. */
module IpcRuns {
  import opened Abi
  import opened Tasks
  import opened Ipc

  /** A run of the kernel: one atomic entry after another. */
  ghost predicate IsRun(ss: seq<Sys>, evs: seq<Event>) {
    && |ss| == |evs| + 1
    && Safe(ss[0])
    && forall i :: 0 <= i < |evs| ==> Enabled(ss[i], evs[i]) && ss[i + 1] == Next(ss[i], evs[i])
  }

  /** A run from the moment the root task is handed control. */
  ghost predicate FromHandoff(ss: seq<Sys>, evs: seq<Event>) {
    && IsRun(ss, evs)
    && exists root: Ptr, entry: Context, rootPa: Word :: root != 0 && ss[0] == Handoff(root, entry, rootPa)
  }

  lemma {:induction false} RunSafe(ss: seq<Sys>, evs: seq<Event>, n: nat)
    requires IsRun(ss, evs) && n < |ss|
    ensures Safe(ss[n])
  {
    hide Inv, Next;
    if n > 0 {
      RunSafe(ss, evs, n - 1);
      NextSafe(ss[n - 1], evs[n - 1]);
    }
  }

  // ---------------------------------------------------------------- one place per task

  /** How often a task occurs in a queue. */
  function Times(q: seq<Ptr>, t: Ptr): nat {
    multiset(q)[t]
  }

  lemma {:induction false} OnceIfNoDup(q: seq<Ptr>, t: Ptr)
    requires NoDup(q)
    ensures Times(q, t) == if t in q then 1 else 0
  {
    if q != [] {
      var q' := q[..|q| - 1];
      assert q == q' + [q[|q| - 1]];
      OnceIfNoDup(q', t);
    }
  }

  /** The place a state names: in the ready queue, in endpoint queue `e`, behind the right of `h`. */
  ghost predicate OnlyIn(s: Sys, t: Ptr, ready: nat, e: Option<Ptr>, h: Option<Ptr>) {
    && Times(s.ready, t) == ready
    && (forall f :: f in s.eps ==> Times(s.eps[f], t) == if e == Some(f) then 1 else 0)
    && (e.Some? ==> e.value in s.eps)
    && (forall g: Ptr :: Holds(s.replyTo, g, t) <==> h == Some(g))
  }

  /** The task is in exactly the place its state names. */
  ghost predicate InItsPlace(s: Sys, t: Ptr)
    requires t in s.state
  {
    && (s.state[t] == Running <==> t == s.current && !s.halted)
    && (s.state[t] == Ready ==> OnlyIn(s, t, 1, None, None))
    && (Waiting(s.state[t]) ==> exists e :: OnlyIn(s, t, 0, Some(e), None))
    && (s.state[t] == BlockedReply ==> exists h :: OnlyIn(s, t, 0, None, Some(h)))
    && (Idle(s.state[t]) || s.state[t] == Running ==> OnlyIn(s, t, 0, None, None))
    && (Idle(s.state[t]) ==> ReplyOf(s, t) == 0)
  }

  /** In every state between kernel entries each TCB is in exactly the place its state names. */
  lemma OnePlacePerTask(s: Sys, t: Ptr)
    requires Safe(s) && t in s.state
    ensures InItsPlace(s, t)
  {
    hide Inv;
    PlaceFacts(s, t);
    OnceIfNoDup(s.ready, t);
    forall f | f in s.eps
      ensures Times(s.eps[f], t) == if t in s.eps[f] then 1 else 0
    {
      OnceIfNoDup(s.eps[f], t);
    }
    if Waiting(s.state[t]) {
      var e :| e in s.eps && t in s.eps[e];
      assert OnlyIn(s, t, 0, Some(e), None);
    } else if s.state[t] == BlockedReply {
      var h :| Holds(s.replyTo, h, t);
      assert OnlyIn(s, t, 0, None, Some(h));
    }
  }

  lemma PlaceFacts(s: Sys, t: Ptr)
    requires Safe(s) && t in s.state
    ensures NoDup(s.ready) && t in s.replyTo
    ensures s.state[t] == Running <==> t == s.current && !s.halted
    ensures t in s.ready <==> s.state[t] == Ready
    ensures Waiting(s.state[t]) ==> Queued(s.eps, t)
    ensures s.state[t] == BlockedReply <==> Held(s.replyTo, t)
    ensures Idle(s.state[t]) ==> s.replyTo[t] == 0
    ensures forall e :: e in s.eps ==> NoDup(s.eps[e])
    ensures forall e :: e in s.eps && t in s.eps[e] ==> Waiting(s.state[t])
    ensures forall e, f :: e in s.eps && f in s.eps && t in s.eps[e] && t in s.eps[f] ==> e == f
    ensures forall g, h :: Holds(s.replyTo, g, t) && Holds(s.replyTo, h, t) ==> g == h
  {
    hide RunnersOk, QueuesOk, RightsOk;
    RunnerPlace(s.state, s.ready, s.current, s.halted, t);
    QueuePlace(s.state, s.eps, t);
    RightPlace(s.state, s.replyTo, t);
  }

  lemma RunnerPlace(state: States, ready: seq<Ptr>, current: Ptr, halted: bool, t: Ptr)
    requires RunnersOk(state, ready, current, {}, halted) && t in state
    ensures NoDup(ready)
    ensures state[t] == Running <==> t == current && !halted
    ensures t in ready <==> state[t] == Ready
  {
  }

  lemma QueuePlace(state: States, eps: map<Ptr, seq<Ptr>>, t: Ptr)
    requires QueuesOk(state, eps, {}) && t in state
    ensures Waiting(state[t]) ==> Queued(eps, t)
    ensures forall e :: e in eps ==> NoDup(eps[e])
    ensures forall e :: e in eps && t in eps[e] ==> Waiting(state[t])
    ensures forall e, f :: e in eps && f in eps && t in eps[e] && t in eps[f] ==> e == f
  {
  }

  lemma RightPlace(state: States, replyTo: map<Ptr, Ptr>, t: Ptr)
    requires RightsOk(state, replyTo, {}) && t in state && t in replyTo
    ensures state[t] == BlockedReply <==> Held(replyTo, t)
    ensures Idle(state[t]) ==> replyTo[t] == 0
    ensures forall g, h :: Holds(replyTo, g, t) && Holds(replyTo, h, t) ==> g == h
  {
  }

  /** Every reachable state: all tasks in their places, one direction per endpoint queue. */
  lemma ReachablePlaced(ss: seq<Sys>, evs: seq<Event>, n: nat)
    requires FromHandoff(ss, evs) && n < |ss|
    ensures forall t :: t in ss[n].state ==> InItsPlace(ss[n], t)
    ensures forall e, t, u :: e in ss[n].eps && t in ss[n].eps[e] && u in ss[n].eps[e] ==>
              t in ss[n].state && u in ss[n].state
              && (ss[n].state[t] == BlockedRecv <==> ss[n].state[u] == BlockedRecv)
  {
    hide Inv, Next, InItsPlace;
    RunSafe(ss, evs, n);
    forall t | t in ss[n].state
      ensures InItsPlace(ss[n], t)
    {
      OnePlacePerTask(ss[n], t);
    }
    forall e, t, u | e in ss[n].eps && t in ss[n].eps[e] && u in ss[n].eps[e]
      ensures t in ss[n].state && u in ss[n].state
      ensures ss[n].state[t] == BlockedRecv <==> ss[n].state[u] == BlockedRecv
    {
      QueueFacts(ss[n], {}, ss[n].halted, e, t);
      QueueFacts(ss[n], {}, ss[n].halted, e, u);
    }
  }

  // ---------------------------------------------------------------- reply chains

  /** p[0] waits for p[1], which waits for p[2], and so on. */
  ghost predicate Chain(s: Sys, p: seq<Ptr>) {
    p != [] && forall i :: 0 <= i < |p| - 1 ==> Holds(s.replyTo, p[i + 1], p[i])
  }

  /** Following holders from a waiting caller ends, without repetition, at a live task that can still run. */
  lemma ReplyChainEnds(s: Sys, c: Ptr)
    requires Safe(s) && c in s.state && s.state[c] == BlockedReply
    ensures exists p :: Chain(s, p) && p[0] == c && |p| > 1 && NoDup(p)
                     && p[|p| - 1] in s.state
                     && s.state[p[|p| - 1]] != BlockedReply && !Idle(s.state[p[|p| - 1]])
  {
    hide RunnersOk, QueuesOk;
    var rank :| Ranked(s.replyTo, rank);
    var p := ChainFrom(s, rank, c);
  }

  lemma {:induction false} ChainFrom(s: Sys, rank: map<Ptr, nat>, c: Ptr) returns (p: seq<Ptr>)
    requires RightsOk(s.state, s.replyTo, {}) && s.replyTo.Keys == s.state.Keys && Ranked(s.replyTo, rank)
    requires c in s.state && s.state[c] == BlockedReply
    ensures Chain(s, p) && p[0] == c && |p| > 1 && NoDup(p)
    ensures c in rank && forall x :: x in p ==> x in rank && rank[x] <= rank[c]
    ensures p[|p| - 1] in s.state && s.state[p[|p| - 1]] != BlockedReply && !Idle(s.state[p[|p| - 1]])
    decreases if c in rank then rank[c] else 0
  {
    assert Held(s.replyTo, c);
    var h :| Holds(s.replyTo, h, c);
    assert s.replyTo[h] != 0;
    if s.state[h] == BlockedReply {
      var q := ChainFrom(s, rank, h);
      p := [c] + q;
      assert forall i :: 0 <= i < |p| - 1 ==> Holds(s.replyTo, p[i + 1], p[i]);
    } else {
      p := [c, h];
    }
  }
}
