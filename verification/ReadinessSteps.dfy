/** Every step of the node protocol takes the list through steps of its own: what is proved of the list holds here. */
module ReadinessSteps {
  import L = ReadinessList
  import opened ReadinessNodes
  import opened ReadinessFacts

  /** The actions of ordinary threads. */
  predicate ByThread(a: L.Action) { a.Acquire? || a.Abandon? || a.BeginPush? || (a.PushAccess? && a.t != L.Poller) }

  predicate AllByThread(done: seq<L.Action>) { forall a :: a in done ==> ByThread(a) }

  /** Thread t does this; a right it gives up is its own. */
  predicate DoneBy(l: L.List, a: L.Action, t: Tid) {
    match a
    case Acquire(u, _) => u == t
    case BeginPush(u, _) => u == t
    case PushAccess(u) => u == t
    case Abandon(id) => L.Node(id) in l.owner && l.owner[L.Node(id)] == t
    case _ => false
  }

  /** At most one thing, done by t. */
  predicate OneBy(l: L.List, done: seq<L.Action>, t: Tid) {
    done == [] || (|done| == 1 && DoneBy(l, done[0], t))
  }

  predicate AllByPoller(done: seq<L.Action>) {
    forall a :: a in done ==> !a.Abandon? && (a.PushAccess? ==> a.t == L.Poller)
  }

  lemma PushDoes(s: State, t: Tid, op: Op, id: nat, n: Node) returns (done: seq<L.Action>)
    requires op.Doing? && L.PcOf(s.l, t).At? && t != L.Poller
    ensures AllByThread(done) && OneBy(s.l, done, t)
    ensures L.Does(s.l, done, PushAccess(s, t, op, id, n).l)
  {
    hide L.Apply;
    L.DoesOne(s.l, L.PushAccess(t));
    done := [L.PushAccess(t)];
  }

  lemma AcquireDoes(l: L.List, t: Tid, id: nat)
    requires t != L.Poller && !L.Tracked(l, id)
    ensures L.Does(l, [L.Acquire(t, id)], Acquire(l, t, id))
  {
    L.DoesOne(l, L.Acquire(t, id));
  }

  lemma BeginPushDoes(l: L.List, t: Tid, id: nat)
    requires t != L.Poller && L.PcOf(l, t).Out? && L.Node(id) in l.owner && l.owner[L.Node(id)] == t
    ensures L.Does(l, [L.BeginPush(t, id)], L.Apply(l, L.BeginPush(t, id)))
  {
    L.DoesOne(l, L.BeginPush(t, id));
  }

  lemma AbandonDoes(l: L.List, t: Tid, id: nat)
    requires t != L.Poller && L.PcOf(l, t).Out? && L.Node(id) in l.owner && l.owner[L.Node(id)] == t
    ensures L.Does(l, [L.Abandon(id)], Abandon(l, id))
  {
    L.DoesOne(l, L.Abandon(id));
  }

  lemma SetDoes(s: State, t: Tid, id: nat) returns (done: seq<L.Action>)
    requires Inv(s) && OnNode(s, t, id) && id in s.nodes && OpOk(s, t) && NodeOk(s, id)
    ensures AllByThread(done) && OneBy(s.l, done, t)
    ensures var op := OpOf(s, t);
      op.stage == SetLoad || op.stage == SetSwap || op.stage == SetQueue || op.stage == SetPush ==>
        L.Does(s.l, done, SetStep(s, t, op, id, s.nodes[id]).l)
  {
    hide L.Inv, L.Does, L.Apply, Acquire, Abandon, PushAccess, SetNext, Effective;
    var op, n := OpOf(s, t), s.nodes[id];
    done := [];
    L.DoesNone(s.l);
    if op.stage == SetSwap && n.word == op.seen && !n.word.queued && SetNext(n.word, op.ready).queued {
      AcquireDoes(s.l, t, id);
      done := [L.Acquire(t, id)];
    } else if op.stage == SetQueue {
      if n.bound { BeginPushDoes(s.l, t, id); done := [L.BeginPush(t, id)]; }
      else { AbandonDoes(s.l, t, id); done := [L.Abandon(id)]; }
    } else if op.stage == SetPush {
      done := PushDoes(s, t, op, id, n);
    }
  }

  lemma UpdateDoes(s: State, t: Tid, id: nat) returns (done: seq<L.Action>)
    requires Inv(s) && OnNode(s, t, id) && id in s.nodes && OpOk(s, t) && NodeOk(s, id)
    ensures AllByThread(done) && OneBy(s.l, done, t)
    ensures var op := OpOf(s, t);
      HoldsLock(op.stage) || op.stage == UpdPush ==> L.Does(s.l, done, UpdateStep(s, t, op, id, s.nodes[id]).l)
  {
    hide L.Inv, L.Does, L.Apply, Acquire, PushAccess, UpdateNext, Effective;
    var op, n := OpOf(s, t), s.nodes[id];
    done := [];
    L.DoesNone(s.l);
    if op.stage == UpdSwap && n.word == op.seen && !n.word.queued && UpdateNext(n.word, op.u, op.pos).queued {
      AcquireDoes(s.l, t, id);
      done := [L.Acquire(t, id)];
    } else if op.stage == UnlockPush {
      BeginPushDoes(s.l, t, id);
      done := [L.BeginPush(t, id)];
    } else if op.stage == UpdPush {
      done := PushDoes(s, t, op, id, n);
    }
  }

  lemma DropDoes(s: State, t: Tid, id: nat) returns (done: seq<L.Action>)
    requires Inv(s) && OnNode(s, t, id) && id in s.nodes && OpOk(s, t) && NodeOk(s, id)
    ensures AllByThread(done) && OneBy(s.l, done, t)
    ensures var op := OpOf(s, t); Owned(op.stage) ==> L.Does(s.l, done, DropStep(s, t, op, id, s.nodes[id]).l)
  {
    hide L.Inv, L.Does, L.Apply, Acquire, Abandon, PushAccess;
    var op, n := OpOf(s, t), s.nodes[id];
    done := [];
    L.DoesNone(s.l);
    if op.stage == Flag && !n.word.queued {
      AcquireDoes(s.l, t, id);
      done := [L.Acquire(t, id)];
    } else if op.stage == DropQueue {
      if n.bound { BeginPushDoes(s.l, t, id); done := [L.BeginPush(t, id)]; }
      else { AbandonDoes(s.l, t, id); done := [L.Abandon(id)]; }
    } else if op.stage == DropPush {
      done := PushDoes(s, t, op, id, n);
    }
  }

  lemma ThreadDoes(s: State, t: Tid) returns (done: seq<L.Action>)
    requires Inv(s) && OpOf(s, t).Doing?
    ensures AllByThread(done) && OneBy(s.l, done, t)
    ensures L.Does(s.l, done, ThreadStep(s, t).l)
  {
    hide L.Inv, L.Does, SetStep, UpdateStep, DropStep;
    assert OpOk(s, t);
    var op := OpOf(s, t);
    var id := s.handles[op.h].node;
    assert NodeOk(s, id);
    if op.stage == SetLoad || op.stage == SetSwap || op.stage == SetQueue || op.stage == SetPush {
      done := SetDoes(s, t, id);
    } else if Owned(op.stage) {
      done := DropDoes(s, t, id);
    } else if HoldsLock(op.stage) || op.stage == UpdPush {
      done := UpdateDoes(s, t, id);
    } else {
      L.DoesNone(s.l);
      done := [];
    }
  }

  // ---------------------------------------------------------------------------------------------
  // The polling thread
  // ---------------------------------------------------------------------------------------------

  function AccessOf(l: L.List): L.Action {
    if L.PcOf(l, L.Poller).At? then L.PushAccess(L.Poller) else L.PollAccess
  }

  lemma ActDoes(s: State, w: Word, next: Word, slots: Slots) returns (done: seq<L.Action>)
    requires s.l.con.Holding? && (next.queued ==> !s.l.closing)
    ensures AllByPoller(done)
    ensures L.Does(s.l, done, Act(s, w, next, slots).l)
  {
    hide L.Apply, Effective;
    var a := if next.queued then L.BeginRequeue else L.ReleaseHeld;
    L.DoesOne(s.l, a);
    done := [a];
  }

  lemma LoadDoes(s: State) returns (done: seq<L.Action>)
    requires Inv(s) && (s.poll.stage == Load || s.poll.stage == Swap)
    ensures AllByPoller(done)
    ensures L.Does(s.l, done, PollerStep(s).l)
  {
    hide L.Inv, L.Does, L.Apply, L.Enabled, Act, PollNext;
    var id := s.poll.id;
    var n := s.nodes[id];
    done := [];
    L.DoesNone(s.l);
    if s.poll.stage == Swap && n.word == s.poll.seen {
      done := ActDoes(SetNode(s, id, n.(word := PollNext(n.word))), n.word, PollNext(n.word), n.slots);
    } else if !n.word.dropped && PollNext(n.word) == n.word {
      done := ActDoes(s, n.word, n.word, n.slots);
    }
  }

  /** An access and what may follow it at once. */
  lemma AccessDoes(l: L.List) returns (l': L.List)
    requires L.Enabled(l, AccessOf(l))
    ensures l' == ListAccess(l) && L.Does(l, [AccessOf(l)], l')
    ensures l'.con.GotNothing? ==> L.Does(l, [AccessOf(l), L.ReleaseHeld], L.Apply(l', L.ReleaseHeld))
    ensures l'.con.GotNothing? || l'.con.Idle? ==> L.Does(l, [AccessOf(l), L.BeginDeq({})], L.Apply(l', L.BeginDeq({})))
  {
    hide L.Apply, L.Does;
    l' := ListAccess(l);
    L.DoesOne(l, AccessOf(l));
    if l'.con.GotNothing? { L.DoesTwo(l, AccessOf(l), L.ReleaseHeld); }
    if l'.con.GotNothing? || l'.con.Idle? { L.DoesTwo(l, AccessOf(l), L.BeginDeq({})); }
  }

  lemma ListDoes(s: State) returns (done: seq<L.Action>)
    requires Inv(s) && (s.poll.stage == Dequeue || s.poll.stage == Requeue || s.poll.stage == PushClosed || s.poll.stage == CloseDequeue)
    ensures AllByPoller(done)
    ensures L.Does(s.l, done, PollerStep(s).l)
  {
    hide Inv, L.Inv, L.Does, L.Apply, L.Enabled, ListAccess, L.PcOf, PollerStep;
    AccessEnabled(s);
    var l' := AccessDoes(s.l);
    var a := AccessOf(s.l);
    done := [a];
    if s.poll.stage == Dequeue || s.poll.stage == Requeue {
      AfterDequeue(s);
      if s.poll.stage == Dequeue && l'.con.GotNothing? { done := [a, L.ReleaseHeld]; }
    } else {
      AfterClose(s);
      if s.poll.stage == PushClosed && l'.con.Idle? {
        done := [a, L.BeginDeq({})];
      } else if s.poll.stage == CloseDequeue && l'.con.GotNothing? {
        done := [a, if l'.con.inconsistent then L.BeginDeq({}) else L.ReleaseHeld];
      }
    }
  }

  /** Where the step leaves the list. */
  lemma AfterDequeue(s: State)
    requires s.poll.stage == Dequeue || s.poll.stage == Requeue
    ensures var l := ListAccess(s.l);
      PollerStep(s).l == if s.poll.stage == Dequeue && l.con.GotNothing? then L.Apply(l, L.ReleaseHeld) else l
  {
    hide ListAccess, L.Apply;
  }

  lemma AfterClose(s: State)
    requires s.poll.stage == PushClosed || s.poll.stage == CloseDequeue
    ensures var l := ListAccess(s.l);
      PollerStep(s).l ==
        if s.poll.stage == PushClosed then (if l.con.Idle? then L.Apply(l, L.BeginDeq({})) else l)
        else if l.con.GotNothing? then L.Apply(l, if l.con.inconsistent then L.BeginDeq({}) else L.ReleaseHeld)
        else l
  {
    hide ListAccess, L.Apply;
  }

  lemma AccessEnabled(s: State)
    requires Inv(s) && (s.poll.stage == Dequeue || s.poll.stage == Requeue || s.poll.stage == PushClosed || s.poll.stage == CloseDequeue)
    ensures L.Enabled(s.l, AccessOf(s.l))
  {
    assert L.PollerPush(s.l) && PollOk(s);
  }

  lemma PollerDoes(s: State) returns (done: seq<L.Action>)
    requires Inv(s) && Enabled(s, PollStep)
    ensures AllByPoller(done)
    ensures L.Does(s.l, done, PollerStep(s).l)
  {
    hide L.Inv, L.Does, L.Apply;
    assert PollOk(s);
    match s.poll.stage
    case Dequeue | Requeue | PushClosed | CloseDequeue => done := ListDoes(s);
    case Load | Swap => done := LoadDoes(s);
    case DropNode =>
      L.DoesOne(s.l, L.ReleaseHeld);
      done := [L.ReleaseHeld];
    case CloseRelease =>
      ReleaseIdles(s.l);
      L.DoesTwo(s.l, L.ReleaseHeld, L.BeginDeq({}));
      done := [L.ReleaseHeld, L.BeginDeq({})];
    case Read | CloseLoad =>
      L.DoesNone(s.l);
      done := [];
  }

  lemma ReleaseIdles(l: L.List)
    requires l.con.Holding?
    ensures L.Apply(l, L.ReleaseHeld).con == L.Idle
  {}

  // ---------------------------------------------------------------------------------------------
  // Runs
  // ---------------------------------------------------------------------------------------------

  lemma ActionDoes(s: State, a: Action) returns (done: seq<L.Action>)
    requires Inv(s) && Enabled(s, a)
    ensures !a.Step? ==> AllByPoller(done)
    ensures L.Does(s.l, done, Apply(s, a).l)
  {
    hide L.Inv, L.Does, ThreadStep, PollerStep, L.Apply;
    done := [];
    L.DoesNone(s.l);
    match a
    case Step(t) => done := ThreadDoes(s, t);
    case PollStep => done := PollerDoes(s);
    case RestStep(b) =>
      L.DoesOne(s.l, b);
      done := [b];
    case StartPoll =>
      L.DoesOne(s.l, L.BeginDeq({}));
      done := [L.BeginDeq({})];
    case NextNode =>
      assert PollOk(s);
      L.DoesOne(s.l, L.BeginDeq(s.poll.until));
      done := [L.BeginDeq(s.poll.until)];
    case DropQueueCall =>
      L.DoesOne(s.l, L.BeginClose);
      done := [L.BeginClose];
    case _ =>
  }

  /** The list of any reachable state is one the list's own steps lead to. */
  lemma ListIsReachable(s: State)
    requires Reachable(s)
    ensures L.Reachable(s.l)
  {
    var states, actions :| Run(states, actions) && s in states;
    var k :| 0 <= k < |states| && states[k] == s;
    RunsReachLists(states, actions, k);
  }

  lemma {:induction false} RunsReachLists(states: seq<State>, actions: seq<Action>, k: nat)
    requires Run(states, actions) && k < |states|
    ensures L.Reachable(states[k].l)
  {
    hide Inv, Apply, Enabled, L.Reachable;
    if k == 0 {
      L.ReachableInitial();
    } else {
      RunsReachLists(states, actions, k - 1);
      RunsKeepInvariant(states, actions, k - 1);
      assert StepAt(states, actions, k - 1);
      var done := ActionDoes(states[k - 1], actions[k - 1]);
      L.ReachableDoes(states[k - 1].l, done, states[k].l);
    }
  }
}
