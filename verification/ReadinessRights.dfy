/** The right to push a node, over whole runs: who sets QUEUED pushes the node, unless the queue is gone or none. */
module ReadinessRights {
  import L = ReadinessList
  import opened ReadinessNodes
  import opened ReadinessFacts
  import opened ReadinessSteps

  // ---------------------------------------------------------------------------------------------
  // Nobody takes the right away
  // ---------------------------------------------------------------------------------------------

  predicate Owns(l: L.List, t: Tid, p: L.Ptr) { p in l.owner && l.owner[p] == t }

  /** Only thread t itself can lose its right to push p by this step. */
  predicate Foreign(l: L.List, a: L.Action, t: Tid, p: L.Ptr) {
    (a.Abandon? ==> p != L.Node(a.id)) && (a.PushAccess? ==> a.t != t)
  }

  lemma OwnerStays(l: L.List, a: L.Action, t: Tid, p: L.Ptr)
    requires L.Inv(l) && L.Enabled(l, a) && Owns(l, t, p) && t != L.Poller && Foreign(l, a, t, p)
    ensures Owns(L.Apply(l, a), t, p)
  {
    hide L.Shape, L.NoLostWakeup, L.History, L.PushStep, L.PollStep;
    if a.PushAccess? {
      L.PushTracks(l, a.t);
    } else if a.PollAccess? {
      L.PollTracks(l);
    }
    hide L.PcOk;
  }

  lemma {:induction false} PollerLeavesOwner(l: L.List, done: seq<L.Action>, l': L.List, t: Tid, p: L.Ptr)
    requires L.Inv(l) && L.Does(l, done, l') && AllByPoller(done) && Owns(l, t, p) && t != L.Poller
    ensures Owns(l', t, p)
    decreases |done|
  {
    hide L.Inv, L.Apply, L.Enabled;
    if done == [] {
    } else {
      OwnerStays(l, done[0], t, p);
      L.ApplyKeeps(l, done[0]);
      PollerLeavesOwner(L.Apply(l, done[0]), done[1..], l', t, p);
    }
  }

  lemma OtherLeavesOwner(l: L.List, done: seq<L.Action>, l': L.List, u: Tid, t: Tid, p: L.Ptr)
    requires L.Inv(l) && L.Does(l, done, l') && OneBy(l, done, u) && u != t && Owns(l, t, p) && t != L.Poller
    ensures Owns(l', t, p)
  {
    hide L.Inv, L.Apply, L.Enabled;
    if done == [] {
    } else {
      assert done[1..] == [] && L.Does(L.Apply(l, done[0]), done[1..], l');
      OwnerStays(l, done[0], t, p);
    }
  }

  /** Whatever anybody else does, a thread on the way to push a node stays so. */
  lemma RightStays(s: State, a: Action, t: Tid, id: nat)
    requires Inv(s) && Enabled(s, a) && id in s.nodes && HoldsPush(s, t, id) && t != L.Poller && a != Step(t)
    ensures id in Apply(s, a).nodes && HoldsPush(Apply(s, a), t, id)
  {
    var done := ActionDoes(s, a);
    hide L.Inv, Enabled, Apply, HoldsPush, NodeOk, OpOk, HandleOk, RightOk, L.Apply;
    HolderIsOwner(s, t, id);
    if a.Step? {
      StepLeavesOwner(s, a.t, t, id);
    } else {
      PollerLeavesOwner(s.l, done, Apply(s, a).l, t, L.Node(id));
    }
    ApplyKeeps(s, a);
    assert L.Tracked(Apply(s, a).l, id);
    HolderIsOwner(Apply(s, a), t, id);
  }

  lemma StepLeavesOwner(s: State, u: Tid, t: Tid, id: nat)
    requires Inv(s) && Enabled(s, Step(u)) && Owns(s.l, t, L.Node(id)) && t != L.Poller && u != t
    ensures Owns(Apply(s, Step(u)).l, t, L.Node(id))
  {
    hide L.Inv, NodeOk, OpOk, HandleOk, RightOk, ThreadStep;
    var done := ThreadDoes(s, u);
    OtherLeavesOwner(s.l, done, ThreadStep(s, u).l, u, t, L.Node(id));
  }

  // ---------------------------------------------------------------------------------------------
  // What becomes of the right
  // ---------------------------------------------------------------------------------------------

  /** The node joins the list at its head, or is retired: its queue is closing, or it has none. */
  ghost predicate Ends(s: State, s': State, id: nat) {
    && id in s.nodes && id in s'.nodes
    && (s'.l.chain == s.l.chain + [L.Node(id)] || (s'.nodes[id].retired && (s.l.closing || !s.nodes[id].bound)))
  }

  lemma PushOrStay(l: L.List, t: Tid)
    requires L.Pending(L.PcOf(l, t)) && L.PcOf(l, t).n.Node? && !L.PcOf(l, t).Is(L.Reject)
    ensures L.PushStep(l, t).chain == l.chain + [L.PcOf(l, t).n] || L.Pending(L.PcOf(L.PushStep(l, t), t))
  {
    hide L.Saw, L.DoReject, L.DoLink, L.DoWake;
    SawPending(l, t, L.PcOf(l, t).n);
  }

  lemma SawPending(l: L.List, t: Tid, n: L.Ptr)
    requires n.Node?
    ensures L.Pending(L.PcOf(L.Saw(l, t, n, l.head), t))
  {}

  lemma OwnPush(s: State, t: Tid, id: nat)
    requires Inv(s) && id in s.nodes && OnNode(s, t, id) && OpOk(s, t) && Pushes(OpOf(s, t).stage) && L.Pending(L.PcOf(s.l, t))
    ensures var s' := PushAccess(s, t, OpOf(s, t), id, s.nodes[id]);
      (OnNode(s', t, id) && Pushes(OpOf(s', t).stage) && L.Pending(L.PcOf(s'.l, t))) || Ends(s, s', id)
  {
    hide L.Inv, NodeOk, HandleOk, RightOk, L.PushStep;
    if L.PcOf(s.l, t).Is(L.Reject) {
      L.RejectTracks(s.l, t);
    } else {
      PushOrStay(s.l, t);
    }
  }

  lemma OwnStep(s: State, t: Tid, id: nat)
    requires Inv(s) && id in s.nodes && HoldsPush(s, t, id) && t != L.Poller
    ensures HoldsPush(ThreadStep(s, t), t, id) || Ends(s, ThreadStep(s, t), id)
  {
    hide L.Inv, NodeOk, HandleOk, RightOk, PushAccess, L.PushStep, Ends;
    assert OpOk(s, t);
    if Pushes(OpOf(s, t).stage) {
      OwnPush(s, t, id);
    } else {
      OwnBegin(s, t, id);
    }
  }

  lemma OwnBegin(s: State, t: Tid, id: nat)
    requires id in s.nodes && OnNode(s, t, id) && OpOk(s, t) && HoldsRight(OpOf(s, t).stage) && t != L.Poller
    ensures HoldsPush(ThreadStep(s, t), t, id) || Ends(s, ThreadStep(s, t), id)
  {
    hide PushAccess, L.PushStep, L.PollStep;
  }

  // ---------------------------------------------------------------------------------------------
  // Who sets QUEUED
  // ---------------------------------------------------------------------------------------------

  /** The step from nodes to nodes' sets QUEUED on node id. */
  predicate Toggles(nodes: map<nat, Node>, nodes': map<nat, Node>, id: nat) {
    id in nodes && id in nodes' && !nodes[id].word.queued && nodes'[id].word.queued
  }

  predicate OnTheWay(s: State, t: Tid, id: nat) { OnNode(s, t, id) && HoldsRight(OpOf(s, t).stage) }

  lemma PushNoToggle(s: State, t: Tid, op: Op, j: nat, n: Node, id: nat)
    requires j in s.nodes && n == s.nodes[j] && op.Doing?
    ensures !Toggles(s.nodes, PushAccess(s, t, op, j, n).nodes, id)
  {
    hide L.Apply;
  }

  lemma SetToggles(s: State, t: Tid, op: Op, j: nat, n: Node, id: nat)
    requires op == OpOf(s, t) && OnNode(s, t, j) && j in s.nodes && n == s.nodes[j]
    ensures Toggles(s.nodes, SetStep(s, t, op, j, n).nodes, id) ==> OnTheWay(SetStep(s, t, op, j, n), t, id)
  {
    hide PushAccess, L.Apply, Effective;
    PushNoToggle(s, t, op, j, n, id);
  }

  lemma BindToggles(s: State, t: Tid, op: Op, j: nat, n: Node, id: nat)
    requires op == OpOf(s, t) && OnNode(s, t, j) && j in s.nodes && n == s.nodes[j]
    ensures !Toggles(s.nodes, BindStep(s, t, op, j, n).nodes, id)
  {}

  lemma UpdateToggles(s: State, t: Tid, op: Op, j: nat, n: Node, id: nat)
    requires op == OpOf(s, t) && OnNode(s, t, j) && j in s.nodes && n == s.nodes[j]
    ensures Toggles(s.nodes, UpdateStep(s, t, op, j, n).nodes, id) ==> OnTheWay(UpdateStep(s, t, op, j, n), t, id)
  {
    hide UpdateStep, Toggles;
    if op.stage == UpdSwap {
      UpdSwapToggles(s, t, op, j, n, id);
    } else {
      UpdRestToggles(s, t, op, j, n, id);
    }
  }

  lemma UpdSwapToggles(s: State, t: Tid, op: Op, j: nat, n: Node, id: nat)
    requires op == OpOf(s, t) && OnNode(s, t, j) && j in s.nodes && n == s.nodes[j] && op.stage == UpdSwap
    ensures Toggles(s.nodes, UpdateStep(s, t, op, j, n).nodes, id) ==> OnTheWay(UpdateStep(s, t, op, j, n), t, id)
  {
    hide PushAccess, Acquire, UpdateNext, BeginPush;
  }

  lemma UpdRestToggles(s: State, t: Tid, op: Op, j: nat, n: Node, id: nat)
    requires op == OpOf(s, t) && OnNode(s, t, j) && j in s.nodes && n == s.nodes[j] && op.stage != UpdSwap
    ensures !Toggles(s.nodes, UpdateStep(s, t, op, j, n).nodes, id)
  {
    hide PushAccess, L.Apply, UpdateNext, NextTokenPos;
    PushNoToggle(s, t, op, j, n, id);
  }

  lemma DropToggles(s: State, t: Tid, op: Op, j: nat, n: Node, id: nat)
    requires op == OpOf(s, t) && OnNode(s, t, j) && j in s.nodes && n == s.nodes[j]
    ensures Toggles(s.nodes, DropStep(s, t, op, j, n).nodes, id) ==> OnTheWay(DropStep(s, t, op, j, n), t, id)
  {
    hide PushAccess, L.Apply;
    PushNoToggle(s, t, op, j, n, id);
  }

  lemma ThreadToggles(s: State, t: Tid, id: nat)
    requires Toggles(s.nodes, ThreadStep(s, t).nodes, id)
    ensures OnTheWay(ThreadStep(s, t), t, id)
  {
    hide SetStep, BindStep, UpdateStep, DropStep, OnTheWay;
    var op := OpOf(s, t);
    if op.Doing? && op.h in s.handles && s.handles[op.h].node in s.nodes {
      var j := s.handles[op.h].node;
      SetToggles(s, t, op, j, s.nodes[j], id);
      BindToggles(s, t, op, j, s.nodes[j], id);
      UpdateToggles(s, t, op, j, s.nodes[j], id);
      DropToggles(s, t, op, j, s.nodes[j], id);
    }
  }

  lemma PollerNoToggle(s: State, id: nat)
    ensures !Toggles(s.nodes, PollerStep(s).nodes, id)
  {
    hide ListAccess, L.Apply, Act, SawWord, Effective;
    var j := s.poll.id;
    if j in s.nodes {
      var n := s.nodes[j];
      LocalLevel(s, n.word, PollNext(n.word), n.slots);
      LocalLevel(SetNode(s, j, n.(word := PollNext(n.word))), n.word, PollNext(n.word), n.slots);
    }
  }

  lemma ToggleHolds(s: State, a: Action, id: nat)
    requires Inv(s) && Enabled(s, a) && Toggles(s.nodes, Apply(s, a).nodes, id)
    ensures a.Step? && a.t != L.Poller && HoldsPush(Apply(s, a), a.t, id)
  {
    hide L.Inv, NodeOk, HandleOk, RightOk, ThreadStep, PollerStep, L.Apply, Unused, Idle;
    match a
    case Step(t) =>
      assert OpOk(s, t);
      ThreadToggles(s, t, id);
    case PollStep => PollerNoToggle(s, id);
    case _ =>
  }

  // ---------------------------------------------------------------------------------------------
  // Runs
  // ---------------------------------------------------------------------------------------------

  lemma StepOk(states: seq<State>, actions: seq<Action>, k: nat)
    requires Run(states, actions) && k < |actions|
    ensures |states| == |actions| + 1 && Inv(states[k]) && Enabled(states[k], actions[k]) && states[k + 1] == Apply(states[k], actions[k])
  {
    hide Apply, Enabled, Inv;
    RunsKeepInvariant(states, actions, k);
    assert StepAt(states, actions, k);
  }

  /** A thread that is on the way to push at state k and no longer at state m has in between pushed, or met the end. */
  lemma {:induction false} HolderPushes(states: seq<State>, actions: seq<Action>, k: nat, m: nat, t: Tid, id: nat) returns (j: nat)
    requires Run(states, actions) && k < m < |states| && t != L.Poller
    requires id in states[k].nodes && HoldsPush(states[k], t, id) && !HoldsPush(states[m], t, id)
    ensures k <= j < m && j < |actions| && actions[j] == Step(t) && Ends(states[j], states[j + 1], id)
    ensures forall i :: k <= i <= j ==> HoldsPush(states[i], t, id)
    decreases m - k
  {
    hide Apply, Enabled, Inv, Ends, HoldsPush;
    StepOk(states, actions, k);
    if HoldsPush(states[k + 1], t, id) {
      OneStep(states[k], actions[k], t, id);
      j := HolderPushes(states, actions, k + 1, m, t, id);
    } else {
      OneStep(states[k], actions[k], t, id);
      j := k;
    }
  }

  lemma OneStep(s: State, a: Action, t: Tid, id: nat)
    requires Inv(s) && Enabled(s, a) && id in s.nodes && HoldsPush(s, t, id) && t != L.Poller
    ensures id in Apply(s, a).nodes
    ensures !HoldsPush(Apply(s, a), t, id) ==> a == Step(t) && Ends(s, Apply(s, a), id)
  {
    hide Inv, Enabled, ThreadStep, HoldsPush;
    if a == Step(t) {
      OwnStep(s, t, id);
      ApplyKeeps(s, a);
      if HoldsPush(Apply(s, a), t, id) { HolderKnown(Apply(s, a), t, id); }
    } else {
      hide Apply;
      RightStays(s, a, t, id);
    }
  }

  lemma HolderKnown(s: State, t: Tid, id: nat)
    requires Inv(s) && HoldsPush(s, t, id) && t != L.Poller
    ensures id in s.nodes
  {
    assert OpOk(s, t);
  }

  /**
    In every run, whoever sets QUEUED on a node, by `set_readiness`, `update` or a drop, holds the right to push it
    from then on without a break, and gives it up only by pushing the node at the head of the list; or the node is
    retired, because the queue is closing or the node was never bound to one.
   */
  lemma TogglerPushes(states: seq<State>, actions: seq<Action>, k: nat, m: nat, id: nat) returns (j: nat)
    requires Run(states, actions) && k < |actions| && k < m < |states| && Toggles(states[k].nodes, states[k + 1].nodes, id)
    ensures actions[k].Step? && var t := actions[k].t;
      !HoldsPush(states[m], t, id) ==>
        && k < j < m && actions[j] == Step(t) && Ends(states[j], states[j + 1], id)
        && forall i :: k < i <= j ==> HoldsPush(states[i], t, id)
  {
    hide Apply, Enabled, Inv, Ends, HoldsPush;
    StepOk(states, actions, k);
    ToggleHolds(states[k], actions[k], id);
    j := k;
    if !HoldsPush(states[m], actions[k].t, id) {
      j := HolderPushes(states, actions, k + 1, m, actions[k].t, id);
    }
  }
}
