/**
  What holds in every reachable state of the readiness queue, from the invariant of `ReadinessNodes`: rights to
  push, reference counts, token slots, and that readiness is not lost.
*/
module ReadinessFacts {
  import L = ReadinessList
  import opened ReadinessNodes

  // ---------------------------------------------------------------------------------------------
  // Runs
  // ---------------------------------------------------------------------------------------------

  ghost predicate StepAt(states: seq<State>, actions: seq<Action>, i: nat)
    requires |states| == |actions| + 1
  {
    i < |actions| ==> Enabled(states[i], actions[i]) && states[i + 1] == Apply(states[i], actions[i])
  }

  ghost predicate Run(states: seq<State>, actions: seq<Action>) {
    && |states| == |actions| + 1
    && states[0] == Initial
    && forall i: nat {:trigger StepAt(states, actions, i)} :: StepAt(states, actions, i)
  }

  /** Some interleaving leads to this state. */
  ghost predicate Reachable(s: State) {
    exists states, actions :: Run(states, actions) && s in states
  }

  /** The invariant holds in every state of every interleaving. */
  lemma {:induction false} RunsKeepInvariant(states: seq<State>, actions: seq<Action>, k: nat)
    requires Run(states, actions) && k < |states|
    ensures Inv(states[k])
  {
    if k == 0 {
      InitialOk();
    } else {
      RunsKeepInvariant(states, actions, k - 1);
      assert StepAt(states, actions, k - 1);
      ApplyKeeps(states[k - 1], actions[k - 1]);
    }
  }

  lemma ReachableInv(s: State)
    requires Reachable(s)
    ensures Inv(s)
  {
    var states, actions :| Run(states, actions) && s in states;
    var k :| 0 <= k < |states| && states[k] == s;
    RunsKeepInvariant(states, actions, k);
  }

  lemma ReachableNext(s: State, a: Action)
    requires Reachable(s) && Enabled(s, a)
    ensures Reachable(Apply(s, a))
  {
    hide Apply, Enabled;
    var states, actions :| Run(states, actions) && s in states;
    var k :| 0 <= k < |states| && states[k] == s;
    var more, done := states[..k + 1] + [Apply(s, a)], actions[..k] + [a];
    forall i: nat ensures StepAt(more, done, i) {
      assert StepAt(states, actions, i);
    }
    assert Run(more, done) && Apply(s, a) in more;
  }

  // ---------------------------------------------------------------------------------------------
  // Rights and references
  // ---------------------------------------------------------------------------------------------

  /** Thread t is, by its place in the code, the one that may push the node. */
  ghost predicate HoldsPush(s: State, t: Tid, id: nat) {
    if t == L.Poller then
      s.poll.id == id && HasNode(s.poll.stage) && (s.poll.stage == Requeue ==> L.Pending(L.PcOf(s.l, t)))
    else
      OnNode(s, t, id) && (HoldsRight(OpOf(s, t).stage) || (Pushes(OpOf(s, t).stage) && L.Pending(L.PcOf(s.l, t))))
  }

  lemma HolderIsOwner(s: State, t: Tid, id: nat)
    requires Inv(s) && id in s.nodes
    ensures HoldsPush(s, t, id) <==> L.Node(id) in s.l.owner && s.l.owner[L.Node(id)] == t
  {
    assert OpOk(s, t) && L.PcOk(s.l, t);
    if L.Node(id) in s.l.owner && s.l.owner[L.Node(id)] == t {
      assert RightOk(s, id);
      LinkingIsLinked(s.l, t);
    }
  }

  lemma LinkingIsLinked(l: L.List, t: Tid)
    requires L.Inv(l)
    ensures L.PcOf(l, t).Is(L.Link) ==> L.PcOf(l, t).n in l.chain
  {
    if L.PcOf(l, t).Is(L.Link) {
      var k := L.PlaceOfLink(l, t);
      assert l.chain[k + 1] in l.chain;
    }
  }

  /**
    QUEUED is set exactly when the node is in the list, one thread or the poller is on its way to push it or
    has just popped it, or it is retired; these exclude each other, and no two threads are on their way.
   */
  lemma QueuedMeansOneRight(s: State, id: nat)
    requires Reachable(s) && id in s.nodes
    ensures s.nodes[id].word.queued <==>
      L.Node(id) in s.l.chain || (exists t :: HoldsPush(s, t, id)) || s.nodes[id].retired
    ensures forall t :: HoldsPush(s, t, id) ==> L.Node(id) !in s.l.chain && !s.nodes[id].retired
    ensures L.Node(id) in s.l.chain ==> !s.nodes[id].retired
    ensures forall t, u :: HoldsPush(s, t, id) && HoldsPush(s, u, id) ==> t == u
    ensures s.nodes[id].retired ==> s.nodes[id].word.dropped || s.l.closing
  {
    ReachableInv(s);
    assert NodeOk(s, id);
    forall t ensures HoldsPush(s, t, id) <==> L.Node(id) in s.l.owner && s.l.owner[L.Node(id)] == t {
      HolderIsOwner(s, t, id);
    }
    if L.Node(id) in s.l.owner {
      assert HoldsPush(s, s.l.owner[L.Node(id)], id);
      assert L.Rights(s.l);
    }
  }

  /** A node about to be swapped in at the head is not in the list. */
  lemma NeverPushedWhileLinked(s: State, t: Tid)
    requires Reachable(s) && L.Pending(L.PcOf(s.l, t))
    ensures L.PcOf(s.l, t).n !in s.l.chain
    ensures L.PcOf(s.l, t).n.Node? ==> HoldsPush(s, t, L.PcOf(s.l, t).n.id)
  {
    ReachableInv(s);
    assert L.PcOk(s.l, t);
    if L.PcOf(s.l, t).n.Node? {
      var id := L.PcOf(s.l, t).n.id;
      assert L.Tracked(s.l, id);
      HolderIsOwner(s, t, id);
    }
  }

  /** The reference count, its end and the queue's share in it. */
  lemma ReferenceCount(s: State, id: nat)
    requires Reachable(s) && id in s.nodes
    ensures var n := s.nodes[id];
      && n.refs == |HandlesOf(s.handles, id)| + (if n.holds then 1 else 0) - (if n.binder != L.Poller then 1 else 0)
      && (n.binder != L.Poller ==> OpOf(s, n.binder).At(BindCount) && OnNode(s, n.binder, id))
      && n.refs >= 0 && n.frees <= 1 && n.releases <= 1
      && (n.frees == 1 <==> HandlesOf(s.handles, id) == {} && !n.holds)
      && (n.releases == 1 ==> n.retired)
  {
    hide L.Inv;
    ReachableInv(s);
    assert NodeOk(s, id);
    var b := s.nodes[id].binder;
    if b != L.Poller {
      assert OpOk(s, b);
      assert OpOf(s, b).h in HandlesOf(s.handles, id);
    }
  }

  lemma Alive(s: State, id: nat)
    requires Reachable(s) && id in s.nodes && (s.nodes[id].holds || exists h :: h in HandlesOf(s.handles, id))
    ensures s.nodes[id].frees == 0
  {
    ReachableInv(s);
    ReferenceCount(s, id);
  }

  /** Nobody ever touches a freed node: not its owner, not a producer linking behind it, not the list, not poll. */
  lemma NoUseAfterFree(s: State)
    requires Reachable(s)
    ensures forall t :: OpOf(s, t).Doing? ==>
      OpOf(s, t).h in s.handles && s.handles[OpOf(s, t).h].node in s.nodes && s.nodes[s.handles[OpOf(s, t).h].node].frees == 0
    ensures forall id :: L.Node(id) in s.l.chain ==> id in s.nodes && s.nodes[id].frees == 0
    ensures forall t :: L.PcOf(s.l, t).Is(L.Link) && L.PcOf(s.l, t).prev.Node? ==>
      L.PcOf(s.l, t).prev.id in s.nodes && s.nodes[L.PcOf(s.l, t).prev.id].frees == 0
    ensures HasNode(s.poll.stage) || s.poll.stage == Read ==> s.poll.id in s.nodes && s.nodes[s.poll.id].frees == 0
  {
    ReachableInv(s);
    forall t | OpOf(s, t).Doing? ensures
      OpOf(s, t).h in s.handles && s.handles[OpOf(s, t).h].node in s.nodes && s.nodes[s.handles[OpOf(s, t).h].node].frees == 0
    {
      assert OpOk(s, t);
      assert OpOf(s, t).h in HandlesOf(s.handles, s.handles[OpOf(s, t).h].node);
      Alive(s, s.handles[OpOf(s, t).h].node);
    }
    forall id | L.Node(id) in s.l.chain ensures id in s.nodes && s.nodes[id].frees == 0 {
      assert L.Tracked(s.l, id);
      assert NodeOk(s, id);
      Alive(s, id);
    }
    forall t | L.PcOf(s.l, t).Is(L.Link) && L.PcOf(s.l, t).prev.Node? ensures L.PcOf(s.l, t).prev in s.l.chain {
      assert L.PcOk(s.l, t);
    }
    PollNodeAlive(s);
  }

  lemma PollNodeAlive(s: State)
    requires Reachable(s)
    ensures HasNode(s.poll.stage) || s.poll.stage == Read ==> s.poll.id in s.nodes && s.nodes[s.poll.id].frees == 0
  {
    ReachableInv(s);
    var id := s.poll.id;
    if s.poll.stage == Requeue {
      assert L.PcOk(s.l, L.Poller);
      L.RequeuePlace(s.l);
      assert NodeOk(s, id) && (L.Node(id) in s.l.owner ==> RightOk(s, id));
      if L.Node(id) in s.l.owner { HolderIsOwner(s, s.l.owner[L.Node(id)], id); }
      RequeueOwner(s, id);
      Alive(s, id);
    } else if HasNode(s.poll.stage) {
      HeldTracked(s, id);
      assert RightOk(s, id);
      Alive(s, id);
    } else if s.poll.stage == Read {
      Alive(s, id);
    }
  }

  lemma RequeueOwner(s: State, id: nat)
    requires Inv(s) && s.poll.stage == Requeue && id == s.poll.id && L.Tracked(s.l, id)
    ensures s.nodes[id].holds
  {
    assert L.PcOk(s.l, L.Poller) && NodeOk(s, id);
    if L.PcOf(s.l, L.Poller).Is(L.Link) {
      var k := L.PlaceOfLink(s.l, L.Poller);
      assert s.l.chain[k + 1] in s.l.chain;
    } else {
      assert RightOk(s, id);
    }
  }

  // ---------------------------------------------------------------------------------------------
  // Readiness is not lost
  // ---------------------------------------------------------------------------------------------

  /** A level-triggered node with something to report is queued. */
  predicate LevelOk(w: Word) { !Edge(w) && Effective(w) != NONE ==> w.queued }

  ghost predicate AllLevel(s: State) {
    forall id {:trigger s.nodes[id]} :: id in s.nodes ==> LevelOk(s.nodes[id].word)
  }

  lemma WordsKeepLevel(w: Word, ready: Flags, u: Update, pos: Pos)
    requires LevelOk(w)
    ensures LevelOk(SetNext(w, ready)) && LevelOk(UpdateNext(w, u, pos)) && LevelOk(PollNext(w))
    ensures LevelOk(w.(dropped := true, queued := true))
    ensures Effective(SetNext(w, ready)) != NONE ==> SetNext(w, ready).queued
    ensures Effective(UpdateNext(w, u, pos)) != NONE ==> UpdateNext(w, u, pos).queued
  {}

  /** Only this node's word changes, and it stays in order. */
  ghost predicate OneWord(nodes: map<nat, Node>, nodes': map<nat, Node>, id: nat) {
    && (id in nodes' ==> LevelOk(nodes'[id].word))
    && forall j {:trigger nodes'[j]} :: j in nodes' && j != id ==> j in nodes && nodes'[j] == nodes[j]
  }

  lemma OneWordKeeps(s: State, s': State, id: nat)
    requires AllLevel(s) && OneWord(s.nodes, s'.nodes, id)
    ensures AllLevel(s')
  {}

  lemma AnyNode(nodes: map<nat, Node>, id: nat)
    requires id in nodes && LevelOk(nodes[id].word)
    ensures OneWord(nodes, nodes, id)
    ensures forall n: Node {:trigger nodes[id := n]} :: LevelOk(n.word) ==> OneWord(nodes, nodes[id := n], id)
  {}

  lemma PushLevel(s: State, t: Tid, op: Op, id: nat, n: Node)
    requires id in s.nodes && n == s.nodes[id] && LevelOk(n.word) && op.Doing?
    ensures OneWord(s.nodes, PushAccess(s, t, op, id, n).nodes, id)
  {
    hide LevelOk;
    var r := L.PcOf(s.l, t).Is(L.Reject);
    assert PushAccess(s, t, op, id, n).nodes == s.nodes[id := if r then Retire(n) else n];
  }

  lemma SetLevel(s: State, t: Tid, op: Op, id: nat, n: Node)
    requires id in s.nodes && n == s.nodes[id] && LevelOk(n.word) && op.Doing?
    ensures OneWord(s.nodes, SetStep(s, t, op, id, n).nodes, id)
  {
    hide OneWord, PushAccess, Acquire, Abandon, SetNext, LevelOk, Effective;
    AnyNode(s.nodes, id);
    PushLevel(s, t, op, id, n);
    WordsKeepLevel(n.word, op.ready, op.u, op.pos);
  }

  lemma BindLevel(s: State, t: Tid, op: Op, id: nat, n: Node)
    requires id in s.nodes && n == s.nodes[id] && LevelOk(n.word) && op.Doing?
    ensures OneWord(s.nodes, BindStep(s, t, op, id, n).nodes, id)
  {
    hide OneWord, LevelOk;
    AnyNode(s.nodes, id);
  }

  lemma UpdateLevel(s: State, t: Tid, op: Op, id: nat, n: Node)
    requires id in s.nodes && n == s.nodes[id] && LevelOk(n.word) && op.Doing?
    ensures OneWord(s.nodes, UpdateStep(s, t, op, id, n).nodes, id)
  {
    hide OneWord, PushAccess, Acquire, UpdateNext, LevelOk, Effective;
    AnyNode(s.nodes, id);
    PushLevel(s, t, op, id, n);
    WordsKeepLevel(n.word, op.ready, op.u, op.pos);
  }

  lemma DropLevel(s: State, t: Tid, op: Op, id: nat, n: Node)
    requires id in s.nodes && n == s.nodes[id] && LevelOk(n.word) && op.Doing?
    ensures OneWord(s.nodes, DropStep(s, t, op, id, n).nodes, id)
  {
    hide OneWord, PushAccess, Acquire, Abandon, LevelOk, Effective;
    AnyNode(s.nodes, id);
    PushLevel(s, t, op, id, n);
    WordsKeepLevel(n.word, op.ready, op.u, op.pos);
  }

  lemma ThreadKeepsLevel(s: State, t: Tid)
    requires AllLevel(s)
    ensures AllLevel(ThreadStep(s, t))
  {
    hide SetStep, BindStep, UpdateStep, DropStep, LevelOk;
    var op := OpOf(s, t);
    if op.Doing? && op.h in s.handles && s.handles[op.h].node in s.nodes {
      var id := s.handles[op.h].node;
      SetLevel(s, t, op, id, s.nodes[id]);
      BindLevel(s, t, op, id, s.nodes[id]);
      UpdateLevel(s, t, op, id, s.nodes[id]);
      DropLevel(s, t, op, id, s.nodes[id]);
      OneWordKeeps(s, ThreadStep(s, t), id);
    }
  }

  lemma PollerKeepsLevel(s: State)
    requires AllLevel(s)
    ensures AllLevel(PollerStep(s))
  {
    hide AllLevel, PollerStep, OneWord;
    PollerLevel(s);
    OneWordKeeps(s, PollerStep(s), s.poll.id);
  }

  lemma PollerLevel(s: State)
    requires AllLevel(s)
    ensures OneWord(s.nodes, PollerStep(s).nodes, s.poll.id)
  {
    hide OneWord, L.Apply, ListAccess, Act, SawWord, LevelOk, PollNext;
    var id := s.poll.id;
    SameWords(s.nodes, id);
    if id in s.nodes {
      var n := s.nodes[id];
      AnyNode(s.nodes, id);
      WordsKeepLevel(n.word, NONE, Update(0, NONE, NONE), 0);
      LocalLevel(s, n.word, PollNext(n.word), n.slots);
      LocalLevel(SetNode(s, id, n.(word := PollNext(n.word))), n.word, PollNext(n.word), n.slots);
    }
  }

  lemma SameWords(nodes: map<nat, Node>, id: nat)
    requires id in nodes ==> LevelOk(nodes[id].word)
    ensures OneWord(nodes, nodes, id)
  {}

  /** What the polling thread does between two accesses leaves all words alone. */
  lemma LocalLevel(s: State, w: Word, next: Word, slots: Slots)
    ensures Act(s, w, next, slots).nodes == s.nodes && SawWord(s, w, slots).nodes == s.nodes
  {
    hide L.Apply, Effective, PollNext;
  }

  lemma ApplyKeepsLevel(s: State, a: Action)
    requires AllLevel(s) && Enabled(s, a)
    ensures AllLevel(Apply(s, a))
  {
    hide ThreadStep, PollerStep, L.Apply;
    match a
    case Step(t) => ThreadKeepsLevel(s, t);
    case PollStep => PollerKeepsLevel(s);
    case _ =>
  }

  lemma {:induction false} RunsKeepLevel(states: seq<State>, actions: seq<Action>, k: nat)
    requires Run(states, actions) && k < |states|
    ensures AllLevel(states[k])
  {
    if k == 0 {
    } else {
      RunsKeepLevel(states, actions, k - 1);
      assert StepAt(states, actions, k - 1);
      ApplyKeepsLevel(states[k - 1], actions[k - 1]);
    }
  }

  /**
    In every reachable state: a level-triggered node that has something to report, and is neither dropped nor left
    by a closing queue, is in the list or with somebody on the way to push it.
   */
  lemma ReadinessIsNotLost(s: State, id: nat)
    requires Reachable(s) && id in s.nodes
    requires var w := s.nodes[id].word; !Edge(w) && Effective(w) != NONE && !w.dropped && !s.l.closing
    ensures L.Node(id) in s.l.chain || exists t :: HoldsPush(s, t, id)
  {
    var states, actions :| Run(states, actions) && s in states;
    var k :| 0 <= k < |states| && states[k] == s;
    RunsKeepLevel(states, actions, k);
    QueuedMeansOneRight(s, id);
  }

  // ---------------------------------------------------------------------------------------------
  // The token slots
  // ---------------------------------------------------------------------------------------------

  /** The token that goes with the current state word. */
  function Published(n: Node): int { n.slots[n.word.wr] }

  /** While one thread writes a token slot, it is neither the published one nor one that poll may be reading. */
  lemma WriterAvoidsReader(s: State, t: Tid, id: nat)
    requires Reachable(s) && id in s.nodes && OpOf(s, t).At(UpdWrite) && OnNode(s, t, id)
    ensures OpOf(s, t).pos != s.nodes[id].word.wr && OpOf(s, t).pos != s.nodes[id].word.rd && OpOf(s, t).pos <= 2
    ensures s.poll.id == id && (s.poll.stage == Requeue || s.poll.stage == Read) ==> OpOf(s, t).pos != s.poll.pos
    ensures forall u :: OpOf(s, u).Doing? && HoldsLock(OpOf(s, u).stage) && OnNode(s, u, id) ==> u == t
  {
    hide L.Inv;
    ReachableInv(s);
    assert OpOk(s, t);
    forall u | OpOf(s, u).Doing? && HoldsLock(OpOf(s, u).stage) && OnNode(s, u, id) ensures u == t {
      assert OpOk(s, u);
    }
  }

  /** A successful swap of `update` publishes exactly the requested token. */
  lemma UpdatePublishes(s: State, t: Tid, id: nat)
    requires Reachable(s) && id in s.nodes && OpOf(s, t).At(UpdSwap) && OnNode(s, t, id)
    requires s.nodes[id].word == OpOf(s, t).seen
    ensures id in ThreadStep(s, t).nodes
    ensures var n' := ThreadStep(s, t).nodes[id];
      && Published(n') == OpOf(s, t).u.token
      && n'.word.interest == OpOf(s, t).u.interest && n'.word.opt == OpOf(s, t).u.opt
      && n'.word.readiness == s.nodes[id].word.readiness
      && (n'.word.queued <==> s.nodes[id].word.queued || Effective(n'.word) != NONE)
  {
    hide L.Inv, Inv, Reachable, NodeOk, HandleOk, RightOk, UpdateStep, SetStep, BindStep, DropStep, L.PcOf;
    ReachableInv(s);
    SwapIsSafe(s, t, id);
    SwapPublishes(s, t, OpOf(s, t), id, s.nodes[id]);
  }

  lemma SwapIsSafe(s: State, t: Tid, id: nat)
    requires Inv(s) && id in s.nodes && OpOf(s, t).At(UpdSwap) && OnNode(s, t, id)
    ensures s.nodes[id].slots[OpOf(s, t).pos] == OpOf(s, t).u.token
  {
    hide L.Inv, NodeOk, HandleOk, RightOk;
    assert OpOk(s, t);
  }

  lemma SwapPublishes(s: State, t: Tid, op: Op, id: nat, n: Node)
    requires op.At(UpdSwap) && n.word == op.seen && n.slots[op.pos] == op.u.token
    ensures id in UpdateStep(s, t, op, id, n).nodes
    ensures var n' := UpdateStep(s, t, op, id, n).nodes[id];
      && Published(n') == op.u.token
      && n'.word.interest == op.u.interest && n'.word.opt == op.u.opt && n'.word.readiness == n.word.readiness
      && (n'.word.queued <==> n.word.queued || Effective(n'.word) != NONE)
  {
    hide Acquire, PushAccess, BeginPush;
  }

  /** When poll acts on a state word, it keeps the readiness of that word and the token published with it. */
  lemma PollActsOnPublished(s: State)
    requires Reachable(s) && (s.poll.stage == Load || s.poll.stage == Swap)
    ensures s.poll.id in s.nodes && PollerStep(s).nodes.Keys == s.nodes.Keys
    ensures var p', n := PollerStep(s).poll, s.nodes[s.poll.id];
      p'.stage == Requeue || p'.stage == Read ==>
        && p'.id == s.poll.id && p'.token == Published(n) && p'.ready == Effective(n.word) && !n.word.dropped
        && PollerStep(s).nodes[p'.id].word == PollNext(n.word)
  {
    hide L.Inv, NodeOk, OpOk, HandleOk, RightOk, HandlesOf, L.Apply, Effective, Reachable, Inv;
    ReachableInv(s);
    PoppedIsKnown(s);
  }

  lemma PoppedIsKnown(s: State)
    requires Inv(s) && (s.poll.stage == Load || s.poll.stage == Swap)
    ensures s.poll.id in s.nodes && (s.poll.stage == Swap ==> !s.poll.seen.dropped)
  {
    hide L.Inv;
  }

  lemma ReadReports(s: State)
    requires Reachable(s) && s.poll.stage == Read
    ensures PollerStep(s).reports == s.reports + [Report(s.poll.id, s.poll.ready, s.poll.token)]
  {
    hide L.Inv;
    ReachableInv(s);
  }

  lemma RequeueKeepsReport(s: State)
    requires Reachable(s) && s.poll.stage == Requeue
    ensures var p' := PollerStep(s).poll; p'.id == s.poll.id && p'.ready == s.poll.ready && p'.token == s.poll.token
  {
    hide L.Inv;
    ReachableInv(s);
  }

  /** What the code asserts about the words it sees: poll only pops queued nodes, ... */
  lemma PoppedIsQueued(s: State)
    requires Reachable(s) && (s.poll.stage == Load || s.poll.stage == Swap || s.poll.stage == CloseLoad)
    ensures s.poll.id in s.nodes && s.nodes[s.poll.id].word.queued
  {
    ReachableInv(s);
    HeldTracked(s, s.poll.id);
    assert NodeOk(s, s.poll.id);
  }

  /** ... and `update` and the drop of a registration never meet a node already marked dropped. */
  lemma OwnerNotDropped(s: State, t: Tid, id: nat)
    requires Reachable(s) && id in s.nodes && OnNode(s, t, id) && OpOf(s, t).Doing?
    requires InUpdate(OpOf(s, t).stage) || OpOf(s, t).stage == Flag
    ensures !s.nodes[id].word.dropped
  {
    hide L.Inv;
    ReachableInv(s);
    assert OpOk(s, t);
    assert HandleOk(s, OpOf(s, t).h);
  }

  /** When the handle of a registration is given up, its node is marked dropped. */
  lemma ReleasedIsDropped(s: State, t: Tid)
    requires Reachable(s) && OpOf(s, t).At(Release)
    ensures OpOf(s, t).h in s.handles && s.handles[OpOf(s, t).h].node in s.nodes
    ensures s.handles[OpOf(s, t).h].reg ==> s.nodes[s.handles[OpOf(s, t).h].node].word.dropped
  {
    hide L.Inv;
    ReachableInv(s);
    assert OpOk(s, t);
  }
}
