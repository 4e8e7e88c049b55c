/**
  What a node has been told over a whole run: the readiness last set, and the interest, options and token last
  published.  Its state word and token slots say just that, and reports are made of it.
*/
module ReadinessTold {
  import L = ReadinessList
  import opened ReadinessNodes
  import opened ReadinessFacts
  import opened ReadinessReports

  datatype Told = Told(ready: Flags, interest: Flags, opt: Flags, token: int)

  const Untold := Told(NONE, NONE, NONE, 0)

  /** Some readiness that was set is of interest. */
  predicate Overlap(td: Told) {
    || (td.ready.b0 && td.interest.b0) || (td.ready.b1 && td.interest.b1)
    || (td.ready.b2 && td.interest.b2) || (td.ready.b3 && td.interest.b3)
  }

  predicate Creates(a: Action, id: nat) { (a.NewUnbound? || a.NewBound?) && a.id == id }

  /** A step by which `set_readiness` takes effect on the node. */
  predicate Sets(s: State, a: Action, id: nat) {
    && a.Step? && OnNode(s, a.t, id) && id in s.nodes
    && OpOf(s, a.t).At(SetSwap) && s.nodes[id].word == OpOf(s, a.t).seen
  }

  ghost predicate ActsOn(s: State, a: Action, id: nat) { Acts(s, a) && s.poll.id == id }

  /** What the node has been told after one more step. */
  ghost function Tell(s: State, a: Action, id: nat, td: Told): Told {
    if a.NewUnbound? && a.id == id then Untold
    else if a.NewBound? && a.id == id then Told(NONE, a.u.interest, a.u.opt, a.u.token)
    else if Sets(s, a, id) then td.(ready := OpOf(s, a.t).ready)
    else if Publishes(s, a, id) then
      var u := OpOf(s, a.t).u;
      td.(interest := u.interest, opt := u.opt, token := u.token)
    // an edge-triggered oneshot node that is reported is disarmed
    else if ActsOn(s, a, id) && td.opt.b0 && td.opt.b2 && Overlap(td) then td.(interest := NONE)
    else td
  }

  ghost function ToldAt(states: seq<State>, actions: seq<Action>, k: nat, id: nat): Told
    requires k <= |actions| && k < |states|
  {
    if k == 0 then Untold else Tell(states[k - 1], actions[k - 1], id, ToldAt(states, actions, k - 1, id))
  }

  /** What the node's own fields say. */
  function Says(n: Node): Told { Told(n.word.readiness, n.word.interest, n.word.opt, Published(n)) }

  // ---------------------------------------------------------------------------------------------
  // One step
  // ---------------------------------------------------------------------------------------------

  predicate InSet(st: Stage) { st == SetLoad || st == SetSwap || st == SetQueue || st == SetPush }

  /** The step changes at most node id, and leaves what that says as told by `td`. */
  ghost predicate Leaves(nodes: map<nat, Node>, nodes': map<nat, Node>, id: nat, td: Told) {
    && nodes'.Keys == nodes.Keys && id in nodes' && Says(nodes'[id]) == td
    && forall j {:trigger nodes'[j]} :: j in nodes' && j != id ==> nodes'[j] == nodes[j]
  }

  lemma OneLeaves(nodes: map<nat, Node>, id: nat)
    requires id in nodes
    ensures Leaves(nodes, nodes, id, Says(nodes[id]))
    ensures forall n: Node {:trigger nodes[id := n]} :: Leaves(nodes, nodes[id := n], id, Says(n))
  {}

  lemma PushSays(s: State, t: Tid, op: Op, id: nat, n: Node)
    requires id in s.nodes && n == s.nodes[id] && op.Doing?
    ensures Leaves(s.nodes, PushAccess(s, t, op, id, n).nodes, id, Says(n))
  {
    hide Leaves, L.Apply;
    OneLeaves(s.nodes, id);
  }

  lemma SetSays(s: State, t: Tid, op: Op, id: nat, n: Node)
    requires id in s.nodes && n == s.nodes[id] && op.Doing?
    ensures Leaves(s.nodes, SetStep(s, t, op, id, n).nodes, id,
                   if op.stage == SetSwap && n.word == op.seen then Says(n).(ready := op.ready) else Says(n))
  {
    hide Leaves, PushAccess, L.Apply;
    OneLeaves(s.nodes, id);
    PushSays(s, t, op, id, n);
  }

  lemma BindSays(s: State, t: Tid, op: Op, id: nat, n: Node)
    requires id in s.nodes && n == s.nodes[id] && op.Doing?
    ensures Leaves(s.nodes, BindStep(s, t, op, id, n).nodes, id, Says(n))
  {
    hide Leaves;
    OneLeaves(s.nodes, id);
  }

  lemma UpdateSays(s: State, t: Tid, op: Op, id: nat, n: Node)
    requires id in s.nodes && n == s.nodes[id] && op.Doing? && PlaceOk(op, t, n, s.l.closing)
    ensures Leaves(s.nodes, UpdateStep(s, t, op, id, n).nodes, id,
                   if op.stage == UpdSwap && n.word == op.seen
                   then Says(n).(interest := op.u.interest, opt := op.u.opt, token := op.u.token) else Says(n))
  {
    hide Leaves, PushAccess, L.Apply;
    OneLeaves(s.nodes, id);
    PushSays(s, t, op, id, n);
  }

  lemma DropSays(s: State, t: Tid, op: Op, id: nat, n: Node)
    requires id in s.nodes && n == s.nodes[id] && op.Doing?
    ensures Leaves(s.nodes, DropStep(s, t, op, id, n).nodes, id, Says(n))
  {
    hide Leaves, PushAccess, L.Apply;
    OneLeaves(s.nodes, id);
    PushSays(s, t, op, id, n);
  }

  lemma ThreadSays(s: State, t: Tid, id: nat)
    requires Inv(s) && OpOf(s, t).Doing? && id in s.nodes
    ensures id in ThreadStep(s, t).nodes && Says(ThreadStep(s, t).nodes[id]) == Tell(s, Step(t), id, Says(s.nodes[id]))
  {
    hide SetStep, BindStep, UpdateStep, DropStep, L.Inv, NodeOk, HandleOk, RightOk, Says, PollerStep;
    var op := OpOf(s, t);
    assert OpOk(s, t);
    var j := s.handles[op.h].node;
    var n := s.nodes[j];
    hide Inv, OpOk, PlaceOk, Leaves;
    if InSet(op.stage) {
      SetSays(s, t, op, j, n);
      LeftBy(s, t, id, j, SetStep(s, t, op, j, n));
    } else if Owned(op.stage) {
      DropSays(s, t, op, j, n);
      LeftBy(s, t, id, j, DropStep(s, t, op, j, n));
    } else if HoldsLock(op.stage) || op.stage == UpdPush {
      UpdateSays(s, t, op, j, n);
      LeftBy(s, t, id, j, UpdateStep(s, t, op, j, n));
    } else {
      BindSays(s, t, op, j, n);
      LeftBy(s, t, id, j, BindStep(s, t, op, j, n));
    }
  }

  /** What a thread's step on node j leaves is what is told of any node id. */
  lemma LeftBy(s: State, t: Tid, id: nat, j: nat, s': State)
    requires OnNode(s, t, j) && j in s.nodes && id in s.nodes
    requires var n, op := s.nodes[j], OpOf(s, t);
      Leaves(s.nodes, s'.nodes, j,
        if op.stage == SetSwap && n.word == op.seen then Says(n).(ready := op.ready)
        else if op.stage == UpdSwap && n.word == op.seen then
          Says(n).(interest := op.u.interest, opt := op.u.opt, token := op.u.token)
        else Says(n))
    ensures id in s'.nodes && Says(s'.nodes[id]) == Tell(s, Step(t), id, Says(s.nodes[id]))
  {
    hide Says, PollerStep;
  }

  lemma PollerSays(s: State, id: nat)
    requires Inv(s) && id in s.nodes && Enabled(s, PollStep)
    ensures id in PollerStep(s).nodes && Says(PollerStep(s).nodes[id]) == Tell(s, PollStep, id, Says(s.nodes[id]))
  {
    hide L.Inv, NodeOk, HandleOk, RightOk, OpOk;
    if s.poll.stage == Load || s.poll.stage == Swap {
      PoppedIsKnown(s);
      hide Inv;
      WordSays(s, id);
    } else {
      hide Inv;
      StillSays(s, id);
    }
  }

  lemma StillSays(s: State, id: nat)
    requires id in s.nodes && s.poll.stage != Load && s.poll.stage != Swap
    ensures id in PollerStep(s).nodes && Says(PollerStep(s).nodes[id]) == Says(s.nodes[id])
  {
    hide L.Apply, ListAccess;
  }

  lemma WordSays(s: State, id: nat)
    requires id in s.nodes && s.poll.id in s.nodes && (s.poll.stage == Load || s.poll.stage == Swap)
    requires s.poll.stage == Swap ==> !s.poll.seen.dropped
    ensures id in PollerStep(s).nodes && Says(PollerStep(s).nodes[id]) == Tell(s, PollStep, id, Says(s.nodes[id]))
  {
    hide L.Apply, ListAccess;
    var n := s.nodes[s.poll.id];
    LocalLevel(s, n.word, PollNext(n.word), n.slots);
    LocalLevel(SetNode(s, s.poll.id, n.(word := PollNext(n.word))), n.word, PollNext(n.word), n.slots);
  }

  lemma ActionSays(s: State, a: Action, id: nat)
    requires Inv(s) && Enabled(s, a) && (id in s.nodes || Creates(a, id))
    ensures id in Apply(s, a).nodes
    ensures Says(Apply(s, a).nodes[id]) == Tell(s, a, id, if id in s.nodes then Says(s.nodes[id]) else Untold)
  {
    hide ThreadStep, PollerStep, L.Apply, L.Inv, NodeOk, HandleOk, RightOk, OpOk, Unused, PollOk, L.Enabled;
    match a
    case Step(t) => ThreadSays(s, t, id);
    case PollStep => PollerSays(s, id);
    case _ =>
  }

  // ---------------------------------------------------------------------------------------------
  // Runs
  // ---------------------------------------------------------------------------------------------

  /**
    In every state of every run, the word and the published token of a node say what it has been told: the readiness is
    the argument of the last `set_readiness` that took effect on it, and none before any; interest, options and token
    are those last published, except that poll has taken back the interest of a reported edge-triggered oneshot node.
   */
  lemma {:induction false} NodeSaysWhatItWasTold(states: seq<State>, actions: seq<Action>, k: nat, id: nat)
    requires Run(states, actions) && k < |states|
    ensures id in states[k].nodes ==> Says(states[k].nodes[id]) == ToldAt(states, actions, k, id)
    ensures id !in states[k].nodes ==> ToldAt(states, actions, k, id) == Untold
  {
    hide Inv, Apply, Enabled, Says, Tell;
    if k == 0 {
    } else {
      var s, a := states[k - 1], actions[k - 1];
      RunsKeepInvariant(states, actions, k - 1);
      NodeSaysWhatItWasTold(states, actions, k - 1, id);
      assert StepAt(states, actions, k - 1);
      assert ToldAt(states, actions, k, id) == Tell(s, a, id, ToldAt(states, actions, k - 1, id));
      hide Run, ToldAt;
      if id in s.nodes || Creates(a, id) { ActionSays(s, a, id); } else { StaysUnknown(s, a, id); }
    }
  }

  lemma StaysUnknown(s: State, a: Action, id: nat)
    requires Inv(s) && Enabled(s, a) && id !in s.nodes && !Creates(a, id)
    ensures id !in Apply(s, a).nodes && Tell(s, a, id, Untold) == Untold
  {
    hide ThreadStep, PollerStep, L.Apply, L.Inv, NodeOk, HandleOk, RightOk, OpOk, Unused, L.Enabled;
    match a
    case Step(t) => ThreadAddsNothing(s, t);
    case PollStep => PollerAddsNothing(s);
    case CloneHandle(h, _) => assert HandleOk(s, h);
    case _ =>
  }

  lemma ThreadAddsNothing(s: State, t: Tid)
    requires Inv(s) && OpOf(s, t).Doing?
    ensures ThreadStep(s, t).nodes.Keys == s.nodes.Keys
  {
    hide SetStep, BindStep, UpdateStep, DropStep, L.Inv, NodeOk, HandleOk, RightOk, Says;
    var op := OpOf(s, t);
    assert OpOk(s, t);
    var j := s.handles[op.h].node;
    SetSays(s, t, op, j, s.nodes[j]);
    BindSays(s, t, op, j, s.nodes[j]);
    UpdateSays(s, t, op, j, s.nodes[j]);
    DropSays(s, t, op, j, s.nodes[j]);
  }

  lemma PollerAddsNothing(s: State)
    ensures PollerStep(s).nodes.Keys == s.nodes.Keys
  {
    hide L.Apply, ListAccess, Act, SawWord;
    if s.poll.id in s.nodes {
      var n := s.nodes[s.poll.id];
      LocalLevel(s, n.word, PollNext(n.word), n.slots);
      LocalLevel(SetNode(s, s.poll.id, n.(word := PollNext(n.word))), n.word, PollNext(n.word), n.slots);
    }
  }

  /**
    What poll reports, over whole runs: for every report there is the earlier step at which poll acted on that node, not
    dropped; the report carries just those flags that the node had been told to be ready with and to be of interest by
    then, of which there is one, and the token it had been told.
   */
  lemma ReportIsTold(states: seq<State>, actions: seq<Action>, k: nat) returns (j: nat)
    requires Run(states, actions) && k < |actions| && states[k + 1].reports != states[k].reports
    ensures ActedAt(states, actions, j, k) && !states[j].nodes[states[j].poll.id].word.dropped
    ensures var id := states[j].poll.id; var td := ToldAt(states, actions, j, id);
      && Overlap(td)
      && states[k + 1].reports == states[k].reports + [Report(id,
           Flags(td.ready.b0 && td.interest.b0, td.ready.b1 && td.interest.b1,
                 td.ready.b2 && td.interest.b2, td.ready.b3 && td.interest.b3),
           td.token)]
  {
    hide Apply, Enabled, Inv, Run, PollNext, PollerStep, ToldAt;
    j := ReportIsPublished(states, actions, k);
    NodeSaysWhatItWasTold(states, actions, j, states[j].poll.id);
  }

  // ---------------------------------------------------------------------------------------------
  // Arguments
  // ---------------------------------------------------------------------------------------------

  /** The call that thread t is in the middle of. */
  predicate Began(a: Action, t: Tid, op: Op) {
    op.Doing? &&
      if InSet(op.stage) then a == CallSet(t, op.h, op.ready)
      else if Owned(op.stage) then a == CallDrop(t, op.h)
      else a == CallUpdate(t, op.h, op.u)
  }

  predicate SameCall(op: Op, op': Op) {
    && op.Doing? && op'.Doing? && op'.h == op.h && op'.ready == op.ready && op'.u == op.u
    && InSet(op'.stage) == InSet(op.stage) && Owned(op'.stage) == Owned(op.stage)
  }

  /** Thread t goes on with its call, or is through; nobody else moves. */
  ghost predicate GoesOn(ops: map<Tid, Op>, ops': map<Tid, Op>, t: Tid, op: Op) {
    && (t in ops' && ops'[t].Doing? ==> SameCall(op, ops'[t]))
    && forall u: Tid :: u != t ==> (u in ops' <==> u in ops) && (u in ops ==> ops'[u] == ops[u])
  }

  lemma OneGoesOn(ops: map<Tid, Op>, t: Tid, op: Op)
    ensures forall op': Op {:trigger ops[t := op']} :: (op'.Doing? ==> SameCall(op, op')) ==> GoesOn(ops, ops[t := op'], t, op)
  {}

  lemma PushGoesOn(s: State, t: Tid, op: Op, id: nat, n: Node)
    requires op.Doing?
    ensures GoesOn(s.ops, PushAccess(s, t, op, id, n).ops, t, op)
  {
    hide L.Apply, L.PcOf, GoesOn;
    OneGoesOn(s.ops, t, op);
  }

  lemma SetGoesOn(s: State, t: Tid, op: Op, id: nat, n: Node)
    requires op.Doing? && InSet(op.stage)
    ensures GoesOn(s.ops, SetStep(s, t, op, id, n).ops, t, op)
  {
    hide L.Apply, SetNext, GoesOn, PushAccess;
    OneGoesOn(s.ops, t, op);
    PushGoesOn(s, t, op, id, n);
  }

  lemma BindGoesOn(s: State, t: Tid, op: Op, id: nat, n: Node)
    requires op.Doing? && !InSet(op.stage) && !Owned(op.stage)
    ensures GoesOn(s.ops, BindStep(s, t, op, id, n).ops, t, op)
  {
    hide GoesOn;
    OneGoesOn(s.ops, t, op);
  }

  lemma UpdateGoesOn(s: State, t: Tid, op: Op, id: nat, n: Node)
    requires op.Doing? && !InSet(op.stage) && !Owned(op.stage)
    ensures GoesOn(s.ops, UpdateStep(s, t, op, id, n).ops, t, op)
  {
    hide L.Apply, UpdateNext, GoesOn, PushAccess;
    OneGoesOn(s.ops, t, op);
    PushGoesOn(s, t, op, id, n);
  }

  lemma DropGoesOn(s: State, t: Tid, op: Op, id: nat, n: Node)
    requires op.Doing? && Owned(op.stage)
    ensures GoesOn(s.ops, DropStep(s, t, op, id, n).ops, t, op)
  {
    hide L.Apply, GoesOn, PushAccess;
    OneGoesOn(s.ops, t, op);
    PushGoesOn(s, t, op, id, n);
  }

  lemma ThreadGoesOn(s: State, u: Tid, t: Tid)
    ensures OpOf(ThreadStep(s, u), t).Doing? ==> OpOf(s, t).Doing? && SameCall(OpOf(s, t), OpOf(ThreadStep(s, u), t))
  {
    hide SetStep, BindStep, UpdateStep, DropStep;
    var op := OpOf(s, u);
    if op.Doing? && op.h in s.handles && s.handles[op.h].node in s.nodes {
      var id := s.handles[op.h].node;
      var n := s.nodes[id];
      if InSet(op.stage) { SetGoesOn(s, u, op, id, n); }
      else if Owned(op.stage) { DropGoesOn(s, u, op, id, n); }
      else { BindGoesOn(s, u, op, id, n); UpdateGoesOn(s, u, op, id, n); }
    }
  }

  lemma ActionGoesOn(s: State, a: Action, t: Tid)
    requires Enabled(s, a) && OpOf(Apply(s, a), t).Doing?
    ensures Began(a, t, OpOf(Apply(s, a), t)) || (OpOf(s, t).Doing? && SameCall(OpOf(s, t), OpOf(Apply(s, a), t)))
  {
    hide ThreadStep, PollerStep, L.Apply, Unused, L.Enabled, SameCall, Began;
    if a.Step? {
      ThreadGoesOn(s, a.t, t);
    } else if a.PollStep? {
      PollerKeepsOps(s);
      SameCallSelf(OpOf(s, t));
    } else {
      OtherGoesOn(s, a, t);
    }
  }

  lemma SameCallSelf(op: Op)
    ensures op.Doing? ==> SameCall(op, op)
  {}

  lemma OtherGoesOn(s: State, a: Action, t: Tid)
    requires !a.Step? && !a.PollStep? && Enabled(s, a) && OpOf(Apply(s, a), t).Doing?
    ensures Began(a, t, OpOf(Apply(s, a), t)) || (OpOf(s, t).Doing? && SameCall(OpOf(s, t), OpOf(Apply(s, a), t)))
  {
    hide L.Apply, Unused, L.Enabled;
  }

  lemma PollerKeepsOps(s: State)
    ensures PollerStep(s).ops == s.ops
  {
    hide L.Apply, ListAccess, PollNext, Effective;
  }

  /** Whatever a thread is in the middle of, it was called to do, with these arguments, and has not left it since. */
  lemma {:induction false} OpWasCalled(states: seq<State>, actions: seq<Action>, k: nat, t: Tid) returns (j: nat)
    requires Run(states, actions) && k < |states| && OpOf(states[k], t).Doing?
    ensures j < k && Began(actions[j], t, OpOf(states[k], t))
    ensures forall i :: j < i <= k ==> SameCall(OpOf(states[i], t), OpOf(states[k], t))
  {
    hide Apply, Enabled, OpOf;
    assert k > 0 by { NobodyAtFirst(t); }
    assert StepAt(states, actions, k - 1);
    ActionGoesOn(states[k - 1], actions[k - 1], t);
    if Began(actions[k - 1], t, OpOf(states[k], t)) {
      j := k - 1;
    } else {
      j := OpWasCalled(states, actions, k - 1, t);
    }
  }

  lemma NobodyAtFirst(t: Tid)
    ensures OpOf(Initial, t).Free?
  {}

  // ---------------------------------------------------------------------------------------------
  // Nothing that was told is lost
  // ---------------------------------------------------------------------------------------------

  predicate QueuedIn(nodes: map<nat, Node>, id: nat) { id in nodes && nodes[id].word.queued }

  lemma OneQueued(nodes: map<nat, Node>, j: nat, id: nat)
    requires j in nodes
    ensures j == id && QueuedIn(nodes, id) ==> nodes[j].word.queued
    ensures forall n: Node {:trigger nodes[j := n]} :: (if j == id then n.word.queued else QueuedIn(nodes, id)) ==> QueuedIn(nodes[j := n], id)
  {}

  lemma PushQueued(s: State, t: Tid, op: Op, j: nat, n: Node, id: nat)
    requires j in s.nodes && n == s.nodes[j] && op.Doing? && QueuedIn(s.nodes, id)
    ensures QueuedIn(PushAccess(s, t, op, j, n).nodes, id)
  {
    hide L.Apply;
  }

  lemma WordsStayQueued(w: Word, ready: Flags, u: Update, pos: Pos, token: int)
    ensures w.queued ==> SetNext(w, ready).queued && UpdateNext(w, u, pos).queued
    ensures Overlap(Told(ready, w.interest, w.opt, token)) ==> SetNext(w, ready).queued
    ensures Overlap(Told(w.readiness, u.interest, u.opt, u.token)) ==> UpdateNext(w, u, pos).queued
  {}

  lemma SetQueued(s: State, t: Tid, op: Op, j: nat, n: Node, id: nat)
    requires j in s.nodes && n == s.nodes[j] && op.Doing? && QueuedIn(s.nodes, id)
    ensures QueuedIn(SetStep(s, t, op, j, n).nodes, id)
  {
    hide PushAccess, L.Apply, SetNext, QueuedIn;
    OneQueued(s.nodes, j, id);
    if op.stage == SetSwap {
      WordsStayQueued(n.word, op.ready, op.u, op.pos, 0);
    } else {
      PushQueued(s, t, op, j, n, id);
    }
  }

  lemma SetSwapQueues(s: State, t: Tid, op: Op, j: nat, n: Node)
    requires j in s.nodes && n == s.nodes[j] && op.At(SetSwap) && n.word == op.seen
    requires Overlap(Told(op.ready, n.word.interest, n.word.opt, Published(n)))
    ensures QueuedIn(SetStep(s, t, op, j, n).nodes, j)
  {
    hide PushAccess, L.Apply, SetNext, QueuedIn, Overlap, Published;
    WordsStayQueued(n.word, op.ready, op.u, op.pos, Published(n));
    OneQueued(s.nodes, j, j);
  }

  lemma BindQueued(s: State, t: Tid, op: Op, j: nat, n: Node, id: nat)
    requires j in s.nodes && n == s.nodes[j] && op.Doing? && QueuedIn(s.nodes, id)
    ensures QueuedIn(BindStep(s, t, op, j, n).nodes, id)
  {
    hide QueuedIn;
    OneQueued(s.nodes, j, id);
  }

  lemma UpdateQueued(s: State, t: Tid, op: Op, j: nat, n: Node, id: nat)
    requires j in s.nodes && n == s.nodes[j] && op.Doing? && QueuedIn(s.nodes, id)
    ensures QueuedIn(UpdateStep(s, t, op, j, n).nodes, id)
  {
    hide UpdateStep, QueuedIn, PushAccess;
    if op.stage == UpdSwap {
      SwappedQueued(s, t, op, j, n, id);
    } else {
      PushQueued(s, t, op, j, n, id);
      UnswappedQueued(s, t, op, j, n, id);
    }
  }

  lemma SwappedQueued(s: State, t: Tid, op: Op, j: nat, n: Node, id: nat)
    requires j in s.nodes && n == s.nodes[j] && op.At(UpdSwap) && QueuedIn(s.nodes, id)
    ensures QueuedIn(UpdateStep(s, t, op, j, n).nodes, id)
  {
    hide PushAccess, L.Apply, UpdateNext, QueuedIn, NextTokenPos;
    OneQueued(s.nodes, j, id);
    WordsStayQueued(n.word, op.ready, op.u, op.pos, 0);
  }

  lemma UnswappedQueued(s: State, t: Tid, op: Op, j: nat, n: Node, id: nat)
    requires j in s.nodes && n == s.nodes[j] && op.Doing? && op.stage != UpdSwap && QueuedIn(s.nodes, id)
    requires QueuedIn(PushAccess(s, t, op, j, n).nodes, id)
    ensures QueuedIn(UpdateStep(s, t, op, j, n).nodes, id)
  {
    hide PushAccess, L.Apply, UpdateNext, QueuedIn, NextTokenPos;
    OneQueued(s.nodes, j, id);
  }

  lemma UpdSwapQueues(s: State, t: Tid, op: Op, j: nat, n: Node)
    requires j in s.nodes && n == s.nodes[j] && op.At(UpdSwap) && n.word == op.seen
    requires Overlap(Told(n.word.readiness, op.u.interest, op.u.opt, op.u.token))
    ensures QueuedIn(UpdateStep(s, t, op, j, n).nodes, j)
  {
    hide PushAccess, L.Apply, UpdateNext, QueuedIn, Overlap;
    WordsStayQueued(n.word, op.ready, op.u, op.pos, 0);
    OneQueued(s.nodes, j, j);
  }

  lemma DropQueued(s: State, t: Tid, op: Op, j: nat, n: Node, id: nat)
    requires j in s.nodes && n == s.nodes[j] && op.Doing? && QueuedIn(s.nodes, id)
    ensures QueuedIn(DropStep(s, t, op, j, n).nodes, id)
  {
    hide PushAccess, L.Apply, QueuedIn;
    OneQueued(s.nodes, j, id);
    PushQueued(s, t, op, j, n, id);
  }

  /** This step tells the node something of which it has to be queued. */
  ghost predicate Alerts(s: State, a: Action, id: nat) {
    (Sets(s, a, id) || Publishes(s, a, id)) && Overlap(Tell(s, a, id, Says(s.nodes[id])))
  }

  lemma ThreadQueued(s: State, t: Tid, id: nat)
    requires QueuedIn(s.nodes, id) || Alerts(s, Step(t), id)
    ensures QueuedIn(ThreadStep(s, t).nodes, id)
  {
    hide SetStep, BindStep, UpdateStep, DropStep, PollerStep;
    var op := OpOf(s, t);
    if op.Doing? && op.h in s.handles && s.handles[op.h].node in s.nodes {
      var j := s.handles[op.h].node;
      var n := s.nodes[j];
      if QueuedIn(s.nodes, id) {
        SetQueued(s, t, op, j, n, id);
        BindQueued(s, t, op, j, n, id);
        UpdateQueued(s, t, op, j, n, id);
        DropQueued(s, t, op, j, n, id);
      } else if Sets(s, Step(t), id) {
        SetSwapQueues(s, t, op, j, n);
      } else {
        UpdSwapQueues(s, t, op, j, n);
      }
    }
  }

  /** Poll gives up a node that is ready only at a step at which it acts on it. */
  lemma PollerQueued(s: State, id: nat)
    requires QueuedIn(s.nodes, id) && Overlap(Says(s.nodes[id])) && !ActsOn(s, PollStep, id)
    requires s.poll.stage == Swap ==> !s.poll.seen.dropped
    ensures QueuedIn(PollerStep(s).nodes, id)
  {
    hide ListAccess, L.Apply;
    var j := s.poll.id;
    if j in s.nodes {
      var n := s.nodes[j];
      LocalLevel(s, n.word, PollNext(n.word), n.slots);
      LocalLevel(SetNode(s, j, n.(word := PollNext(n.word))), n.word, PollNext(n.word), n.slots);
    }
  }

  lemma ActionQueued(s: State, a: Action, id: nat)
    requires Inv(s) && Enabled(s, a)
    requires Alerts(s, a, id) || (QueuedIn(s.nodes, id) && Overlap(Says(s.nodes[id])) && !ActsOn(s, a, id))
    ensures QueuedIn(Apply(s, a).nodes, id)
  {
    hide ThreadStep, PollerStep, L.Apply, Unused, Idle, Alerts, Acts, L.Inv, NodeOk, HandleOk, RightOk, OpOk, L.Enabled;
    match a
    case Step(t) => ThreadQueued(s, t, id);
    case PollStep =>
      NoAlert(s, id);
      PollerQueued(s, id);
    case _ => NoOtherAlert(s, a, id);
  }

  lemma NoAlert(s: State, id: nat)
    ensures !Alerts(s, PollStep, id)
  {}

  lemma NoOtherAlert(s: State, a: Action, id: nat)
    requires !a.Step?
    ensures !Alerts(s, a, id)
  {}

  /** From the step that alerts it on, and as long as there is something to report and poll has not acted on it. */
  ghost predicate Unreported(states: seq<State>, actions: seq<Action>, j: nat, k: nat, id: nat)
    requires k <= |actions| && |actions| < |states|
  {
    && j < k && (Sets(states[j], actions[j], id) || Publishes(states[j], actions[j], id))
    && (forall i: nat :: j < i <= k ==> Overlap(ToldAt(states, actions, i, id)))
    && (forall i: nat {:trigger states[i]} :: j < i < k ==> !ActsOn(states[i], actions[i], id))
  }

  lemma {:induction false} StaysQueued(states: seq<State>, actions: seq<Action>, j: nat, k: nat, id: nat)
    requires Run(states, actions) && k <= |actions| && Unreported(states, actions, j, k, id)
    ensures QueuedIn(states[k].nodes, id)
    decreases k
  {
    hide Apply, Enabled, Inv, Acts, Sets, Publishes, Says, Overlap;
    RunsKeepInvariant(states, actions, k - 1);
    NodeSaysWhatItWasTold(states, actions, k - 1, id);
    assert StepAt(states, actions, k - 1);
    if j == k - 1 {
      assert Overlap(ToldAt(states, actions, k, id));
      SetsKnown(states[j], actions[j], id);
    } else {
      StaysQueued(states, actions, j, k - 1, id);
      assert Overlap(ToldAt(states, actions, k - 1, id));
    }
    ActionQueued(states[k - 1], actions[k - 1], id);
  }

  lemma SetsKnown(s: State, a: Action, id: nat)
    requires Sets(s, a, id) || Publishes(s, a, id)
    ensures id in s.nodes
  {}

  /**
    Edge-triggered or not: from the step at which the node is told something that is ready and of interest, and until poll
    acts on it or it is told otherwise, it is in the list or with somebody on the way to push it, unless it is dropped or
    the queue is closing.
   */
  lemma ReadyIsNotLost(states: seq<State>, actions: seq<Action>, j: nat, k: nat, id: nat)
    requires Run(states, actions) && k <= |actions| && Unreported(states, actions, j, k, id)
    ensures id in states[k].nodes
    ensures states[k].nodes[id].word.dropped || states[k].l.closing
      || L.Node(id) in states[k].l.chain || exists t :: HoldsPush(states[k], t, id)
  {
    hide Apply, Enabled, Inv, HoldsPush;
    StaysQueued(states, actions, j, k, id);
    assert Reachable(states[k]);
    QueuedMeansOneRight(states[k], id);
  }

  /** When poll acts on a node, it goes back into the list exactly if it is level-triggered and there is something to report. */
  lemma ActRequeues(states: seq<State>, actions: seq<Action>, k: nat)
    requires Run(states, actions) && k < |actions| && Acts(states[k], actions[k])
    ensures states[k].poll.id in states[k + 1].nodes
    ensures var id := states[k].poll.id; var td := ToldAt(states, actions, k, id);
      && (states[k + 1].poll.stage == Requeue <==> !td.opt.b0 && Overlap(td))
      && (states[k + 1].nodes[id].word.queued <==> !td.opt.b0 && Overlap(td))
  {
    hide Apply, Enabled, Inv, ToldAt;
    assert StepAt(states, actions, k) && Reachable(states[k]);
    PoppedIsQueued(states[k]);
    NodeSaysWhatItWasTold(states, actions, k, states[k].poll.id);
    RequeuesReady(states[k], actions[k]);
  }

  lemma RequeuesReady(s: State, a: Action)
    requires Enabled(s, a) && Acts(s, a) && s.nodes[s.poll.id].word.queued
    ensures s.poll.id in Apply(s, a).nodes
    ensures var n := s.nodes[s.poll.id];
      && (Apply(s, a).poll.stage == Requeue <==> !n.word.opt.b0 && Overlap(Says(n)))
      && (Apply(s, a).nodes[s.poll.id].word.queued <==> !n.word.opt.b0 && Overlap(Says(n)))
  {
    hide L.Apply, ListAccess;
  }
}
