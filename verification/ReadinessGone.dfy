/**
  What the drop of the readiness queue releases and what it leaves behind: it takes out every node if and only if
  its last look behind a marker did not fall between a producer's swap and its link.
*/
module ReadinessGone {
  import L = ReadinessList
  import opened ReadinessNodes
  import opened ReadinessFacts
  import opened ReadinessSteps
  import opened ReadinessClose

  // ---------------------------------------------------------------------------------------------
  // The load that ends the drop
  // ---------------------------------------------------------------------------------------------

  /** Some thread has swapped its node in behind p and still has to link it. */
  ghost predicate LinkOwed(l: L.List, p: L.Ptr) {
    exists t :: L.PcOf(l, t).Is(L.Link) && L.PcOf(l, t).prev == p
  }

  /** The drop is about to load the next pointer of a marker at the tail, and will find null. */
  predicate FindsNull(s: State) {
    s.poll.stage == CloseDequeue && s.l.con.Deq? && L.Marker(s.l.tail) && s.l.tail !in s.l.next
  }

  /** What all states of a run have in common with regard to the drop. */
  ghost predicate CloseOk(s: State) { Inv(s) && Closes(s.l) && ClosedIn(s) }

  lemma NullMeans(s: State)
    requires CloseOk(s) && FindsNull(s)
    ensures L.Data(s.l.chain) == [] <==> !LinkOwed(s.l, s.l.tail)
    ensures s.l.tail == L.Sleep ==> LinkOwed(s.l, s.l.tail)
  {
    hide L.Rights, L.NoLostWakeup, L.History, L.Data;
    assert L.PcOf(s.l, L.Poller).Out?;
    if s.l.tail == L.Closed {
      NothingBehindClosed(s.l);
    } else {
      OwedIsData(s.l);
    }
  }

  lemma NothingBehindClosed(l: L.List)
    requires L.Inv(l) && l.tail == L.Closed
    ensures L.Data(l.chain) == [] && !LinkOwed(l, l.tail)
  {
    hide L.ConsumerPlace, L.NoLostWakeup, L.History, L.Follows, L.Data;
    assert L.Closed in l.chain && l.chain[|l.chain| - 1] == L.Closed && |l.chain| == 1;
    assert l.chain == [L.Closed];
    L.MarkerData(L.Closed);
    forall t | L.PcOf(l, t).Is(L.Link) ensures L.PcOf(l, t).prev != l.tail {
      assert L.PcOk(l, t);
    }
  }

  /** The drop ends at such a load, or right after it has put the end marker in place of the sleep marker. */
  lemma DropEnds(s: State)
    requires CloseOk(s) && s.poll.stage == CloseDequeue
    ensures var s' := PollerStep(s);
      && (s'.poll.stage == Gone ==> s'.l.chain == s.l.chain && (FindsNull(s) || Dropping(s.l.con)))
      && (Dropping(s'.l.con) ==> Dropping(s.l.con) || (FindsNull(s) && s.l.tail == L.Sleep))
  {
    AccessEnabled(s);
    assert PollOk(s) && L.PollerPush(s.l) && (L.Closed in s.l.chain ==> s.l.head == L.Closed);
    hide Inv, CloseOk, L.Inv, Closes, L.PollStep, L.PushStep, L.Data, PollerStep, ListAccess;
    CloseStep(s);
    AccessIs(s.l);
    if L.PcOf(s.l, L.Poller).At? {
      StubGoesOn(s.l);
    } else {
      if L.PollStep(s.l).con == L.GotNothing(false) { EmptyFound(s.l); }
      DroppingSince(s.l);
    }
  }

  lemma AccessIs(l: L.List)
    ensures L.PcOf(l, L.Poller).Out? ==> ListAccess(l) == L.PollStep(l)
  {
    hide L.PollStep, L.PushStep;
  }

  lemma CloseStep(s: State)
    requires s.poll.stage == CloseDequeue
    ensures var s', l := PollerStep(s), ListAccess(s.l);
      && (s'.poll.stage == Gone <==> l.con == L.GotNothing(false))
      && s'.l.chain == l.chain
      && (s'.l.con == l.con || !Dropping(s'.l.con))
  {
    hide ListAccess;
  }

  lemma StubGoesOn(l: L.List)
    requires L.PcOf(l, L.Poller).At? && L.PollerPush(l) && L.Dequeuing(l.con)
    ensures var con := ListAccess(l).con; con.DeqStub? || con.DeqReload?
  {
    hide L.PushStep;
    L.PushFlowOrWake(l);
  }

  lemma EmptyFound(l: L.List)
    requires L.Enabled(l, L.PollAccess) && l.head == L.Closed && (l.con.Deq? ==> l.con.until == {}) && (l.con.DeqSkip? ==> l.con.until == {})
    requires L.PollStep(l).con == L.GotNothing(false)
    ensures L.PollStep(l).chain == l.chain
    ensures Dropping(l.con) || (l.con.Deq? && L.Marker(l.tail) && l.tail !in l.next)
  {
    L.MoveConOk(l);
    hide L.PollStep;
    assert L.Decide(l).ToGoto?;
    hide L.Decide;
    GotoChain(l);
  }

  lemma GotoChain(l: L.List)
    requires L.Decide(l).ToGoto?
    ensures L.PollStep(l).chain == l.chain
  {
    hide L.Decide;
  }

  // ---------------------------------------------------------------------------------------------
  // Runs
  // ---------------------------------------------------------------------------------------------

  /** While the queue is being dropped the other threads move neither the polling thread nor the consumer. */
  lemma OthersWait(s: State, a: Action)
    requires Inv(s) && Enabled(s, a) && !a.PollStep? && (s.poll.stage == PushClosed || Dropped(s.poll.stage))
    ensures Apply(s, a).poll == s.poll && Apply(s, a).l.con == s.l.con
  {
    hide L.Inv, NodeOk, OpOk, HandleOk, RightOk, ThreadStep, L.Apply;
    match a
    case Step(t) => ThreadStage(s, t);
    case _ =>
  }

  /** At step i the drop finds null behind a marker, and up to step j it then only replaces the sleep marker. */
  ghost predicate LastLoad(states: seq<State>, actions: seq<Action>, i: nat, j: nat) {
    && i <= j < |actions| < |states|
    && FindsNull(states[i]) && actions[i] == PollStep
    && forall k :: i < k <= j ==> states[k].poll.stage == CloseDequeue && Dropping(states[k].l.con)
  }

  lemma DroppingFrom(s: State, a: Action)
    requires CloseOk(s) && Enabled(s, a) && Apply(s, a).poll.stage == CloseDequeue && Dropping(Apply(s, a).l.con)
    ensures s.poll.stage == CloseDequeue
    ensures Dropping(s.l.con) || (a == PollStep && FindsNull(s) && s.l.tail == L.Sleep)
  {
    hide L.Inv, Closes, ClosedIn, NodeOk, OpOk, HandleOk, RightOk, L.Apply, ThreadStep, PollerStep, FindsNull;
    if a.PollStep? {
      if s.poll.stage == CloseDequeue {
        DropEnds(s);
      } else {
        BeginsDequeue(s);
      }
    } else if s.poll.stage == PushClosed || Dropped(s.poll.stage) {
      OthersWait(s, a);
    } else {
      NotYetDropping(s, a);
    }
  }

  lemma BeginsDequeue(s: State)
    requires Enabled(s, PollStep) && s.poll.stage != CloseDequeue && Inv(s)
    ensures PollerStep(s).poll.stage == CloseDequeue ==> !Dropping(PollerStep(s).l.con)
  {
    hide Inv, ListAccess, L.Apply, Act, SawWord, PollNext, Retire;
    BeginDeqCon(ListAccess(s.l));
    BeginDeqCon(L.Apply(s.l, L.ReleaseHeld));
    var id := s.poll.id;
    if id in s.nodes {
      var n := s.nodes[id];
      LocalStage(s, n.word, n.word, n.slots);
      LocalStage(SetNode(s, id, n.(word := PollNext(n.word))), n.word, PollNext(n.word), n.slots);
    }
  }

  lemma NotYetDropping(s: State, a: Action)
    requires Inv(s) && Enabled(s, a) && !a.PollStep? && s.poll.stage != PushClosed && !Dropped(s.poll.stage)
    ensures !Dropped(Apply(s, a).poll.stage)
  {
    hide L.Inv, NodeOk, OpOk, HandleOk, RightOk, ThreadStep, L.Apply;
    match a
    case Step(t) => ThreadStage(s, t);
    case _ =>
  }

  lemma {:induction false} DroppingSinceLoad(states: seq<State>, actions: seq<Action>, k: nat) returns (i: nat)
    requires Run(states, actions) && k < |actions| && states[k].poll.stage == CloseDequeue && Dropping(states[k].l.con)
    ensures i < k && LastLoad(states, actions, i, k) && states[i].l.tail == L.Sleep
  {
    hide Inv, Closes, ClosedIn, Apply, Enabled, FindsNull, Dropping;
    RunsClose(states, actions, k);
    assert k > 0 by { InitialIdle(); }
    RunsClose(states, actions, k - 1);
    assert StepAt(states, actions, k - 1);
    DroppingFrom(states[k - 1], actions[k - 1]);
    if Dropping(states[k - 1].l.con) {
      i := DroppingSinceLoad(states, actions, k - 1);
    } else {
      i := k - 1;
    }
  }

  lemma InitialIdle()
    ensures Initial.poll.stage == Resting
  {}

  /**
    The drop of the queue ends with no node left in the list if and only if its last load of a marker's next
    pointer, which found null, found no producer between its swap behind that marker and its link.
   */
  lemma GoneMeans(states: seq<State>, actions: seq<Action>, j: nat) returns (i: nat)
    requires Run(states, actions) && j < |actions| && states[j].poll.stage != Gone && states[j + 1].poll.stage == Gone
    ensures LastLoad(states, actions, i, j)
    ensures L.Data(states[j + 1].l.chain) == [] <==> !LinkOwed(states[i].l, states[i].l.tail)
  {
    hide L.Inv, Closes, ClosedIn, Apply, Enabled, FindsNull, Dropping, L.Data, LinkOwed;
    RunsClose(states, actions, j);
    assert StepAt(states, actions, j);
    GoneFrom(states[j], actions[j]);
    if FindsNull(states[j]) {
      i := j;
      NullMeans(states[j]);
    } else {
      i := DroppingSinceLoad(states, actions, j);
      RunsClose(states, actions, i);
      NullMeans(states[i]);
      DroppingHasData(states[j]);
    }
  }

  lemma DroppingHasData(s: State)
    requires CloseOk(s) && Dropping(s.l.con) && Dropped(s.poll.stage)
    ensures L.Data(s.l.chain) != []
  {}

  lemma GoneFrom(s: State, a: Action)
    requires CloseOk(s) && Enabled(s, a) && s.poll.stage != Gone && Apply(s, a).poll.stage == Gone
    ensures a == PollStep && s.poll.stage == CloseDequeue && Apply(s, a).l.chain == s.l.chain && (FindsNull(s) || Dropping(s.l.con))
  {
    hide L.Inv, Closes, ClosedIn, NodeOk, OpOk, HandleOk, RightOk, L.Apply, ThreadStep, FindsNull, PollerStep;
    if a.PollStep? {
      if s.poll.stage == CloseDequeue {
        DropEnds(s);
      } else {
        NotGone(s);
      }
    } else if s.poll.stage == PushClosed || Dropped(s.poll.stage) {
      OthersWait(s, a);
    } else {
      NotYetDropping(s, a);
    }
  }

  lemma NotGone(s: State)
    requires Inv(s) && s.poll.stage != CloseDequeue && s.poll.stage != Gone
    ensures PollerStep(s).poll.stage != Gone
  {
    hide L.Inv, NodeOk, OpOk, HandleOk, RightOk, ListAccess, Act, SawWord;
    var id := s.poll.id;
    if id in s.nodes {
      var n := s.nodes[id];
      LocalStage(s, n.word, n.word, n.slots);
      LocalStage(SetNode(s, id, n.(word := PollNext(n.word))), n.word, PollNext(n.word), n.slots);
    }
  }

  /** Once null was found behind a marker no further node is taken. */
  lemma NullEnds(s: State)
    requires CloseOk(s) && s.poll.stage == CloseDequeue && (FindsNull(s) || Dropping(s.l.con))
    ensures var s' := PollerStep(s); s'.poll.stage == Gone || (s'.poll.stage == CloseDequeue && Dropping(s'.l.con))
  {
    AccessEnabled(s);
    assert L.PollerPush(s.l) && PollOk(s) && (L.Dequeuing(s.l.con) ==> L.PcOf(s.l, L.Poller).Out? || s.l.con.DeqStub?);
    hide Inv, CloseOk, L.Inv, Closes, L.PollStep, L.PushStep, L.Data, L.PollerPush, PollOk;
    L.MoveConOk(s.l);
    AccessIs(s.l);
    hide ListAccess;
  }

  // ---------------------------------------------------------------------------------------------
  // What is released
  // ---------------------------------------------------------------------------------------------

  /** The queue's handle on the node has been released. */
  predicate Settled(n: Node) { n.bound && !n.holds }

  /** Released handles stay released. */
  ghost predicate StaySettled(nodes: map<nat, Node>, nodes': map<nat, Node>) {
    forall id {:trigger nodes'[id]} :: id in nodes ==> id in nodes' && (Settled(nodes[id]) ==> Settled(nodes'[id]))
  }

  lemma OneSettles(nodes: map<nat, Node>, id: nat)
    requires id in nodes
    ensures StaySettled(nodes, nodes)
    ensures forall n: Node {:trigger nodes[id := n]} :: (Settled(nodes[id]) ==> Settled(n)) ==> StaySettled(nodes, nodes[id := n])
  {}

  lemma PushSettles(s: State, t: Tid, op: Op, id: nat, n: Node)
    requires id in s.nodes && n == s.nodes[id] && op.Doing?
    ensures StaySettled(s.nodes, PushAccess(s, t, op, id, n).nodes)
  {
    hide StaySettled;
    OneSettles(s.nodes, id);
    var r := L.PcOf(s.l, t).Is(L.Reject);
    assert PushAccess(s, t, op, id, n).nodes == s.nodes[id := if r then Retire(n) else n];
  }

  lemma SetSettles(s: State, t: Tid, op: Op, id: nat, n: Node)
    requires id in s.nodes && n == s.nodes[id] && op.Doing?
    ensures StaySettled(s.nodes, SetStep(s, t, op, id, n).nodes)
  {
    hide StaySettled, PushAccess, Acquire, Abandon, SetNext, Effective;
    OneSettles(s.nodes, id);
    PushSettles(s, t, op, id, n);
  }

  lemma BindSettles(s: State, t: Tid, op: Op, id: nat, n: Node)
    requires id in s.nodes && n == s.nodes[id] && op.Doing?
    ensures StaySettled(s.nodes, BindStep(s, t, op, id, n).nodes)
  {
    hide StaySettled, PushAccess, Effective;
    OneSettles(s.nodes, id);
    PushSettles(s, t, op, id, n);
  }

  lemma UpdateSettles(s: State, t: Tid, op: Op, id: nat, n: Node)
    requires id in s.nodes && n == s.nodes[id] && op.Doing?
    ensures StaySettled(s.nodes, UpdateStep(s, t, op, id, n).nodes)
  {
    hide StaySettled, PushAccess, Acquire, UpdateNext, Effective;
    OneSettles(s.nodes, id);
    PushSettles(s, t, op, id, n);
  }

  lemma DropSettles(s: State, t: Tid, op: Op, id: nat, n: Node)
    requires id in s.nodes && n == s.nodes[id] && op.Doing?
    ensures StaySettled(s.nodes, DropStep(s, t, op, id, n).nodes)
  {
    hide StaySettled, PushAccess, Acquire, Abandon, Effective;
    OneSettles(s.nodes, id);
    PushSettles(s, t, op, id, n);
  }

  lemma ThreadSettles(s: State, t: Tid)
    ensures StaySettled(s.nodes, ThreadStep(s, t).nodes)
  {
    hide StaySettled, SetStep, BindStep, UpdateStep, DropStep;
    SameSettles(s.nodes);
    var op := OpOf(s, t);
    if op.Doing? && op.h in s.handles && s.handles[op.h].node in s.nodes {
      var id := s.handles[op.h].node;
      SetSettles(s, t, op, id, s.nodes[id]);
      BindSettles(s, t, op, id, s.nodes[id]);
      UpdateSettles(s, t, op, id, s.nodes[id]);
      DropSettles(s, t, op, id, s.nodes[id]);
    }
  }

  lemma SameSettles(nodes: map<nat, Node>)
    ensures StaySettled(nodes, nodes)
  {}

  lemma PollerSettles(s: State)
    ensures StaySettled(s.nodes, PollerStep(s).nodes)
  {
    hide StaySettled, L.Apply, Act, SawWord, ListAccess;
    SameSettles(s.nodes);
    var id := s.poll.id;
    if id in s.nodes {
      var n := s.nodes[id];
      OneSettles(s.nodes, id);
      LocalLevel(s, n.word, PollNext(n.word), n.slots);
      LocalLevel(SetNode(s, id, n.(word := PollNext(n.word))), n.word, PollNext(n.word), n.slots);
    }
  }

  lemma ActionSettles(s: State, a: Action)
    requires Enabled(s, a)
    ensures StaySettled(s.nodes, Apply(s, a).nodes)
  {
    hide ThreadStep, PollerStep, L.Apply, Unused, Idle;
    match a
    case Step(t) => ThreadSettles(s, t);
    case PollStep => PollerSettles(s);
    case _ =>
  }

  /** The node is in the list, in the hands of the polling thread, or has lost the queue's handle. */
  ghost predicate Accounted(s: State, id: nat) {
    id in s.nodes && (L.Node(id) in s.l.chain || PollerHas(s.l, id) || Settled(s.nodes[id]))
  }

  predicate PollerHas(l: L.List, id: nat) { L.Node(id) in l.owner && l.owner[L.Node(id)] == L.Poller }

  lemma ActionAccounts(s: State, a: Action, id: nat)
    requires CloseOk(s) && Enabled(s, a) && Dropped(s.poll.stage) && Accounted(s, id)
    ensures Accounted(Apply(s, a), id)
  {
    hide CloseOk, Inv, L.Inv, L.Apply, ThreadStep, PollerStep;
    ActionSettles(s, a);
    if a.PollStep? {
      PollerAccounts(s, id);
    } else {
      OtherAccounts(s, a, id);
      SettledAt(s.nodes, Apply(s, a).nodes, id);
    }
  }

  lemma OtherAccounts(s: State, a: Action, id: nat)
    requires CloseOk(s) && Enabled(s, a) && Dropped(s.poll.stage) && !a.PollStep?
    ensures L.Node(id) in s.l.chain ==> L.Node(id) in Apply(s, a).l.chain
    ensures PollerHas(s.l, id) ==> PollerHas(Apply(s, a).l, id)
  {
    hide L.Inv, Closes, NodeOk, OpOk, HandleOk, RightOk, ThreadStep, L.Apply;
    if a.Step? {
      var done := ThreadDoes(s, a.t);
      ThreadsKeep(s.l, done, ThreadStep(s, a.t).l, id);
    }
  }

  lemma {:induction false} DoesShrinks(l: L.List, done: seq<L.Action>, l': L.List)
    requires L.Inv(l) && Closes(l) && L.Does(l, done, l') && L.Closed in l.chain
    ensures forall j :: L.Node(j) in l'.chain ==> L.Node(j) in l.chain
    decreases |done|
  {
    hide L.Inv, Closes, L.Apply, L.Enabled;
    if done == [] {
    } else {
      Shrinks(l, done[0]);
      ApplyCloses(l, done[0]);
      L.ApplyKeeps(l, done[0]);
      DoesShrinks(L.Apply(l, done[0]), done[1..], l');
    }
  }

  lemma Shrinks(l: L.List, a: L.Action)
    requires L.Inv(l) && Closes(l) && L.Enabled(l, a) && L.Closed in l.chain
    ensures forall j :: L.Node(j) in L.Apply(l, a).chain ==> L.Node(j) in l.chain
  {
    hide L.Inv, Closes, L.PushStep, L.PollStep;
    if a.PushAccess? {
      PushGrows(l, a.t);
    } else if a.PollAccess? {
      PollChain(l);
    } else {
      OtherCloses(l, a);
    }
  }

  /** From the first dequeue of the drop on nothing joins the list any more, and the drop does not start again. */
  lemma ActionShrinks(s: State, a: Action)
    requires CloseOk(s) && Enabled(s, a) && Dropped(s.poll.stage)
    ensures Dropped(Apply(s, a).poll.stage) && (s.poll.stage == Gone ==> Apply(s, a).poll.stage == Gone)
    ensures forall j :: L.Node(j) in Apply(s, a).l.chain ==> L.Node(j) in s.l.chain
  {
    var done := ActionDoes(s, a);
    hide L.Inv, Closes, NodeOk, OpOk, HandleOk, RightOk, L.Apply, ThreadStep, PollerStep;
    DoesShrinks(s.l, done, Apply(s, a).l);
    if a.PollStep? {
      StaysDropped(s);
    } else {
      OthersWait(s, a);
    }
  }

  lemma StaysDropped(s: State)
    requires Dropped(s.poll.stage)
    ensures Dropped(PollerStep(s).poll.stage)
  {
    hide ListAccess, L.Apply;
  }

  lemma PollerAccounts(s: State, id: nat)
    requires CloseOk(s) && Enabled(s, PollStep) && Dropped(s.poll.stage) && Accounted(s, id)
    requires StaySettled(s.nodes, PollerStep(s).nodes)
    ensures Accounted(PollerStep(s), id)
  {
    hide L.Inv, Closes, OpOk, HandleOk, NodeOk, RightOk, StaySettled, Settled, PollerStep;
    assert NodeOk(s, id) && (L.Node(id) in s.l.owner ==> RightOk(s, id)) && PollOk(s);
    hide Inv, PollOk;
    if s.poll.stage == CloseDequeue {
      if Has(s.l, id) {
        AccessAccounts(s, id);
        AfterAccess(s, id);
      }
    } else if s.poll.stage == CloseRelease {
      ReleaseAccounts(s, id);
    } else {
      LoadAccounts(s);
    }
    assert id in PollerStep(s).nodes && (Settled(s.nodes[id]) ==> Settled(PollerStep(s).nodes[id])) by { SettledAt(s.nodes, PollerStep(s).nodes, id); }
  }

  lemma SettledAt(nodes: map<nat, Node>, nodes': map<nat, Node>, id: nat)
    requires StaySettled(nodes, nodes') && id in nodes
    ensures id in nodes' && (Settled(nodes[id]) ==> Settled(nodes'[id]))
  {
    assert id in nodes' ==> nodes'[id] == nodes'[id];
  }

  lemma LoadAccounts(s: State)
    requires s.poll.stage == CloseLoad
    ensures PollerStep(s).l == s.l
  {}

  predicate Has(l: L.List, id: nat) { L.Node(id) in l.chain || PollerHas(l, id) }

  lemma AccessAccounts(s: State, id: nat)
    requires Inv(s) && s.poll.stage == CloseDequeue && Has(s.l, id)
    ensures Has(ListAccess(s.l), id)
  {
    AccessEnabled(s);
    hide L.Shape, L.ConsumerPlace, L.NoLostWakeup, L.History, L.PollStep, L.PushStep;
    if L.PcOf(s.l, L.Poller).At? {
      L.PushTracks(s.l, L.Poller);
    } else {
      L.PollTracks(s.l);
    }
    hide L.Inv;
  }

  lemma AfterAccess(s: State, id: nat)
    requires s.poll.stage == CloseDequeue && Has(ListAccess(s.l), id)
    ensures Has(PollerStep(s).l, id)
  {
    hide ListAccess;
  }

  lemma ReleaseAccounts(s: State, id: nat)
    requires s.poll.stage == CloseRelease && s.poll.id in s.nodes && id in s.nodes && s.l.con == L.Holding(s.poll.id)
    requires L.Node(id) in s.l.owner ==> RightOk(s, id)
    requires NodeOk(s, id)
    ensures Has(s.l, id) ==> Accounted(PollerStep(s), id)
  {}

  lemma {:induction false} RunsShrink(states: seq<State>, actions: seq<Action>, i: nat, j: nat)
    requires Run(states, actions) && i <= j < |states| && Dropped(states[i].poll.stage)
    ensures Dropped(states[j].poll.stage) && (states[i].poll.stage == Gone ==> states[j].poll.stage == Gone)
    ensures forall id :: L.Node(id) in states[j].l.chain ==> L.Node(id) in states[i].l.chain
    decreases j
  {
    hide L.Inv, Closes, ClosedIn, Apply, Enabled, Dropped;
    if i == j {
    } else {
      RunsShrink(states, actions, i, j - 1);
      RunsClose(states, actions, j - 1);
      assert StepAt(states, actions, j - 1);
      ActionShrinks(states[j - 1], actions[j - 1]);
    }
  }

  lemma {:induction false} RunsAccount(states: seq<State>, actions: seq<Action>, i: nat, j: nat, id: nat)
    requires Run(states, actions) && i <= j < |states| && Dropped(states[i].poll.stage) && L.Node(id) in states[i].l.chain
    ensures Accounted(states[j], id)
    decreases j
  {
    hide L.Inv, Closes, ClosedIn, Apply, Enabled, Dropped;
    RunsClose(states, actions, i);
    if i == j {
      assert L.Tracked(states[i].l, id);
    } else {
      RunsAccount(states, actions, i, j - 1, id);
      RunsClose(states, actions, j - 1);
      assert StepAt(states, actions, j - 1);
      RunsShrink(states, actions, i, j - 1);
      ActionAccounts(states[j - 1], actions[j - 1], id);
    }
  }

  /** Of the nodes in the list when the closed marker is in, a queue that is gone has released those no longer in it, once. */
  lemma GoneReleases(states: seq<State>, actions: seq<Action>, i: nat, j: nat, id: nat)
    requires Run(states, actions) && i <= j < |states| && Dropped(states[i].poll.stage) && L.Node(id) in states[i].l.chain
    requires states[j].poll.stage == Gone
    ensures id in states[j].nodes
    ensures states[j].nodes[id].releases == if L.Node(id) in states[j].l.chain then 0 else 1
  {
    hide L.Inv, OpOk, HandleOk, Closes, ClosedIn;
    RunsAccount(states, actions, i, j, id);
    RunsClose(states, actions, j);
    var s := states[j];
    assert NodeOk(s, id) && (L.Node(id) in s.l.owner ==> RightOk(s, id));
  }

  /**
    Without a producer late with its link at the last load, and only then, every node that was in the list with or
    after the closed marker has had the queue's handle released exactly once.
   */
  lemma DropReleasesAll(states: seq<State>, actions: seq<Action>, i: nat, j: nat) returns (k: nat)
    requires Run(states, actions) && i <= j < |actions| && Dropped(states[i].poll.stage)
    requires states[j].poll.stage != Gone && states[j + 1].poll.stage == Gone
    ensures LastLoad(states, actions, k, j)
    ensures !LinkOwed(states[k].l, states[k].l.tail) <==>
      forall id {:trigger states[j + 1].nodes[id]} :: L.Node(id) in states[i].l.chain ==>
        id in states[j + 1].nodes && states[j + 1].nodes[id].releases == 1
  {
    hide LinkOwed, Dropped, LastLoad, Apply, Enabled;
    k := GoneMeans(states, actions, j);
    var s, s' := states[i], states[j + 1];
    HasData(s'.l.chain);
    RunsShrink(states, actions, i, j + 1);
    forall id | L.Node(id) in s.l.chain
      ensures id in s'.nodes && s'.nodes[id].releases == if L.Node(id) in s'.l.chain then 0 else 1
    {
      GoneReleases(states, actions, i, j + 1, id);
    }
    assert forall p :: p in s'.l.chain && p.Node? ==> L.Node(p.id) in s'.l.chain && s'.nodes[p.id].releases == 0;
  }

  /** What a queue that is gone left in the list keeps the queue's handle: nobody ever frees it. */
  lemma LeftIsNeverFreed(states: seq<State>, actions: seq<Action>, i: nat, j: nat, id: nat)
    requires Run(states, actions) && i <= j < |states| && states[i].poll.stage == Gone && L.Node(id) in states[i].l.chain
    ensures id in states[j].nodes && states[j].nodes[id].holds && states[j].nodes[id].frees == 0
  {
    hide L.Inv, OpOk, HandleOk, RightOk;
    RunsLeave(states, actions, i, j, id);
    RunsKeepInvariant(states, actions, j);
    assert L.Tracked(states[j].l, id) && NodeOk(states[j], id);
    assert Reachable(states[j]);
    ReferenceCount(states[j], id);
  }

  lemma GoneLeaves(s: State, a: Action, id: nat)
    requires CloseOk(s) && Enabled(s, a) && s.poll.stage == Gone && L.Node(id) in s.l.chain
    ensures L.Node(id) in Apply(s, a).l.chain
  {
    hide CloseOk, Apply;
    OtherAccounts(s, a, id);
  }

  lemma StepOf(states: seq<State>, actions: seq<Action>, k: nat)
    requires Run(states, actions) && k < |actions|
    ensures |states| == |actions| + 1 && CloseOk(states[k]) && Enabled(states[k], actions[k]) && states[k + 1] == Apply(states[k], actions[k])
  {
    hide Apply, Enabled, Inv, Closes, ClosedIn;
    RunsClose(states, actions, k);
    assert StepAt(states, actions, k);
  }

  lemma {:induction false} RunsLeave(states: seq<State>, actions: seq<Action>, i: nat, j: nat, id: nat)
    requires Run(states, actions) && i <= j < |states| && states[i].poll.stage == Gone && L.Node(id) in states[i].l.chain
    ensures L.Node(id) in states[j].l.chain
    decreases j
  {
    hide CloseOk, Apply, Enabled;
    if i == j {
    } else {
      RunsLeave(states, actions, i, j - 1, id);
      RunsShrink(states, actions, i, j - 1);
      StepOf(states, actions, j - 1);
      hide Run;
      GoneLeaves(states[j - 1], actions[j - 1], id);
    }
  }

  // ---------------------------------------------------------------------------------------------
  // A drop that leaves a node behind
  // ---------------------------------------------------------------------------------------------

  const P := L.Producer(0)
  const READABLE := Flags(true, false, false, false)
  const Asked := Update(7, READABLE, NONE)

  /** Registered, set readable, queued: the producer has swapped its node in behind the end marker, and not linked it. */
  const Swapped := Node(Word(READABLE, READABLE, NONE, 0, 0, true, false), [7, 0, 0], false, true, 3, 0, true, 0, false, L.Poller, L.Poller)

  const Late := State(
    L.List(L.Node(0), L.End, map[], map[P := L.At(L.Link, L.Node(0), L.End)], L.Idle, false, false, [L.End, L.Node(0)],
           map[L.End := P], map[], [0], []),
    map[0 := Swapped],
    map[1 := Handle(0, true, false, L.Poller), 2 := Handle(0, false, false, L.Poller)],
    map[P := Doing(SetPush, 2, READABLE, NoUpdate, ZeroWord.(interest := READABLE), 0)],
    Initial.poll, [])

  lemma ReachableInitial()
    ensures Reachable(Initial)
  {
    var states, actions: seq<Action> := [Initial], [];
    assert forall i: nat {:trigger StepAt(states, actions, i)} :: StepAt(states, actions, i);
    assert Run(states, actions) && Initial in states;
  }

  const New := Initial.(nodes := map[0 := Registered(Asked)], handles := Late.handles)
  const Word0 := ZeroWord.(interest := READABLE)

  /** The producer before its swap of the head of the list, at one of its accesses. */
  function Pushing(phase: L.Phase, prev: L.Ptr): State {
    Late.(l := L.Initial.(pc := map[P := L.At(phase, L.Node(0), prev)], owner := map[L.Node(0) := P]))
  }

  lemma LateIsReachable()
    ensures Reachable(Late)
  {
    hide Reachable;
    ReachableInitial();
    NewNext();
    SetNexts();
    PushNexts();
  }

  lemma NewNext()
    requires Reachable(Initial)
    ensures Reachable(New)
  {
    hide Reachable;
    ReachableNext(Initial, NewBound(0, 1, 2, Asked));
    assert Apply(Initial, NewBound(0, 1, 2, Asked)) == New;
  }

  lemma SetNexts()
    requires Reachable(New)
    ensures Reachable(Pushing(L.ClearNext, L.Node(0)))
  {
    hide Reachable;
    var op := Start(SetLoad, 2, READABLE, NoUpdate);
    var s1 := SetOp(New, P, op);
    ReachableNext(New, CallSet(P, 2, READABLE));
    var s2 := SetOp(s1, P, op.(stage := SetSwap, seen := Word0));
    ReachableNext(s1, Step(P));
    assert Apply(s1, Step(P)) == s2;
    var s3 := Late.(l := L.Initial.(owner := map[L.Node(0) := P]), ops := map[P := op.(stage := SetQueue, seen := Word0)]);
    ReachableNext(s2, Step(P));
    assert Apply(s2, Step(P)) == s3;
    ReachableNext(s3, Step(P));
    assert Apply(s3, Step(P)) == Pushing(L.ClearNext, L.Node(0));
  }

  lemma PushNexts()
    requires Reachable(Pushing(L.ClearNext, L.Node(0)))
    ensures Reachable(Late)
  {
    hide Reachable;
    var s1 := Pushing(L.ClearNext, L.Node(0));
    var s2 := Pushing(L.LoadHead, L.Node(0));
    ReachableNext(s1, Step(P));
    assert Apply(s1, Step(P)) == s2;
    ReachableNext(s2, Step(P));
    assert Apply(s2, Step(P)) == Pushing(L.Push, L.End);
    SwapNext();
  }

  lemma SwapNext()
    requires Reachable(Pushing(L.Push, L.End))
    ensures Reachable(Late)
  {
    hide Reachable;
    ReachableNext(Pushing(L.Push, L.End), Step(P));
    assert Apply(Pushing(L.Push, L.End), Step(P)) == Late;
  }

  /** The queue is being dropped, with the producer where it was. */
  function Closing(l: L.List, stage: PollStage): State {
    Late.(l := l, poll := Late.poll.(stage := stage))
  }

  /** The polling thread is at one of its accesses inside the push of the closed marker. */
  function Marking(phase: L.Phase, prev: L.Ptr): L.List {
    Late.l.(closing := true, con := L.Closing, pc := Late.l.pc[L.Poller := L.At(phase, L.Closed, prev)])
  }

  const Marked := Late.l.(head := L.Closed, closing := true, chain := [L.End, L.Node(0), L.Closed], pc := Late.l.pc[L.Poller := L.Out],
                          next := map[L.Node(0) := L.Closed])

  const Linking := Marked.(con := L.Closing, pc := Late.l.pc[L.Poller := L.At(L.Link, L.Closed, L.Node(0))], next := map[],
                           linker := Late.l.linker[L.Node(0) := L.Poller])

  lemma MarkingList()
    ensures L.Apply(Late.l, L.BeginClose) == Marking(L.ClearNext, L.Closed)
    ensures ListAccess(Marking(L.ClearNext, L.Closed)) == Marking(L.LoadHead, L.Closed)
    ensures ListAccess(Marking(L.LoadHead, L.Closed)) == Marking(L.Push, L.Node(0))
  {}

  lemma MarkedList()
    ensures ListAccess(Marking(L.Push, L.Node(0))) == Linking
    ensures ListAccess(Linking) == Marked
  {
    hide ListAccess;
    MarkingPushes();
    MarkingLinks();
  }

  lemma MarkingPushes()
    ensures ListAccess(Marking(L.Push, L.Node(0))) == Linking
  {
    hide L.PollStep;
  }

  lemma MarkingLinks()
    ensures ListAccess(Linking) == Marked
  {
    hide L.PollStep;
  }

  const Looking := Closing(Marked.(con := L.Deq({})), CloseDequeue)
  const Left := Closing(Marked, Gone)

  lemma StopsAtOnce()
    ensures ListAccess(Looking.l) == Marked.(con := L.GotNothing(false))
    ensures PollerStep(Looking) == Left
  {}

  lemma PushClosedNext(l: L.List)
    requires Reachable(Closing(l, PushClosed)) && L.Enabled(l, AccessOf(l))
    ensures var l' := ListAccess(l);
      Reachable(if l'.con.Idle? then Closing(L.Apply(l', L.BeginDeq({})), CloseDequeue) else Closing(l', PushClosed))
  {
    var s := Closing(l, PushClosed);
    ReachableNext(s, PollStep);
    hide Reachable, ListAccess, L.Apply;
  }

  lemma DropBegins()
    requires Reachable(Late)
    ensures Reachable(Closing(L.Apply(Late.l, L.BeginClose), PushClosed))
  {
    hide Reachable;
    assert OpOf(Late, P).stage == SetPush && forall t :: t != P ==> OpOf(Late, t).Free?;
    ReachableNext(Late, DropQueueCall);
    hide L.Apply;
  }

  /** The producer has pushed node 0 and not linked it: the drop finds null behind the end marker, and leaves the node for good. */
  lemma DropLeavesNode()
    ensures Reachable(Looking) && FindsNull(Looking) && LinkOwed(Looking.l, Looking.l.tail)
    ensures Enabled(Looking, PollStep) && Apply(Looking, PollStep) == Left
    ensures Reachable(Left) && Left.poll.stage == Gone && Left.l.chain == [L.End, L.Node(0), L.Closed]
  {
    hide Reachable, ListAccess, L.Apply, PollerStep;
    LookingIsReachable();
    ReachableNext(Looking, PollStep);
    StopsAtOnce();
    assert L.PcOf(Looking.l, P) == L.At(L.Link, L.Node(0), L.End);
  }

  lemma LookingIsReachable()
    ensures Reachable(Looking)
  {
    hide Reachable, ListAccess, L.Apply, PollerStep, L.PcOf;
    LateIsReachable();
    DropBegins();
    MarkingList();
    MarkedList();
    PushClosedNext(Marking(L.ClearNext, L.Closed));
    PushClosedNext(Marking(L.LoadHead, L.Closed));
    PushClosedNext(Marking(L.Push, L.Node(0)));
    PushClosedNext(Linking);
    assert L.Apply(Marked, L.BeginDeq({})) == Looking.l by { BeginsLooking(); }
  }

  lemma BeginsLooking()
    ensures L.Apply(Marked, L.BeginDeq({})) == Looking.l
  {}
}
