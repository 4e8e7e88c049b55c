/** What poll reports: over whole runs, the readiness and the token of one moment at which it acted on the node. */
module ReadinessReports {
  import L = ReadinessList
  import opened ReadinessNodes
  import opened ReadinessFacts

  /** The polling thread has acted on a node, which it still has to requeue, or whose token it still has to read. */
  predicate HasActed(st: PollStage) { st == Requeue || st == Read }

  /** This step of the polling thread acts on the state word of the node it has popped. */
  ghost predicate Acts(s: State, a: Action) {
    && a == PollStep && (s.poll.stage == Load || s.poll.stage == Swap) && HasActed(PollerStep(s).poll.stage)
    && s.poll.id in s.nodes && s.poll.id in PollerStep(s).nodes
    && PollerStep(s).nodes[s.poll.id].word == PollNext(s.nodes[s.poll.id].word)
    && !s.nodes[s.poll.id].word.dropped
  }

  /** What is published at that moment about the node. */
  function Seen(s: State): Report
    requires s.poll.id in s.nodes
  {
    Report(s.poll.id, Effective(s.nodes[s.poll.id].word), Published(s.nodes[s.poll.id]))
  }

  lemma SetPoll(s: State, t: Tid, op: Op, id: nat, n: Node)
    requires op.Doing?
    ensures SetStep(s, t, op, id, n).poll == s.poll && SetStep(s, t, op, id, n).reports == s.reports
  {
    hide L.Apply, SetNext, UpdateNext, Effective, L.PcOf;
  }

  lemma BindPoll(s: State, t: Tid, op: Op, id: nat, n: Node)
    requires op.Doing?
    ensures BindStep(s, t, op, id, n).poll == s.poll && BindStep(s, t, op, id, n).reports == s.reports
  {
    hide L.Apply, SetNext, UpdateNext, Effective, L.PcOf;
  }

  lemma UpdatePoll(s: State, t: Tid, op: Op, id: nat, n: Node)
    requires op.Doing?
    ensures UpdateStep(s, t, op, id, n).poll == s.poll && UpdateStep(s, t, op, id, n).reports == s.reports
  {
    hide L.Apply, SetNext, UpdateNext, Effective, L.PcOf;
  }

  lemma DropPoll(s: State, t: Tid, op: Op, id: nat, n: Node)
    requires op.Doing?
    ensures DropStep(s, t, op, id, n).poll == s.poll && DropStep(s, t, op, id, n).reports == s.reports
  {
    hide L.Apply, SetNext, UpdateNext, Effective, L.PcOf;
  }

  lemma ThreadKeepsPoll(s: State, t: Tid)
    ensures ThreadStep(s, t).poll == s.poll && ThreadStep(s, t).reports == s.reports
  {
    hide SetStep, BindStep, UpdateStep, DropStep;
    var op := OpOf(s, t);
    if op.Doing? && op.h in s.handles && s.handles[op.h].node in s.nodes {
      var id := s.handles[op.h].node;
      SetPoll(s, t, op, id, s.nodes[id]);
      BindPoll(s, t, op, id, s.nodes[id]);
      UpdatePoll(s, t, op, id, s.nodes[id]);
      DropPoll(s, t, op, id, s.nodes[id]);
    }
  }

  /** Only the polling thread moves itself. */
  lemma OthersKeepPoll(s: State, a: Action)
    requires Enabled(s, a) && !a.PollStep?
    ensures Apply(s, a).reports == s.reports
    ensures HasActed(Apply(s, a).poll.stage) ==> Apply(s, a).poll == s.poll
  {
    hide ThreadStep, L.Apply, Unused;
    match a
    case Step(t) => ThreadKeepsPoll(s, t);
    case _ =>
  }

  /** The polling thread comes to where it has acted from the word it saw, or was there before with the same report to make. */
  lemma ActedFrom(s: State)
    requires Inv(s) && Reachable(s) && Enabled(s, PollStep) && HasActed(PollerStep(s).poll.stage)
    ensures var p' := PollerStep(s).poll;
      || (!HasActed(s.poll.stage) && Acts(s, PollStep) && Report(p'.id, p'.ready, p'.token) == Seen(s))
      || (HasActed(s.poll.stage) && p'.id == s.poll.id && p'.ready == s.poll.ready && p'.token == s.poll.token)
  {
    hide Reachable, Inv, Effective, Published, PollNext;
    if s.poll.stage == Load || s.poll.stage == Swap {
      PollActsOnPublished(s);
      hide PollerStep;
    } else if s.poll.stage == Requeue {
      RequeueKeepsReport(s);
    } else {
      NotActed(s);
    }
  }

  lemma NotActed(s: State)
    requires s.poll.stage != Load && s.poll.stage != Swap && s.poll.stage != Requeue && Enabled(s, PollStep)
    ensures HasActed(PollerStep(s).poll.stage) ==> s.poll.stage == Read && PollerStep(s) == s
  {
    hide ListAccess, L.Apply;
  }

  lemma OnlyReadReports(s: State)
    requires PollerStep(s).reports != s.reports
    ensures s.poll.stage == Read
  {
    hide ListAccess, L.Apply, Effective, PollNext;
  }

  /** From step j, where it acted, to state k the polling thread is busy with this one report. */
  ghost predicate ActedAt(states: seq<State>, actions: seq<Action>, j: nat, k: nat) {
    && j < k < |states| && j < |actions| && Acts(states[j], actions[j])
    && (forall i :: j < i <= k ==> HasActed(states[i].poll.stage))
    && Report(states[k].poll.id, states[k].poll.ready, states[k].poll.token) == Seen(states[j])
    && (states[k].poll.stage == Read ==> states[k].poll.ready != NONE)
  }

  lemma {:induction false} ActedBefore(states: seq<State>, actions: seq<Action>, k: nat) returns (j: nat)
    requires Run(states, actions) && k < |states| && HasActed(states[k].poll.stage)
    ensures ActedAt(states, actions, j, k)
  {
    hide Inv, Apply, Enabled, Acts, Seen;
    assert k > 0 by { NotAtFirst(); }
    var s, a := states[k - 1], actions[k - 1];
    RunsKeepInvariant(states, actions, k - 1);
    assert StepAt(states, actions, k - 1) && Reachable(s);
    BeforeActed(s, a);
    if states[k].poll.stage == Read && (s.poll.stage == Read ==> s.poll.ready != NONE) { ReadIsReady(s, a); }
    if HasActed(s.poll.stage) {
      j := ActedBefore(states, actions, k - 1);
    } else {
      j := k - 1;
    }
  }

  lemma ReadIsReady(s: State, a: Action)
    requires Inv(s) && Enabled(s, a) && Apply(s, a).poll.stage == Read && (s.poll.stage == Read ==> s.poll.ready != NONE)
    ensures Apply(s, a).poll.ready != NONE
  {
    hide Inv, PollerStep, ThreadStep, L.Apply;
    if a.PollStep? { PollerReads(s); } else { OthersKeepPoll(s, a); }
  }

  lemma PollerReads(s: State)
    requires Enabled(s, PollStep) && PollerStep(s).poll.stage == Read && (s.poll.stage == Read ==> s.poll.ready != NONE)
    ensures PollerStep(s).poll.ready != NONE
  {
    hide ListAccess, L.Apply, Effective, PollNext, L.PcOf;
  }

  lemma NotAtFirst()
    ensures !HasActed(Initial.poll.stage)
  {}

  lemma BeforeActed(s: State, a: Action)
    requires Inv(s) && Reachable(s) && Enabled(s, a) && HasActed(Apply(s, a).poll.stage)
    ensures var p' := Apply(s, a).poll;
      || (!HasActed(s.poll.stage) && Acts(s, a) && Report(p'.id, p'.ready, p'.token) == Seen(s))
      || (HasActed(s.poll.stage) && p'.id == s.poll.id && p'.ready == s.poll.ready && p'.token == s.poll.token)
  {
    hide Inv, Reachable, PollerStep, ThreadStep, Acts, Seen, L.Apply;
    if a.PollStep? { ActedFrom(s); } else { OthersKeepPoll(s, a); }
  }

  /**
    Whatever is reported, at any step of any run: there is an earlier step at which poll acted on the state word of
    that node, the word had not been dropped, and the report carries the readiness effective in that word and the
    token published with it.  Between the two poll works on nothing else.
   */
  lemma ReportIsPublished(states: seq<State>, actions: seq<Action>, k: nat) returns (j: nat)
    requires Run(states, actions) && k < |actions| && states[k + 1].reports != states[k].reports
    ensures ActedAt(states, actions, j, k)
    ensures states[k + 1].reports == states[k].reports + [Seen(states[j])] && Seen(states[j]).ready != NONE
  {
    hide Inv, Apply, Acts, Seen;
    RunsKeepInvariant(states, actions, k);
    assert StepAt(states, actions, k) && Reachable(states[k]);
    ReportsFrom(states[k], actions[k]);
    j := ActedBefore(states, actions, k);
  }

  lemma ReportsFrom(s: State, a: Action)
    requires Reachable(s) && Enabled(s, a) && Apply(s, a).reports != s.reports
    ensures s.poll.stage == Read && Apply(s, a).reports == s.reports + [Report(s.poll.id, s.poll.ready, s.poll.token)]
  {
    hide Reachable, PollerStep, ThreadStep, L.Apply;
    if a.PollStep? {
      OnlyReadReports(s);
      ReadReports(s);
    } else {
      OthersKeepPoll(s, a);
    }
  }

  // ---------------------------------------------------------------------------------------------
  // Oneshot
  // ---------------------------------------------------------------------------------------------

  /** A step by which `update` publishes a new interest for the node. */
  predicate Publishes(s: State, a: Action, id: nat) {
    && a.Step? && OnNode(s, a.t, id) && id in s.nodes
    && OpOf(s, a.t).At(UpdSwap) && s.nodes[id].word == OpOf(s, a.t).seen
  }

  predicate Disarmed(nodes: map<nat, Node>, id: nat) { id in nodes && nodes[id].word.interest == NONE }

  lemma OneDisarms(nodes: map<nat, Node>, j: nat, id: nat)
    requires Disarmed(nodes, id) && j in nodes
    ensures forall n: Node {:trigger nodes[j := n]} :: n.word.interest == nodes[j].word.interest ==> Disarmed(nodes[j := n], id)
  {}

  lemma PushDisarms(s: State, t: Tid, op: Op, j: nat, n: Node, id: nat)
    requires j in s.nodes && n == s.nodes[j] && op.Doing? && Disarmed(s.nodes, id)
    ensures Disarmed(PushAccess(s, t, op, j, n).nodes, id)
  {
    hide L.Apply;
  }

  lemma SetDisarms(s: State, t: Tid, op: Op, j: nat, n: Node, id: nat)
    requires j in s.nodes && n == s.nodes[j] && op.Doing? && Disarmed(s.nodes, id)
    ensures Disarmed(SetStep(s, t, op, j, n).nodes, id)
  {
    hide PushAccess, L.Apply;
    PushDisarms(s, t, op, j, n, id);
  }

  lemma BindDisarms(s: State, t: Tid, op: Op, j: nat, n: Node, id: nat)
    requires j in s.nodes && n == s.nodes[j] && op.Doing? && Disarmed(s.nodes, id)
    ensures Disarmed(BindStep(s, t, op, j, n).nodes, id)
  {
    hide Disarmed;
    OneDisarms(s.nodes, j, id);
  }

  lemma UpdateDisarms(s: State, t: Tid, op: Op, j: nat, n: Node, id: nat)
    requires j in s.nodes && n == s.nodes[j] && op.Doing? && Disarmed(s.nodes, id)
    requires j == id ==> !(op.stage == UpdSwap && n.word == op.seen)
    ensures Disarmed(UpdateStep(s, t, op, j, n).nodes, id)
  {
    hide PushAccess, L.Apply;
    PushDisarms(s, t, op, j, n, id);
  }

  lemma DropDisarms(s: State, t: Tid, op: Op, j: nat, n: Node, id: nat)
    requires j in s.nodes && n == s.nodes[j] && op.Doing? && Disarmed(s.nodes, id)
    ensures Disarmed(DropStep(s, t, op, j, n).nodes, id)
  {
    hide PushAccess, L.Apply;
    PushDisarms(s, t, op, j, n, id);
  }

  lemma ThreadDisarms(s: State, t: Tid, id: nat)
    requires Disarmed(s.nodes, id) && !Publishes(s, Step(t), id)
    ensures Disarmed(ThreadStep(s, t).nodes, id)
  {
    var op := OpOf(s, t);
    hide SetStep, BindStep, UpdateStep, DropStep;
    if op.Doing? && op.h in s.handles && s.handles[op.h].node in s.nodes {
      var j := s.handles[op.h].node;
      SetDisarms(s, t, op, j, s.nodes[j], id);
      BindDisarms(s, t, op, j, s.nodes[j], id);
      if j != id || !(op.stage == UpdSwap && s.nodes[id].word == op.seen) { UpdateDisarms(s, t, op, j, s.nodes[j], id); }
      DropDisarms(s, t, op, j, s.nodes[j], id);
    }
  }

  lemma PollerDisarms(s: State, id: nat)
    requires Disarmed(s.nodes, id)
    ensures Disarmed(PollerStep(s).nodes, id)
  {
    hide ListAccess, L.Apply, Act, SawWord;
    var j := s.poll.id;
    if j in s.nodes {
      var n := s.nodes[j];
      LocalLevel(s, n.word, PollNext(n.word), n.slots);
      LocalLevel(SetNode(s, j, n.(word := PollNext(n.word))), n.word, PollNext(n.word), n.slots);
    }
  }

  lemma ActionDisarms(s: State, a: Action, id: nat)
    requires Enabled(s, a) && Disarmed(s.nodes, id) && !Publishes(s, a, id)
    ensures Disarmed(Apply(s, a).nodes, id)
  {
    hide ThreadStep, PollerStep, L.Apply, Unused, Idle, Publishes;
    match a
    case Step(t) => ThreadDisarms(s, t, id);
    case PollStep => PollerDisarms(s, id);
    case _ =>
  }

  /** A disarmed node stays so until `update` publishes an interest. */
  lemma {:induction false} DisarmedUntil(states: seq<State>, actions: seq<Action>, j: nat, k: nat, id: nat)
    requires Run(states, actions) && j <= k < |states| && Disarmed(states[j].nodes, id)
    requires forall i :: j <= i < k ==> !Publishes(states[i], actions[i], id)
    ensures Disarmed(states[k].nodes, id)
    decreases k
  {
    hide Apply, Enabled, Disarmed, Publishes;
    if j == k {
    } else {
      DisarmedUntil(states, actions, j, k - 1, id);
      assert StepAt(states, actions, k - 1);
      ActionDisarms(states[k - 1], actions[k - 1], id);
    }
  }

  /** The node reported at this step. */
  function Reported(states: seq<State>, k: nat): nat
    requires k < |states|
  {
    states[k].poll.id
  }

  /**
    Oneshot, over whole runs: of two reports about a node whose options at the first were edge and oneshot, the second
    acted on a word for which `update` has published an interest since poll acted for the first.
   */
  lemma OneshotReportsOnce(states: seq<State>, actions: seq<Action>, k1: nat, k2: nat) returns (j1: nat, j2: nat)
    requires Run(states, actions) && k1 < k2 < |actions| && Reported(states, k1) == Reported(states, k2)
    requires states[k1 + 1].reports != states[k1].reports && states[k2 + 1].reports != states[k2].reports
    ensures ActedAt(states, actions, j1, k1) && ActedAt(states, actions, j2, k2) && j1 < j2
    ensures var w := states[j1].nodes[Reported(states, k1)].word;
      Edge(w) && Oneshot(w) ==> exists i {:trigger states[i]} :: j1 < i < j2 && Publishes(states[i], actions[i], Reported(states, k1))
  {
    hide Apply, Enabled, Inv, PollNext, Effective, Publishes, PollerStep;
    j1 := ReportIsPublished(states, actions, k1);
    j2 := ReportIsPublished(states, actions, k2);
    assert StepAt(states, actions, k1) && StepAt(states, actions, j1);
    assert Reachable(states[k1]);
    AfterReport(states[k1], actions[k1]);
    assert j2 > k1;
    var id := Reported(states, k1);
    var w := states[j1].nodes[id].word;
    if Edge(w) && Oneshot(w) && forall i {:trigger states[i]} :: j1 < i < j2 ==> !Publishes(states[i], actions[i], id) {
      ActDisarms(states[j1], actions[j1]);
      DisarmedUntil(states, actions, j1 + 1, j2, id);
      NothingToReport(states[j2].nodes[id].word);
      assert false;
    }
  }

  lemma AfterReport(s: State, a: Action)
    requires Enabled(s, a) && Apply(s, a).reports != s.reports
    ensures !HasActed(Apply(s, a).poll.stage)
  {
    hide ThreadStep, L.Apply, ListAccess, Act, SawWord;
    if a.PollStep? {
      OnlyReadReports(s);
    } else {
      OthersKeepPoll(s, a);
    }
  }

  lemma ActDisarms(s: State, a: Action)
    requires Enabled(s, a) && Acts(s, a)
    requires var w := s.nodes[s.poll.id].word; Edge(w) && Oneshot(w) && Effective(w) != NONE
    ensures Disarmed(Apply(s, a).nodes, s.poll.id)
  {
    hide PollerStep;
  }

  lemma NothingToReport(w: Word)
    requires w.interest == NONE
    ensures Effective(w) == NONE
  {}
}
