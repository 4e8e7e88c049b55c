/**
  The drop of the readiness queue: it pushes the closed marker and then takes out what is in the list.  It stops at
  a marker whose link a producer still owes, and then leaves behind, for good, what that producer pushed.
*/
module ReadinessClose {
  import L = ReadinessList
  import opened ReadinessNodes
  import opened ReadinessFacts
  import opened ReadinessSteps
  import opened ReadinessReports

  // ---------------------------------------------------------------------------------------------
  // The list once the closed marker is in
  // ---------------------------------------------------------------------------------------------

  predicate Dropping(con: L.PollPc) { con.DropClear? || con.DropSwap? }

  /** The poller's own push is over, or is that of the closed marker, or is about to be refused. */
  predicate PollerIsThrough(l: L.List) {
    var pc := L.PcOf(l, L.Poller);
    pc.Out? || pc.phase == L.ClearNext || pc.phase == L.LoadHead || (pc == L.At(L.Link, L.Closed, pc.prev) && l.con.Closing?)
  }

  /** Others push only data nodes; behind the closed marker nothing is pushed, and a sleep marker kept has data behind it. */
  ghost predicate Closes(l: L.List) {
    && (forall t {:trigger L.PcOf(l, t)} :: t != L.Poller && L.PcOf(l, t).At? ==> L.PcOf(l, t).n.Node?)
    && (L.Closed in l.chain ==> PollerIsThrough(l) && (Dropping(l.con) ==> L.Data(l.chain) != []))
  }

  lemma {:induction false} HasData(c: seq<L.Ptr>)
    ensures L.Data(c) != [] <==> exists p :: p in c && p.Node?
  {
    if c == [] {
    } else {
      HasData(c[1..]);
      assert forall p :: p in c <==> p == c[0] || p in c[1..];
    }
  }

  /** A null link at a marker in front of the closed marker is owed by a producer, for a data node. */
  lemma OwedIsData(l: L.List)
    requires L.Inv(l) && Closes(l) && L.Closed in l.chain && L.PcOf(l, L.Poller).Out? && l.tail !in l.next && l.tail != L.Closed
    ensures exists t :: L.PcOf(l, t).Is(L.Link) && L.PcOf(l, t).prev == l.tail
    ensures L.Data(l.chain) != []
  {
    assert |l.chain| > 1;
    assert L.Follows(l, l.chain[0], l.chain[1]);
    var t := l.linker[l.tail];
    assert L.PcOf(l, t) == L.At(L.Link, l.chain[1], l.tail);
    assert l.chain[1] in l.chain;
    HasData(l.chain);
  }

  lemma PushCloses(l: L.List, t: Tid)
    requires L.Inv(l) && Closes(l) && L.PcOf(l, t).At?
    ensures Closes(L.PushStep(l, t)) && (L.Closed in l.chain ==> L.Closed in L.PushStep(l, t).chain)
  {
    hide L.Inv, L.PushStep, L.PcOk, L.Data, L.PollerDone, L.Tracked;
    L.PushTracks(l, t);
    PushGrows(l, t);
    PushCon(l, t);
    if t == L.Poller { PollerPushCloses(l); }
  }

  /** Only a won swap makes the list longer, and none is won behind the closed marker. */
  lemma PushGrows(l: L.List, t: Tid)
    requires L.Inv(l) && L.PcOf(l, t).At?
    ensures var l' := L.PushStep(l, t);
      && (l'.chain != l.chain ==> L.PcOf(l', t).Is(L.Link) && L.PcOf(l', t).n == L.PcOf(l, t).n && L.Closed !in l.chain)
      && (t != L.Poller && L.PcOf(l, t).n.Node? && L.Closed in l'.chain ==> L.Closed in l.chain)
  {
    hide L.ConsumerPlace, L.NoLostWakeup, L.History, L.Follows, L.Data;
    assert L.PcOk(l, t);
    if L.PcOf(l, t).Is(L.Push) && l.head == L.PcOf(l, t).prev {
      assert L.Closed in l.chain ==> l.head == L.Closed;
    } else {
      SmallPush(l, t);
    }
  }

  lemma SmallPush(l: L.List, t: Tid)
    requires L.PcOf(l, t).At? && !(L.PcOf(l, t).Is(L.Push) && l.head == L.PcOf(l, t).prev)
    ensures L.PushStep(l, t).chain == l.chain
  {}

  lemma PushCon(l: L.List, t: Tid)
    requires L.PcOf(l, t).At?
    ensures L.PushStep(l, t).con == l.con || (t == L.Poller && !Dropping(L.PushStep(l, t).con))
  {
    hide L.PushStep;
    if t == L.Poller { L.PushFlowOrWake(l); } else { OthersKeepCon(l, t); }
  }

  lemma OthersKeepCon(l: L.List, t: Tid)
    requires L.PcOf(l, t).At? && t != L.Poller
    ensures L.PushStep(l, t).con == l.con
  {}

  lemma PollerPushCloses(l: L.List)
    requires L.Inv(l) && Closes(l) && L.PcOf(l, L.Poller).At?
    ensures L.Closed in L.PushStep(l, L.Poller).chain ==> PollerIsThrough(L.PushStep(l, L.Poller))
  {
    hide L.NoLostWakeup, L.History, L.Follows, L.Data;
    assert L.PcOk(l, L.Poller);
    assert L.Closed in l.chain ==> l.head == L.Closed && l.closing;
  }

  /** An access of the consumer leaves the closed marker where it is. */
  lemma PollChain(l: L.List)
    requires L.Inv(l) && L.Enabled(l, L.PollAccess) && L.Closed in l.chain
    ensures var l' := L.PollStep(l);
      L.Closed in l'.chain && (l'.chain == l.chain || (|l.chain| > 1 && l'.chain == l.chain[1..])) && (Dropping(l'.con) ==> l'.chain == l.chain)
  {
    hide L.Rights, L.NoLostWakeup, L.History;
    L.DecideOk(l);
    assert l.head == L.Closed && l.closing;
    match L.Decide(l)
    case ToGoto(con) =>
    case ToForget(p, con) =>
    case ToSwap(to, con) => assert false;
    case ToSkip(until) => TailHasNext(l);
    case ToTake => TailHasNext(l);
    case ToPush(p, con) =>
  }

  lemma TailHasNext(l: L.List)
    requires L.Shape(l) && l.tail in l.next && L.Closed in l.chain
    ensures |l.chain| > 1 && L.Closed in l.chain[1..]
  {
    assert l.chain[|l.chain| - 1] == L.Closed;
    assert l.chain[1..][|l.chain| - 2] == L.Closed;
  }

  lemma PollCloses(l: L.List)
    requires L.Inv(l) && Closes(l) && L.Enabled(l, L.PollAccess)
    ensures Closes(L.PollStep(l)) && (L.Closed in l.chain ==> L.Closed in L.PollStep(l).chain)
  {
    hide L.Rights, L.NoLostWakeup, L.History, L.Follows, L.Data;
    PollPlaces(l);
    if L.Closed in l.chain {
      PollChain(l);
      if l.con.Deq? && l.tail == L.Sleep && l.tail !in l.next {
        OwedIsData(l);
      }
      DroppingSince(l);
    }
  }

  /** The consumer starts to clear the sleep marker only at a load that found it without a link. */
  lemma DroppingSince(l: L.List)
    requires L.Enabled(l, L.PollAccess)
    ensures Dropping(L.PollStep(l).con) ==> Dropping(l.con) || (l.con.Deq? && l.tail == L.Sleep && l.tail !in l.next)
  {
    L.MoveConOk(l);
    hide L.PollStep;
  }

  lemma PollPlaces(l: L.List)
    requires L.Inv(l) && L.Enabled(l, L.PollAccess)
    ensures var l' := L.PollStep(l);
      && (forall t :: t != L.Poller ==> L.PcOf(l', t) == L.PcOf(l, t))
      && (L.PcOf(l', L.Poller).Out? || L.PcOf(l', L.Poller).phase == L.ClearNext)
      && (L.Closed in l'.chain ==> L.Closed in l.chain)
  {
    hide L.Inv, L.Data, L.Decide;
    SwapsNoClosed(l);
    match L.Decide(l)
    case ToGoto(con) =>
    case ToForget(p, con) =>
    case ToSwap(to, con) =>
    case ToSkip(until) =>
    case ToTake =>
    case ToPush(p, con) =>
  }

  lemma SwapsNoClosed(l: L.List)
    ensures L.Decide(l).ToSwap? ==> L.Decide(l).to != L.Closed
  {}

  lemma OtherCloses(l: L.List, a: L.Action)
    requires L.Inv(l) && Closes(l) && L.Enabled(l, a) && !a.PushAccess? && !a.PollAccess?
    ensures Closes(L.Apply(l, a)) && L.Apply(l, a).chain == l.chain
  {
    hide L.Rights, L.ConsumerPlace, L.PollerPush, L.NoLostWakeup, L.History, L.Follows, L.Data, L.PushStep, L.PollStep;
    assert L.Closed in l.chain ==> l.closing;
    hide L.Inv;
    match a
    case BeginPush(t, id) => assert forall u :: u != t ==> L.PcOf(L.Apply(l, a), u) == L.PcOf(l, u);
    case Acquire(_, _) => assert forall u :: L.PcOf(L.Apply(l, a), u) == L.PcOf(l, u);
    case Abandon(_) => assert forall u :: L.PcOf(L.Apply(l, a), u) == L.PcOf(l, u);
    case _ => PollerBegins(l, a);
  }

  lemma PollerBegins(l: L.List, a: L.Action)
    requires Closes(l) && L.Enabled(l, a) && (L.Closed in l.chain ==> l.closing)
    requires a.BeginSleep? || a.SelectReturns? || a.BeginClear? || a.BeginDeq? || a.ReleaseHeld? || a.BeginRequeue? || a.BeginClose?
    ensures Closes(L.Apply(l, a)) && L.Apply(l, a).chain == l.chain
  {
    hide L.Data, L.PushStep, L.PollStep;
    assert forall u :: u != L.Poller ==> L.PcOf(L.Apply(l, a), u) == L.PcOf(l, u);
  }

  lemma ApplyCloses(l: L.List, a: L.Action)
    requires L.Inv(l) && Closes(l) && L.Enabled(l, a)
    ensures Closes(L.Apply(l, a)) && (L.Closed in l.chain ==> L.Closed in L.Apply(l, a).chain)
  {
    hide L.Inv, Closes;
    if a.PushAccess? {
      PushCloses(l, a.t);
    } else if a.PollAccess? {
      PollCloses(l);
    } else {
      OtherCloses(l, a);
    }
  }

  lemma {:induction false} DoesCloses(l: L.List, done: seq<L.Action>, l': L.List)
    requires L.Inv(l) && Closes(l) && L.Does(l, done, l')
    ensures L.Inv(l') && Closes(l') && (L.Closed in l.chain ==> L.Closed in l'.chain)
    decreases |done|
  {
    hide L.Inv, Closes, L.Apply, L.Enabled;
    if done == [] {
    } else {
      ApplyCloses(l, done[0]);
      L.ApplyKeeps(l, done[0]);
      DoesCloses(L.Apply(l, done[0]), done[1..], l');
    }
  }

  // ---------------------------------------------------------------------------------------------
  // The drop of the queue, step by step
  // ---------------------------------------------------------------------------------------------

  predicate Dropped(stage: PollStage) {
    stage == CloseDequeue || stage == CloseLoad || stage == CloseRelease || stage == Gone
  }

  /** From the first dequeue of the drop on the closed marker is in the list, and no dequeue looks for an `until`. */
  ghost predicate ClosedIn(s: State) {
    && (Dropped(s.poll.stage) ==> L.Closed in s.l.chain)
    && (s.poll.stage == CloseDequeue ==> (s.l.con.Deq? ==> s.l.con.until == {}) && (s.l.con.DeqSkip? ==> s.l.con.until == {}))
  }

  lemma ThreadKeepsOne(l: L.List, a: L.Action, id: nat)
    requires L.Inv(l) && L.Enabled(l, a) && ByThread(a)
    ensures var l' := L.Apply(l, a);
      && l'.con == l.con && l'.closing == l.closing
      && (L.Node(id) in l.chain ==> L.Node(id) in l'.chain)
      && (L.Node(id) in l.owner && l.owner[L.Node(id)] == L.Poller ==> L.Node(id) in l'.owner && l'.owner[L.Node(id)] == L.Poller)
  {
    hide L.Inv, L.PushStep;
    if a.PushAccess? {
      OthersKeepCon(l, a.t);
      L.PushTracks(l, a.t);
    }
  }

  /** What ordinary threads do moves neither the consumer nor the nodes it has to take. */
  lemma {:induction false} ThreadsKeep(l: L.List, done: seq<L.Action>, l': L.List, id: nat)
    requires L.Inv(l) && L.Does(l, done, l') && AllByThread(done)
    ensures l'.con == l.con && l'.closing == l.closing
    ensures L.Node(id) in l.chain ==> L.Node(id) in l'.chain
    ensures L.Node(id) in l.owner && l.owner[L.Node(id)] == L.Poller ==> L.Node(id) in l'.owner && l'.owner[L.Node(id)] == L.Poller
    decreases |done|
  {
    hide L.Inv, L.Apply, L.Enabled;
    if done == [] {
    } else {
      ThreadKeepsOne(l, done[0], id);
      L.ApplyKeeps(l, done[0]);
      ThreadsKeep(L.Apply(l, done[0]), done[1..], l', id);
    }
  }

  lemma ThreadStage(s: State, t: Tid)
    requires Inv(s) && OpOf(s, t).Doing?
    ensures ThreadStep(s, t).poll == s.poll && ThreadStep(s, t).l.con == s.l.con
  {
    hide L.Inv, ThreadStep, NodeOk, OpOk, HandleOk, RightOk;
    var done := ThreadDoes(s, t);
    ThreadsKeep(s.l, done, ThreadStep(s, t).l, 0);
    ThreadKeepsPoll(s, t);
  }

  /** The closed marker goes in before the first dequeue. */
  lemma PushClosedEnds(l: L.List)
    requires L.Inv(l) && l.con.Closing?
    ensures ListAccess(l).con.Idle? ==> L.Closed in ListAccess(l).chain
  {
    hide L.NoLostWakeup, L.History, L.Follows, L.ConsumerPlace;
    assert L.PcOk(l, L.Poller);
    assert L.Closed in l.chain ==> l.head == L.Closed;
    LinkingIsLinked(l, L.Poller);
    hide L.Shape;
    PushClosedStep(l);
  }

  lemma PushClosedStep(l: L.List)
    requires L.PcOk(l, L.Poller) && L.PollerPush(l) && l.con.Closing? && (L.Closed in l.chain ==> l.head == L.Closed)
    requires L.PcOf(l, L.Poller).Is(L.Link) ==> L.Closed in l.chain
    requires l.head == L.Closed ==> L.Closed in l.chain
    ensures ListAccess(l).con.Idle? ==> L.Closed in ListAccess(l).chain
  {
    hide L.PollStep;
  }

  lemma DequeueUntil(l: L.List)
    requires L.Enabled(l, AccessOf(l)) && (l.con.Deq? ==> l.con.until == {}) && (l.con.DeqSkip? ==> l.con.until == {})
    requires L.Dequeuing(l.con)
    ensures var con := ListAccess(l).con; (con.Deq? ==> con.until == {}) && (con.DeqSkip? ==> con.until == {})
  {
    hide L.PollStep, L.PushStep;
    if L.PcOf(l, L.Poller).At? {
      L.PushFlowOrWake(l);
    } else {
      L.MoveConOk(l);
    }
  }

  lemma PollerCloses(s: State)
    requires Inv(s) && Closes(s.l) && ClosedIn(s) && Enabled(s, PollStep)
    ensures ClosedIn(PollerStep(s))
  {
    hide L.Inv, Closes, L.Apply, NodeOk, OpOk, HandleOk, RightOk, ListAccess, PollerStep;
    var done := PollerDoes(s);
    DoesCloses(s.l, done, PollerStep(s).l);
    assert PollOk(s) && L.Inv(s.l);
    if s.poll.stage == PushClosed {
      PushClosedEnds(s.l);
      PushClosedStage(s);
    } else if s.poll.stage == CloseDequeue {
      AccessEnabled(s);
      DequeueUntil(s.l);
      hide Inv;
      CloseDequeueStage(s);
    } else {
      hide Inv;
      OtherStages(s);
    }
  }

  lemma CloseDequeueStage(s: State)
    requires s.poll.stage == CloseDequeue
    requires var con := ListAccess(s.l).con; (con.Deq? ==> con.until == {}) && (con.DeqSkip? ==> con.until == {})
    ensures var s' := PollerStep(s);
      && Dropped(s'.poll.stage)
      && (s'.poll.stage == CloseDequeue ==> (s'.l.con.Deq? ==> s'.l.con.until == {}) && (s'.l.con.DeqSkip? ==> s'.l.con.until == {}))
  {
    hide ListAccess, L.Apply, Act, SawWord, Retire;
    BeginDeqCon(ListAccess(s.l));
  }

  lemma BeginDeqCon(l: L.List)
    ensures L.Apply(l, L.BeginDeq({})).con == L.Deq({})
  {}

  lemma PushClosedStage(s: State)
    requires s.poll.stage == PushClosed && (ListAccess(s.l).con.Idle? ==> L.Closed in ListAccess(s.l).chain)
    ensures ClosedIn(PollerStep(s))
  {
    hide ListAccess;
  }

  lemma OtherStages(s: State)
    requires s.poll.stage != PushClosed && s.poll.stage != CloseDequeue && Enabled(s, PollStep)
    ensures var s' := PollerStep(s);
      && (Dropped(s'.poll.stage) ==> Dropped(s.poll.stage))
      && (s'.poll.stage == CloseDequeue ==> (s'.l.con.Deq? ==> s'.l.con.until == {}) && !s'.l.con.DeqSkip?)
  {
    hide ListAccess, Act, SawWord, PollNext;
    var id := s.poll.id;
    if id in s.nodes {
      var n := s.nodes[id];
      LocalStage(s, n.word, n.word, n.slots);
      LocalStage(SetNode(s, id, n.(word := PollNext(n.word))), n.word, PollNext(n.word), n.slots);
    }
  }

  lemma LocalStage(s: State, w: Word, next: Word, slots: Slots)
    ensures !Dropped(Act(s, w, next, slots).poll.stage) && !Dropped(SawWord(s, w, slots).poll.stage)
  {
    hide L.Apply, Effective, PollNext;
  }

  lemma ActionCloses(s: State, a: Action)
    requires Inv(s) && Closes(s.l) && ClosedIn(s) && Enabled(s, a)
    ensures Closes(Apply(s, a).l) && ClosedIn(Apply(s, a))
  {
    hide L.Inv, Closes, L.Apply, ThreadStep, PollerStep;
    var done := ActionDoes(s, a);
    DoesCloses(s.l, done, Apply(s, a).l);
    match a
    case Step(t) => ThreadStage(s, t);
    case PollStep => PollerCloses(s);
    case _ =>
  }

  lemma {:induction false} RunsClose(states: seq<State>, actions: seq<Action>, k: nat)
    requires Run(states, actions) && k < |states|
    ensures Inv(states[k]) && Closes(states[k].l) && ClosedIn(states[k])
  {
    hide Inv, Closes, ClosedIn, Apply, Enabled;
    RunsKeepInvariant(states, actions, k);
    if k == 0 {
      InitialCloses();
    } else {
      RunsClose(states, actions, k - 1);
      assert StepAt(states, actions, k - 1);
      ActionCloses(states[k - 1], actions[k - 1]);
    }
  }

  lemma InitialCloses()
    ensures Closes(Initial.l) && ClosedIn(Initial)
  {}
}
