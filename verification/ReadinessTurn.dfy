/**
  Every turn of the poll loop comes to an end when nobody disturbs the polling thread, and visits the first node of
  the list: it reports what that node has been told, and puts it back, disarms it, or releases it.
*/
module ReadinessTurn {
  import L = ReadinessList
  import A = ReadinessListAlone
  import opened ReadinessNodes
  import opened ReadinessFacts
  import opened ReadinessReports
  import opened ReadinessTold
  import Steps = ReadinessSteps

  /** The state after n steps of the polling thread in a row; at the head of the loop and outside it rests. */
  function Turns(s: State, n: nat): State
    decreases n
  {
    if n == 0 then s else Turns(PollerStep(s), n - 1)
  }

  lemma {:induction false} TurnsOn(s: State, a: nat, b: nat)
    ensures Turns(Turns(s, a), b) == Turns(s, a + b)
    decreases a
  {
    if a > 0 { TurnsOn(PollerStep(s), a - 1, b); }
  }

  predicate Moves(st: PollStage) { st != Resting && st != Top && st != Gone }

  lemma PollerIsReachable(s: State)
    requires Reachable(s) && Moves(s.poll.stage)
    ensures Reachable(PollerStep(s))
  {
    hide Reachable, PollerStep;
    ReachableNext(s, PollStep);
  }

  /** Only the list and the place of the polling thread differ. */
  predicate OnlyList(s: State, s': State) { s' == s.(l := s'.l, poll := s'.poll) }

  lemma AccessIs(l: L.List)
    ensures ListAccess(l) == A.Access(l)
  {
    hide L.PushStep, L.PollStep;
  }

  // ---------------------------------------------------------------------------------------------
  // Dequeue
  // ---------------------------------------------------------------------------------------------

  /** The dequeue of a turn is over, and has found `found`. */
  ghost predicate Dequeued(s: State, found: L.PollPc, data: seq<nat>, s': State) {
    && OnlyList(s, s') && s'.poll.until == s.poll.until && L.Data(s'.l.chain) == data
    && if found.Holding? then s'.poll.stage == Load && s'.poll.id == found.id else s'.poll.stage == Resting
  }

  lemma {:induction false} DequeueTurn(s: State, n: nat) returns (m: nat)
    requires s.poll.stage == Dequeue && A.Undisturbed(s.l) && A.ConLeft(s.l) <= n
    ensures 0 < m <= n && Dequeued(s, A.Outcome(s.l), A.Remains(s.l), Turns(s, m))
    decreases n
  {
    hide A.Undisturbed, A.Outcome, A.Remains, L.Inv, A.ConLeft, ListAccess, A.Access, L.Data, L.Apply;
    AccessIs(s.l);
    UndisturbedBusy(s.l);
    A.AccessLess(s.l);
    A.DeqStep(s.l);
    A.RemainsStep(s.l);
    var s1 := PollerStep(s);
    if A.Through(A.Access(s.l).con) {
      m := 1;
      A.NothingRemains(A.Access(s.l));
      ReleaseKeepsChain(A.Access(s.l));
      assert Turns(s, 1) == Turns(s1, 0) == s1;
    } else {
      m := DequeueTurn(s1, n - 1);
      m := m + 1;
    }
  }

  lemma ReleaseKeepsChain(l: L.List)
    ensures L.Apply(l, L.ReleaseHeld).chain == l.chain
  {}

  lemma UndisturbedBusy(l: L.List)
    requires A.Undisturbed(l)
    ensures L.Inv(l) && A.Busy(l.con) && A.ConLeft(l) > 0
  {
    hide L.Inv, A.Linked, A.DeqPlace;
  }

  // ---------------------------------------------------------------------------------------------
  // Acting on the word
  // ---------------------------------------------------------------------------------------------

  /** What the node has been told once poll has acted on it. */
  function Disarm(td: Told): Told { if td.opt.b0 && td.opt.b2 && Overlap(td) then td.(interest := NONE) else td }

  /** What there is to report, flag by flag. */
  function Common(td: Told): Flags {
    Flags(td.ready.b0 && td.interest.b0, td.ready.b1 && td.interest.b1, td.ready.b2 && td.interest.b2, td.ready.b3 && td.interest.b3)
  }

  predicate Again(td: Told) { !td.opt.b0 && Overlap(td) }

  function NextUntil(until: set<L.Ptr>, id: nat, td: Told): set<L.Ptr> {
    if Again(td) && until == {} then {L.Node(id)} else until
  }

  /** Poll has acted on node n with this id, from s to s'. */
  ghost predicate Acted(s: State, id: nat, n: Node, s': State)
    requires id in s.nodes
  {
    && id in s'.nodes && s'.nodes == s.nodes[id := s'.nodes[id]] && s'.ops == s.ops && s'.handles == s.handles && s'.reports == s.reports
    && Says(s'.nodes[id]) == Disarm(Says(n)) && (s'.nodes[id].word.queued <==> Again(Says(n)))
    && s'.poll.id == id && s'.poll.ready == Common(Says(n)) && s'.poll.token == Says(n).token
    && s'.poll.until == NextUntil(s.poll.until, id, Says(n))
    && s'.l == L.Apply(s.l, if Again(Says(n)) then L.BeginRequeue else L.ReleaseHeld)
    && s'.poll.stage == if Again(Says(n)) then Requeue else if Overlap(Says(n)) then Read else Top
  }

  lemma ActMeans(s: State, id: nat, n: Node)
    requires s.poll.id == id && id in s.nodes && n.word.queued
    ensures Acted(s, id, n, Act(SetNode(s, id, n.(word := PollNext(n.word))), n.word, PollNext(n.word), n.slots))
  {
    hide L.Apply;
  }

  /** From the load of the word or a swap on, poll has acted on the node or has found it dropped. */
  lemma LoadTurn(s: State) returns (m: nat)
    requires (s.poll.stage == Load || (s.poll.stage == Swap && !s.poll.seen.dropped)) && s.poll.id in s.nodes && s.nodes[s.poll.id].word.queued
    ensures m <= 2 && var id := s.poll.id; var n := s.nodes[id];
      if n.word.dropped then Turns(s, m) == Goto(s, DropNode) else Acted(s, id, n, Turns(s, m))
  {
    hide Inv, L.Apply, PollNext, Act, Acted;
    var id := s.poll.id;
    var n := s.nodes[id];
    m := 1;
    assert Turns(s, 1) == Turns(PollerStep(s), 0);
    if s.poll.stage == Swap && n.word == s.poll.seen {
      ActMeans(s, id, n);
    } else if !n.word.dropped && PollNext(n.word) == n.word {
      ActMeans(s, id, n);
      assert s.nodes[id := n] == s.nodes;
    } else if !n.word.dropped {
      m := 2;
      var s1 := s.(poll := s.poll.(stage := Swap, seen := n.word));
      assert PollerStep(s) == s1;
      ActMeans(s1, id, n);
      SwapActed(s, s1, id, n, PollerStep(s1));
      assert Turns(s, 2) == Turns(s1, 1) == Turns(PollerStep(s1), 0);
    }
  }

  lemma SwapActed(s: State, s1: State, id: nat, n: Node, s': State)
    requires id in s.nodes && s1 == s.(poll := s1.poll) && s1.poll.until == s.poll.until && Acted(s1, id, n, s')
    ensures Acted(s, id, n, s')
  {
    hide Says, Disarm, Again, Common, NextUntil;
  }

  // ---------------------------------------------------------------------------------------------
  // Requeueing and reading the token
  // ---------------------------------------------------------------------------------------------

  lemma RequeueAccess(s: State)
    requires Inv(s) && s.poll.stage == Requeue
    ensures L.Inv(s.l) && L.PcOf(s.l, L.Poller).At? && ListAccess(s.l) == L.PushStep(s.l, L.Poller)
    ensures L.PcOf(ListAccess(s.l), L.Poller).Out? <==> ListAccess(s.l).con.Idle?
    ensures !ListAccess(s.l).con.Idle? ==> ListAccess(s.l).con == s.l.con
  {
    assert L.PcOk(s.l, L.Poller) && PollOk(s);
    RequeueAt(s.l, s.poll.id);
    L.RequeuePlace(s.l);
    hide L.Inv, L.PcOk, L.PushStep;
    L.PushFlow(s.l);
  }

  /** The node popped is pushed back. */
  lemma {:induction false} RequeueTurn(s: State, n: nat) returns (m: nat)
    requires Reachable(s) && s.poll.stage == Requeue && A.PushLeft(s.l, L.Poller) <= n
    ensures m <= n && var s' := Turns(s, m);
      && Reachable(s') && OnlyList(s, s') && s'.poll == s.poll.(stage := if s.poll.ready != NONE then Read else Top)
      && A.Pushed(s.l, L.Poller, s'.l)
    decreases n
  {
    hide Reachable, Inv, L.Inv, A.Pushed, ListAccess, L.PushStep, A.PushLeft;
    ReachableInv(s);
    RequeueAccess(s);
    A.OneAccess(s.l, L.Poller);
    var s1 := PollerStep(s);
    PollerIsReachable(s);
    if ListAccess(s.l).con.Idle? {
      m := 1;
      A.StillOut(s1.l, L.Poller, 0);
      assert Turns(s, 1) == Turns(s1, 0);
    } else {
      m := RequeueTurn(s1, n - 1);
      m := m + 1;
    }
    A.PushedFrom(s.l, L.Poller, Turns(s, m).l);
  }

  /** The token is read and the report is made. */
  lemma ReadTurn(s: State)
    requires Reachable(s) && s.poll.stage == Read
    ensures var s' := Turns(s, 1);
      s' == s.(poll := s.poll.(stage := Top), reports := s.reports + [Report(s.poll.id, s.poll.ready, s.poll.token)])
  {
    ReachableInv(s);
    assert PollOk(s);
    assert Turns(s, 1) == Turns(PollerStep(s), 0);
  }

  // ---------------------------------------------------------------------------------------------
  // A turn
  // ---------------------------------------------------------------------------------------------

  lemma {:induction false} TurnsReach(s: State, n: nat)
    requires Reachable(s)
    ensures Reachable(Turns(s, n))
    decreases n
  {
    hide Reachable, PollerStep;
    if n > 0 {
      if Moves(s.poll.stage) { PollerIsReachable(s); } else { RestStays(s); }
      TurnsReach(PollerStep(s), n - 1);
    }
  }

  lemma RestStays(s: State)
    requires !Moves(s.poll.stage)
    ensures PollerStep(s) == s
  {}

  /** What a turn that visits node id has come to. */
  ghost predicate Visited(s: State, id: nat, data: seq<nat>, s': State)
    requires id in s.nodes
  {
    var n, td := s.nodes[id], Says(s.nodes[id]);
    && s'.poll.stage == Top && s'.ops == s.ops && s'.handles == s.handles
    && id in s'.nodes && s'.nodes == s.nodes[id := s'.nodes[id]]
    && if n.word.dropped then
         s'.nodes[id] == Retire(n) && s'.reports == s.reports && L.Data(s'.l.chain) == data && s'.poll.until == s.poll.until
       else
         && Says(s'.nodes[id]) == Disarm(td) && (s'.nodes[id].word.queued <==> Again(td))
         && s'.reports == s.reports + (if Overlap(td) then [Report(id, Common(td), td.token)] else [])
         && L.Data(s'.l.chain) == (if Again(td) then data + [id] else data)
         && s'.poll.until == NextUntil(s.poll.until, id, td)
  }

  lemma AtLoad(s: State)
    requires Reachable(s) && (s.poll.stage == Load || s.poll.stage == Swap)
    ensures s.poll.stage == Swap ==> !s.poll.seen.dropped
    ensures Inv(s) && s.poll.id in s.nodes && s.nodes[s.poll.id].word.queued
    ensures s.l.con == L.Holding(s.poll.id) && L.Inv(s.l) && L.Closed !in s.l.chain
  {
    ReachableInv(s);
    PoppedIsQueued(s);
    assert PollOk(s);
  }

  lemma BeginsRequeue(l: L.List, id: nat)
    requires l.con == L.Holding(id)
    ensures var l' := L.Apply(l, L.BeginRequeue);
      l'.chain == l.chain && A.PushLeft(l', L.Poller) == 5 && L.PcOf(l', L.Poller).Is(L.ClearNext) && L.PcOf(l', L.Poller).n == L.Node(id)
  {}

  lemma PushedData(l: L.List, id: nat, l': L.List)
    requires A.Pushed(l, L.Poller, l') && L.PcOf(l, L.Poller).Is(L.ClearNext) && L.PcOf(l, L.Poller).n == L.Node(id) && L.Closed !in l.chain
    ensures L.Data(l'.chain) == L.Data(l.chain) + [id]
  {
    L.DataAppend(l.chain, L.Node(id));
  }

  lemma CommonIsSome(td: Told)
    ensures Common(td) != NONE <==> Overlap(td)
  {}

  /** From the state in which poll has acted on a node, the turn ends. */
  lemma ActedEnds(s: State, s1: State) returns (m: nat)
    requires Reachable(s) && (s.poll.stage == Load || s.poll.stage == Swap) && s.poll.id in s.nodes && !s.nodes[s.poll.id].word.dropped
    requires Reachable(s1) && Acted(s, s.poll.id, s.nodes[s.poll.id], s1)
    ensures m <= 6 && Visited(s, s.poll.id, L.Data(s.l.chain), Turns(s1, m))
  {
    hide Reachable, Inv, L.Inv, A.Pushed, PollerStep, Overlap, Disarm, Says, Common, L.Data, L.Apply;
    AtLoad(s);
    var id := s.poll.id;
    var td := Says(s.nodes[id]);
    CommonIsSome(td);
    m := 0;
    var s2 := s1;
    if Again(td) {
      BeginsRequeue(s.l, id);
      m := RequeueTurn(s1, 5);
      s2 := Turns(s1, m);
      PushedData(s1.l, id, s2.l);
    } else {
      ReleaseKeepsChain(s.l);
    }
    if Overlap(td) {
      ReadTurn(s2);
      TurnsOn(s1, m, 1);
      m := m + 1;
    }
  }

  lemma ReleaseEnds(s: State)
    requires s.poll.id in s.nodes && s.nodes[s.poll.id].word.dropped
    ensures Visited(s, s.poll.id, L.Data(s.l.chain), Turns(Goto(s, DropNode), 1))
  {
    hide Reachable, L.Data, Says, L.Apply;
    ReleaseKeepsChain(s.l);
    var s1 := Goto(s, DropNode);
    assert Turns(s1, 1) == Turns(PollerStep(s1), 0);
  }

  /** From the load of the word or a swap on, whatever poll saw before, the visit ends within eight steps. */
  lemma VisitEnds(s: State) returns (m: nat)
    requires Reachable(s) && (s.poll.stage == Load || s.poll.stage == Swap)
    ensures m <= 8 && s.poll.id in s.nodes && Visited(s, s.poll.id, L.Data(s.l.chain), Turns(s, m))
  {
    hide Reachable, Inv, L.Inv, Visited, Acted, PollerStep, L.Data, Turns;
    AtLoad(s);
    var a := LoadTurn(s);
    TurnsReach(s, a);
    var b: nat;
    if s.nodes[s.poll.id].word.dropped {
      b := 1;
      ReleaseEnds(s);
    } else {
      b := ActedEnds(s, Turns(s, a));
    }
    TurnsOn(s, a, b);
    m := a + b;
  }

  /** Where the turn begun by the action has to stop: nowhere at the start of a poll. */
  function UntilOf(s: State, a: Action): set<L.Ptr> { if a.StartPoll? then {} else s.poll.until }

  lemma StartsUndisturbed(s: State, a: Action)
    requires Reachable(s) && Enabled(s, a) && (a.StartPoll? || a.NextNode?)
    requires forall i {:trigger s.l.chain[i]} :: 0 <= i < |s.l.chain| - 1 ==> s.l.chain[i] in s.l.next
    ensures var s0 := Apply(s, a);
      && Reachable(s0) && OnlyList(s, s0) && s0.poll.stage == Dequeue && s0.poll.until == UntilOf(s, a)
      && A.Undisturbed(s0.l) && A.ConLeft(s0.l) == 9 && s0.l.con == L.Deq(UntilOf(s, a)) && s0.l.chain == s.l.chain
  {
    hide Reachable, L.Inv, NodeOk, OpOk, HandleOk, RightOk, L.Data;
    ReachableNext(s, a);
    ReachableInv(Apply(s, a));
    assert PollOk(Apply(s, a));
    PollerIsOut(Apply(s, a).l);
  }

  lemma PollerIsOut(l: L.List)
    requires L.Inv(l) && l.con.Deq?
    ensures L.PcOf(l, L.Poller).Out?
  {}

  lemma StartFinds(l: L.List, until: set<L.Ptr>)
    requires l.con == L.Deq(until)
    ensures var data := L.Data(l.chain);
      if data == [] || L.Node(data[0]) in until then !A.Outcome(l).Holding? && A.Remains(l) == data
      else A.Outcome(l) == L.Holding(data[0]) && A.Remains(l) == data[1..]
  {
    hide L.Data;
  }

  lemma VisitedFrom(s: State, s1: State, id: nat, data: seq<nat>, s': State)
    requires id in s1.nodes && Visited(s1, id, data, s') && OnlyList(s, s1)
    ensures id in s.nodes && Visited(s.(poll := s1.poll), id, data, s')
  {
    hide Says, Disarm, Again, Common, NextUntil, Overlap, L.Data;
  }

  lemma VisitedUntil(s: State, p: PollOp, until: set<L.Ptr>, id: nat, data: seq<nat>, s': State)
    requires id in s.nodes && Visited(s.(poll := p), id, data, s') && p.until == until
    ensures Visited(s.(poll := s.poll.(until := until)), id, data, s')
  {
    hide Says, Disarm, Again, Common, NextUntil, Overlap, L.Data;
  }

  /**
    In any reachable state in which poll starts or its loop goes round, and no producer still has to link two nodes of the
    list: if nobody disturbs it the turn ends within seventeen steps.  If the list is empty, or starts with the node at
    which to stop, poll is over and nothing has changed.  Otherwise the first node is visited.  A dropped one is released.  Of
    another one the readiness told, as far as it is of interest, and the token told are reported, or nothing if that is
    none; it is back at the end of the list, and marked queued, exactly if it is level-triggered and was reported, and
    disarmed exactly if it is edge-triggered and oneshot and was reported.
   */
  lemma TurnCompletes(s: State, a: Action) returns (m: nat)
    requires Reachable(s) && Enabled(s, a) && (a.StartPoll? || a.NextNode?)
    requires forall i {:trigger s.l.chain[i]} :: 0 <= i < |s.l.chain| - 1 ==> s.l.chain[i] in s.l.next
    ensures m <= 17 && var s', data, until := Turns(Apply(s, a), m), L.Data(s.l.chain), UntilOf(s, a);
      if data == [] || L.Node(data[0]) in until then
        s'.poll.stage == Resting && L.Data(s'.l.chain) == data && s' == s.(l := s'.l, poll := s'.poll)
      else data[0] in s.nodes && Visited(s.(poll := s.poll.(until := until)), data[0], data[1..], s')
  {
    hide Reachable, Inv, L.Inv, Visited, Acted, PollerStep, L.Data, Turns, A.Undisturbed, A.ConLeft, A.Outcome, A.Remains, Enabled, Apply;
    StartsUndisturbed(s, a);
    var s0, until := Apply(s, a), UntilOf(s, a);
    StartFinds(s0.l, until);
    var data := L.Data(s.l.chain);
    m := DequeueTurn(s0, 9);
    if !(data == [] || L.Node(data[0]) in until) {
      var s1 := Turns(s0, m);
      TurnsReach(s0, m);
      var b := VisitEnds(s1);
      TurnsOn(s0, m, b);
      m := m + b;
      VisitedFrom(s, s1, data[0], data[1..], Turns(s0, m));
      VisitedUntil(s, s1.poll, until, data[0], data[1..], Turns(s0, m));
    }
  }

  // ---------------------------------------------------------------------------------------------
  // From anywhere in a turn
  // ---------------------------------------------------------------------------------------------

  predicate InTurn(st: PollStage) { st == Dequeue || st == Load || st == Swap || st == DropNode || st == Requeue || st == Read }

  predicate TurnIsOver(st: PollStage) { st == Top || st == Resting }

  lemma {:induction false} DequeueIsOver(s: State, n: nat) returns (m: nat)
    requires Reachable(s) && s.poll.stage == Dequeue && A.ConLeft(s.l) <= n
    ensures m <= n && Reachable(Turns(s, m)) && (Turns(s, m).poll.stage == Load || Turns(s, m).poll.stage == Resting)
    decreases n
  {
    hide Reachable, L.Inv, ListAccess, A.Access, A.ConLeft, L.Apply;
    var s1 := PollerStep(s);
    PollerIsReachable(s);
    DequeueIsBusy(s);
    A.AccessLess(s.l);
    AccessIs(s.l);
    assert Turns(s, 1) == Turns(s1, 0) == s1;
    if s1.poll.stage == Dequeue {
      m := DequeueIsOver(s1, n - 1);
      m := m + 1;
    } else {
      m := 1;
    }
  }

  lemma DequeueIsBusy(s: State)
    requires Reachable(s) && s.poll.stage == Dequeue
    ensures L.Inv(s.l) && A.Busy(s.l.con) && A.ConLeft(s.l) > 0
  {
    ReachableInv(s);
    hide L.Inv, NodeOk, OpOk, HandleOk, RightOk;
    assert PollOk(s);
    A.BusyLeft(s.l);
  }

  lemma ConLeftIn(l: L.List)
    ensures A.ConLeft(l) <= 9 && A.PushLeft(l, L.Poller) <= 5
  {}

  /**
    From any reachable state in the middle of a turn, whatever other threads have done before, seventeen undisturbed steps
    of the polling thread end the turn.
   */
  lemma TurnEnds(s: State) returns (m: nat)
    requires Reachable(s) && InTurn(s.poll.stage)
    ensures m <= 17 && TurnIsOver(Turns(s, m).poll.stage)
  {
    hide Reachable, Visited, A.ConLeft, A.PushLeft, PollerStep;
    ConLeftIn(s.l);
    if s.poll.stage == Dequeue {
      m := DequeueIsOver(s, 9);
      if Turns(s, m).poll.stage == Load {
        var b := VisitIsOver(Turns(s, m));
        TurnsOn(s, m, b);
        m := m + b;
      }
    } else if s.poll.stage == Load || s.poll.stage == Swap {
      m := VisitIsOver(s);
    } else if s.poll.stage == Requeue {
      m := RequeueTurn(s, 5);
      if Turns(s, m).poll.stage == Read {
        ReadTurn(Turns(s, m));
        TurnsOn(s, m, 1);
        m := m + 1;
      }
    } else {
      m := 1;
      LastStep(s);
    }
  }

  lemma VisitIsOver(s: State) returns (m: nat)
    requires Reachable(s) && (s.poll.stage == Load || s.poll.stage == Swap)
    ensures m <= 8 && Turns(s, m).poll.stage == Top
  {
    hide Reachable, Turns, PollerStep;
    m := VisitEnds(s);
  }

  lemma LastStep(s: State)
    requires Reachable(s) && (s.poll.stage == Read || s.poll.stage == DropNode)
    ensures Turns(s, 1).poll.stage == Top
  {
    ReachableInv(s);
    hide L.Inv, NodeOk, OpOk, HandleOk, RightOk;
    assert PollOk(s);
    assert Turns(s, 1) == Turns(PollerStep(s), 0);
  }
}
