/**
  The drop of the readiness queue comes to an end when nobody disturbs it, and releases every node of the list.
*/
module ReadinessDrain {
  import L = ReadinessList
  import A = ReadinessListAlone
  import opened ReadinessNodes
  import opened ReadinessFacts
  import opened ReadinessTurn

  // ---------------------------------------------------------------------------------------------
  // The list
  // ---------------------------------------------------------------------------------------------

  /** Every link of the list is in place. */
  ghost predicate Complete(l: L.List) {
    forall i {:trigger l.chain[i]} :: 0 <= i < |l.chain| - 1 ==> l.chain[i] in l.next
  }

  /** Where an undisturbed dequeue of the drop can be. */
  predicate DrainPlace(l: L.List) {
    match l.con
    case Deq(until) => until == {} && L.PcOf(l, L.Poller).Out?
    case DeqSkip(until) => until == {} && L.PcOf(l, L.Poller).Out? && (l.tail.Node? || l.tail == L.Closed)
    case DeqHead => l.tail == L.Closed && L.PcOf(l, L.Poller).Out?
    case DeqStub => l.tail == L.Closed && (L.PcOf(l, L.Poller).Is(L.ClearNext) || L.PcOf(l, L.Poller).Is(L.LoadHead)) && L.PcOf(l, L.Poller).n == L.End
    case DeqReload => l.tail == L.Closed && L.PcOf(l, L.Poller).Out?
    case _ => false
  }

  ghost predicate Drains(l: L.List) { L.Inv(l) && L.Closed in l.chain && Complete(l) && DrainPlace(l) }

  /** How far the dequeue is from its end, within the one node. */
  function Near(l: L.List): nat {
    match l.con
    case Deq(_) => if l.tail == L.Closed then 1 else 15
    case DeqSkip(_) => 14
    case DeqHead => 13
    case DeqStub => 3 + A.PushLeft(l, L.Poller)
    case DeqReload => 2
    case _ => 0
  }

  lemma AtTheEnds(l: L.List)
    requires L.Inv(l) && L.Closed in l.chain && Complete(l)
    ensures l.head == L.Closed && L.Closed !in l.next && l.chain != [] && l.chain[0] == l.tail
    ensures l.tail == L.Closed ==> l.chain == [L.Closed] && L.Data(l.chain) == []
    ensures l.tail != L.Closed ==> l.tail in l.next && |l.chain| > 1
    ensures l.tail in l.next ==> l.next[l.tail] == l.chain[1]
  {
    hide L.Rights, L.ConsumerPlace, L.PollerPush, L.NoLostWakeup, L.History, L.Data;
    if l.tail == L.Closed {
      assert |l.chain| == 1;
      L.MarkerData(L.Closed);
    } else {
      assert L.Follows(l, l.chain[0], l.chain[1]);
      assert l.chain[1] in l.chain && l.chain[0] in l.chain;
    }
  }

  /** Behind a marker at the tail comes a data node or the closed marker. */
  lemma SkipTo(l: L.List)
    requires L.Inv(l) && L.Closed in l.chain && |l.chain| > 1 && !l.tail.Node?
    ensures l.chain[1].Node? || l.chain[1] == L.Closed
  {
    assert l.chain[1] in l.chain && l.chain[0] in l.chain && l.chain[0] != l.chain[1];
  }

  /** One access of the drop's dequeue: a node is delivered, the end is seen, or the dequeue gets nearer to one of these. */
  ghost predicate DrainsOn(l: L.List, l': L.List) {
    && L.Inv(l') && L.Closed in l'.chain && Complete(l')
    && if l'.con.Holding? then L.Data(l.chain) == [l'.con.id] + L.Data(l'.chain) && l'.con.id !in L.Data(l'.chain)
       else
         && L.Data(l'.chain) == L.Data(l.chain)
         && (l'.con.GotNothing? ==> l'.chain == [L.Closed] && (l'.con.inconsistent ==> Near(l) > 1))
         && (!l'.con.GotNothing? ==> DrainPlace(l') && Near(l') < Near(l))
  }

  lemma DrainStep(l: L.List)
    requires Drains(l)
    ensures DrainsOn(l, A.Access(l))
  {
    AtTheEnds(l);
    var next := A.Access(l);
    AccessKeeps(l);
    hide L.Rights, L.ConsumerPlace, L.PollerPush, L.NoLostWakeup, L.History, L.Shape, L.Data;
    if l.con.DeqStub? {
      hide L.Inv;
      RefusedStub(l);
    } else if next.con.Holding? {
      L.DeliveryIsTake(l);
      TakeDrains(l);
    } else if l.con.Deq? && !l.tail.Node? && l.tail != L.Closed {
      SkipTo(l);
      SkipDrains(l);
    } else {
      if l.tail.Node? { NodeIsTaken(l); }
      hide L.Inv;
      StayDrains(l);
    }
  }

  lemma AccessKeeps(l: L.List)
    requires Drains(l)
    ensures L.Inv(A.Access(l)) && (L.PcOf(l, L.Poller).Out? ==> L.Enabled(l, L.PollAccess))
  {
    hide L.Inv;
    A.AccessLess(l);
  }

  lemma RefusedStub(l: L.List)
    requires l.con.DeqStub? && DrainPlace(l) && l.head == L.Closed && l.chain == [L.Closed] && L.Inv(A.Access(l))
    ensures DrainsOn(l, A.Access(l))
  {
    hide L.Inv, L.Data, A.Access, A.PushLeft;
    StubAccess(l);
  }

  lemma StubAccess(l: L.List)
    requires l.con.DeqStub? && DrainPlace(l) && l.head == L.Closed
    ensures A.Access(l) == if L.PcOf(l, L.Poller).Is(L.ClearNext) then L.DoClear(l, L.Poller, L.End) else L.Leave(l, L.Poller)
    ensures A.PushLeft(l, L.Poller) == if L.PcOf(l, L.Poller).Is(L.ClearNext) then 5 else 4
    ensures A.PushLeft(L.DoClear(l, L.Poller, L.End), L.Poller) == 4
  {}

  lemma TakeDrains(l: L.List)
    requires Drains(l) && l.tail in l.next && l.tail.Node? && L.Inv(L.Take(l)) && l.chain != [] && l.chain[0] == l.tail
    ensures DrainsOn(l, L.Take(l))
  {
    var l' := L.Take(l);
    RestComplete(l, l');
    NotInData(l');
    hide L.Inv, L.Data, Near, DrainPlace;
    TakeData(l.chain);
    assert l'.con.id == l.chain[0].id && l'.chain == L.Rest(l.chain);
  }

  lemma RestComplete(l: L.List, l': L.List)
    requires Complete(l) && l'.chain == L.Rest(l.chain) && l'.next == l.next && L.Closed in l.chain && l.chain[0] != L.Closed
    ensures Complete(l') && L.Closed in l'.chain
  {
    forall i {:trigger l'.chain[i]} | 0 <= i < |l'.chain| - 1 ensures l'.chain[i] in l'.next {
      assert l'.chain[i] == l.chain[i + 1];
    }
  }

  lemma {:induction false} InData(c: seq<L.Ptr>, id: nat)
    ensures id in L.Data(c) <==> L.Node(id) in c
  {
    if c != [] {
      InData(c[1..], id);
      assert L.Node(id) in c <==> L.Node(id) == c[0] || L.Node(id) in c[1..];
    }
  }

  lemma NotInData(l: L.List)
    requires L.Inv(l) && l.con.Holding?
    ensures l.con.id !in L.Data(l.chain)
  {
    InData(l.chain, l.con.id);
    hide L.Data;
  }

  lemma SkipDrains(l: L.List)
    requires Drains(l) && l.con.Deq? && !l.tail.Node? && l.tail != L.Closed && l.tail in l.next && L.Inv(A.Access(l))
    requires l.chain != [] && l.chain[0] == l.tail && |l.chain| > 1 && l.next[l.tail] == l.chain[1] && (l.chain[1].Node? || l.chain[1] == L.Closed)
    ensures DrainsOn(l, A.Access(l))
  {
    RestComplete(l, A.Access(l));
    hide L.Inv, L.Data;
    SkipData(l.chain);
  }

  lemma TakeData(c: seq<L.Ptr>)
    requires c != [] && c[0].Node?
    ensures L.Data(c) == [c[0].id] + L.Data(L.Rest(c))
  {}

  lemma SkipData(c: seq<L.Ptr>)
    requires c != [] && !c[0].Node?
    ensures L.Data(c) == L.Data(L.Rest(c))
  {}

  lemma NodeIsTaken(l: L.List)
    requires DrainPlace(l) && l.tail.Node? && l.tail in l.next
    ensures A.Access(l).con.Holding?
  {
    hide L.PushStep;
  }

  /** With nothing but the closed marker left, nothing is taken. */
  lemma StayDrains(l: L.List)
    requires DrainPlace(l) && !l.con.DeqStub? && L.Inv(A.Access(l)) && L.Closed in l.chain && Complete(l)
    requires l.tail == L.Closed && l.chain == [L.Closed] && l.head == L.Closed && L.Closed !in l.next
    ensures DrainsOn(l, A.Access(l))
  {
    hide L.Inv, L.Data, L.PushStep, A.PushLeft, A.Access;
    ClosedAccess(l);
    PushLeftFirst(l);
  }

  /** The access that leaves the list as it is. */
  lemma ClosedAccess(l: L.List)
    requires DrainPlace(l) && !l.con.DeqStub? && l.tail == L.Closed && l.head == L.Closed && L.Closed !in l.next
    ensures A.Access(l) == match l.con
      case Deq(_) => L.Goto(l, L.GotNothing(false))
      case DeqSkip(_) => L.Goto(l, L.DeqHead)
      case DeqHead => L.PollerPushes(l, L.End, L.DeqStub)
      case _ => L.Goto(l, L.GotNothing(true))
  {
    hide L.PushStep;
  }

  lemma PushLeftFirst(l: L.List)
    ensures A.PushLeft(L.PollerPushes(l, L.End, L.DeqStub), L.Poller) == 5
  {}

  // ---------------------------------------------------------------------------------------------
  // The queue
  // ---------------------------------------------------------------------------------------------

  function Rank(l: L.List): nat { 20 * |L.Data(l.chain)| + Near(l) }

  /** Exactly these nodes have been released, each once. */
  ghost predicate Released(nodes: map<nat, Node>, ids: seq<nat>, nodes': map<nat, Node>) {
    && nodes'.Keys == nodes.Keys && (forall id :: id in ids ==> id in nodes)
    && forall id {:trigger nodes'[id]} :: id in nodes' ==> nodes'[id] == if id in ids then Retire(nodes[id]) else nodes[id]
  }

  /** The drop is over, with the list empty and its nodes released. */
  ghost predicate Drained(s: State, s': State) {
    && s'.poll.stage == Gone && L.Data(s'.l.chain) == [] && Released(s.nodes, L.Data(s.l.chain), s'.nodes)
    && s'.ops == s.ops && s'.handles == s.handles && s'.reports == s.reports
  }

  lemma ReleasedFirst(s: State, s1: State, id: nat, rest: seq<nat>, s': State)
    requires id in s.nodes && s1.nodes == s.nodes[id := Retire(s.nodes[id])] && L.Data(s.l.chain) == [id] + rest && id !in rest
    requires s1.ops == s.ops && s1.handles == s.handles && s1.reports == s.reports
    requires L.Data(s1.l.chain) == rest && Drained(s1, s')
    ensures Drained(s, s')
  {
    hide L.Data, Retire;
  }

  /** The drop's dequeue goes on, or starts again behind the closed marker, or finds nothing more. */
  lemma DequeueGoesOn(s: State)
    requires s.poll.stage == CloseDequeue && Drains(s.l) && Reachable(s) && !A.Access(s.l).con.Holding?
    ensures var s' := PollerStep(s);
      if A.Access(s.l).con == L.GotNothing(false) then Drained(s, s')
      else
        && OnlyList(s, s') && s'.poll == s.poll && Reachable(s') && Drains(s'.l) && Rank(s'.l) < Rank(s.l)
        && L.Data(s'.l.chain) == L.Data(s.l.chain)
  {
    hide Reachable, L.Inv, L.Data, DrainPlace, Near, ListAccess, A.Access, Complete, L.Apply;
    DrainStep(s.l);
    AccessIs(s.l);
    PollerIsReachable(s);
    var l := A.Access(s.l);
    StartsAgain(l);
    if l.con.GotNothing? { ClosedEmpty(); }
    if l.con == L.GotNothing(true) { InvOf(PollerStep(s)); }
  }

  lemma ClosedEmpty()
    ensures L.Data([L.Closed]) == []
  {
    L.MarkerData(L.Closed);
  }

  lemma InvOf(s: State)
    requires Reachable(s)
    ensures L.Inv(s.l)
  {
    ReachableInv(s);
  }

  /** A dequeue of the drop begins. */
  lemma StartsAgain(l: L.List)
    ensures L.Apply(l, L.ReleaseHeld).chain == l.chain
    ensures var l' := L.Apply(l, L.BeginDeq({}));
      && l'.chain == l.chain && (Complete(l) ==> Complete(l')) && (L.PcOf(l, L.Poller).Out? ==> DrainPlace(l'))
      && Near(l') <= 15 && (l.chain == [L.Closed] && L.Inv(l) ==> Near(l') == 1)
      && (L.Inv(l) && l.con.GotNothing? ==> DrainPlace(l'))
    ensures var l' := L.Apply(L.Apply(l, L.ReleaseHeld), L.BeginDeq({}));
      && l'.chain == l.chain && (Complete(l) ==> Complete(l')) && Near(l') <= 15
      && (L.Inv(l) && l.con.Holding? ==> DrainPlace(l'))
  {
    hide L.Rights, L.NoLostWakeup, L.History, L.Data, L.Follows;
  }

  /** A node is taken and released. */
  lemma NodeReleased(s: State) returns (s': State)
    requires s.poll.stage == CloseDequeue && Drains(s.l) && Reachable(s) && A.Access(s.l).con.Holding?
    ensures s' == Turns(s, 3) && Reachable(s') && s'.poll.stage == CloseDequeue && Drains(s'.l) && Rank(s'.l) + 3 <= Rank(s.l)
    ensures var id := A.Access(s.l).con.id;
      && id in s.nodes && s'.nodes == s.nodes[id := Retire(s.nodes[id])] && s'.ops == s.ops && s'.handles == s.handles && s'.reports == s.reports
      && L.Data(s.l.chain) == [id] + L.Data(s'.l.chain) && id !in L.Data(s'.l.chain)
  {
    hide Reachable, L.Inv, L.Data, DrainPlace, Near, ListAccess, A.Access, Complete, L.Apply, Retire;
    DrainStep(s.l);
    AccessIs(s.l);
    var l := A.Access(s.l);
    StartsAgain(l);
    NearIsSome(s.l);
    var s1 := PollerStep(s);
    PollerIsReachable(s);
    var s2 := Goto(s1, CloseRelease);
    assert s2 == PollerStep(s1);
    PollerIsReachable(s1);
    HeldIsNode(s2);
    s' := PollerStep(s2);
    PollerIsReachable(s2);
    InvOf(s');
    assert Turns(s, 3) == Turns(s1, 2) == Turns(s2, 1) == Turns(s', 0);
  }

  lemma HeldIsNode(s: State)
    requires Reachable(s) && s.poll.stage == CloseRelease
    ensures s.poll.id in s.nodes
  {
    ReachableInv(s);
  }

  lemma NearIsSome(l: L.List)
    requires DrainPlace(l)
    ensures Near(l) >= 1
  {}

  lemma {:induction false} DrainEnds(s: State, n: nat) returns (m: nat)
    requires Reachable(s) && s.poll.stage == CloseDequeue && Drains(s.l) && Rank(s.l) <= n
    ensures m <= n && Drained(s, Turns(s, m))
    decreases n
  {
    hide Reachable, Drains, Drained, Rank, A.Access, PollerStep, L.Data, Turns;
    RankIsSome(s.l);
    if A.Access(s.l).con.Holding? {
      var s3 := NodeReleased(s);
      m := DrainEnds(s3, n - 3);
      TurnsOn(s, 3, m);
      ReleasedFirst(s, s3, A.Access(s.l).con.id, L.Data(s3.l.chain), Turns(s3, m));
      m := 3 + m;
    } else {
      DequeueGoesOn(s);
      OneTurn(s);
      m := 1;
      if A.Access(s.l).con != L.GotNothing(false) {
        m := DrainEnds(PollerStep(s), n - 1);
        TurnsOn(s, 1, m);
        SameDrained(s, PollerStep(s), Turns(s, 1 + m));
        m := 1 + m;
      }
    }
  }

  lemma OneTurn(s: State)
    ensures Turns(s, 1) == PollerStep(s)
  {
    assert Turns(s, 1) == Turns(PollerStep(s), 0);
  }

  lemma RankIsSome(l: L.List)
    requires Drains(l)
    ensures Rank(l) >= 1
  {
    NearIsSome(l);
  }

  lemma SameDrained(s: State, s1: State, s': State)
    requires OnlyList(s, s1) && L.Data(s1.l.chain) == L.Data(s.l.chain) && Drained(s1, s')
    ensures Drained(s, s')
  {
    hide L.Data, Released;
  }

  // ---------------------------------------------------------------------------------------------
  // The closed marker
  // ---------------------------------------------------------------------------------------------

  /** The links are in place exactly when nobody is about to link. */
  lemma CompleteMeans(l: L.List)
    requires L.Inv(l)
    ensures Complete(l) <==> forall t :: !L.PcOf(l, t).Is(L.Link)
  {
    hide L.ConsumerPlace, L.PollerPush, L.NoLostWakeup, L.History, L.Data;
    if Complete(l) {
      forall t ensures !L.PcOf(l, t).Is(L.Link) {
        assert L.PcOk(l, t);
      }
    } else {
      var i :| 0 <= i < |l.chain| - 1 && l.chain[i] !in l.next;
      assert L.Follows(l, l.chain[i], l.chain[i + 1]);
      assert L.PcOf(l, l.linker[l.chain[i]]).Is(L.Link);
    }
  }

  /** The drop is pushing the closed marker, and nobody else is about to link. */
  ghost predicate Closing(l: L.List, data: seq<nat>) {
    && L.Inv(l) && l.con.Closing? && L.Data(l.chain) == data
    && (forall t :: t != L.Poller ==> !L.PcOf(l, t).Is(L.Link))
    && L.PcOf(l, L.Poller).At? && L.PcOf(l, L.Poller).n == L.Closed
    && (L.PcOf(l, L.Poller).Is(L.Link) <==> L.Closed in l.chain)
  }

  lemma PushGoesOn(l: L.List, data: seq<nat>)
    requires Closing(l, data)
    ensures var l' := ListAccess(l);
      && L.Inv(l') && A.PushLeft(l', L.Poller) < A.PushLeft(l, L.Poller)
      && if l'.con.Idle? then Complete(l') && L.Closed in l'.chain && L.Data(l'.chain) == data && L.PcOf(l', L.Poller).Out?
         else Closing(l', data)
  {
    hide L.ConsumerPlace, L.NoLostWakeup, L.History, L.Shape, L.Data;
    assert L.PcOk(l, L.Poller) && L.PollerPush(l);
    var l' := ListAccess(l);
    A.HeadCloses(l);
    A.OneAccess(l, L.Poller);
    L.PushKeeps(l, L.Poller);
    L.PushFlow(l);
    hide L.Inv, L.Rights;
    L.DataAppend(l.chain, L.Closed);
    MarkerChain(l);
    hide L.PushStep;
    if l'.con.Idle? { CompleteMeans(l'); }
  }

  lemma MarkerChain(l: L.List)
    requires L.PcOf(l, L.Poller).At? && L.PcOf(l, L.Poller).n == L.Closed && L.PcOk(l, L.Poller)
    requires !L.PcOf(l, L.Poller).Is(L.MustWake)
    requires L.PcOf(l, L.Poller).Is(L.Link) <==> L.Closed in l.chain
    requires l.head == L.Closed <==> L.Closed in l.chain
    ensures var l', pc := L.PushStep(l, L.Poller), L.PcOf(L.PushStep(l, L.Poller), L.Poller);
      && (l'.chain == l.chain || l'.chain == l.chain + [L.Closed])
      && (pc.Is(L.Link) ==> L.Closed in l'.chain)
      && (pc.At? ==> pc.n == L.Closed && (pc.Is(L.Link) <==> L.Closed in l'.chain))
      && (pc.Out? ==> L.Closed in l'.chain)
  {
    hide L.Data;
  }

  lemma {:induction false} ClosedTurn(s: State, data: seq<nat>, n: nat) returns (m: nat)
    requires Reachable(s) && s.poll.stage == PushClosed && Closing(s.l, data) && A.PushLeft(s.l, L.Poller) <= n
    ensures m <= n && var s' := Turns(s, m);
      && Reachable(s') && OnlyList(s, s') && s'.poll.stage == CloseDequeue
      && Drains(s'.l) && L.Data(s'.l.chain) == data && Near(s'.l) <= 15
    decreases n
  {
    hide Reachable, L.Inv, L.Data, DrainPlace, Near, ListAccess, Complete, L.Apply, Closing, A.PushLeft;
    PushGoesOn(s.l, data);
    PollerIsReachable(s);
    var s1 := PollerStep(s);
    InvOf(s1);
    OneTurn(s);
    if ListAccess(s.l).con.Idle? {
      m := 1;
      StartsAgain(ListAccess(s.l));
    } else {
      m := ClosedTurn(s1, data, n - 1);
      TurnsOn(s, 1, m);
      m := 1 + m;
    }
  }

  lemma CloseBegins(s: State)
    requires Reachable(s) && Enabled(s, DropQueueCall) && Complete(s.l)
    ensures var s' := Apply(s, DropQueueCall);
      && Reachable(s') && s'.poll.stage == PushClosed && Closing(s'.l, L.Data(s.l.chain)) && A.PushLeft(s'.l, L.Poller) == 5
      && OnlyList(s, s')
  {
    hide Reachable, Inv, L.Inv, L.Data, Complete;
    ReachableNext(s, DropQueueCall);
    InvOf(s);
    InvOf(Apply(s, DropQueueCall));
    NotYetClosed(s.l);
    CompleteMeans(s.l);
    ClosingBegins(s.l);
  }

  lemma ClosingBegins(l: L.List)
    requires L.Closed !in l.chain && forall t :: !L.PcOf(l, t).Is(L.Link)
    ensures var l' := L.Apply(l, L.BeginClose);
      && (forall t :: t != L.Poller ==> !L.PcOf(l', t).Is(L.Link)) && l'.chain == l.chain && l'.con.Closing?
      && L.PcOf(l', L.Poller) == L.At(L.ClearNext, L.Closed, L.Closed) && A.PushLeft(l', L.Poller) == 5
  {
    assert forall t :: t != L.Poller ==> L.PcOf(L.Apply(l, L.BeginClose), t) == L.PcOf(l, t);
  }

  lemma NotYetClosed(l: L.List)
    requires L.Inv(l) && !l.closing
    ensures L.Closed !in l.chain
  {}

  /**
    From any reachable state in which the queue may be dropped and no producer still has to link two nodes of the list: if
    nobody disturbs it, the drop ends within 20 steps for each node of the list and 20 more, with no node left, each of
    these nodes released once, and every other one as it was.
   */
  lemma DropCompletes(s: State) returns (m: nat)
    requires Reachable(s) && Enabled(s, DropQueueCall)
    requires forall i {:trigger s.l.chain[i]} :: 0 <= i < |s.l.chain| - 1 ==> s.l.chain[i] in s.l.next
    ensures m <= 20 * |L.Data(s.l.chain)| + 20
    ensures var s' := Turns(Apply(s, DropQueueCall), m);
      && s'.poll.stage == Gone && L.Data(s'.l.chain) == [] && Released(s.nodes, L.Data(s.l.chain), s'.nodes)
      && s'.ops == s.ops && s'.handles == s.handles && s'.reports == s.reports
  {
    hide Reachable, L.Data, Drains, Closing, Enabled, Apply, Turns, Near;
    CloseBegins(s);
    var s1 := Apply(s, DropQueueCall);
    var data := L.Data(s.l.chain);
    var a := ClosedTurn(s1, data, 5);
    var s2 := Turns(s1, a);
    var b := DrainEnds(s2, 20 * |data| + 15);
    TurnsOn(s1, a, b);
    m := a + b;
  }
}
