/**
  Every operation on the readiness list comes to an end when nobody disturbs it, and does what it is for: a push puts its
  node at the head, a dequeue delivers the first data node, the sleep marker replaces the end marker of an empty list.
*/
module ReadinessListAlone {
  import opened ReadinessList

  // ---------------------------------------------------------------------------------------------
  // Pushes
  // ---------------------------------------------------------------------------------------------

  /** The state after n accesses of thread t inside enqueue_node. */
  function Pushing(s: List, t: Tid, n: nat): List
    decreases n
  {
    if n == 0 then s else Pushing(PushStep(s, t), t, n - 1)
  }

  /** How many accesses the thread still needs at most. */
  function PushLeft(s: List, t: Tid): nat {
    var pc := PcOf(s, t);
    if pc.Out? then 0
    else match pc.phase
      case ClearNext => 5
      case LoadHead => 4
      case Push => if s.head == pc.prev then 3 else 4
      case Link => 2
      case Reject => 1
      case MustWake => 1
  }

  /** What the push of thread t, from where it is in s, has come to in s'. */
  ghost predicate Pushed(s: List, t: Tid, s': List) {
    var pc := PcOf(s, t);
    && PcOf(s', t).Out?
    && (Pending(pc) && Closed !in s.chain ==>
          && s'.chain == s.chain + [pc.n] && s'.head == pc.n && s.head in s'.next && s'.next[s.head] == pc.n
          && (s'.awakened <==> s.awakened || (s.head == Sleep && t != Poller)))
    && (Pending(pc) && Closed in s.chain ==> s'.chain == s.chain && (s'.awakened <==> s.awakened))
    && (pc.Is(Link) ==>
          && s'.chain == s.chain && s'.head == s.head && s'.next == s.next[pc.prev := pc.n]
          && (s'.awakened <==> s.awakened || (pc.prev == Sleep && t != Poller)))
    && (pc.Is(MustWake) ==> s'.chain == s.chain && s'.head == s.head && s'.next == s.next && s'.awakened)
    && (pc.Out? ==> s' == s)
  }

  lemma OneAccess(s: List, t: Tid)
    requires Inv(s) && PcOf(s, t).At?
    ensures PushLeft(PushStep(s, t), t) < PushLeft(s, t)
    ensures forall u :: u != t ==> PcOf(PushStep(s, t), u) == PcOf(s, u)
    ensures PushStep(s, t).tail == s.tail && PushStep(s, t).closing == s.closing
  {
    hide Inv;
    var pc := PcOf(s, t);
    if pc.Is(LoadHead) || (pc.Is(Push) && s.head != pc.prev) {
      SawLess(s, t, pc.n);
    } else {
      hide Saw;
      OthersOut(s, t);
    }
  }

  lemma SawLess(s: List, t: Tid, n: Ptr)
    ensures var s' := Saw(s, t, n, s.head);
      PushLeft(s', t) <= 3 && s'.tail == s.tail && s'.closing == s.closing && forall u :: u != t ==> PcOf(s', u) == PcOf(s, u)
  {
    hide PushLeft;
    if s.head != Closed {
      Moved(s, t, Push, n);
    } else if n == End {
      Left(s, t);
    } else {
      Moved(s, t, Reject, n);
    }
  }

  lemma Moved(s: List, t: Tid, phase: Phase, n: Ptr)
    requires phase == Push || phase == Reject
    ensures var s' := Move(s, t, phase, n, s.head);
      PushLeft(s', t) <= 3 && s'.tail == s.tail && s'.closing == s.closing && forall u :: u != t ==> PcOf(s', u) == PcOf(s, u)
  {}

  lemma Left(s: List, t: Tid)
    ensures var s' := Leave(s, t);
      PushLeft(s', t) == 0 && s'.tail == s.tail && s'.closing == s.closing && forall u :: u != t ==> PcOf(s', u) == PcOf(s, u)
  {}

  lemma OthersOut(s: List, t: Tid)
    requires PcOf(s, t).At? && !PcOf(s, t).Is(LoadHead) && (PcOf(s, t).Is(Push) ==> s.head == PcOf(s, t).prev)
    ensures PcOf(PushStep(s, t), t) == (match PcOf(s, t).phase
      case ClearNext => At(LoadHead, PcOf(s, t).n, PcOf(s, t).n)
      case Push => At(Link, PcOf(s, t).n, PcOf(s, t).prev)
      case Link => if PcOf(s, t).prev == Sleep && t != Poller then At(MustWake, PcOf(s, t).n, PcOf(s, t).prev) else Out
      case _ => Out)
    ensures forall u :: u != t ==> PcOf(PushStep(s, t), u) == PcOf(s, u)
  {}

  /** What the push comes to from the next access on, it comes to from here. */
  lemma PushedFrom(s: List, t: Tid, s': List)
    requires Inv(s) && PcOf(s, t).At? && Pushed(PushStep(s, t), t, s')
    ensures Pushed(s, t, s')
  {
    hide Data, History, SomeoneWakes, Follows, NoLostWakeup, ConsumerPlace, Shape;
    HeadCloses(s);
    assert PcOk(s, t);
    hide Rights, Inv;
    var pc := PcOf(s, t);
    if pc.Is(LoadHead) || (pc.Is(Push) && s.head != pc.prev) {
      SawPushed(s, t, s');
    } else if pc.Is(Push) {
      WonPushed(s, t, s');
    } else {
      SmallPushed(s, t, s');
    }
  }

  lemma SawPushed(s: List, t: Tid, s': List)
    requires PcOf(s, t).Is(LoadHead) || PcOf(s, t).Is(Push)
    requires (s.head == Closed <==> Closed in s.chain) && PcOk(s, t)
    requires Pushed(Saw(s, t, PcOf(s, t).n, s.head), t, s')
    ensures Pushed(s, t, s')
  {
    hide PcOk, Pushed;
    if s.head != Closed {
      MovedPushed(s, t, Push, s');
    } else if PcOf(s, t).n != End {
      MovedPushed(s, t, Reject, s');
    } else {
      LeftPushed(s, t, s');
    }
  }

  lemma MovedPushed(s: List, t: Tid, phase: Phase, s': List)
    requires PcOf(s, t).Is(LoadHead) || PcOf(s, t).Is(Push)
    requires (phase == Push || phase == Reject) && Pushed(Move(s, t, phase, PcOf(s, t).n, s.head), t, s')
    ensures Pushed(s, t, s')
  {}

  lemma LeftPushed(s: List, t: Tid, s': List)
    requires (PcOf(s, t).Is(LoadHead) || PcOf(s, t).Is(Push)) && Closed in s.chain && Pushed(Leave(s, t), t, s')
    ensures Pushed(s, t, s')
  {}

  lemma WonPushed(s: List, t: Tid, s': List)
    requires PcOf(s, t).Is(Push) && s.head == PcOf(s, t).prev
    requires (s.head == Closed <==> Closed in s.chain) && PcOk(s, t)
    requires Pushed(DoPush(s, t, PcOf(s, t).n, s.head), t, s')
    ensures Pushed(s, t, s')
  {}

  lemma SmallPushed(s: List, t: Tid, s': List)
    requires PcOf(s, t).At? && !PcOf(s, t).Is(LoadHead) && !PcOf(s, t).Is(Push) && PcOk(s, t)
    requires Pushed(PushStep(s, t), t, s')
    ensures Pushed(s, t, s')
  {
    var pc := PcOf(s, t);
    if pc.Is(ClearNext) {
      ClearPushed(s, t, s');
    } else if pc.Is(Link) {
      LinkPushed(s, t, s');
    } else {
      LeavePushed(s, t, s');
    }
  }

  lemma ClearPushed(s: List, t: Tid, s': List)
    requires PcOf(s, t).Is(ClearNext) && Pushed(DoClear(s, t, PcOf(s, t).n), t, s')
    ensures Pushed(s, t, s')
  {}

  lemma LinkPushed(s: List, t: Tid, s': List)
    requires PcOf(s, t).Is(Link) && Pushed(DoLink(s, t, PcOf(s, t).n, PcOf(s, t).prev), t, s')
    ensures Pushed(s, t, s')
  {}

  lemma LeavePushed(s: List, t: Tid, s': List)
    requires (PcOf(s, t).Is(Reject) || PcOf(s, t).Is(MustWake)) && PcOk(s, t) && Pushed(PushStep(s, t), t, s')
    ensures Pushed(s, t, s')
  {}

  lemma HeadCloses(s: List)
    requires Inv(s)
    ensures s.head == Closed <==> Closed in s.chain
  {
    assert s.chain[|s.chain| - 1] in s.chain;
  }

  lemma {:induction false} PushEnds(s: List, t: Tid, n: nat)
    requires Inv(s) && PushLeft(s, t) <= n
    ensures var s' := Pushing(s, t, n);
      && Inv(s') && Pushed(s, t, s') && s'.tail == s.tail && s'.closing == s.closing
      && forall u :: u != t ==> PcOf(s', u) == PcOf(s, u)
    decreases n
  {
    hide Inv, Pushed;
    if PcOf(s, t).Out? {
      StillOut(s, t, n);
    } else {
      hide PushStep;
      OneAccess(s, t);
      PushKeeps(s, t);
      PushEnds(PushStep(s, t), t, n - 1);
      PushedFrom(s, t, Pushing(s, t, n));
    }
  }

  lemma {:induction false} StillOut(s: List, t: Tid, n: nat)
    requires PcOf(s, t).Out?
    ensures Pushing(s, t, n) == s && Pushed(s, t, s)
    decreases n
  {
    if n > 0 { StillOut(s, t, n - 1); }
  }

  /**
    In any reachable state, whatever the thread saw before, five accesses of its own take it out of enqueue_node.  A
    push that had not taken effect has put the node at the head, linked, behind all that was in the list; a producer
    behind the sleep marker has woken the poller, and nobody else has.  Once the closed marker is in, the list stays.
   */
  lemma PushCompletes(s: List, t: Tid)
    requires Reachable(s)
    ensures Pushed(s, t, Pushing(s, t, 5))
    ensures forall u :: u != t ==> PcOf(Pushing(s, t, 5), u) == PcOf(s, u)
  {
    ReachableInv(s);
    PushEnds(s, t, 5);
  }

  // ---------------------------------------------------------------------------------------------
  // The polling thread
  // ---------------------------------------------------------------------------------------------

  /** One access of the polling thread, inside enqueue_node or outside. */
  function Access(s: List): List {
    if PcOf(s, Poller).At? then PushStep(s, Poller) else PollStep(s)
  }

  function Polling(s: List, n: nat): List
    decreases n
  {
    if n == 0 then s else Polling(Access(s), n - 1)
  }

  /** How many accesses its operation still needs at most. */
  function ConLeft(s: List): nat {
    match s.con
    case Deq(_) => 9
    case DeqSkip(_) => 8
    case DeqHead => 7
    case DeqStub => 1 + PushLeft(s, Poller)
    case DeqReload => 1
    case DropClear(_) => 2
    case DropSwap(_) => 1
    case SleepHead => 1
    case SleepClear => 2
    case SleepSwap => 1
    case Requeue(_) => PushLeft(s, Poller)
    case Closing => PushLeft(s, Poller)
    case _ => 0
  }

  predicate Busy(con: PollPc) { !con.Idle? && !con.Asleep? && !con.Awake? && !con.GotNothing? && !con.Holding? }

  lemma AccessLess(s: List)
    requires Inv(s) && Busy(s.con)
    ensures Inv(Access(s)) && ConLeft(Access(s)) < ConLeft(s)
  {
    hide Data, History, SomeoneWakes, Follows, NoLostWakeup, Rights, Shape;
    if PcOf(s, Poller).At? {
      OneAccess(s, Poller);
      PushKeeps(s, Poller);
      PushFlow(s);
      hide PushStep;
    } else {
      PollKeeps(s);
      MoveConOk(s);
      PollStepPc(s);
      hide PollStep;
    }
  }

  lemma PollStepPc(s: List)
    requires PcOf(s, Poller).Out?
    ensures PcOf(PollStep(s), Poller) == (match Decide(s) case ToPush(p, _) => At(ClearNext, p, p) case _ => Out)
  {
    hide Decide, Rest;
  }

  /** Every operation of the polling thread on the list, undisturbed, is over within nine accesses. */
  lemma {:induction false} OperationEnds(s: List, n: nat)
    requires Inv(s) && ConLeft(s) <= n
    ensures exists m: nat :: m <= n && !Busy(Polling(s, m).con)
    decreases n
  {
    if !Busy(s.con) {
      assert !Busy(Polling(s, 0).con);
    } else {
      hide Inv;
      BusyLeft(s);
      AccessLess(s);
      OperationEnds(Access(s), n - 1);
      var m: nat :| m <= n - 1 && !Busy(Polling(Access(s), m).con);
      assert Polling(s, m + 1) == Polling(Access(s), m);
    }
  }

  lemma BusyLeft(s: List)
    requires Inv(s) && Busy(s.con)
    ensures ConLeft(s) > 0
  {}

  // ---------------------------------------------------------------------------------------------
  // Dequeue
  // ---------------------------------------------------------------------------------------------

  /** No producer still has to link two nodes of the list. */
  ghost predicate Linked(s: List) {
    forall i {:trigger s.chain[i]} :: 0 <= i < |s.chain| - 1 ==> s.chain[i] in s.next || PcOf(s, Poller) == At(Link, s.chain[i + 1], s.chain[i])
  }

  /** What a dequeue up to `until` finds. */
  function Found(chain: seq<Ptr>, until: set<Ptr>): PollPc {
    var data := Data(chain);
    if data == [] || Node(data[0]) in until then GotNothing(false) else Holding(data[0])
  }

  /** Where an undisturbed dequeue can be. */
  ghost predicate DeqPlace(s: List) {
    match s.con
    case Deq(_) => PcOf(s, Poller).Out?
    case DeqSkip(_) => PcOf(s, Poller).Out?
    case DeqHead => s.tail.Node? && s.chain == [s.tail] && PcOf(s, Poller).Out?
    case DeqStub =>
      && s.tail.Node? && PcOf(s, Poller).At? && PcOf(s, Poller).n == End
      && (Pending(PcOf(s, Poller)) ==> s.chain == [s.tail])
      && (PcOf(s, Poller).Is(Link) ==> s.chain == [s.tail, End] && PcOf(s, Poller).prev == s.tail)
    case DeqReload => s.tail.Node? && s.chain == [s.tail, End] && s.tail in s.next && PcOf(s, Poller).Out?
    case _ => PcOf(s, Poller).Out? && s.chain == [Sleep]
  }

  function Outcome(s: List): PollPc {
    match s.con
    case Deq(until) => Found(s.chain, until)
    case DeqSkip(until) => Found(s.chain, until)
    case DropClear(_) => GotNothing(false)
    case DropSwap(_) => GotNothing(false)
    case Holding(id) => Holding(id)
    case GotNothing(i) => GotNothing(i)
    case _ => if s.tail.Node? then Holding(s.tail.id) else GotNothing(true)
  }

  predicate Through(con: PollPc) { con.Holding? || con.GotNothing? }

  ghost predicate Undisturbed(s: List) { Inv(s) && !s.closing && Linked(s) && Dequeuing(s.con) && DeqPlace(s) }

  lemma OnlyMarker(s: List)
    requires Inv(s) && !s.closing && s.tail in s.next && !s.tail.Node?
    ensures |s.chain| > 1 && s.chain[1].Node? && Rest(s.chain)[0] == s.chain[1] && Data(s.chain) == Data(Rest(s.chain))
    ensures s.next[s.tail] == s.chain[1]
  {
    assert s.chain[0] == s.tail;
    assert |s.chain| == 1 ==> s.head == s.tail;
    assert Follows(s, s.chain[0], s.chain[1]);
    assert s.chain[1] in s.chain;
    assert s.chain[0] != s.chain[1];
  }

  lemma FirstIsData(s: List)
    requires Inv(s)
    ensures s.tail.Node? ==> Data(s.chain) != [] && Data(s.chain)[0] == s.tail.id
    ensures Linked(s) && s.tail !in s.next && PcOf(s, Poller).Out? ==> s.chain == [s.tail]
    ensures !s.tail.Node? && |s.chain| == 1 ==> Data(s.chain) == []
  {
    assert s.chain[0] == s.tail;
  }

  /** One access of an undisturbed dequeue. */
  lemma DeqStep(s: List)
    requires Undisturbed(s)
    ensures var s' := Access(s); Outcome(s') == Outcome(s) && if Through(s'.con) then s'.con == Outcome(s') else Undisturbed(s')
  {
    hide History, SomeoneWakes, Follows, NoLostWakeup, Rights;
    AccessLess(s);
    FirstIsData(s);
    if s.con.DeqStub? {
      StubStep(s);
    } else if s.con.Deq? && !s.tail.Node? && s.tail in s.next {
      OnlyMarker(s);
      SkipStep(s);
    } else if s.con.Deq? || s.con.DeqSkip? {
      if s.con.DeqSkip? { SkippedIsData(s); }
      ExamineStep(s);
    } else {
      assert s.head == s.chain[|s.chain| - 1];
      LateStep(s);
    }
  }

  lemma SkippedIsData(s: List)
    requires Undisturbed(s) && s.con.DeqSkip?
    ensures s.tail.Node?
  {
    assert s.chain[0] in s.chain;
  }

  lemma SkipStep(s: List)
    requires Undisturbed(s) && s.con.Deq? && !s.tail.Node? && s.tail in s.next && Inv(Access(s))
    requires |s.chain| > 1 && s.chain[1].Node? && Data(s.chain) == Data(Rest(s.chain))
    ensures Undisturbed(Access(s)) && Outcome(Access(s)) == Outcome(s)
  {
    hide Inv;
    forall i | 0 <= i < |Rest(s.chain)| - 1 ensures Rest(s.chain)[i] in s.next {
      assert Rest(s.chain)[i] == s.chain[i + 1];
    }
  }

  lemma ExamineStep(s: List)
    requires Undisturbed(s) && (s.con.Deq? || s.con.DeqSkip?) && Inv(Access(s))
    requires s.con.Deq? ==> s.tail.Node? || s.tail !in s.next
    requires s.con.DeqSkip? ==> s.tail.Node?
    requires s.tail.Node? ==> Data(s.chain) != [] && Data(s.chain)[0] == s.tail.id
    requires s.tail !in s.next ==> s.chain == [s.tail]
    requires !s.tail.Node? && |s.chain| == 1 ==> Data(s.chain) == []
    ensures var s' := Access(s); Outcome(s') == Outcome(s) && if Through(s'.con) then s'.con == Outcome(s') else Undisturbed(s')
  {
    hide Inv, Data;
  }

  lemma LateStep(s: List)
    requires Undisturbed(s) && !s.con.Deq? && !s.con.DeqSkip? && !s.con.DeqStub? && Inv(Access(s))
    requires s.chain != [] && s.tail == s.chain[0] && s.head == s.chain[|s.chain| - 1]
    ensures var s' := Access(s); Outcome(s') == Outcome(s) && if Through(s'.con) then s'.con == Outcome(s') else Undisturbed(s')
  {
    hide Inv;
  }

  lemma StubStep(s: List)
    requires Undisturbed(s) && s.con.DeqStub? && Inv(Access(s))
    ensures var s' := Access(s); Outcome(s') == Outcome(s) && Undisturbed(s')
  {
    HeadCloses(s);
    assert PcOk(s, Poller);
    assert s.chain[0] == s.tail && s.chain[|s.chain| - 1] == s.head;
    OneAccess(s, Poller);
    NoClosed(s);
    hide Inv;
    var pc := PcOf(s, Poller);
    if pc.Is(LoadHead) || (pc.Is(Push) && s.head != pc.prev) {
      SawStub(s);
    } else {
      hide PushStep, PcOk;
      PushStub(s);
    }
  }

  lemma NoClosed(s: List)
    requires Inv(s) && !s.closing
    ensures s.head != Closed && !PcOf(s, Poller).Is(Reject) && !PcOf(s, Poller).Is(MustWake)
  {
    HeadCloses(s);
    assert PcOk(s, Poller);
  }

  lemma PushStub(s: List)
    requires s.con.DeqStub? && DeqPlace(s) && !s.closing && s.chain != [] && s.chain[0] == s.tail && s.chain[|s.chain| - 1] == s.head
    requires !PcOf(s, Poller).Is(LoadHead) && !PcOf(s, Poller).Is(Reject) && !PcOf(s, Poller).Is(MustWake)
    requires PcOf(s, Poller).Is(Push) ==> s.head == PcOf(s, Poller).prev
    ensures var s' := PushStep(s, Poller);
      Dequeuing(s'.con) && DeqPlace(s') && !s'.closing && Linked(s') && s'.tail == s.tail && (s'.con.DeqStub? || s'.con.DeqReload?)
  {}

  lemma SawStub(s: List)
    requires s.con.DeqStub? && s.head != Closed && s.head == s.tail && DeqPlace(s) && Pending(PcOf(s, Poller)) && !s.closing && Linked(s)
    ensures var s' := Saw(s, Poller, PcOf(s, Poller).n, s.head); s'.con == s.con && DeqPlace(s') && !s'.closing && Linked(s') && s'.tail == s.tail
  {}

  /** What will be in the list when the dequeue is over. */
  function Remains(s: List): seq<nat> {
    var data := Data(s.chain);
    if !Through(s.con) && Outcome(s).Holding? && data != [] then data[1..] else data
  }

  lemma RemainsStep(s: List)
    requires Undisturbed(s) && (if Through(Access(s).con) then Access(s).con == Outcome(s) else Outcome(Access(s)) == Outcome(s))
    ensures Remains(Access(s)) == Remains(s)
    ensures Access(s).con == GotNothing(false) && Data(Access(s).chain) == [] ==> Access(s).chain == [End]
  {
    hide History, SomeoneWakes, Follows, NoLostWakeup, Rights, Outcome;
    if s.con.DeqStub? {
      StubRemains(s);
    } else if Access(s).con.Holding? {
      FirstIsData(s);
      TakeData(s);
      hide Access;
    } else {
      ChainRemains(s);
      hide Access, Inv;
    }
  }

  /** A step that neither takes nor pushes leaves the data of the list alone. */
  lemma ChainRemains(s: List)
    requires Undisturbed(s) && !s.con.DeqStub? && !Access(s).con.Holding?
    ensures Data(Access(s).chain) == Data(s.chain)
    ensures Access(s).con == GotNothing(false) && Data(Access(s).chain) == [] ==> Access(s).chain == [End]
  {
    hide Inv, Data, DeqPlace, Access;
    Ends(s);
    FirstIsData(s);
    if s.con.DropClear? || s.con.DropSwap? {
      assert DeqPlace(s);
      OnlySleep(s);
      DropChain(s);
    } else if s.con.Deq? && !s.tail.Node? && s.tail in s.next {
      OnlyMarker(s);
      SkipChain(s);
    } else {
      if !s.tail.Node? && s.con.Deq? {
        DeqIsOut(s);
        OnlyEnd(s);
      }
      StillChain(s);
    }
  }

  lemma Ends(s: List)
    requires Inv(s)
    ensures s.chain != [] && s.chain[0] == s.tail && s.head == s.chain[|s.chain| - 1]
  {}

  lemma OnlySleep(s: List)
    requires DeqPlace(s) && (s.con.DropClear? || s.con.DropSwap?)
    ensures PcOf(s, Poller).Out? && s.chain == [Sleep]
  {}

  lemma DeqIsOut(s: List)
    requires DeqPlace(s) && s.con.Deq?
    ensures PcOf(s, Poller).Out?
  {}

  lemma SkipChain(s: List)
    requires DeqPlace(s) && s.con.Deq? && !s.tail.Node? && s.tail in s.next && Data(s.chain) == Data(Rest(s.chain))
    ensures Data(Access(s).chain) == Data(s.chain) && !Access(s).con.GotNothing?
  {
    hide Data;
  }

  lemma DropChain(s: List)
    requires (s.con.DropClear? || s.con.DropSwap?) && PcOf(s, Poller).Out? && s.chain == [Sleep] && s.head == Sleep
    ensures Data(Access(s).chain) == Data(s.chain)
    ensures Access(s).con == GotNothing(false) ==> Access(s).chain == [End]
  {
    hide Data;
    MarkerData(Sleep);
    MarkerData(End);
  }

  lemma StillChain(s: List)
    requires Undisturbed(s) && (s.con.Deq? || s.con.DeqSkip? || s.con.DeqHead? || s.con.DeqReload?) && !Access(s).con.Holding?
    requires s.con.Deq? ==> s.tail.Node? || (s.tail !in s.next && s.chain == [s.tail] && (s.tail == Sleep || s.tail == End))
    requires s.tail.Node? ==> Data(s.chain) != []
    ensures Access(s).chain == s.chain
    ensures Access(s).con == GotNothing(false) && Data(s.chain) == [] ==> s.chain == [End]
  {
    hide Inv, Data;
    if s.con.DeqSkip? { SkippedIsData(s); }
    MoveConOk(s);
  }

  lemma TakeData(s: List)
    requires Inv(s) && PcOf(s, Poller).Out? && Dequeuing(s.con) && Access(s).con.Holding?
    ensures Data(s.chain) == [Access(s).con.id] + Data(Access(s).chain)
  {
    DeliveryIsTake(s);
    TailMoves(s, Take(s));
  }

  lemma StubRemains(s: List)
    requires Undisturbed(s) && s.con.DeqStub?
    ensures Data(Access(s).chain) == Data(s.chain) && !Through(Access(s).con)
  {
    DeqStep(s);
    DataAppend(s.chain, End);
    MarkerData(End);
    PushFlow(s);
    hide Inv, Outcome, DeqPlace, Linked;
    StubChain(s);
  }

  lemma StubChain(s: List)
    requires PcOf(s, Poller).At? && PcOf(s, Poller).n == End
    ensures PushStep(s, Poller).chain == s.chain || PushStep(s, Poller).chain == s.chain + [End]
  {}

  lemma OnlyEnd(s: List)
    requires Undisturbed(s) && s.tail !in s.next && !s.tail.Node? && PcOf(s, Poller).Out?
    ensures s.chain == [s.tail] && (s.tail == Sleep || s.tail == End)
  {
    FirstIsData(s);
    assert s.chain[0] in s.chain;
  }

  lemma {:induction false} DeqEnds(s: List, n: nat) returns (m: nat)
    requires Undisturbed(s) && ConLeft(s) <= n
    ensures m <= n && Polling(s, m).con == Outcome(s) && Data(Polling(s, m).chain) == Remains(s)
    ensures Outcome(s) == GotNothing(false) && Remains(s) == [] ==> Polling(s, m).chain == [End]
    decreases n
  {
    hide Inv, Access, Outcome, DeqPlace, Linked, Remains;
    BusyLeft(s);
    AccessLess(s);
    DeqStep(s);
    RemainsStep(s);
    if Through(Access(s).con) {
      m := 1;
      assert Polling(s, 1) == Polling(Access(s), 0);
      NothingRemains(Access(s));
    } else {
      m := DeqEnds(Access(s), n - 1);
      m := m + 1;
    }
  }

  lemma NothingRemains(s: List)
    requires Through(s.con)
    ensures Remains(s) == Data(s.chain)
  {}

  /**
    In any reachable state in which no link is owed and the queue is not closing: a dequeue that nobody disturbs ends within
    nine accesses, with the first data node of the list and the others left, or with none if there is none or this is
    the one to stop at; an empty list is then just the end marker.
   */
  lemma DequeueCompletes(s: List, until: set<Ptr>) returns (m: nat)
    requires Reachable(s) && s.con == Deq(until) && !s.closing
    requires forall i :: 0 <= i < |s.chain| - 1 ==> s.chain[i] in s.next
    ensures m <= 9 && var s', data := Polling(s, m), Data(s.chain);
      if data == [] then s'.con == GotNothing(false) && s'.chain == [End]
      else if Node(data[0]) in until then s'.con == GotNothing(false) && Data(s'.chain) == data
      else s'.con == Holding(data[0]) && Data(s'.chain) == data[1..]
  {
    ReachableInv(s);
    m := DeqEnds(s, 9);
  }

  // ---------------------------------------------------------------------------------------------
  // Falling asleep
  // ---------------------------------------------------------------------------------------------

  /**
    Undisturbed, prepare_for_sleep answers within two accesses that poll may sleep if and only if the list is empty, and
    then it is just the sleep marker.
   */
  lemma SleepCompletes(s: List) returns (m: nat)
    requires Reachable(s) && Enabled(s, BeginSleep)
    ensures m <= 2 && var s' := Polling(Apply(s, BeginSleep), m);
      if Data(s.chain) == [] then s'.con.Asleep? && s'.chain == [Sleep] else s'.con.Awake? && s'.chain == s.chain
  {
    ReachableInv(s);
    MarkersOnly(s);
    hide Inv, Data;
    var s0 := Apply(s, BeginSleep);
    if s.tail == Sleep {
      m := 1;
      assert Polling(s0, 1) == Polling(Access(s0), 0);
    } else if s.tail != End {
      m := 0;
    } else {
      m := 2;
      SwapsMarker(s0);
    }
  }

  /** Undisturbed, clear_sleep_marker puts the end marker back within two accesses if the list is just the sleep marker. */
  lemma ClearCompletes(s: List) returns (m: nat)
    requires Reachable(s) && Enabled(s, BeginClear)
    ensures m <= 2 && var s' := Polling(Apply(s, BeginClear), m);
      s'.con.Idle? && s'.chain == if s.chain == [Sleep] then [End] else s.chain
  {
    ReachableInv(s);
    MarkersOnly(s);
    hide Inv, Data;
    m := if s.tail == Sleep then 2 else 0;
    if s.tail == Sleep { DropsMarker(Apply(s, BeginClear)); }
  }

  lemma DropsMarker(s: List)
    requires s.con == DropClear(StartPoll) && PcOf(s, Poller).Out?
    ensures Polling(s, 2) == if s.head == Sleep then Swap(Forget(s, End, DropSwap(StartPoll)), End, Idle) else Goto(Forget(s, End, DropSwap(StartPoll)), Idle)
  {
    var s1 := Access(s);
    assert s1 == Forget(s, End, DropSwap(StartPoll));
    var s2 := Access(s1);
    assert Polling(s, 2) == Polling(s1, 1) == Polling(s2, 0);
  }

  lemma SwapsMarker(s: List)
    requires s.con.SleepClear? && PcOf(s, Poller).Out?
    ensures Polling(s, 2) == if s.head == End then Swap(Forget(s, Sleep, SleepSwap), Sleep, Asleep) else Goto(Forget(s, Sleep, SleepSwap), Awake)
  {
    var s1 := Access(s);
    assert s1 == Forget(s, Sleep, SleepSwap);
    var s2 := Access(s1);
    assert Polling(s, 2) == Polling(s1, 1) == Polling(s2, 0);
  }

  /** A list without data is one marker. */
  lemma MarkersOnly(s: List)
    requires Inv(s) && !s.closing
    ensures Data(s.chain) == [] <==> s.chain == [End] || s.chain == [Sleep]
    ensures s.head == s.tail <==> |s.chain| == 1
    ensures s.chain[0] == s.tail && PcOf(s, Poller).Out? == (!s.con.DeqStub? && !s.con.Requeue? && !s.con.Closing?)
  {
    assert s.chain[0] in s.chain;
    if |s.chain| > 1 {
      assert s.chain[1] in s.chain && s.chain[0] != s.chain[1];
      assert Data(s.chain[1..]) != [] || !s.chain[1].Node?;
    }
  }
}
