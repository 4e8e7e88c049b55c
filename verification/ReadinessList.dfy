/**
  The intrusive multi-producer single-consumer list of `corcovado::poll`, as a transition system.

  Every atomic access (`load`, `store`, `compare_and_swap`) is one step, together with the thread-local
  work that follows it up to the next access.  `tail_readiness` belongs to the polling thread, so its writes are
  merged into the step that precedes them.  Memory is sequentially consistent.  A null `next_readiness`
  is a pointer without an entry in `next`.

  `chain`, `linker`, `owner`, `pushed` and `popped` are auxiliary: no step reads them to decide what to do.
*/
module ReadinessList {

  datatype Ptr = End | Sleep | Closed | Node(id: nat)

  datatype Tid = Poller | Producer(id: nat)

  /** The next access of a thread inside `enqueue_node`. */
  datatype Phase =
    | ClearNext     // store null into n.next_readiness
    | LoadHead      // load head_readiness
    | Push          // compare-and-swap head_readiness from prev to n
    | Reject        // the closed marker was seen: release the queue's handle on n
    | Link          // the swap was won: store n into prev.next_readiness
    | MustWake      // n was pushed behind the sleep marker: call wakeup

  /** Where a thread is inside `enqueue_node(n)`; `prev` matters from Push on. */
  datatype PushPc = Out | At(phase: Phase, n: Ptr, prev: Ptr)
  {
    predicate Is(p: Phase) { At? && phase == p }
  }

  /** What `clear_sleep_marker` was called for. */
  datatype After = StartPoll | ReportEmpty

  /** Where the polling thread is inside the queue's consumer operations. */
  datatype PollPc =
    | Idle
    | Asleep                      // prepare_for_sleep returned true
    | SleepHead                   // prepare_for_sleep, sleep marker at the tail: about to load head
    | SleepClear                  // prepare_for_sleep: about to store null into the sleep marker
    | SleepSwap                   // prepare_for_sleep: about to compare-and-swap head
    | Awake                       // prepare_for_sleep returned false
    | DropClear(k: After)         // clear_sleep_marker: about to store null into the end marker
    | DropSwap(k: After)          // clear_sleep_marker: about to compare-and-swap head
    | Deq(until: set<Ptr>)        // dequeue_node: about to load tail.next
    | DeqSkip(until: set<Ptr>)    // dequeue_node: a marker was skipped, about to load the new tail's next
    | DeqHead                     // dequeue_node: about to load head
    | DeqStub                     // dequeue_node: inside enqueue_node(end marker)
    | DeqReload                   // dequeue_node: about to reload tail.next
    | GotNothing(inconsistent: bool)
    | Holding(id: nat)            // dequeue_node returned this data node
    | Requeue(id: nat)            // inside enqueue_node of a node that stays queued
    | Closing                     // inside enqueue_node(closed marker)

  datatype List = List(
    head: Ptr,
    tail: Ptr,
    next: map<Ptr, Ptr>,
    pc: map<Tid, PushPc>,
    con: PollPc,
    awakened: bool,               // the awakener, as a sticky flag
    closing: bool,                // the queue is being dropped
    chain: seq<Ptr>,              // nodes from tail to head
    linker: map<Ptr, Tid>,        // who still has to store into this node's next
    owner: map<Ptr, Tid>,         // who holds the right to push this node
    pushed: seq<nat>,
    popped: seq<nat>)

  function PcOf(s: List, t: Tid): PushPc {
    if t in s.pc then s.pc[t] else Out
  }

  predicate Marker(p: Ptr) { !p.Node? }

  function Data(chain: seq<Ptr>): seq<nat> {
    if chain == [] then []
    else if chain[0].Node? then [chain[0].id] + Data(chain[1..])
    else Data(chain[1..])
  }

  // ---------------------------------------------------------------------------------------------
  // Steps
  // ---------------------------------------------------------------------------------------------

  const Initial := List(End, End, map[], map[], Idle, false, false, [End], map[], map[], [], [])

  /** What enqueue_node does once the polling thread is through with it. */
  function PollerDone(con: PollPc): PollPc {
    match con
    case DeqStub => DeqReload
    case _ => Idle
  }

  /** The thread leaves enqueue_node. */
  function Leave(s: List, t: Tid): List {
    s.(pc := s.pc[t := Out], con := if t == Poller then PollerDone(s.con) else s.con)
  }

  function Move(s: List, t: Tid, phase: Phase, n: Ptr, prev: Ptr): List {
    s.(pc := s.pc[t := At(phase, n, prev)])
  }

  /** The local decision after head_readiness was seen to be `seen`. */
  function Saw(s: List, t: Tid, n: Ptr, seen: Ptr): List {
    if seen != Closed then Move(s, t, Push, n, seen)
    else if n == End then Leave(s, t)
    else Move(s, t, Reject, n, seen)
  }

  function DoClear(s: List, t: Tid, n: Ptr): List {
    s.(next := s.next - {n}, pc := s.pc[t := At(LoadHead, n, n)])
  }

  function DoPush(s: List, t: Tid, n: Ptr, prev: Ptr): List {
    s.(head := n,
       pc := s.pc[t := At(Link, n, prev)],
       chain := s.chain + [n],
       linker := s.linker[prev := t],
       owner := s.owner - {n},
       pushed := if n.Node? then s.pushed + [n.id] else s.pushed)
  }

  function DoReject(s: List, t: Tid, n: Ptr): List {
    Leave(s.(owner := s.owner - {n}), t)
  }

  function DoLink(s: List, t: Tid, n: Ptr, prev: Ptr): List {
    var s1 := s.(next := s.next[prev := n], linker := s.linker - {prev});
    if prev == Sleep && t != Poller then s1.(pc := s1.pc[t := At(MustWake, n, prev)]) else Leave(s1, t)
  }

  function DoWake(s: List, t: Tid): List {
    Leave(s.(awakened := true), t)
  }

  /** One access of a thread inside `enqueue_node` (lines 2391-2435). */
  function PushStep(s: List, t: Tid): List {
    var pc := PcOf(s, t);
    if pc.Out? then s
    else match pc.phase
      case ClearNext => DoClear(s, t, pc.n)
      case LoadHead => Saw(s, t, pc.n, s.head)
      case Push => if s.head == pc.prev then DoPush(s, t, pc.n, pc.prev) else Saw(s, t, pc.n, s.head)
      case Reject => DoReject(s, t, pc.n)
      case Link => DoLink(s, t, pc.n, pc.prev)
      case MustWake => DoWake(s, t)
  }

  function Rest(c: seq<Ptr>): seq<Ptr> {
    if c == [] then [] else c[1..]
  }

  /** The polling thread takes the data node at the tail out of the list. */
  function Take(s: List): List
    requires s.tail in s.next && s.tail.Node?
  {
    s.(tail := s.next[s.tail],
       chain := Rest(s.chain),
       owner := s.owner[s.tail := Poller],
       popped := s.popped + [s.tail.id],
       con := Holding(s.tail.id))
  }

  /** The polling thread steps over the marker at the tail. */
  function Skip(s: List, until: set<Ptr>): List
    requires s.tail in s.next
  {
    s.(tail := s.next[s.tail], chain := Rest(s.chain), con := DeqSkip(until))
  }

  /** The list is exactly one marker, which another marker replaces. */
  function Swap(s: List, to: Ptr, con: PollPc): List {
    s.(head := to, tail := to, chain := [to], con := con)
  }

  function Forget(s: List, p: Ptr, con: PollPc): List {
    s.(next := s.next - {p}, con := con)
  }

  function Goto(s: List, con: PollPc): List {
    s.(con := con)
  }

  /** Enter enqueue_node on the polling thread. */
  function PollerPushes(s: List, p: Ptr, con: PollPc): List {
    s.(con := con, pc := s.pc[Poller := At(ClearNext, p, p)])
  }

  /** How one access of the polling thread changes the list. */
  datatype PollMove =
    | ToGoto(con: PollPc)
    | ToForget(p: Ptr, con: PollPc)
    | ToSwap(to: Ptr, con: PollPc)
    | ToSkip(until: set<Ptr>)
    | ToTake
    | ToPush(p: Ptr, con: PollPc)

  /** The end of dequeue_node for a tail that is not a marker with a successor. */
  function Examine(s: List, until: set<Ptr>): PollMove {
    if s.tail in until then ToGoto(GotNothing(false))
    else if s.tail in s.next && s.tail.Node? then ToTake
    else ToGoto(DeqHead)
  }

  /** One access of the polling thread inside a consumer operation (lines 2285-2343, 2437-2527). */
  function Decide(s: List): PollMove {
    match s.con
    case SleepHead => ToGoto(if s.head == Sleep then Asleep else Awake)
    case SleepClear => ToForget(Sleep, SleepSwap)
    case SleepSwap => if s.head == End then ToSwap(Sleep, Asleep) else ToGoto(Awake)
    case DropClear(k) => ToForget(End, DropSwap(k))
    case DropSwap(k) =>
      var con := if k == StartPoll then Idle else GotNothing(false);
      if s.head == Sleep then ToSwap(End, con) else ToGoto(con)
    case Deq(until) =>
      if s.tail.Node? then Examine(s, until)
      else if s.tail in s.next then ToSkip(until)
      else ToGoto(if s.tail == Sleep then DropClear(ReportEmpty) else GotNothing(false))
    case DeqSkip(until) => Examine(s, until)
    case DeqHead => if s.head != s.tail then ToGoto(GotNothing(true)) else ToPush(End, DeqStub)
    case DeqReload => if s.tail in s.next && s.tail.Node? then ToTake else ToGoto(GotNothing(true))
    case _ => ToGoto(s.con)
  }

  function PollStep(s: List): List {
    match Decide(s)
    case ToGoto(con) => Goto(s, con)
    case ToForget(p, con) => Forget(s, p, con)
    case ToSwap(to, con) => Swap(s, to, con)
    case ToSkip(until) => if s.tail in s.next then Skip(s, until) else s
    case ToTake => if s.tail in s.next && s.tail.Node? then Take(s) else s
    case ToPush(p, con) => PollerPushes(s, p, con)
  }

  datatype Action =
    | Acquire(t: Tid, id: nat)        // t obtains the right to push the node
    | Abandon(id: nat)                // a right that will never be used is given up
    | BeginPush(t: Tid, id: nat)      // t enters enqueue_node
    | PushAccess(t: Tid)
    | PollAccess
    | BeginSleep
    | SelectReturns
    | BeginClear
    | BeginDeq(until: set<Ptr>)
    | ReleaseHeld                     // the polling thread is done with the node it holds
    | BeginRequeue
    | BeginClose

  predicate Enabled(s: List, a: Action) {
    match a
    case Acquire(t, id) => t != Poller && Node(id) !in s.chain && Node(id) !in s.owner
    case Abandon(id) => Node(id) in s.owner && s.owner[Node(id)] != Poller && !(Pending(PcOf(s, s.owner[Node(id)])) && PcOf(s, s.owner[Node(id)]).n == Node(id))
    case BeginPush(t, id) =>
      t != Poller && PcOf(s, t).Out? && Node(id) in s.owner && s.owner[Node(id)] == t
    case PushAccess(t) => !PcOf(s, t).Out?
    case PollAccess => !s.con.Idle? && !s.con.Asleep? && !s.con.Awake? && !s.con.GotNothing? && !s.con.Holding?
                       && PcOf(s, Poller).Out?
    case BeginSleep => s.con.Idle? && !s.closing
    case SelectReturns => s.con.Idle? || s.con.Asleep? || s.con.Awake?
    case BeginClear => s.con.Idle? && !s.closing
    case BeginDeq(until) => s.con.Idle? || s.con.GotNothing?
    case ReleaseHeld => s.con.Holding? || s.con.GotNothing?
    case BeginRequeue => s.con.Holding? && !s.closing
    case BeginClose => s.con.Idle? && !s.closing
  }

  function Apply(s: List, a: Action): List {
    match a
    case Acquire(t, id) => s.(owner := s.owner[Node(id) := t])
    case Abandon(id) => s.(owner := s.owner - {Node(id)})
    case BeginPush(t, id) => s.(pc := s.pc[t := At(ClearNext, Node(id), Node(id))])
    case PushAccess(t) => PushStep(s, t)
    case PollAccess => PollStep(s)
    case BeginSleep => Goto(s, if s.tail == Sleep then SleepHead else if s.tail != End then Awake else SleepClear)
    case SelectReturns => s.(con := Idle, awakened := false)
    case BeginClear => Goto(s, if s.tail == Sleep then DropClear(StartPoll) else Idle)
    case BeginDeq(until) => Goto(s, Deq(until))
    case ReleaseHeld =>
      if s.con.Holding? then s.(con := Idle, owner := s.owner - {Node(s.con.id)}) else s.(con := Idle)
    case BeginRequeue => if s.con.Holding? then PollerPushes(s, Node(s.con.id), Requeue(s.con.id)) else s
    case BeginClose => PollerPushes(s.(closing := true), Closed, Closing)
  }

  // ---------------------------------------------------------------------------------------------
  // Invariant
  // ---------------------------------------------------------------------------------------------

  /** The thread is inside enqueue_node and its push has not taken effect. */
  predicate Pending(pc: PushPc) {
    pc.At? && pc.phase != Link && pc.phase != MustWake
  }

  ghost predicate NoDuplicates(c: seq<Ptr>) {
    forall i, j :: 0 <= i < j < |c| ==> c[i] != c[j]
  }

  /** b comes right after a: a's next is b, or is null and owed by exactly the thread that pushed b. */
  ghost predicate Follows(s: List, a: Ptr, b: Ptr) {
    if a in s.next then s.next[a] == b
    else a in s.linker && PcOf(s, s.linker[a]) == At(Link, b, a)
  }

  ghost predicate Shape(s: List) {
    && s.chain != []
    && NoDuplicates(s.chain)
    && s.tail == s.chain[0]
    && s.head == s.chain[|s.chain| - 1]
    && s.head !in s.next
    && Closed !in s.next
    // next links agree with the chain, except at gaps
    && (forall i :: 0 <= i < |s.chain| - 1 ==> Follows(s, s.chain[i], s.chain[i + 1]))
    // markers
    && (Sleep in s.chain ==> s.tail == Sleep && End !in s.chain)
    && (Closed in s.chain ==> s.head == Closed && s.closing)
  }

  /** What a thread inside enqueue_node may rely on. */
  ghost predicate PcOk(s: List, t: Tid) {
    var pc := PcOf(s, t);
    // a pending node is outside the list, and a data node is pushed only by the holder of its right
    && (Pending(pc) ==> pc.n !in s.chain && (if pc.n.Node? then pc.n in s.owner && s.owner[pc.n] == t else t == Poller))
    && (pc.Is(LoadHead) || pc.Is(Push) ==> pc.n !in s.next)
    && (pc.Is(Push) ==> pc.prev != Closed)
    && (pc.Is(Reject) ==> Closed in s.chain && pc.n.Node?)
    // a predecessor waiting for its link is still in the list, not at its head, and its next is null
    && (pc.Is(Link) ==>
          pc.prev in s.linker && s.linker[pc.prev] == t && pc.prev in s.chain && pc.prev !in s.next && pc.prev != s.head)
  }

  ghost predicate Rights(s: List) {
    && (forall t :: PcOk(s, t))
    && (forall n :: n in s.owner ==> n.Node? && n !in s.chain)
  }

  predicate ConsumerPlace(s: List) {
    match s.con
    case Asleep => s.tail == Sleep && !s.closing
    case SleepHead => s.tail == Sleep && !s.closing
    case SleepClear => s.tail == End && !s.closing
    case SleepSwap => s.tail == End && !s.closing && Sleep !in s.next
    case Awake => !s.closing
    case DropClear(k) => s.tail == Sleep && (k == StartPoll ==> !s.closing)
    case DropSwap(k) => s.tail == Sleep && End !in s.next && (k == StartPoll ==> !s.closing)
    case DeqSkip(_) => s.tail != End && s.tail != Sleep
    case DeqHead => s.tail.Node? || s.tail == Closed
    case DeqStub => s.tail.Node? || s.tail == Closed
    case DeqReload => s.tail.Node? || s.tail == Closed
    case Holding(id) => Node(id) in s.owner && s.owner[Node(id)] == Poller && s.tail != Sleep
    case Requeue(id) => !s.closing && s.tail != Sleep
    case Closing => s.closing
    case _ => true
  }

  /** The polling thread is inside enqueue_node exactly when a consumer operation called it. */
  ghost predicate PollerPush(s: List) {
    var pc := PcOf(s, Poller);
    if pc.Out? then !s.con.DeqStub? && !s.con.Requeue? && !s.con.Closing?
    else
      && pc.phase != MustWake
      && match s.con
         case DeqStub => pc.n == End
         case Requeue(id) => pc.n == Node(id)
         case Closing => pc.n == Closed
         case _ => false
  }

  /** The thread pushed the node right behind the sleep marker, and has not yet called wakeup. */
  predicate Wakes(chain: seq<Ptr>, pc: PushPc) {
    |chain| > 1 && (pc == At(Link, chain[1], Sleep) || pc == At(MustWake, chain[1], Sleep))
  }

  ghost predicate SomeoneWakes(s: List) {
    exists t :: Wakes(s.chain, PcOf(s, t))
  }

  /** Nothing is in the list behind a sleeping poller unless it has been, or will be, woken. */
  ghost predicate NoLostWakeup(s: List) {
    s.con.Asleep? ==> s.chain == [Sleep] || s.awakened || SomeoneWakes(s)
  }

  ghost predicate History(s: List) {
    s.pushed == s.popped + Data(s.chain)
  }

  ghost predicate Inv(s: List) {
    Shape(s) && Rights(s) && ConsumerPlace(s) && PollerPush(s) && NoLostWakeup(s) && History(s)
  }

  // ---------------------------------------------------------------------------------------------
  // Every step keeps the invariant
  // ---------------------------------------------------------------------------------------------

  lemma {:induction false} DataAppend(c: seq<Ptr>, n: Ptr)
    ensures Data(c + [n]) == Data(c) + (if n.Node? then [n.id] else [])
  {
    if c == [] {
    } else {
      assert (c + [n])[1..] == c[1..] + [n];
      DataAppend(c[1..], n);
    }
  }

  lemma MarkerData(p: Ptr)
    requires Marker(p)
    ensures Data([p]) == []
  {
    assert Data([p]) == Data([p][1..]);
  }

  ghost predicate SamePlaces(s: List, s': List, t: Tid) {
    forall u :: u != t ==> PcOf(s', u) == PcOf(s, u)
  }

  /** Steps that leave the chain and its links alone keep its shape. */
  lemma ShapeFrame(s: List, s': List, t: Tid)
    requires Shape(s) && SamePlaces(s, s', t) && (PcOf(s, t).Is(Link) ==> PcOf(s', t) == PcOf(s, t))
    requires s'.chain == s.chain && s'.head == s.head && s'.tail == s.tail && s'.linker == s.linker
    requires (s.closing ==> s'.closing) && Closed !in s'.next
    requires forall p :: p in s.chain ==> (p in s.next <==> p in s'.next) && (p in s.next ==> s'.next[p] == s.next[p])
    ensures Shape(s')
  {
    forall i | 0 <= i < |s'.chain| - 1 ensures Follows(s', s'.chain[i], s'.chain[i + 1]) {
      assert Follows(s, s.chain[i], s.chain[i + 1]);
    }
  }

  /** A wakeup owed before is owed or done after, unless its own thread moved. */
  lemma WakeFrame(s: List, s': List, t: Tid)
    requires SomeoneWakes(s) && SamePlaces(s, s', t)
    requires |s.chain| > 1 ==> |s'.chain| > 1 && s'.chain[1] == s.chain[1]
    requires Wakes(s.chain, PcOf(s, t)) ==> s'.awakened || Wakes(s'.chain, PcOf(s', t))
    ensures SomeoneWakes(s') || s'.awakened
  {
    var u :| Wakes(s.chain, PcOf(s, u));
    assert u != t ==> PcOf(s', u) == PcOf(s, u);
    assert s'.awakened || Wakes(s'.chain, PcOf(s', u));
  }

  /** The two inputs of PcOk that other threads change: the list and the table of rights. */
  lemma PcFrame(s: List, s': List, t: Tid, u: Tid)
    requires PcOk(s, u) && SamePlaces(s, s', t) && u != t
    requires Pending(PcOf(s, u)) ==>
      var n := PcOf(s, u).n;
      n !in s'.chain && (n.Node? ==> n in s'.owner && s'.owner[n] == u) && (n !in s.next ==> n !in s'.next)
    requires Closed in s.chain ==> Closed in s'.chain
    requires PcOf(s, u).Is(Link) ==>
      var p := PcOf(s, u).prev;
      p in s'.linker && s'.linker[p] == u && p in s'.chain && p !in s'.next && p != s'.head
    ensures PcOk(s', u)
  {
    assert PcOf(s', u) == PcOf(s, u);
  }

  /** Different threads never hold the same node. */
  lemma DistinctPending(s: List, t: Tid, u: Tid)
    requires PcOk(s, t) && PcOk(s, u) && t != u && Pending(PcOf(s, t)) && Pending(PcOf(s, u))
    ensures PcOf(s, t).n != PcOf(s, u).n
  {
  }

  lemma PushWins(s: List, t: Tid, n: Ptr, prev: Ptr)
    requires Inv(s) && PcOf(s, t) == At(Push, n, prev) && s.head == prev
    ensures Inv(DoPush(s, t, n, prev))
  {
    hide Shape, ConsumerPlace, PollerPush, Data;
    var s' := DoPush(s, t, n, prev);
    assert PcOk(s, t) && SamePlaces(s, s', t) && PcOf(s', t) == At(Link, n, prev);
    DataAppend(s.chain, n);
    PushWinsShape(s, t, n, prev);
    PushWinsPlaces(s, t, n, prev);
    forall u ensures PcOk(s', u) {
      assert PcOk(s, u);
      if u == t {
        PushWinsSelf(s, t, n, prev);
      } else {
        PushWinsOther(s, t, n, prev, u);
      }
    }
    PushWinsWake(s, t, n, prev);
  }

  lemma PushWinsSelf(s: List, t: Tid, n: Ptr, prev: Ptr)
    requires Shape(s) && PcOk(s, t) && PcOf(s, t) == At(Push, n, prev) && s.head == prev
    ensures PcOk(DoPush(s, t, n, prev), t)
  {
    hide Follows, NoDuplicates;
    assert s.head in s.chain;
  }

  lemma PushWinsPlaces(s: List, t: Tid, n: Ptr, prev: Ptr)
    requires ConsumerPlace(s) && PollerPush(s) && PcOf(s, t) == At(Push, n, prev)
    requires PcOk(s, t)
    ensures ConsumerPlace(DoPush(s, t, n, prev)) && PollerPush(DoPush(s, t, n, prev))
  {
    if t != Poller { assert PcOf(DoPush(s, t, n, prev), Poller) == PcOf(s, Poller); }
  }

  lemma PushWinsOther(s: List, t: Tid, n: Ptr, prev: Ptr, u: Tid)
    requires Shape(s) && PcOk(s, t) && PcOk(s, u) && u != t && PcOf(s, t) == At(Push, n, prev) && s.head == prev
    ensures PcOk(DoPush(s, t, n, prev), u)
  {
    if Pending(PcOf(s, u)) {
      DistinctPending(s, t, u);
    }
    PcFrame(s, DoPush(s, t, n, prev), t, u);
  }

  lemma PushWinsWake(s: List, t: Tid, n: Ptr, prev: Ptr)
    requires NoLostWakeup(s) && Shape(s) && PcOf(s, t) == At(Push, n, prev) && s.head == prev
    ensures NoLostWakeup(DoPush(s, t, n, prev))
  {
    hide Follows, NoDuplicates;
    assert s.chain == [Sleep] ==> prev == Sleep;
    var s' := DoPush(s, t, n, prev);
    if s.con.Asleep? && !s.awakened {
      if s.chain == [Sleep] {
        assert Wakes(s'.chain, PcOf(s', t));
      } else {
        WakeFrame(s, s', t);
      }
    }
  }

  lemma PushWinsShape(s: List, t: Tid, n: Ptr, prev: Ptr)
    requires Shape(s) && ConsumerPlace(s) && PollerPush(s) && PcOk(s, t)
    requires PcOf(s, t) == At(Push, n, prev) && s.head == prev
    ensures Shape(DoPush(s, t, n, prev))
  {
    var s' := DoPush(s, t, n, prev);
    assert SamePlaces(s, s', t);
    forall i | 0 <= i < |s'.chain| - 1 ensures Follows(s', s'.chain[i], s'.chain[i + 1]) {
      if i < |s.chain| - 1 {
        assert Follows(s, s.chain[i], s.chain[i + 1]);
      }
    }
  }

  /** The node a linking thread pushed comes right after the node it is about to write. */
  lemma PlaceOfLink(s: List, t: Tid) returns (k: nat)
    requires Shape(s) && PcOk(s, t) && PcOf(s, t).Is(Link)
    ensures k < |s.chain| - 1 && s.chain[k] == PcOf(s, t).prev && s.chain[k + 1] == PcOf(s, t).n
    ensures s.chain[k] !in s.next && s.linker[s.chain[k]] == t
  {
    k :| 0 <= k < |s.chain| && s.chain[k] == PcOf(s, t).prev;
    assert Follows(s, s.chain[k], s.chain[k + 1]);
  }

  /** The effect of the link store on the list. */
  ghost predicate Stored(s: List, t: Tid, s': List) {
    && PcOf(s, t).Is(Link)
    && s' == s.(next := s.next[PcOf(s, t).prev := PcOf(s, t).n], linker := s.linker - {PcOf(s, t).prev},
                pc := s'.pc, con := s'.con)
    && SamePlaces(s, s', t)
    && (PcOf(s', t).Out? || PcOf(s', t).Is(MustWake))
  }

  lemma StoredShape(s: List, t: Tid, s': List)
    requires Shape(s) && PcOk(s, t) && Stored(s, t, s')
    ensures Shape(s')
  {
    var k := PlaceOfLink(s, t);
    forall i | 0 <= i < |s'.chain| - 1 ensures Follows(s', s'.chain[i], s'.chain[i + 1]) {
      assert Follows(s, s.chain[i], s.chain[i + 1]);
      if i != k {
        assert s.chain[i] != s.chain[k];
      }
    }
  }

  lemma StoredOther(s: List, t: Tid, u: Tid, s': List)
    requires Shape(s) && PcOk(s, t) && PcOk(s, u) && u != t && Stored(s, t, s')
    ensures PcOk(s', u)
  {
    PcFrame(s, s', t, u);
  }

  lemma LinkKeeps(s: List, t: Tid, n: Ptr, prev: Ptr)
    requires Inv(s) && PcOf(s, t) == At(Link, n, prev)
    ensures Inv(DoLink(s, t, n, prev))
  {
    hide Shape, ConsumerPlace, PollerPush, Data;
    var s' := DoLink(s, t, n, prev);
    assert PcOk(s, t) && Stored(s, t, s');
    StoredShape(s, t, s');
    forall u ensures PcOk(s', u) {
      assert PcOk(s, u);
      if u != t {
        StoredOther(s, t, u, s');
      }
    }
    LinkPlaces(s, t, n, prev);
    if s.con.Asleep? && SomeoneWakes(s) {
      SleepersPushNothing(s);
      WakeFrame(s, s', t);
    }
  }

  lemma SleepersPushNothing(s: List)
    requires PollerPush(s) && s.con.Asleep?
    ensures PcOf(s, Poller).Out?
  {}

  lemma LinkPlaces(s: List, t: Tid, n: Ptr, prev: Ptr)
    requires Shape(s) && ConsumerPlace(s) && PollerPush(s) && prev in s.chain && PcOf(s, t) == At(Link, n, prev)
    ensures ConsumerPlace(DoLink(s, t, n, prev)) && PollerPush(DoLink(s, t, n, prev))
  {
    hide Follows, NoDuplicates;
    var s' := DoLink(s, t, n, prev);
    assert s.tail in s.chain;
    if t != Poller {
      assert s'.con == s.con && PcOf(s', Poller) == PcOf(s, Poller);
    }
  }

  /** What an access inside enqueue_node can change when it neither pushes nor links. */
  ghost predicate Stays(s: List, t: Tid, s': List) {
    && s' == s.(next := s'.next, pc := s'.pc, con := s'.con, awakened := s'.awakened, owner := s'.owner)
    && SamePlaces(s, s', t)
    && !PcOf(s', t).Is(Link)
    && (s'.next == s.next || (Pending(PcOf(s, t)) && s'.next == s.next - {PcOf(s, t).n}))
    && (s'.owner == s.owner || (PcOf(s, t).Is(Reject) && s'.owner == s.owner - {PcOf(s, t).n}))
    && (s.awakened ==> s'.awakened)
    && (PcOf(s, t).Is(MustWake) ==> s'.awakened)
    && (s'.con == s.con || (t == Poller && s'.con == PollerDone(s.con) && PcOf(s', t).Out?))
    && (t == Poller && s'.con == s.con ==> PcOf(s, t).At? && PcOf(s', t).At? && PcOf(s', t).n == PcOf(s, t).n && !PcOf(s', t).Is(MustWake))
  }

  lemma StaysKeeps(s: List, t: Tid, s': List)
    requires Inv(s) && Stays(s, t, s') && PcOf(s, t).At? && !PcOf(s, t).Is(Link) && PcOk(s', t)
    requires t == Poller ==> s.con.DeqStub? || s.con.Requeue? || s.con.Closing?
    ensures Inv(s')
  {
    assert PcOk(s, t);
    ShapeFrame(s, s', t);
    forall u ensures PcOk(s', u) {
      assert PcOk(s, u);
      if u != t {
        StaysOther(s, t, u, s');
      }
    }
    if SomeoneWakes(s) {
      WakeFrame(s, s', t);
    }
    StaysPlaces(s, t, s');
  }

  lemma StaysPlaces(s: List, t: Tid, s': List)
    requires ConsumerPlace(s) && PollerPush(s) && Stays(s, t, s') && PcOk(s, t) && PcOf(s, t).At?
    requires t == Poller ==> s.con.DeqStub? || s.con.Requeue? || s.con.Closing?
    ensures ConsumerPlace(s') && PollerPush(s') && (s'.con.Asleep? ==> s.con.Asleep?)
  {
    if t != Poller {
      assert PcOf(s', Poller) == PcOf(s, Poller);
    }
  }

  lemma StaysOther(s: List, t: Tid, u: Tid, s': List)
    requires PcOk(s, t) && PcOk(s, u) && u != t && Stays(s, t, s')
    ensures PcOk(s', u)
  {
    if Pending(PcOf(s, u)) && Pending(PcOf(s, t)) {
      DistinctPending(s, t, u);
    }
    PcFrame(s, s', t, u);
  }

  lemma SawKeeps(s: List, t: Tid)
    requires Inv(s) && (PcOf(s, t).Is(LoadHead) || PcOf(s, t).Is(Push))
    ensures Inv(Saw(s, t, PcOf(s, t).n, s.head))
  {
    assert PcOk(s, t);
    var n, s' := PcOf(s, t).n, Saw(s, t, PcOf(s, t).n, s.head);
    if s.head == Closed && n == End {
      LeaveStays(s, t);
    } else {
      MoveStays(s, t, if s.head == Closed then Reject else Push, s.head);
    }
    StaysKeeps(s, t, s');
  }

  lemma MoveStays(s: List, t: Tid, phase: Phase, prev: Ptr)
    requires PcOk(s, t) && PollerPush(s) && (PcOf(s, t).Is(LoadHead) || PcOf(s, t).Is(Push))
    requires if phase == Push then prev != Closed else phase == Reject && Closed in s.chain && PcOf(s, t).n != End
    requires PcOf(s, t).n == Closed ==> Closed !in s.chain
    ensures Stays(s, t, Move(s, t, phase, PcOf(s, t).n, prev)) && PcOk(Move(s, t, phase, PcOf(s, t).n, prev), t)
  {
    var s' := Move(s, t, phase, PcOf(s, t).n, prev);
    assert SamePlaces(s, s', t) && PcOf(s', t) == At(phase, PcOf(s, t).n, prev);
  }

  lemma LeaveStays(s: List, t: Tid)
    requires PcOf(s, t).At? && !PcOf(s, t).Is(MustWake) && (t == Poller ==> s.con.DeqStub?)
    ensures Stays(s, t, Leave(s, t)) && PcOk(Leave(s, t), t)
  {
    var s' := Leave(s, t);
    assert SamePlaces(s, s', t) && PcOf(s', t) == Out;
  }

  lemma SmallStays(s: List, t: Tid, s': List)
    requires PcOk(s, t) && PollerPush(s)
    requires
      || (PcOf(s, t).Is(ClearNext) && s' == DoClear(s, t, PcOf(s, t).n))
      || (PcOf(s, t).Is(Reject) && s' == DoReject(s, t, PcOf(s, t).n))
      || (PcOf(s, t).Is(MustWake) && s' == DoWake(s, t))
    ensures Stays(s, t, s') && PcOk(s', t)
  {
  }

  lemma PushKeeps(s: List, t: Tid)
    requires Inv(s) && PcOf(s, t).At?
    ensures Inv(PushStep(s, t))
  {
    var pc := PcOf(s, t);
    assert PcOk(s, t);
    if pc.Is(Link) {
      LinkKeeps(s, t, pc.n, pc.prev);
    } else if pc.Is(Push) && s.head == pc.prev {
      PushWins(s, t, pc.n, pc.prev);
    } else if pc.Is(LoadHead) || pc.Is(Push) {
      SawKeeps(s, t);
    } else {
      SmallStays(s, t, PushStep(s, t));
      StaysKeeps(s, t, PushStep(s, t));
    }
  }

  /** Moves of the consumer's program counter alone. */
  lemma GotoKeeps(s: List, con: PollPc)
    requires Inv(s) && PcOf(s, Poller).Out? && ConsumerPlace(Goto(s, con)) && PollerPush(Goto(s, con))
    requires con.Asleep? ==> s.chain == [Sleep]
    ensures Inv(Goto(s, con))
  {
    var s' := Goto(s, con);
    assert SamePlaces(s, s', Poller);
    ShapeFrame(s, s', Poller);
    forall u ensures PcOk(s', u) {
      assert PcOk(s, u);
    }
  }

  lemma ForgetKeeps(s: List, p: Ptr, con: PollPc)
    requires Inv(s) && PcOf(s, Poller).Out? && !con.Asleep? && p !in s.chain
    requires ConsumerPlace(Forget(s, p, con)) && PollerPush(Forget(s, p, con))
    ensures Inv(Forget(s, p, con))
  {
    var s' := Forget(s, p, con);
    assert SamePlaces(s, s', Poller);
    ShapeFrame(s, s', Poller);
    forall u ensures PcOk(s', u) {
      assert PcOk(s, u);
    }
  }

  lemma SwapKeeps(s: List, to: Ptr, con: PollPc)
    requires Inv(s) && PcOf(s, Poller).Out? && s.head == s.tail && (s.head == End || s.head == Sleep)
    requires (to == End || to == Sleep) && to !in s.next && (con.Asleep? ==> to == Sleep)
    requires ConsumerPlace(Swap(s, to, con)) && PollerPush(Swap(s, to, con))
    ensures Inv(Swap(s, to, con))
  {
    var s' := Swap(s, to, con);
    assert s.chain == [s.head];
    MarkerData(s.chain[0]);
    MarkerData(to);
    forall u ensures PcOk(s', u) {
      assert PcOk(s, u);
    }
  }

  /** The tail moves to its successor; the node left behind owes nothing. */
  lemma TailMoves(s: List, s': List)
    requires Inv(s) && s.tail in s.next
    requires s'.tail == s.next[s.tail] && s'.chain == s.chain[1..] && s'.head == s.head && s'.next == s.next
    requires s'.linker == s.linker && s'.pc == s.pc && s'.closing == s.closing
    ensures Shape(s') && s.tail !in s'.chain && |s.chain| >= 2
  {
    assert Follows(s, s.chain[0], s.chain[1]);
    forall i | 0 <= i < |s'.chain| - 1 ensures Follows(s', s'.chain[i], s'.chain[i + 1]) {
      assert Follows(s, s.chain[i + 1], s.chain[i + 2]);
    }
  }

  lemma TakeKeeps(s: List)
    requires Inv(s) && PcOf(s, Poller).Out? && s.tail in s.next && s.tail.Node?
    requires !s.con.DeqStub? && !s.con.Requeue? && !s.con.Closing?
    ensures Inv(Take(s))
  {
    var s' := Take(s);
    TailMoves(s, s');
    forall u ensures PcOk(s', u) {
      assert PcOk(s, u);
      TakeFrame(s, u);
    }
  }

  lemma TakeFrame(s: List, u: Tid)
    requires Shape(s) && PcOk(s, u) && PcOf(s, Poller).Out? && s.tail in s.next && s.tail.Node?
    ensures PcOk(Take(s), u)
  {
    assert PcOf(Take(s), u) == PcOf(s, u);
  }

  lemma SkipKeeps(s: List, until: set<Ptr>)
    requires Inv(s) && PcOf(s, Poller).Out? && s.tail in s.next && Marker(s.tail) && s.con.Deq?
    ensures Inv(Skip(s, until))
  {
    var s' := Skip(s, until);
    TailMoves(s, s');
    forall u ensures PcOk(s', u) {
      assert PcOk(s, u);
      assert PcOf(s', u) == PcOf(s, u);
    }
  }

  lemma PollerPushesKeeps(s: List, p: Ptr, con: PollPc)
    requires Inv(s) && PcOf(s, Poller).Out? && !con.Asleep? && p !in s.chain
    requires p.Node? ==> p in s.owner && s.owner[p] == Poller
    requires ConsumerPlace(PollerPushes(s, p, con)) && PollerPush(PollerPushes(s, p, con))
    ensures Inv(PollerPushes(s, p, con))
  {
    var s' := PollerPushes(s, p, con);
    assert SamePlaces(s, s', Poller);
    ShapeFrame(s, s', Poller);
    forall u ensures PcOk(s', u) {
      assert PcOk(s, u);
    }
  }

  /** What makes a move of the polling thread safe. */
  ghost predicate MoveOk(s: List, m: PollMove) {
    match m
    case ToGoto(con) =>
      ConsumerPlace(Goto(s, con)) && PollerPush(Goto(s, con)) && (con.Asleep? ==> s.chain == [Sleep]) && !con.Holding?
    case ToForget(p, con) =>
      && !con.Asleep? && !con.Holding? && p !in s.chain
      && ConsumerPlace(Forget(s, p, con)) && PollerPush(Forget(s, p, con))
    case ToSwap(to, con) =>
      && s.head == s.tail && (s.head == End || s.head == Sleep)
      && (to == End || to == Sleep) && to !in s.next && (con.Asleep? ==> to == Sleep) && !con.Holding?
      && ConsumerPlace(Swap(s, to, con)) && PollerPush(Swap(s, to, con))
    case ToSkip(until) => s.tail in s.next && Marker(s.tail) && s.con.Deq?
    case ToTake => s.tail in s.next && s.tail.Node? && !s.con.DeqStub? && !s.con.Requeue? && !s.con.Closing?
    case ToPush(p, con) =>
      && !con.Asleep? && !con.Holding? && p == End && End !in s.chain && con == DeqStub
      && ConsumerPlace(PollerPushes(s, p, con))
  }

  lemma SleepOk(s: List)
    requires Inv(s) && PcOf(s, Poller).Out? && (s.con.SleepHead? || s.con.SleepClear? || s.con.SleepSwap?)
    ensures MoveOk(s, Decide(s))
  {
    assert |s.chain| > 1 ==> s.chain[0] != s.chain[|s.chain| - 1];
  }

  lemma DropOk(s: List)
    requires Inv(s) && PcOf(s, Poller).Out? && (s.con.DropClear? || s.con.DropSwap?)
    ensures MoveOk(s, Decide(s))
  {
    hide Inv, MoveOk;
    if s.con.DropClear? { DropClearOk(s); } else { DropSwapOk(s); }
  }

  lemma DropClearOk(s: List)
    requires Inv(s) && PcOf(s, Poller).Out? && s.con.DropClear?
    ensures MoveOk(s, Decide(s))
  {
  }

  lemma DropSwapOk(s: List)
    requires Inv(s) && PcOf(s, Poller).Out? && s.con.DropSwap?
    ensures MoveOk(s, Decide(s))
  {
    hide Rights, NoLostWakeup, History, Follows;
  }

  lemma DeqOk(s: List)
    requires Inv(s) && PcOf(s, Poller).Out? && (s.con.Deq? || s.con.DeqSkip?)
    ensures MoveOk(s, Decide(s))
  {
    hide Inv, MoveOk;
    if s.con.Deq? { DeqFirstOk(s); } else { DeqSkipOk(s); }
  }

  lemma DeqFirstOk(s: List)
    requires Inv(s) && PcOf(s, Poller).Out? && s.con.Deq?
    ensures MoveOk(s, Decide(s))
  {
    hide Rights, NoLostWakeup, History, Follows;
  }

  lemma DeqSkipOk(s: List)
    requires Inv(s) && PcOf(s, Poller).Out? && s.con.DeqSkip?
    ensures MoveOk(s, Decide(s))
  {
  }

  lemma DeqReloadOk(s: List)
    requires Inv(s) && PcOf(s, Poller).Out? && s.con.DeqReload?
    ensures MoveOk(s, Decide(s))
  {
  }

  lemma DeqHeadOk(s: List)
    requires Inv(s) && PcOf(s, Poller).Out? && s.con.DeqHead?
    ensures MoveOk(s, Decide(s))
  {
    if s.head == s.tail {
      assert s.chain == [s.tail];
    }
  }

  lemma DecideOk(s: List)
    requires Inv(s) && Enabled(s, PollAccess)
    ensures MoveOk(s, Decide(s))
  {
    if s.con.SleepHead? || s.con.SleepClear? || s.con.SleepSwap? {
      SleepOk(s);
    } else if s.con.DropClear? || s.con.DropSwap? {
      DropOk(s);
    } else if s.con.Deq? || s.con.DeqSkip? {
      DeqOk(s);
    } else if s.con.DeqHead? {
      DeqHeadOk(s);
    } else {
      DeqReloadOk(s);
    }
  }

  lemma MoveKeeps(s: List, m: PollMove)
    requires Inv(s) && Enabled(s, PollAccess) && m == Decide(s) && MoveOk(s, m)
    ensures Inv(PollStep(s))
  {
    match m
    case ToGoto(con) => GotoKeeps(s, con);
    case ToForget(p, con) => ForgetKeeps(s, p, con);
    case ToSwap(to, con) => SwapKeeps(s, to, con);
    case ToSkip(until) => SkipKeeps(s, until);
    case ToTake => TakeKeeps(s);
    case ToPush(p, con) => PollerPushesKeeps(s, p, con);
  }

  lemma PollKeeps(s: List)
    requires Inv(s) && Enabled(s, PollAccess)
    ensures Inv(PollStep(s))
  {
    DecideOk(s);
    MoveKeeps(s, Decide(s));
  }

  /** The table of rights changes for a node that is neither listed nor on its way in. */
  lemma RightsKeep(s: List, s': List, id: nat)
    requires Inv(s) && s' == s.(owner := s'.owner, con := s'.con)
    requires s.con == s'.con || (s.con.Holding? && s'.con.Idle?)
    requires Node(id) !in s.chain && s'.owner.Keys <= s.owner.Keys + {Node(id)}
    requires forall n :: n in s.owner && n != Node(id) ==> n in s'.owner && s'.owner[n] == s.owner[n]
    requires forall t :: PcOf(s, t).Out? || PcOf(s, t).n != Node(id) || !Pending(PcOf(s, t))
    requires ConsumerPlace(s')
    ensures Inv(s')
  {
    forall u ensures PcOk(s', u) {
      assert PcOk(s, u) && PcOf(s', u) == PcOf(s, u);
    }
    assert SamePlaces(s, s', Poller);
    ShapeFrame(s, s', Poller);
  }

  lemma BeginPushKeeps(s: List, t: Tid, id: nat)
    requires Inv(s) && Enabled(s, BeginPush(t, id))
    ensures Inv(Apply(s, BeginPush(t, id)))
  {
    hide Data, Follows, NoDuplicates;
    var s' := Apply(s, BeginPush(t, id));
    assert SamePlaces(s, s', t);
    ShapeFrame(s, s', t);
    forall u ensures PcOk(s', u) {
      assert PcOk(s, u);
    }
    if SomeoneWakes(s) {
      WakeFrame(s, s', t);
    }
  }

  lemma WakesOrClosesKeeps(s: List, awakened: bool, closing: bool)
    requires Inv(s) && PcOf(s, Poller).Out? && (s.con.Idle? || s.con.Asleep? || s.con.Awake?)
    ensures Inv(s.(con := Idle, awakened := awakened, closing := closing || s.closing))
  {
    var s' := s.(con := Idle, awakened := awakened, closing := closing || s.closing);
    assert SamePlaces(s, s', Poller);
    ShapeFrame(s, s', Poller);
    forall u ensures PcOk(s', u) {
      assert PcOk(s, u);
    }
  }

  lemma NobodyPushes(s: List, id: nat)
    requires Rights(s) && (Node(id) in s.owner ==> var t := s.owner[Node(id)]; !(Pending(PcOf(s, t)) && PcOf(s, t).n == Node(id)))
    ensures forall t :: PcOf(s, t).Out? || PcOf(s, t).n != Node(id) || !Pending(PcOf(s, t))
  {
    forall t | PcOf(s, t).At? ensures PcOf(s, t).n != Node(id) || !Pending(PcOf(s, t)) {
      assert PcOk(s, t);
    }
  }

  lemma OwnershipKeeps(s: List, a: Action, id: nat)
    requires Inv(s) && Enabled(s, a) && (a.Acquire? || a.Abandon?) && id == a.id
    ensures Inv(Apply(s, a))
  {
    NobodyPushes(s, id);
    RightsKeep(s, Apply(s, a), id);
  }

  lemma ReleaseKeeps(s: List)
    requires Inv(s) && Enabled(s, ReleaseHeld)
    ensures Inv(Apply(s, ReleaseHeld))
  {
    if s.con.Holding? {
      NobodyPushes(s, s.con.id);
      RightsKeep(s, Apply(s, ReleaseHeld), s.con.id);
    } else {
      GotoKeeps(s, Idle);
    }
  }

  lemma PollerBeginKeeps(s: List, a: Action)
    requires Inv(s) && Enabled(s, a)
    requires a.BeginRequeue? || a.BeginClose? || a.SelectReturns?
    ensures Inv(Apply(s, a))
  {
    match a
    case SelectReturns => WakesOrClosesKeeps(s, false, false);
    case BeginRequeue => PollerPushesKeeps(s, Node(s.con.id), Requeue(s.con.id));
    case BeginClose =>
      WakesOrClosesKeeps(s, s.awakened, true);
      PollerPushesKeeps(s.(closing := true), Closed, Closing);
  }

  /** Each action keeps the invariant; `Enabled` is the only thing asked of the callers. */
  lemma ApplyKeeps(s: List, a: Action)
    requires Inv(s) && Enabled(s, a)
    ensures Inv(Apply(s, a))
  {
    if a.BeginPush? {
      BeginPushKeeps(s, a.t, a.id);
    } else if a.PushAccess? {
      PushKeeps(s, a.t);
    } else if a.PollAccess? {
      PollKeeps(s);
    } else if a.Acquire? || a.Abandon? {
      OwnershipKeeps(s, a, a.id);
    } else if a.ReleaseHeld? {
      ReleaseKeeps(s);
    } else if a.BeginSleep? || a.BeginClear? || a.BeginDeq? {
      GotoKeeps(s, Apply(s, a).con);
    } else {
      PollerBeginKeeps(s, a);
    }
  }

  // ---------------------------------------------------------------------------------------------
  // What the invariant means
  // ---------------------------------------------------------------------------------------------

  ghost predicate StepAt(states: seq<List>, actions: seq<Action>, i: nat)
    requires |states| == |actions| + 1
  {
    i < |actions| ==> Enabled(states[i], actions[i]) && states[i + 1] == Apply(states[i], actions[i])
  }

  ghost predicate Run(states: seq<List>, actions: seq<Action>) {
    && |states| == |actions| + 1
    && states[0] == Initial
    && forall i: nat {:trigger StepAt(states, actions, i)} :: StepAt(states, actions, i)
  }

  /** Some interleaving leads to this state. */
  ghost predicate Reachable(s: List) {
    exists states, actions :: Run(states, actions) && s in states
  }

  lemma InitialOk()
    ensures Inv(Initial)
  {
    assert forall t :: PcOk(Initial, t);
    MarkerData(End);
  }

  /** Every state of every run satisfies the invariant. */
  lemma {:induction false} RunsKeepInvariant(states: seq<List>, actions: seq<Action>, k: nat)
    requires Run(states, actions) && k < |states|
    ensures Inv(states[k])
  {
    if k == 0 {
      InitialOk();
    } else {
      RunsKeepInvariant(states, actions, k - 1);
      assert StepAt(states, actions, k - 1);
      ApplyKeeps(states[k - 1], actions[k - 1]);
    }
  }

  lemma ReachableInv(s: List)
    requires Reachable(s)
    ensures Inv(s)
  {
    var states, actions :| Run(states, actions) && s in states;
    var k :| 0 <= k < |states| && states[k] == s;
    RunsKeepInvariant(states, actions, k);
  }

  /** These actions, each enabled when it comes, lead from l to l'. */
  ghost predicate Does(l: List, actions: seq<Action>, l': List)
    decreases |actions|
  {
    if actions == [] then l' == l else Enabled(l, actions[0]) && Does(Apply(l, actions[0]), actions[1..], l')
  }

  lemma DoesNone(l: List)
    ensures Does(l, [], l)
  {}

  lemma DoesOne(l: List, a: Action)
    requires Enabled(l, a)
    ensures Does(l, [a], Apply(l, a))
  {
    DoesNone(Apply(l, a));
    assert [a][1..] == [];
  }

  lemma DoesTwo(l: List, a: Action, b: Action)
    requires Enabled(l, a) && Enabled(Apply(l, a), b)
    ensures Does(l, [a, b], Apply(Apply(l, a), b))
  {
    DoesOne(Apply(l, a), b);
    assert [a, b][1..] == [b];
  }

  lemma ReachableNext(l: List, a: Action)
    requires Reachable(l) && Enabled(l, a)
    ensures Reachable(Apply(l, a))
  {
    var states, actions :| Run(states, actions) && l in states;
    var k :| 0 <= k < |states| && states[k] == l;
    var more, done := states[..k + 1] + [Apply(l, a)], actions[..k] + [a];
    forall i: nat ensures StepAt(more, done, i) {
      assert StepAt(states, actions, i);
    }
    assert Run(more, done) && Apply(l, a) in more;
  }

  lemma {:induction false} ReachableDoes(l: List, actions: seq<Action>, l': List)
    requires Reachable(l) && Does(l, actions, l')
    ensures Reachable(l')
    decreases |actions|
  {
    if actions == [] {
    } else {
      ReachableNext(l, actions[0]);
      ReachableDoes(Apply(l, actions[0]), actions[1..], l');
    }
  }

  lemma ReachableInitial()
    ensures Reachable(Initial)
  {
    var states, actions: seq<Action> := [Initial], [];
    assert forall i: nat {:trigger StepAt(states, actions, i)} :: StepAt(states, actions, i);
    assert Run(states, actions) && Initial in states;
  }

  /** A null next inside the list is owed by exactly one thread: the one that pushed the node after it. */
  lemma GapHasOneOwner(s: List, i: nat)
    requires Reachable(s) && i < |s.chain| - 1 && s.chain[i] !in s.next
    ensures exists t ::
      PcOf(s, t) == At(Link, s.chain[i + 1], s.chain[i])
      && forall u :: PcOf(s, u).Is(Link) && PcOf(s, u).prev == s.chain[i] ==> u == t
  {
    ReachableInv(s);
    assert Follows(s, s.chain[i], s.chain[i + 1]);
    var t := s.linker[s.chain[i]];
    forall u | PcOf(s, u).Is(Link) && PcOf(s, u).prev == s.chain[i] ensures u == t {
      assert PcOk(s, u);
    }
  }

  lemma DeliveryIsTake(s: List)
    requires Inv(s) && Enabled(s, PollAccess) && PollStep(s).con.Holding?
    ensures s.tail in s.next && s.tail.Node? && PollStep(s) == Take(s)
  {
    OnlyTakeDelivers(s, Decide(s));
    DecideOk(s);
  }

  lemma OnlyTakeDelivers(s: List, m: PollMove)
    requires Enabled(s, PollAccess) && m == Decide(s) && PollStep(s).con.Holding?
    ensures m.ToTake?
  {
    match m
    case ToTake =>
    case _ =>
  }

  /**
    A dequeue that delivers a node delivers the first data node of the list, and at that moment no thread
    is still to write the node's next pointer and no thread is pushing it.
   */
  lemma DequeueTakesFirst(s: List)
    requires Reachable(s) && Enabled(s, PollAccess) && PollStep(s).con.Holding?
    ensures var s' := PollStep(s);
      && Data(s.chain) == [s'.con.id] + Data(s'.chain)
      && Node(s'.con.id) !in s'.chain
      && forall t :: PcOf(s', t).At? ==>
           && (PcOf(s', t).phase == Link ==> PcOf(s', t).prev != Node(s'.con.id))
           && (Pending(PcOf(s', t)) ==> PcOf(s', t).n != Node(s'.con.id))
  {
    ReachableInv(s);
    DeliveryIsTake(s);
    TailMoves(s, Take(s));
    forall t | PcOf(Take(s), t).At? ensures
      && (PcOf(Take(s), t).phase == Link ==> PcOf(Take(s), t).prev != s.tail)
      && (Pending(PcOf(Take(s), t)) ==> PcOf(Take(s), t).n != s.tail)
    {
      assert PcOk(s, t) && PcOf(Take(s), t) == PcOf(s, t);
    }
  }

  /** While the poller sleeps, a non-empty list has woken it or has a producer that still will. */
  lemma SleepIsSafe(s: List)
    requires Reachable(s) && s.con.Asleep?
    ensures s.chain != [] && s.chain[0] == Sleep
    ensures |s.chain| > 1 && !s.awakened ==>
      exists t :: t != Poller && (PcOf(s, t) == At(Link, s.chain[1], Sleep) || PcOf(s, t) == At(MustWake, s.chain[1], Sleep))
  {
    ReachableInv(s);
    if |s.chain| > 1 && !s.awakened {
      var t :| Wakes(s.chain, PcOf(s, t));
      assert PcOk(s, t);
    }
  }

  /** The sleep marker is only ever at the tail, never together with the end marker. */
  lemma SleepMarkerPlace(s: List, i: nat)
    requires Reachable(s) && i < |s.chain| && s.chain[i] == Sleep
    ensures i == 0 && End !in s.chain
  {
    ReachableInv(s);
    assert s.tail == Sleep;
    assert forall j :: 0 < j < |s.chain| ==> s.chain[0] != s.chain[j];
  }

  /** The polling thread may ignore the result of its own pushes: none of them is behind the sleep marker. */
  lemma PollerPushNeverWakes(s: List)
    requires Reachable(s) && PcOf(s, Poller).Is(Link) && (s.con.Requeue? || s.con.DeqStub?)
    ensures PcOf(s, Poller).prev != Sleep
  {
    ReachableInv(s);
    assert PcOk(s, Poller);
  }

  // ---------------------------------------------------------------------------------------------
  // What the node protocol needs to know about a step
  // ---------------------------------------------------------------------------------------------

  /** The node is in the list, or someone holds the right to push it. */
  ghost predicate Tracked(s: List, id: nat) {
    Node(id) in s.chain || Node(id) in s.owner
  }

  /** What an access inside enqueue_node changes for the node protocol. */
  ghost predicate PushEffect(s: List, t: Tid, s': List) {
    && SamePlaces(s, s', t)
    && (forall id :: Tracked(s', id) <==> Tracked(s, id) && !(PcOf(s, t).Is(Reject) && Node(id) == PcOf(s, t).n))
    && (forall p :: p in s'.owner ==> p in s.owner && s'.owner[p] == s.owner[p])
    && (forall p :: p in s.owner && p !in s'.owner ==> s.owner[p] == t && PcOf(s, t).At? && p == PcOf(s, t).n && Pending(PcOf(s, t)))
    && (t != Poller ==> s'.con == s.con)
    && s'.closing == s.closing
    && PcOf(s, t).At?
    && (s'.chain == s.chain || s'.chain == s.chain + [PcOf(s, t).n])
    && (PcOf(s', t).At? ==> PcOf(s', t).n == PcOf(s, t).n)
  }

  lemma PushTracks(s: List, t: Tid)
    requires Inv(s) && PcOf(s, t).At?
    ensures PushEffect(s, t, PushStep(s, t))
  {
    hide PushEffect, PcOk, Shape;
    assert PcOk(s, t);
    var pc := PcOf(s, t);
    if pc.Is(Link) {
      Untracked(s, t, PushStep(s, t));
    } else if pc.Is(Push) && s.head == pc.prev {
      PushTracksNode(s, t, pc.n, pc.prev);
    } else if pc.Is(LoadHead) || pc.Is(Push) {
      SawTracks(s, t, pc.n);
    } else {
      SmallTracks(s, t, PushStep(s, t));
    }
  }

  lemma SmallTracks(s: List, t: Tid, s': List)
    requires PcOk(s, t)
    requires
      || (PcOf(s, t).Is(ClearNext) && s' == DoClear(s, t, PcOf(s, t).n))
      || (PcOf(s, t).Is(Reject) && s' == DoReject(s, t, PcOf(s, t).n))
      || (PcOf(s, t).Is(MustWake) && s' == DoWake(s, t))
    ensures PushEffect(s, t, s')
  {}

  lemma SawTracks(s: List, t: Tid, n: Ptr)
    requires PcOf(s, t).At? && PcOf(s, t).n == n && (PcOf(s, t).Is(LoadHead) || PcOf(s, t).Is(Push))
    ensures PushEffect(s, t, Saw(s, t, n, s.head))
  {
    if s.head == Closed && n == End {
      Untracked(s, t, Leave(s, t));
    } else {
      Untracked(s, t, Move(s, t, if s.head == Closed then Reject else Push, n, s.head));
    }
  }

  lemma Untracked(s: List, t: Tid, s': List)
    requires PcOf(s, t).At? && !PcOf(s, t).Is(Reject) && SamePlaces(s, s', t)
    requires PcOf(s', t).At? ==> PcOf(s', t).n == PcOf(s, t).n
    requires s'.chain == s.chain && s'.owner == s.owner && s'.closing == s.closing && (t != Poller ==> s'.con == s.con)
    ensures PushEffect(s, t, s')
  {
  }

  lemma PushTracksNode(s: List, t: Tid, n: Ptr, prev: Ptr)
    requires PcOk(s, t) && PcOf(s, t) == At(Push, n, prev)
    requires forall p :: p in s.owner ==> p.Node?
    ensures PushEffect(s, t, DoPush(s, t, n, prev))
  {
    var s' := DoPush(s, t, n, prev);
    assert SamePlaces(s, s', t);
    assert forall p :: p in s'.chain <==> p in s.chain || p == n;
  }

  /** A push refused by the closed marker gives up the right to push. */
  lemma RejectTracks(s: List, t: Tid)
    requires Inv(s) && PcOf(s, t).Is(Reject)
    ensures s.closing && PcOf(s, t).n.Node? && PcOf(s, t).n in s.owner && s.owner[PcOf(s, t).n] == t
    ensures PcOf(PushStep(s, t), t).Out?
  {
    assert PcOk(s, t);
  }

  ghost predicate PollEffect(s: List, s': List) {
    && SamePlaces(s, s', Poller)
    && (forall id :: Tracked(s', id) <==> Tracked(s, id))
    && (forall p :: p in s.owner ==> p in s'.owner && s'.owner[p] == s.owner[p])
    && (forall id :: Node(id) in s'.chain ==> Node(id) in s.chain)
    && (forall p :: p in s'.owner && p !in s.owner ==> s'.con.Holding? && p == Node(s'.con.id) && s'.owner[p] == Poller)
    && s'.closing == s.closing
  }

  lemma PollTracks(s: List)
    requires Inv(s) && Enabled(s, PollAccess)
    ensures PollEffect(s, PollStep(s))
  {
    DecideOk(s);
    MoveTracks(s, Decide(s));
  }

  lemma MoveTracks(s: List, m: PollMove)
    requires Inv(s) && m == Decide(s) && MoveOk(s, m)
    ensures PollEffect(s, PollStep(s))
  {
    var s' := PollStep(s);
    match m
    case ToTake =>
      assert s.chain == [s.tail] + s'.chain;
    case ToSkip(_) =>
      assert s.chain == [s.tail] + s'.chain;
    case ToSwap(to, _) =>
      assert s.chain == [s.tail];
    case _ =>
      assert s'.chain == s.chain && s'.owner == s.owner;
  }

  /** A pending push stays pending until it takes effect or is refused. */
  lemma PendingStays(s: List, t: Tid)
    requires Inv(s) && Pending(PcOf(s, t)) && PcOf(s, t).n.Node? && !PcOf(s, t).Is(Reject)
    ensures Pending(PcOf(PushStep(s, t), t)) || PcOf(s, t).n !in PushStep(s, t).owner
  {
    hide Inv;
  }

  /** The polling thread is inside dequeue_node. */
  predicate Dequeuing(con: PollPc) {
    con.Deq? || con.DeqSkip? || con.DeqHead? || con.DeqStub? || con.DeqReload? || con == DropClear(ReportEmpty) || con == DropSwap(ReportEmpty)
  }

  /** The polling thread is outside the poll loop. */
  predicate Resting(con: PollPc) {
    con.Idle? || con.Asleep? || con.SleepHead? || con.SleepClear? || con.SleepSwap? || con.Awake? || con == DropClear(StartPoll) || con == DropSwap(StartPoll)
  }

  /** Where a move leaves the consumer's program counter. */
  function MoveCon(s: List, m: PollMove): PollPc {
    match m
    case ToGoto(con) => con
    case ToForget(_, con) => con
    case ToSwap(_, con) => con
    case ToSkip(until) => if s.tail in s.next then DeqSkip(until) else s.con
    case ToTake => if s.tail in s.next && s.tail.Node? then Holding(s.tail.id) else s.con
    case ToPush(_, con) => con
  }

  lemma MoveConOk(s: List)
    ensures PollStep(s).con == MoveCon(s, Decide(s))
  {
    hide Decide, Rest;
    match Decide(s)
    case ToGoto(con) =>
    case ToForget(p, con) =>
    case ToSwap(to, con) =>
    case ToSkip(until) =>
    case ToTake =>
    case ToPush(p, con) =>
  }

  lemma DeqFlow(s: List)
    requires Dequeuing(s.con)
    ensures var c := PollStep(s).con; Dequeuing(c) || c.Holding? || c.GotNothing?
  {
    MoveConOk(s);
    hide PollStep;
  }

  lemma RestFlow(s: List)
    requires Resting(s.con)
    ensures Resting(PollStep(s).con)
  {
    MoveConOk(s);
    hide PollStep;
  }

  lemma PushFlow(s: List)
    requires PcOf(s, Poller).At? && !PcOf(s, Poller).Is(MustWake)
    ensures var s' := PushStep(s, Poller);
      s'.con == (if PcOf(s', Poller).At? then s.con else PollerDone(s.con))
  {
    var pc := PcOf(s, Poller);
    if pc.Is(LoadHead) || (pc.Is(Push) && s.head != pc.prev) {
      SawFlow(s, pc.n);
    } else if pc.Is(Link) {
      LinkFlow(s, pc.n, pc.prev);
    }
  }

  lemma PushFlowOrWake(s: List)
    requires PcOf(s, Poller).At?
    ensures PushStep(s, Poller).con == s.con || PushStep(s, Poller).con == PollerDone(s.con)
  {
    if !PcOf(s, Poller).Is(MustWake) { PushFlow(s); }
  }

  lemma SawFlow(s: List, n: Ptr)
    ensures var s' := Saw(s, Poller, n, s.head); s'.con == (if PcOf(s', Poller).At? then s.con else PollerDone(s.con))
  {
    if s.head != Closed {
      assert PcOf(Move(s, Poller, Push, n, s.head), Poller).At?;
    }
  }

  lemma LinkFlow(s: List, n: Ptr, prev: Ptr)
    ensures var s' := DoLink(s, Poller, n, prev); s'.con == PollerDone(s.con) && PcOf(s', Poller).Out?
  {
  }

  /** A node the polling thread is requeueing is in somebody's hands, and in the list once enqueue_node returns. */
  lemma RequeuePlace(s: List)
    requires Inv(s) && PcOf(s, Poller).At? && PcOf(s, Poller).n.Node? && !PcOf(s, Poller).Is(Reject)
    ensures Tracked(s, PcOf(s, Poller).n.id)
    ensures PcOf(PushStep(s, Poller), Poller).Out? ==> PcOf(s, Poller).n !in PushStep(s, Poller).owner
  {
    assert PcOk(s, Poller);
    if PcOf(s, Poller).Is(Link) {
      var k := PlaceOfLink(s, Poller);
      assert s.chain[k + 1] in s.chain;
      LinkFlow(s, PcOf(s, Poller).n, PcOf(s, Poller).prev);
    } else {
      PushKeepsPending(s, PcOf(s, Poller).n);
    }
  }

  lemma PushKeepsPending(s: List, n: Ptr)
    requires Pending(PcOf(s, Poller)) && PcOf(s, Poller).n == n && n.Node? && !PcOf(s, Poller).Is(Reject)
    ensures PcOf(PushStep(s, Poller), Poller).At?
  {
  }
}
