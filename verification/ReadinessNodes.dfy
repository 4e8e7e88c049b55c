/**
  Registrations, their reference counts, state words and token slots, on top of the readiness list.

  Threads run `set_readiness`, `update`, `Registration::drop`, `release_node` and handle clones; one polling
  thread runs `ReadinessQueue::poll`, `prepare_for_sleep` and the queue's own drop.  As in `ReadinessList`, one
  step is one access to shared memory.  The packed state word is a record of its fields: a compare-and-swap
  on the word compares all of them.

  `frees`, `holds`, `releases`, `retired`, `lockedBy`, `binder`, `mover` and the `token` of the polling thread are auxiliary.
*/
module ReadinessNodes {
  import L = ReadinessList

  /** A four-bit mask: readiness, interest or poll options. */
  datatype Flags = Flags(b0: bool, b1: bool, b2: bool, b3: bool)
  {
    function And(o: Flags): Flags { Flags(b0 && o.b0, b1 && o.b1, b2 && o.b2, b3 && o.b3) }
  }

  const NONE := Flags(false, false, false, false)
  type Pos = p: nat | p < 3
  type Slots = s: seq<int> | |s| == 3 witness [0, 0, 0]
  type Tid = L.Tid

  datatype Word = Word(readiness: Flags, interest: Flags, opt: Flags, rd: Pos, wr: Pos, queued: bool, dropped: bool)

  function Effective(w: Word): Flags { w.readiness.And(w.interest) }

  const ZeroWord := Word(NONE, NONE, NONE, 0, 0, false, false)

  datatype Node = Node(
    word: Word,
    slots: Slots,
    locked: bool,
    bound: bool,          // readiness_queue is not null
    refs: int,
    frees: nat,           // how often release_node freed it
    holds: bool,          // the queue still has its implicit handle
    releases: nat,        // how often the queue's implicit handle was released
    retired: bool,        // the right to push is gone for good
    lockedBy: Tid,
    binder: Tid)          // who bound the node and still has to count the queue's handle; Poller for nobody

  /** A `Registration` (reg) or `SetReadiness` handle; `moved` once its drop has begun, by thread `mover`. */
  datatype Handle = Handle(node: nat, reg: bool, moved: bool, mover: Tid)

  datatype Update = Update(token: int, interest: Flags, opt: Flags)

  datatype Stage =
    | SetLoad | SetSwap | SetQueue | SetPush
    | BindLoad | BindSwap | BindCount | Lock | UpdLoad | UpdRead | UpdWrite | UpdSwap | UnlockPush | Unlock | UpdPush
    | Flag | DropQueue | DropPush | Release

  datatype Op = Free | Doing(stage: Stage, h: nat, ready: Flags, u: Update, seen: Word, pos: Pos)
  {
    predicate At(st: Stage) { Doing? && stage == st }
  }

  datatype PollStage =
    | Resting             // outside ReadinessQueue::poll
    | Top                 // at the head of the poll loop
    | Dequeue | Load | Swap | DropNode | Requeue | Read
    | PushClosed | CloseDequeue | CloseLoad | CloseRelease | Gone

  datatype PollOp = PollOp(stage: PollStage, id: nat, until: set<L.Ptr>, seen: Word, pos: Pos, ready: Flags, token: int)

  datatype Report = Report(id: nat, ready: Flags, token: int)

  datatype State = State(
    l: L.List,
    nodes: map<nat, Node>,
    handles: map<nat, Handle>,
    ops: map<Tid, Op>,
    poll: PollOp,
    reports: seq<Report>)

  function OpOf(s: State, t: Tid): Op {
    if t in s.ops then s.ops[t] else Free
  }

  predicate InUpdate(st: Stage) {
    st == BindLoad || st == BindSwap || st == BindCount || st == Lock || HoldsLock(st) || st == UpdPush
  }

  predicate HoldsLock(st: Stage) {
    st == UpdLoad || st == UpdRead || st == UpdWrite || st == UpdSwap || st == UnlockPush || st == Unlock
  }

  predicate Owned(st: Stage) { st == Flag || st == DropQueue || st == DropPush || st == Release }

  predicate HoldsRight(st: Stage) { st == SetQueue || st == UnlockPush || st == DropQueue }

  predicate Pushes(st: Stage) { st == SetPush || st == UpdPush || st == DropPush }

  // ---------------------------------------------------------------------------------------------
  // Local computations
  // ---------------------------------------------------------------------------------------------

  /** `ReadinessState::next_token_pos` (lines 2776-2802). */
  function NextTokenPos(rd: Pos, wr: Pos): (p: Pos)
    ensures p != rd && p != wr
  {
    match wr
    case 0 => if rd == 1 then 2 else 1
    case 1 => if rd == 0 then 2 else if rd == 2 then 0 else 2
    case _ => if rd == 0 then 1 else 0
  }

  /** The word `set_readiness` tries to install (lines 1893-1908). */
  function SetNext(w: Word, ready: Flags): Word {
    var w1 := w.(readiness := ready);
    if Effective(w1) != NONE then w1.(queued := true) else w1
  }

  /** The word `update` tries to install (lines 2040-2067). */
  function UpdateNext(w: Word, u: Update, pos: Pos): Word {
    var w1 := w.(wr := pos, interest := u.interest, opt := u.opt);
    if Effective(w1) != NONE then w1.(queued := true) else w1
  }

  predicate Edge(w: Word) { w.opt.b0 }

  predicate Oneshot(w: Word) { w.opt.b2 }

  /** The word `poll` tries to install for a node that is not dropped (lines 2229-2246). */
  function PollNext(w: Word): Word {
    var w1 :=
      if Edge(w) then
        w.(queued := false, interest := if Oneshot(w) && Effective(w) != NONE then NONE else w.interest)
      else if Effective(w) == NONE then w.(queued := false)
      else w;
    w1.(rd := w.wr)
  }

  // ---------------------------------------------------------------------------------------------
  // Steps of ordinary threads
  // ---------------------------------------------------------------------------------------------

  function SetNode(s: State, id: nat, n: Node): State { s.(nodes := s.nodes[id := n]) }

  function SetOp(s: State, t: Tid, op: Op): State { s.(ops := s.ops[t := op]) }

  /** `release_node`: one handle less; the last one frees the node. */
  function Drop1(n: Node): Node {
    n.(refs := n.refs - 1, frees := if n.refs == 1 then n.frees + 1 else n.frees)
  }

  /** The queue's implicit handle is released and the node will never be pushed again. */
  function Retire(n: Node): Node {
    Drop1(n).(holds := false, releases := n.releases + 1, retired := true)
  }

  function BeginPush(s: State, t: Tid, id: nat, op: Op): State {
    SetOp(s.(l := L.Apply(s.l, L.BeginPush(t, id))), t, op)
  }

  function Acquire(l: L.List, t: Tid, id: nat): L.List { L.Apply(l, L.Acquire(t, id)) }

  function Abandon(l: L.List, id: nat): L.List { L.Apply(l, L.Abandon(id)) }

  /** Where a thread goes when its enqueue_node call returns. */
  function AfterPush(op: Op): Op
    requires op.Doing?
  {
    if op.stage == DropPush then op.(stage := Release) else Free
  }

  function Pushed(s: State, t: Tid, op: Op, id: nat, n: Node, l: L.List): State
    requires op.Doing?
  {
    SetOp(SetNode(s.(l := l), id, n), t, if L.PcOf(l, t).At? then op else AfterPush(op))
  }

  /** One access inside `enqueue_node`; a refused push releases the queue's handle. */
  function PushAccess(s: State, t: Tid, op: Op, id: nat, n: Node): State
    requires op.Doing?
  {
    Pushed(s, t, op, id, if L.PcOf(s.l, t).Is(L.Reject) then Retire(n) else n, L.Apply(s.l, L.PushAccess(t)))
  }

  function SetStep(s: State, t: Tid, op: Op, id: nat, n: Node): State
    requires op.Doing?
  {
    match op.stage
    case SetLoad =>
      SetOp(s, t, if n.word.dropped then Free else op.(stage := SetSwap, seen := n.word))
    case SetSwap =>
      if n.word != op.seen then
        SetOp(s, t, if n.word.dropped then Free else op.(seen := n.word))
      else
        var next := SetNext(n.word, op.ready);
        var s1 := SetNode(s, id, n.(word := next));
        if !n.word.queued && next.queued then SetOp(s1.(l := Acquire(s.l, t, id)), t, op.(stage := SetQueue))
        else SetOp(s1, t, Free)
    case SetQueue =>
      if n.bound then BeginPush(SetNode(s, id, n), t, id, op.(stage := SetPush))
      else SetOp(SetNode(s.(l := Abandon(s.l, id)), id, n.(retired := true)), t, Free)
    case _ => PushAccess(s, t, op, id, n)
  }

  function BindStep(s: State, t: Tid, op: Op, id: nat, n: Node): State
    requires op.Doing?
  {
    match op.stage
    case BindLoad => SetOp(s, t, op.(stage := if n.bound then Lock else BindSwap))
    case BindSwap =>
      if n.bound then SetOp(s, t, op.(stage := Lock))
      else SetOp(SetNode(s, id, n.(bound := true, holds := true, binder := t)), t, op.(stage := BindCount))
    case BindCount => SetOp(SetNode(s, id, n.(refs := n.refs + 1, binder := L.Poller)), t, op.(stage := Lock))
    case _ =>
      if n.locked then SetOp(s, t, Free)
      else SetOp(SetNode(s, id, n.(locked := true, lockedBy := t)), t, op.(stage := UpdLoad))
  }

  function UpdateStep(s: State, t: Tid, op: Op, id: nat, n: Node): State
    requires op.Doing?
  {
    match op.stage
    case UpdLoad => SetOp(s, t, op.(stage := UpdRead, seen := n.word))
    case UpdRead =>
      if op.u.token == n.slots[op.seen.wr] then SetOp(s, t, op.(stage := UpdSwap, pos := op.seen.wr))
      else SetOp(s, t, op.(stage := UpdWrite, pos := NextTokenPos(op.seen.rd, op.seen.wr)))
    case UpdWrite => SetOp(SetNode(s, id, n.(slots := n.slots[op.pos := op.u.token])), t, op.(stage := UpdSwap))
    case UpdSwap =>
      if n.word != op.seen then SetOp(s, t, op.(seen := n.word))
      else
        var next := UpdateNext(n.word, op.u, op.pos);
        var s1 := SetNode(s, id, n.(word := next));
        if !n.word.queued && next.queued then SetOp(s1.(l := Acquire(s.l, t, id)), t, op.(stage := UnlockPush))
        else SetOp(s1, t, op.(stage := Unlock))
    case UnlockPush => BeginPush(SetNode(s, id, n.(locked := false)), t, id, op.(stage := UpdPush))
    case Unlock => SetOp(SetNode(s, id, n.(locked := false)), t, Free)
    case _ => PushAccess(s, t, op, id, n)
  }

  function DropStep(s: State, t: Tid, op: Op, id: nat, n: Node): State
    requires op.Doing?
  {
    match op.stage
    case Flag =>
      var s1 := SetNode(s, id, n.(word := n.word.(dropped := true, queued := true)));
      if n.word.queued then SetOp(s1, t, op.(stage := Release))
      else SetOp(s1.(l := Acquire(s.l, t, id)), t, op.(stage := DropQueue))
    case DropQueue =>
      if n.bound then BeginPush(SetNode(s, id, n), t, id, op.(stage := DropPush))
      else SetOp(SetNode(s.(l := Abandon(s.l, id)), id, n.(retired := true)), t, op.(stage := Release))
    case Release => SetOp(SetNode(s.(handles := s.handles - {op.h}), id, Drop1(n)), t, Free)
    case _ => PushAccess(s, t, op, id, n)
  }

  function ThreadStep(s: State, t: Tid): State {
    var op := OpOf(s, t);
    if op.Free? || op.h !in s.handles || s.handles[op.h].node !in s.nodes then s
    else
      var id := s.handles[op.h].node;
      var n := s.nodes[id];
      if op.stage == SetLoad || op.stage == SetSwap || op.stage == SetQueue || op.stage == SetPush then SetStep(s, t, op, id, n)
      else if Owned(op.stage) then DropStep(s, t, op, id, n)
      else if HoldsLock(op.stage) || op.stage == UpdPush then UpdateStep(s, t, op, id, n)
      else BindStep(s, t, op, id, n)
  }

  // ---------------------------------------------------------------------------------------------
  // Steps of the polling thread
  // ---------------------------------------------------------------------------------------------

  /** One access inside an operation of the list, by the polling thread. */
  function ListAccess(l: L.List): L.List {
    L.Apply(l, if L.PcOf(l, L.Poller).At? then L.PushAccess(L.Poller) else L.PollAccess)
  }

  function Goto(s: State, stage: PollStage): State { s.(poll := s.poll.(stage := stage)) }

  /** After the state word was seen to be `w` and `next` is in place: requeue or give the node up, then report. */
  function Act(s: State, w: Word, next: Word, slots: Slots): State {
    var p := s.poll.(pos := next.rd, ready := Effective(w), token := slots[next.rd]);
    if next.queued then
      s.(l := L.Apply(s.l, L.BeginRequeue),
         poll := p.(stage := Requeue, until := if p.until == {} then {L.Node(p.id)} else p.until))
    else
      s.(l := L.Apply(s.l, L.ReleaseHeld), poll := p.(stage := if p.ready != NONE then Read else Top))
  }

  /** The local decision of the poll loop for a word it has just read. */
  function SawWord(s: State, w: Word, slots: Slots): State {
    if w.dropped then Goto(s, DropNode)
    else if PollNext(w) == w then Act(s, w, w, slots)
    else s.(poll := s.poll.(stage := Swap, seen := w))
  }

  function PollerStep(s: State): State {
    var p := s.poll;
    match p.stage
    case Dequeue =>
      var l := ListAccess(s.l);
      if l.con.Holding? then s.(l := l, poll := p.(stage := Load, id := l.con.id))
      else if l.con.GotNothing? then s.(l := L.Apply(l, L.ReleaseHeld), poll := p.(stage := Resting))
      else s.(l := l)
    case Load => if p.id !in s.nodes then s else SawWord(s, s.nodes[p.id].word, s.nodes[p.id].slots)
    case Swap =>
      if p.id !in s.nodes then s
      else
        var n := s.nodes[p.id];
        if n.word == p.seen then Act(SetNode(s, p.id, n.(word := PollNext(n.word))), n.word, PollNext(n.word), n.slots)
        else SawWord(s, n.word, n.slots)
    case DropNode =>
      if p.id !in s.nodes then s
      else Goto(SetNode(s.(l := L.Apply(s.l, L.ReleaseHeld)), p.id, Retire(s.nodes[p.id])), Top)
    case Requeue =>
      var l := ListAccess(s.l);
      s.(l := l, poll := if l.con.Idle? then p.(stage := if p.ready != NONE then Read else Top) else p)
    case Read =>
      if p.id !in s.nodes then s
      else Goto(s.(reports := s.reports + [Report(p.id, p.ready, s.nodes[p.id].slots[p.pos])]), Top)
    case PushClosed =>
      var l := ListAccess(s.l);
      if l.con.Idle? then Goto(s.(l := L.Apply(l, L.BeginDeq({}))), CloseDequeue) else s.(l := l)
    case CloseDequeue =>
      var l := ListAccess(s.l);
      if l.con.Holding? then s.(l := l, poll := p.(stage := CloseLoad, id := l.con.id))
      else if l.con.GotNothing? then
        if l.con.inconsistent then s.(l := L.Apply(l, L.BeginDeq({})))
        else Goto(s.(l := L.Apply(l, L.ReleaseHeld)), Gone)
      else s.(l := l)
    case CloseLoad => Goto(s, CloseRelease)
    case CloseRelease =>
      if p.id !in s.nodes then s
      else Goto(SetNode(s.(l := L.Apply(L.Apply(s.l, L.ReleaseHeld), L.BeginDeq({}))), p.id, Retire(s.nodes[p.id])), CloseDequeue)
    case _ => s
  }

  // ---------------------------------------------------------------------------------------------
  // Actions
  // ---------------------------------------------------------------------------------------------

  datatype Action =
    | NewUnbound(id: nat, h1: nat, h2: nat)                              // Registration::new2
    | NewBound(id: nat, h1: nat, h2: nat, u: Update)                     // Registration::new
    | CloneHandle(h: nat, h1: nat)
    | CallSet(t: Tid, h: nat, ready: Flags)
    | CallUpdate(t: Tid, h: nat, u: Update)
    | CallDrop(t: Tid, h: nat)
    | Step(t: Tid)
    | RestStep(a: L.Action)                                              // prepare_for_sleep, select, clear_sleep_marker
    | StartPoll
    | NextNode                                                           // the poll loop goes round
    | EventsFull                                                         // the poll loop ends at capacity
    | PollStep
    | DropQueueCall

  predicate Idle(s: State, t: Tid) { t != L.Poller && OpOf(s, t).Free? && L.PcOf(s.l, t).Out? }

  ghost predicate Unused(s: State, h: nat) {
    forall t :: OpOf(s, t).Doing? ==> OpOf(s, t).h != h
  }

  ghost predicate Enabled(s: State, a: Action) {
    match a
    case NewUnbound(id, h1, h2) => id !in s.nodes && h1 !in s.handles && h2 !in s.handles && h1 != h2
    case NewBound(id, h1, h2, _) =>
      id !in s.nodes && h1 !in s.handles && h2 !in s.handles && h1 != h2 && !s.l.closing
    case CloneHandle(h, h1) => h in s.handles && h1 !in s.handles && !s.handles[h].reg && !s.handles[h].moved
    case CallSet(t, h, _) => Idle(s, t) && h in s.handles && !s.handles[h].reg && !s.handles[h].moved
    case CallUpdate(t, h, _) => Idle(s, t) && h in s.handles && s.handles[h].reg && !s.handles[h].moved && !s.l.closing
    // dropping a handle takes it by value: nobody is using it, nobody else is dropping it
    case CallDrop(t, h) => Idle(s, t) && h in s.handles && !s.handles[h].moved && Unused(s, h)
    case Step(t) => OpOf(s, t).Doing?
    case RestStep(a) =>
      && s.poll.stage == Resting && L.Enabled(s.l, a)
      && (a.BeginSleep? || a.PollAccess? || a.SelectReturns? || a.BeginClear?)
    case StartPoll => s.poll.stage == Resting && s.l.con.Idle? && !s.l.closing
    case NextNode => s.poll.stage == Top
    case EventsFull => s.poll.stage == Top
    case PollStep => s.poll.stage != Resting && s.poll.stage != Top && s.poll.stage != Gone
    // dropping the queue takes it by value: no registration call is borrowing it
    case DropQueueCall =>
      && s.poll.stage == Resting && s.l.con.Idle? && !s.l.closing
      && forall t :: OpOf(s, t).Doing? ==> !InUpdate(OpOf(s, t).stage)
  }

  function NewNode(s: State, id: nat, h1: nat, h2: nat, n: Node): State {
    s.(nodes := s.nodes[id := n],
       handles := s.handles[h1 := Handle(id, true, false, L.Poller)][h2 := Handle(id, false, false, L.Poller)])
  }

  const NoUpdate := Update(0, NONE, NONE)

  function Cloned(s: State, h: nat, h1: nat): State {
    if h !in s.handles || s.handles[h].node !in s.nodes then s
    else
      var id := s.handles[h].node;
      SetNode(s.(handles := s.handles[h1 := Handle(id, false, false, L.Poller)]), id, s.nodes[id].(refs := s.nodes[id].refs + 1))
  }

  function Start(stage: Stage, h: nat, ready: Flags, u: Update): Op { Doing(stage, h, ready, u, ZeroWord, 0) }

  function DropStarted(s: State, t: Tid, h: nat): State {
    if h !in s.handles then s
    else SetOp(s.(handles := s.handles[h := s.handles[h].(moved := true, mover := t)]), t,
               Start(if s.handles[h].reg then Flag else Release, h, NONE, NoUpdate))
  }

  function Unregistered(): Node {
    Node(ZeroWord, [0, 0, 0], false, false, 2, 0, false, 0, false, L.Poller, L.Poller)
  }

  function Registered(u: Update): Node {
    Node(ZeroWord.(interest := u.interest, opt := u.opt), [u.token, 0, 0], false, true, 3, 0, true, 0, false, L.Poller, L.Poller)
  }

  function Apply(s: State, a: Action): State {
    match a
    case NewUnbound(id, h1, h2) => NewNode(s, id, h1, h2, Unregistered())
    case NewBound(id, h1, h2, u) => NewNode(s, id, h1, h2, Registered(u))
    case CloneHandle(h, h1) => Cloned(s, h, h1)
    case CallSet(t, h, ready) => SetOp(s, t, Start(SetLoad, h, ready, NoUpdate))
    case CallUpdate(t, h, u) => SetOp(s, t, Start(BindLoad, h, NONE, u))
    case CallDrop(t, h) => DropStarted(s, t, h)
    case Step(t) => ThreadStep(s, t)
    case RestStep(a) => s.(l := L.Apply(s.l, a))
    case StartPoll => s.(l := L.Apply(s.l, L.BeginDeq({})), poll := s.poll.(stage := Dequeue, until := {}))
    case NextNode => Goto(s.(l := L.Apply(s.l, L.BeginDeq(s.poll.until))), Dequeue)
    case EventsFull => Goto(s, Resting)
    case PollStep => PollerStep(s)
    case DropQueueCall => Goto(s.(l := L.Apply(s.l, L.BeginClose)), PushClosed)
  }

  const Initial := State(L.Initial, map[], map[], map[], PollOp(Resting, 0, {}, ZeroWord, 0, NONE, 0), [])

  // ---------------------------------------------------------------------------------------------
  // Invariant
  // ---------------------------------------------------------------------------------------------

  function HandlesOf(hs: map<nat, Handle>, id: nat): set<nat> {
    set h | h in hs && hs[h].node == id
  }

  predicate OnNode(s: State, t: Tid, id: nat) {
    OpOf(s, t).Doing? && OpOf(s, t).h in s.handles && s.handles[OpOf(s, t).h].node == id
  }

  ghost predicate NodeOk(s: State, id: nat)
    requires id in s.nodes
  {
    var n := s.nodes[id];
    // QUEUED is set exactly when one right to push the node exists or the node is retired
    && (n.word.queued <==> L.Tracked(s.l, id) || n.retired)
    && !(L.Tracked(s.l, id) && n.retired)
    && (n.retired ==> n.word.dropped || s.l.closing)
    // the reference count
    && n.refs == |HandlesOf(s.handles, id)| + (if n.holds then 1 else 0) - (if n.binder != L.Poller then 1 else 0)
    && n.frees == (if n.refs == 0 then 1 else 0)
    && n.releases == (if n.bound && !n.holds then 1 else 0)
    && (n.holds ==> n.bound)
    && (n.bound && !n.holds ==> n.retired)
    && (n.holds ==> !n.retired)
    && (L.Node(id) in s.l.chain ==> n.holds)
    && (!n.bound ==> n.word.interest == NONE)
    && (n.binder != L.Poller ==> n.holds && OnNode(s, n.binder, id) && OpOf(s, n.binder).stage == BindCount)
  }

  ghost predicate HandleOk(s: State, h: nat)
    requires h in s.handles
  {
    var hd := s.handles[h];
    && hd.node in s.nodes
    && (hd.reg && !hd.moved ==> !s.nodes[hd.node].word.dropped)
    && (hd.moved ==> OpOf(s, hd.mover).Doing? && OpOf(s, hd.mover).h == h && Owned(OpOf(s, hd.mover).stage))
  }

  ghost predicate OneRegistration(s: State) {
    forall h1, h2 | h1 in s.handles && h2 in s.handles ::
      s.handles[h1].reg && s.handles[h2].reg && s.handles[h1].node == s.handles[h2].node ==> h1 == h2
  }

  /** What a thread at a given place may rely on, about its node. */
  ghost predicate PlaceOk(op: Op, t: Tid, n: Node, closing: bool)
    requires op.Doing?
  {
    var st := op.stage;
    && (st == SetSwap ==> !op.seen.dropped)
    && (st == Flag ==> !n.word.dropped)
    && (st == DropQueue ==> n.word.dropped)
    && (InUpdate(st) ==> !closing)
    && (HoldsLock(st) ==> n.bound && n.locked && n.lockedBy == t)
    && (st == Lock || st == UpdPush || st == SetQueue ==> n.bound)
    && (st == BindCount ==> n.bound && n.binder == t)
    && (st == UpdRead || st == UpdWrite || st == UpdSwap ==> op.seen.wr == n.word.wr)
    && (st == UpdWrite ==> op.pos != n.word.wr && op.pos != n.word.rd)
    && (st == UpdSwap ==> n.slots[op.pos] == op.u.token && (op.pos == n.word.wr || op.pos != n.word.rd))
    && (st == UpdRead ==> op.seen.rd == n.word.rd || n.word.rd == n.word.wr)
  }

  ghost predicate OpOk(s: State, t: Tid) {
    var op := OpOf(s, t);
    if op.Free? then t == L.Poller || L.PcOf(s.l, t).Out?
    else
      && t != L.Poller
      && op.h in s.handles
      && var hd := s.handles[op.h];
      && hd.node in s.nodes
      && (Owned(op.stage) <==> hd.moved)
      && (hd.moved ==> hd.mover == t)
      && (InUpdate(op.stage) || op.stage == Flag || op.stage == DropQueue || op.stage == DropPush ==> hd.reg)
      && PlaceOk(op, t, s.nodes[hd.node], s.l.closing)
      && (hd.reg && Owned(op.stage) && op.stage != Flag ==> s.nodes[hd.node].word.dropped)
      && (Pushes(op.stage) <==> L.PcOf(s.l, t).At?)
      && (Pushes(op.stage) ==> L.PcOf(s.l, t).n == L.Node(hd.node))
      && (HoldsRight(op.stage) ==> L.Node(hd.node) in s.l.owner && s.l.owner[L.Node(hd.node)] == t)
  }

  /** Whoever holds the right to push a node is where the code would put it. */
  ghost predicate RightOk(s: State, id: nat)
    requires L.Node(id) in s.l.owner && id in s.nodes
  {
    var t := s.l.owner[L.Node(id)];
    if t == L.Poller then s.poll.id == id && HasNode(s.poll.stage) && s.nodes[id].holds
    else
      && OnNode(s, t, id)
      && (HoldsRight(OpOf(s, t).stage) || (Pushes(OpOf(s, t).stage) && L.Pending(L.PcOf(s.l, t))))
      && (s.nodes[id].holds || OpOf(s, t).stage == DropQueue)
  }

  predicate HasNode(st: PollStage) {
    st == Load || st == Swap || st == DropNode || st == Requeue || st == CloseLoad || st == CloseRelease
  }

  predicate Polling(st: PollStage) {
    st == Top || st == Dequeue || st == Load || st == Swap || st == DropNode || st == Requeue || st == Read
  }

  ghost predicate PollOk(s: State) {
    var p, con := s.poll, s.l.con;
    && (HasNode(p.stage) || p.stage == Read ==> p.id in s.nodes)
    && (HasNode(p.stage) && p.stage != Requeue ==> con == L.Holding(p.id))
    && (Polling(p.stage) ==> !s.l.closing)
    && (!Polling(p.stage) && p.stage != Resting ==> s.l.closing)
    && (p.stage == DropNode ==> s.nodes[p.id].word.dropped)
    && (p.stage == Swap ==> !p.seen.dropped && p.seen.queued)
    && (p.stage == Read ==> s.nodes[p.id].holds)
    // the slot to be read is the one the word points to, and holds the token acted on
    && (p.stage == Read || p.stage == Requeue ==> s.nodes[p.id].word.rd == p.pos && s.nodes[p.id].slots[p.pos] == p.token)
    && match p.stage
       case Resting => L.Resting(con)
       case Dequeue => L.Dequeuing(con)
       case CloseDequeue => L.Dequeuing(con)
       case Requeue => con == L.Requeue(p.id)
       case PushClosed => con == L.Closing
       case Top => con.Idle?
       case Read => con.Idle?
       case Gone => con.Idle?
       case _ => true
  }

  ghost predicate Inv(s: State) {
    && L.Inv(s.l)
    && (forall id :: L.Tracked(s.l, id) ==> id in s.nodes)
    && (forall id {:trigger NodeOk(s, id)} :: id in s.nodes ==> NodeOk(s, id))
    && (forall id {:trigger RightOk(s, id)} :: L.Node(id) in s.l.owner && id in s.nodes ==> RightOk(s, id))
    && (forall h {:trigger HandleOk(s, h)} :: h in s.handles ==> HandleOk(s, h))
    && OneRegistration(s)
    && (forall t :: OpOk(s, t))
    && PollOk(s)
  }

  // ---------------------------------------------------------------------------------------------
  // Steps of ordinary threads keep the invariant
  // ---------------------------------------------------------------------------------------------

  /** What a step of thread t may do to a node, as far as everybody else is concerned. */
  ghost predicate Evolves(n: Node, n': Node, t: Tid) {
    && (n.bound ==> n'.bound)
    && (n.binder != L.Poller && n.binder != t ==> n'.binder == n.binder)
    && (n.locked && n.lockedBy != t ==> n'.locked && n'.lockedBy == n.lockedBy && n'.word.wr == n.word.wr && n'.slots == n.slots)
    && (n'.word.rd == n.word.rd || n'.word.rd == n.word.wr)
    && (n.word.dropped ==> n'.word.dropped)
  }

  lemma EvolvesPlace(op: Op, u: Tid, n: Node, n': Node, t: Tid, closing: bool)
    requires op.Doing? && u != t && u != L.Poller && PlaceOk(op, u, n, closing) && Evolves(n, n', t)
    requires op.stage == Flag ==> !n'.word.dropped
    ensures PlaceOk(op, u, n', closing)
  {
  }

  /** The step's effect on the list, as far as everybody else is concerned. */
  ghost predicate ListStep(l: L.List, l': L.List, t: Tid, id: nat) {
    && L.Inv(l')
    && l'.closing == l.closing && l'.con == l.con
    && (forall u :: u != t ==> L.PcOf(l', u) == L.PcOf(l, u))
    && (forall p :: p in l.owner && p != L.Node(id) ==> p in l'.owner && l'.owner[p] == l.owner[p])
    && (forall p :: p in l'.owner && p != L.Node(id) ==> p in l.owner)
    && (forall j :: j != id ==> (L.Node(j) in l'.chain <==> L.Node(j) in l.chain))
    && (L.Node(id) in l.owner && l.owner[L.Node(id)] != t ==> L.Node(id) in l'.owner && l'.owner[L.Node(id)] == l.owner[L.Node(id)])
  }

  /** The frame of a thread's step on its own node. */
  ghost predicate ThreadFrame(s: State, s': State, t: Tid, id: nat) {
    && OnNode(s, t, id) && id in s.nodes && id in s'.nodes
    && s' == s.(l := s'.l, nodes := s.nodes[id := s'.nodes[id]], ops := s'.ops)
    && (forall u :: u != t ==> OpOf(s', u) == OpOf(s, u))
    && ListStep(s.l, s'.l, t, id)
    && var n, n' := s.nodes[id], s'.nodes[id];
    && Evolves(n, n', t)
    && n'.word.rd == n.word.rd && n'.slots[n.word.rd] == n.slots[n.word.rd]
    && (n'.word.dropped && !n.word.dropped ==> OpOf(s, t).stage == Flag)
    && (n.holds && !n'.holds ==> s.l.closing && L.Node(id) !in s'.l.owner)
  }

  lemma OtherOp(s: State, s': State, t: Tid, id: nat, u: Tid)
    requires Inv(s) && ThreadFrame(s, s', t, id) && u != t
    ensures OpOk(s', u)
  {
    assert OpOk(s, u) && OpOk(s, t);
    var op := OpOf(s, u);
    if op.Doing? && s.handles[op.h].node == id {
      EvolvesPlace(op, u, s.nodes[id], s'.nodes[id], t, s.l.closing);
    }
  }

  lemma OtherNode(s: State, s': State, t: Tid, id: nat, j: nat)
    requires Inv(s) && ThreadFrame(s, s', t, id) && j != id && j in s.nodes
    ensures NodeOk(s', j)
  {
    assert NodeOk(s, j);
    assert L.Tracked(s'.l, j) <==> L.Tracked(s.l, j);
  }

  lemma OtherRight(s: State, s': State, t: Tid, id: nat, j: nat)
    requires Inv(s) && ThreadFrame(s, s', t, id) && j != id && j in s.nodes && L.Node(j) in s'.l.owner
    ensures RightOk(s', j)
  {
    assert L.Node(j) in s.l.owner;
    assert RightOk(s, j);
  }

  lemma OtherHandle(s: State, s': State, t: Tid, id: nat, h: nat)
    requires Inv(s) && ThreadFrame(s, s', t, id) && h in s.handles && OpOk(s', t)
    requires h == OpOf(s, t).h ==> OpOf(s', t).Doing? == OpOf(s, t).Doing? || !s.handles[h].moved
    requires OpOf(s', t).Doing? ==> OpOf(s', t).h == OpOf(s, t).h
    ensures HandleOk(s', h)
  {
    assert HandleOk(s, h) && OpOk(s, t);
  }

  lemma PollFrame(s: State, s': State, t: Tid, id: nat)
    requires Inv(s) && ThreadFrame(s, s', t, id)
    ensures PollOk(s')
  {
  }

  lemma ThreadKeeps(s: State, s': State, t: Tid, id: nat)
    requires Inv(s) && ThreadFrame(s, s', t, id) && OpOk(s', t) && NodeOk(s', id)
    requires L.Node(id) in s'.l.owner ==> RightOk(s', id)
    requires s.handles[OpOf(s, t).h].moved ==> OpOf(s', t).Doing?
    requires OpOf(s', t).Doing? ==> OpOf(s', t).h == OpOf(s, t).h
    ensures Inv(s')
  {
    hide L.Inv, NodeOk, RightOk, HandleOk, OpOk, PollOk, PlaceOk, Evolves;
    forall j | j in s'.nodes ensures NodeOk(s', j) {
      if j != id { OtherNode(s, s', t, id, j); }
    }
    forall j | L.Node(j) in s'.l.owner && j in s'.nodes ensures RightOk(s', j) {
      if j != id { OtherRight(s, s', t, id, j); }
    }
    forall h | h in s'.handles ensures HandleOk(s', h) { OtherHandle(s, s', t, id, h); }
    forall u ensures OpOk(s', u) {
      if u != t { OtherOp(s, s', t, id, u); }
    }
    PollFrame(s, s', t, id);
    forall j | L.Tracked(s'.l, j) ensures j in s'.nodes {
      if j != id { assert L.Tracked(s.l, j); }
    }
  }

  lemma SameList(s: State, t: Tid, id: nat)
    requires L.Inv(s.l)
    ensures ListStep(s.l, s.l, t, id)
  {
  }

  /** The thread moves on without touching its node. */
  lemma MoveKeeps(s: State, t: Tid, op': Op)
    requires Inv(s) && OpOf(s, t).Doing? && OpOk(SetOp(s, t, op'), t)
    requires op'.Doing? ==> op'.h == OpOf(s, t).h
    requires op'.Free? ==> !Owned(OpOf(s, t).stage)
    requires OpOf(s, t).stage != BindCount && !HoldsRight(OpOf(s, t).stage) && !Pushes(OpOf(s, t).stage)
    ensures Inv(SetOp(s, t, op'))
  {
    hide L.Inv, ThreadFrame, NodeOk, RightOk, HandleOk;
    assert OpOk(s, t);
    var id := s.handles[OpOf(s, t).h].node;
    MoveFrame(s, t, op', id);
    MoveNode(s, t, op', id);
    ThreadKeeps(s, SetOp(s, t, op'), t, id);
  }

  lemma MoveNode(s: State, t: Tid, op': Op, id: nat)
    requires Inv(s) && OpOf(s, t).Doing? && OpOk(s, t) && id == s.handles[OpOf(s, t).h].node
    requires op'.Doing? ==> op'.h == OpOf(s, t).h
    requires OpOf(s, t).stage != BindCount && !HoldsRight(OpOf(s, t).stage) && !Pushes(OpOf(s, t).stage)
    ensures NodeOk(SetOp(s, t, op'), id) && (L.Node(id) in s.l.owner ==> RightOk(SetOp(s, t, op'), id))
  {
    hide L.Inv;
    assert NodeOk(s, id);
    if L.Node(id) in s.l.owner { assert RightOk(s, id); }
  }

  lemma MoveFrame(s: State, t: Tid, op': Op, id: nat)
    requires Inv(s) && OpOf(s, t).Doing? && OpOk(s, t) && id == s.handles[OpOf(s, t).h].node
    requires op'.Doing? ==> op'.h == OpOf(s, t).h
    requires op'.Free? ==> !Owned(OpOf(s, t).stage)
    requires OpOf(s, t).stage != BindCount && !HoldsRight(OpOf(s, t).stage) && !Pushes(OpOf(s, t).stage)
    ensures ThreadFrame(s, SetOp(s, t, op'), t, id)
  {
    hide L.Inv;
    SameList(s, t, id);
    assert HandleOk(s, OpOf(s, t).h) && NodeOk(s, id);
    assert SetOp(s, t, op').nodes == s.nodes[id := s.nodes[id]];
  }

  /** A change of the node that takes nothing away from the others. */
  ghost predicate Mild(n: Node, n': Node, t: Tid, op: Op) {
    && op.Doing?
    && Evolves(n, n', t) && n'.word.rd == n.word.rd && n'.slots[n.word.rd] == n.slots[n.word.rd]
    && (n'.word.dropped && !n.word.dropped ==> op.stage == Flag)
    && (n.holds ==> n'.holds)
  }

  lemma MildFrame(s: State, t: Tid, id: nat, n': Node, op': Op)
    requires Inv(s) && OnNode(s, t, id) && id in s.nodes && Mild(s.nodes[id], n', t, OpOf(s, t))
    ensures ThreadFrame(s, SetOp(SetNode(s, id, n'), t, op'), t, id)
  {
    SameList(s, t, id);
  }

  /** The thread changes its node, but neither the list nor any right. */
  lemma NodeKeeps(s: State, t: Tid, id: nat, n': Node, op': Op)
    requires Inv(s) && OnNode(s, t, id) && OpOk(s, t)
    requires OpOk(SetOp(SetNode(s, id, n'), t, op'), t) && NodeOk(SetOp(SetNode(s, id, n'), t, op'), id)
    requires Mild(s.nodes[id], n', t, OpOf(s, t))
    requires op'.Doing? ==> op'.h == OpOf(s, t).h
    requires op'.Free? ==> !Owned(OpOf(s, t).stage)
    requires !HoldsRight(OpOf(s, t).stage) && !Pushes(OpOf(s, t).stage)
    ensures Inv(SetOp(SetNode(s, id, n'), t, op'))
  {
    var s' := SetOp(SetNode(s, id, n'), t, op');
    MildFrame(s, t, id, n', op');
    if L.Node(id) in s.l.owner { NodeRight(s, t, id, n', op'); }
    ThreadKeeps(s, s', t, id);
  }

  lemma NodeRight(s: State, t: Tid, id: nat, n': Node, op': Op)
    requires OnNode(s, t, id) && id in s.nodes && L.Node(id) in s.l.owner && RightOk(s, id) && Mild(s.nodes[id], n', t, OpOf(s, t))
    requires !HoldsRight(OpOf(s, t).stage) && !Pushes(OpOf(s, t).stage)
    ensures RightOk(SetOp(SetNode(s, id, n'), t, op'), id)
  {
  }

  lemma AcquireList(s: State, t: Tid, id: nat)
    requires L.Inv(s.l) && t != L.Poller && !L.Tracked(s.l, id)
    ensures ListStep(s.l, Acquire(s.l, t, id), t, id)
    ensures var l' := Acquire(s.l, t, id);
      && l'.pc == s.l.pc && l'.chain == s.l.chain && L.Tracked(l', id) && l'.owner[L.Node(id)] == t
  {
    L.ApplyKeeps(s.l, L.Acquire(t, id));
  }

  /** The thread's word change sets QUEUED: it is now the one to push the node. */
  ghost predicate Wins(s: State, t: Tid, n': Node, op': Op) {
    && OpOf(s, t).Doing? && OpOk(s, t)
    && op'.Doing? && op'.h == OpOf(s, t).h && HoldsRight(op'.stage)
    && Owned(OpOf(s, t).stage) == Owned(op'.stage)
    && !HoldsRight(OpOf(s, t).stage) && !Pushes(OpOf(s, t).stage) && OpOf(s, t).stage != BindCount
    && (InUpdate(op'.stage) || op'.stage == DropQueue ==> s.handles[op'.h].reg)
    && var n := s.nodes[s.handles[op'.h].node];
    && !n.word.queued
    && n'.word.queued && n'.(word := n.word) == n
    && Evolves(n, n', t) && n'.word.rd == n.word.rd
    && (n'.word.dropped && !n.word.dropped ==> OpOf(s, t).stage == Flag)
    && (!n.bound ==> n'.word.interest == NONE)
    && (n.bound || op'.stage == DropQueue)
    && PlaceOk(op', t, n', s.l.closing)
  }

  function Won(s: State, t: Tid, id: nat, n': Node, op': Op): State {
    SetOp(SetNode(s, id, n').(l := Acquire(s.l, t, id)), t, op')
  }

  lemma WonNodeOk(s: State, t: Tid, id: nat, n': Node, op': Op)
    requires Wins(s, t, n', op') && id == s.handles[op'.h].node && NodeOk(s, id) && L.Inv(s.l)
    ensures NodeOk(Won(s, t, id, n', op'), id) && RightOk(Won(s, t, id, n', op'), id)
    ensures ListStep(s.l, Acquire(s.l, t, id), t, id)
  {
    AcquireList(s, t, id);
  }

  lemma WonOpOk(s: State, t: Tid, id: nat, n': Node, op': Op)
    requires Wins(s, t, n', op') && id == s.handles[op'.h].node && NodeOk(s, id)
    ensures OpOk(Won(s, t, id, n', op'), t)
  {
    var l' := Acquire(s.l, t, id);
    assert L.PcOf(l', t) == L.PcOf(s.l, t);
  }

  /** The thread wins the QUEUED bit and with it the right to push. */
  lemma AcquireKeeps(s: State, t: Tid, id: nat, n': Node, op': Op)
    requires Inv(s) && Wins(s, t, n', op') && id == s.handles[op'.h].node
    ensures Inv(Won(s, t, id, n', op'))
  {
    var s' := Won(s, t, id, n', op');
    assert HandleOk(s, op'.h) && NodeOk(s, id);
    WonNodeOk(s, t, id, n', op');
    WonOpOk(s, t, id, n', op');
    assert ThreadFrame(s, s', t, id);
    ThreadKeeps(s, s', t, id);
  }

  /** A right is given up because the node was never bound to a queue. */
  ghost predicate Unbound(s: State, t: Tid, id: nat) {
    OnNode(s, t, id) && id in s.nodes && OpOf(s, t).At(DropQueue) && OpOk(s, t) && !s.nodes[id].bound
  }

  function Abandoned(s: State, t: Tid, id: nat, n': Node, op': Op): State {
    SetOp(SetNode(s.(l := Abandon(s.l, id)), id, n'), t, op')
  }

  lemma AbandonKeeps(s: State, t: Tid, id: nat)
    requires Inv(s) && Unbound(s, t, id)
    ensures Inv(Abandoned(s, t, id, s.nodes[id].(retired := true), OpOf(s, t).(stage := Release)))
  {
    var n', op' := s.nodes[id].(retired := true), OpOf(s, t).(stage := Release);
    var s' := Abandoned(s, t, id, n', op');
    AbandonList(s.l, t, id);
    AbandonOk(s, t, id, n', op');
    AbandonFrame(s, t, id, n', op');
    ThreadKeeps(s, s', t, id);
  }

  lemma AbandonFrame(s: State, t: Tid, id: nat, n': Node, op': Op)
    requires Inv(s) && Unbound(s, t, id) && n' == s.nodes[id].(retired := true)
    ensures ThreadFrame(s, Abandoned(s, t, id, n', op'), t, id)
  {
    AbandonList(s.l, t, id);
  }

  lemma AbandonList(l: L.List, t: Tid, id: nat)
    requires L.Inv(l) && t != L.Poller && L.Node(id) in l.owner && l.owner[L.Node(id)] == t && L.PcOf(l, t).Out?
    ensures ListStep(l, Abandon(l, id), t, id)
  {
    L.ApplyKeeps(l, L.Abandon(id));
  }

  lemma AbandonOk(s: State, t: Tid, id: nat, n': Node, op': Op)
    requires Unbound(s, t, id) && NodeOk(s, id) && n' == s.nodes[id].(retired := true) && op' == OpOf(s, t).(stage := Release)
    ensures var s' := Abandoned(s, t, id, n', op');
      NodeOk(s', id) && OpOk(s', t) && L.Node(id) !in s'.l.owner
  {
    AbandonOp(s, t, id, n', op');
    hide OpOk, PlaceOk;
  }

  lemma AbandonOp(s: State, t: Tid, id: nat, n': Node, op': Op)
    requires Unbound(s, t, id) && n' == s.nodes[id].(retired := true) && op' == OpOf(s, t).(stage := Release)
    ensures OpOk(Abandoned(s, t, id, n', op'), t)
  {
    hide NodeOk, HandlesOf, PlaceOk;
    ReleasePlace(op', t, n', s.l.closing);
  }

  lemma BeginPushKeeps(s: State, t: Tid, id: nat, op': Op, n': Node)
    requires Inv(s) && OpOf(s, t).Doing? && OpOk(s, t) && HoldsRight(OpOf(s, t).stage) && id == s.handles[OpOf(s, t).h].node
    requires s.nodes[id].bound && op'.Doing? && op' == OpOf(s, t).(stage := op'.stage) && Pushes(op'.stage)
    requires Owned(OpOf(s, t).stage) == Owned(op'.stage) && InUpdate(OpOf(s, t).stage) == InUpdate(op'.stage)
    requires n' == s.nodes[id].(locked := n'.locked) && (n'.locked == s.nodes[id].locked || s.nodes[id].lockedBy == t)
    ensures Inv(BeginPush(SetNode(s, id, n'), t, id, op'))
  {
    hide L.Inv;
    var s' := BeginPush(SetNode(s, id, n'), t, id, op');
    assert HandleOk(s, op'.h) && NodeOk(s, id) && RightOk(s, id);
    BeginPushFrame(s, t, id, op', n');
    BeginPushOk(s, t, id, op', n');
    hide ThreadFrame, NodeOk, RightOk, HandleOk, PlaceOk;
    ThreadKeeps(s, s', t, id);
  }

  lemma BeginPushFrame(s: State, t: Tid, id: nat, op': Op, n': Node)
    requires L.Inv(s.l) && OpOf(s, t).Doing? && OpOk(s, t) && HoldsRight(OpOf(s, t).stage) && id == s.handles[OpOf(s, t).h].node
    requires n' == s.nodes[id].(locked := n'.locked) && (n'.locked == s.nodes[id].locked || s.nodes[id].lockedBy == t)
    ensures ThreadFrame(s, BeginPush(SetNode(s, id, n'), t, id, op'), t, id)
  {
    hide L.Inv, PlaceOk;
    var s' := BeginPush(SetNode(s, id, n'), t, id, op');
    L.ApplyKeeps(s.l, L.BeginPush(t, id));
    assert s'.l.owner == s.l.owner && s'.l.chain == s.l.chain;
  }

  lemma BeginPushOk(s: State, t: Tid, id: nat, op': Op, n': Node)
    requires OpOf(s, t).Doing? && OpOk(s, t) && HoldsRight(OpOf(s, t).stage) && id == s.handles[OpOf(s, t).h].node
    requires NodeOk(s, id) && L.Node(id) in s.l.owner && RightOk(s, id)
    requires s.nodes[id].bound && op'.Doing? && op' == OpOf(s, t).(stage := op'.stage) && Pushes(op'.stage)
    requires Owned(OpOf(s, t).stage) == Owned(op'.stage) && InUpdate(OpOf(s, t).stage) == InUpdate(op'.stage)
    requires n' == s.nodes[id].(locked := n'.locked)
    ensures var s' := BeginPush(SetNode(s, id, n'), t, id, op'); NodeOk(s', id) && OpOk(s', t) && RightOk(s', id)
  {
    hide PlaceOk, HandlesOf;
    PushPlace(OpOf(s, t), op', t, s.nodes[id], n', s.l.closing);
  }

  lemma PushPlace(op: Op, op': Op, t: Tid, n: Node, n': Node, closing: bool)
    requires op.Doing? && op'.Doing? && PlaceOk(op, t, n, closing) && Pushes(op'.stage) && n.bound
    requires op' == op.(stage := op'.stage) && InUpdate(op.stage) == InUpdate(op'.stage) && n' == n.(locked := n'.locked)
    ensures PlaceOk(op', t, n', closing)
  {}

  /** One access of t inside enqueue_node of the node, seen from outside. */
  ghost predicate PushList(l: L.List, l': L.List, t: Tid, id: nat) {
    && ListStep(l, l', t, id)
    && (L.Tracked(l', id) <==> L.Tracked(l, id) && !L.PcOf(l, t).Is(L.Reject))
    && (L.Node(id) in l'.owner ==> L.Node(id) in l.owner && l'.owner[L.Node(id)] == l.owner[L.Node(id)])
    && (L.Node(id) in l'.chain && L.Node(id) !in l.chain ==> L.Node(id) in l.owner && l.owner[L.Node(id)] == t)
    && (L.PcOf(l', t).At? ==> L.PcOf(l', t).n == L.Node(id))
    && (L.Pending(L.PcOf(l, t)) && !L.PcOf(l, t).Is(L.Reject) && L.Node(id) in l'.owner ==> L.Pending(L.PcOf(l', t)))
    && (L.PcOf(l, t).Is(L.Reject) ==>
          l.closing && L.Node(id) in l.owner && l.owner[L.Node(id)] == t && L.PcOf(l', t).Out? && L.Node(id) !in l'.owner)
  }

  lemma PushAccessList(l: L.List, t: Tid, id: nat)
    requires L.Inv(l) && L.PcOf(l, t).At? && L.PcOf(l, t).n == L.Node(id) && t != L.Poller
    ensures PushList(l, L.Apply(l, L.PushAccess(t)), t, id)
  {
    L.ApplyKeeps(l, L.PushAccess(t));
    L.PushTracks(l, t);
    assert L.PcOk(l, t);
    if L.PcOf(l, t).Is(L.Reject) {
      L.RejectTracks(l, t);
    } else if L.Pending(L.PcOf(l, t)) {
      L.PendingStays(l, t);
    }
    PushListFacts(l, L.PushStep(l, t), t, id);
  }

  lemma PushListFacts(l: L.List, l': L.List, t: Tid, id: nat)
    requires L.Inv(l) && L.Inv(l') && L.PcOf(l, t).At? && L.PcOf(l, t).n == L.Node(id) && t != L.Poller
    requires L.PushEffect(l, t, l') && L.PcOk(l, t)
    requires L.PcOf(l, t).Is(L.Reject) ==> l.closing && L.Node(id) in l.owner && l.owner[L.Node(id)] == t && L.PcOf(l', t).Out?
    requires L.Pending(L.PcOf(l, t)) && !L.PcOf(l, t).Is(L.Reject) ==> L.Pending(L.PcOf(l', t)) || L.Node(id) !in l'.owner
    ensures PushList(l, l', t, id)
  {
  }

  /** A thread inside enqueue_node whose next access leads to list l'. */
  ghost predicate Pushing(s: State, t: Tid, id: nat, l': L.List) {
    && OnNode(s, t, id) && id in s.nodes && OpOk(s, t) && Pushes(OpOf(s, t).stage)
    && PushList(s.l, l', t, id)
  }

  lemma PushedFrame(s: State, t: Tid, id: nat, n: Node, l': L.List)
    requires Inv(s) && Pushing(s, t, id, l')
    requires n == s.nodes[id] || (n == Retire(s.nodes[id]) && L.PcOf(s.l, t).Is(L.Reject))
    ensures ThreadFrame(s, Pushed(s, t, OpOf(s, t), id, n, l'), t, id)
  {
  }

  lemma PushedKeeps(s: State, t: Tid, id: nat, l': L.List)
    requires Inv(s) && Pushing(s, t, id, l') && !L.PcOf(s.l, t).Is(L.Reject)
    ensures Inv(Pushed(s, t, OpOf(s, t), id, s.nodes[id], l'))
  {
    PushedFrame(s, t, id, s.nodes[id], l');
    PushedOk(s, t, id, l');
    ThreadKeeps(s, Pushed(s, t, OpOf(s, t), id, s.nodes[id], l'), t, id);
  }

  lemma PushedOk(s: State, t: Tid, id: nat, l': L.List)
    requires Inv(s) && Pushing(s, t, id, l') && !L.PcOf(s.l, t).Is(L.Reject)
    ensures var s' := Pushed(s, t, OpOf(s, t), id, s.nodes[id], l');
      NodeOk(s', id) && OpOk(s', t) && (L.Node(id) in s'.l.owner ==> RightOk(s', id))
  {
    assert NodeOk(s, id);
    if L.Node(id) in s.l.owner {
      assert RightOk(s, id);
    }
    PushedNode(s, t, id, l');
    PushedOp(s, t, id, s.nodes[id], l');
  }

  lemma PushedNode(s: State, t: Tid, id: nat, l': L.List)
    requires Pushing(s, t, id, l') && !L.PcOf(s.l, t).Is(L.Reject) && NodeOk(s, id)
    requires L.Node(id) in s.l.owner ==> RightOk(s, id)
    requires s.nodes[id].binder != t
    ensures var s' := Pushed(s, t, OpOf(s, t), id, s.nodes[id], l');
      NodeOk(s', id) && (L.Node(id) in s'.l.owner ==> RightOk(s', id))
  {
    hide NodeOk, RightOk, PlaceOk, Pushed;
    PushedNodeOk(s, t, id, l');
    PushedRight(s, t, id, l');
  }

  lemma PushedNodeOk(s: State, t: Tid, id: nat, l': L.List)
    requires Pushing(s, t, id, l') && !L.PcOf(s.l, t).Is(L.Reject) && NodeOk(s, id) && s.nodes[id].binder != t
    requires L.Node(id) in s.l.owner ==> RightOk(s, id)
    ensures NodeOk(Pushed(s, t, OpOf(s, t), id, s.nodes[id], l'), id)
  {
    hide HandlesOf, PlaceOk;
  }

  lemma PushedRight(s: State, t: Tid, id: nat, l': L.List)
    requires Pushing(s, t, id, l') && (L.Node(id) in s.l.owner ==> RightOk(s, id))
    ensures var s' := Pushed(s, t, OpOf(s, t), id, s.nodes[id], l'); L.Node(id) in s'.l.owner ==> RightOk(s', id)
  {
    hide HandlesOf, PlaceOk;
  }

  lemma PushedOp(s: State, t: Tid, id: nat, n: Node, l': L.List)
    requires Pushing(s, t, id, l') && n.word == s.nodes[id].word && n.bound == s.nodes[id].bound
    ensures OpOk(Pushed(s, t, OpOf(s, t), id, n, l'), t)
  {
    hide OpOk, PushList;
    if L.PcOf(l', t).At? { PushedOn(s, t, id, n, l'); } else { PushedOut(s, t, id, n, l'); }
  }

  lemma PushedOn(s: State, t: Tid, id: nat, n: Node, l': L.List)
    requires Pushing(s, t, id, l') && n.word == s.nodes[id].word && n.bound == s.nodes[id].bound && L.PcOf(l', t).At?
    ensures OpOk(Pushed(s, t, OpOf(s, t), id, n, l'), t)
  {
    var op, s' := OpOf(s, t), Pushed(s, t, OpOf(s, t), id, n, l');
    assert OpOf(s', t) == op && s'.nodes[id] == n;
    assert PlaceOk(op, t, n, s.l.closing);
  }

  lemma PushedOut(s: State, t: Tid, id: nat, n: Node, l': L.List)
    requires Pushing(s, t, id, l') && n.word == s.nodes[id].word && n.bound == s.nodes[id].bound && L.PcOf(l', t).Out?
    ensures OpOk(Pushed(s, t, OpOf(s, t), id, n, l'), t)
  {
    hide L.Inv, NodeOk, RightOk, HandlesOf, L.PcOk, PlaceOk, L.PcOf;
    assert OpOf(Pushed(s, t, OpOf(s, t), id, n, l'), t) == AfterPush(OpOf(s, t));
    if OpOf(s, t).stage == DropPush { PushedRelease(s, t, id, n, l'); }
  }

  lemma PushedRelease(s: State, t: Tid, id: nat, n: Node, l': L.List)
    requires Pushing(s, t, id, l') && OpOf(s, t).stage == DropPush && n.word == s.nodes[id].word && L.PcOf(l', t).Out?
    ensures OpOk(Pushed(s, t, OpOf(s, t), id, n, l'), t)
  {
    hide L.Inv, NodeOk, RightOk, HandlesOf, L.PcOk, PlaceOk, L.PcOf;
    ReleasePlace(AfterPush(OpOf(s, t)), t, n, l'.closing);
  }

  lemma ReleasePlace(op: Op, t: Tid, n: Node, closing: bool)
    requires op.Doing? ==> op.stage == Release
    ensures op.Doing? ==> PlaceOk(op, t, n, closing)
  {}

  /** A refused push releases the queue's handle; the pusher's own handle keeps the node alive. */
  lemma RefusedKeeps(s: State, t: Tid, id: nat, l': L.List)
    requires Inv(s) && Pushing(s, t, id, l') && L.PcOf(s.l, t).Is(L.Reject)
    ensures Inv(Pushed(s, t, OpOf(s, t), id, Retire(s.nodes[id]), l'))
    ensures s.nodes[id].refs >= 2
  {
    PushedFrame(s, t, id, Retire(s.nodes[id]), l');
    assert NodeOk(s, id) && RightOk(s, id);
    assert s.nodes[id].binder != L.Poller ==> OpOk(s, s.nodes[id].binder);
    assert OpOf(s, t).h in HandlesOf(s.handles, id);
    RefusedOk(s, t, id, l');
    ThreadKeeps(s, Pushed(s, t, OpOf(s, t), id, Retire(s.nodes[id]), l'), t, id);
  }

  lemma RefusedOk(s: State, t: Tid, id: nat, l': L.List)
    requires Pushing(s, t, id, l') && L.PcOf(s.l, t).Is(L.Reject)
    requires NodeOk(s, id) && s.nodes[id].holds && s.nodes[id].binder == L.Poller
    requires OpOf(s, t).h in HandlesOf(s.handles, id)
    ensures s.nodes[id].refs >= 2
    ensures var s' := Pushed(s, t, OpOf(s, t), id, Retire(s.nodes[id]), l');
      NodeOk(s', id) && OpOk(s', t) && L.Node(id) !in s'.l.owner
  {
    PushedOp(s, t, id, Retire(s.nodes[id]), l');
    assert |HandlesOf(s.handles, id)| > 0;
  }

  lemma PushAccessKeeps(s: State, t: Tid, id: nat)
    requires Inv(s) && OnNode(s, t, id) && id in s.nodes && Pushes(OpOf(s, t).stage)
    ensures Inv(PushAccess(s, t, OpOf(s, t), id, s.nodes[id]))
  {
    assert OpOk(s, t);
    PushAccessList(s.l, t, id);
    var l' := L.Apply(s.l, L.PushAccess(t));
    if L.PcOf(s.l, t).Is(L.Reject) {
      RefusedKeeps(s, t, id, l');
    } else {
      PushedKeeps(s, t, id, l');
    }
  }

  /** `set_readiness`, one access. */
  lemma SetKeeps(s: State, t: Tid, id: nat)
    requires Inv(s) && OnNode(s, t, id) && id in s.nodes
    requires OpOf(s, t).stage == SetLoad || OpOf(s, t).stage == SetSwap || OpOf(s, t).stage == SetQueue || OpOf(s, t).stage == SetPush
    ensures Inv(SetStep(s, t, OpOf(s, t), id, s.nodes[id]))
  {
    hide L.Inv;
    assert OpOk(s, t) && NodeOk(s, id);
    var op := OpOf(s, t);
    if op.stage == SetPush {
      PushAccessKeeps(s, t, id);
    } else if op.stage == SetQueue {
      BeginPushKeeps(s, t, id, op.(stage := SetPush), s.nodes[id]);
    } else if op.stage == SetSwap && s.nodes[id].word == op.seen {
      SetSwapKeeps(s, t, id);
    } else {
      SetMoves(s, t, id);
    }
  }

  lemma SetMoves(s: State, t: Tid, id: nat)
    requires Inv(s) && OnNode(s, t, id) && id in s.nodes && OpOk(s, t)
    requires OpOf(s, t).stage == SetLoad || (OpOf(s, t).stage == SetSwap && s.nodes[id].word != OpOf(s, t).seen)
    ensures Inv(SetStep(s, t, OpOf(s, t), id, s.nodes[id]))
  {
    hide L.Inv, Inv, NodeOk, RightOk;
    var op, n := OpOf(s, t), s.nodes[id];
    if n.word.dropped {
      MoveKeeps(s, t, Free);
    } else {
      MoveKeeps(s, t, op.(stage := SetSwap, seen := n.word));
    }
  }

  /** The compare-and-swap of `set_readiness` succeeds: a blank readiness wins nothing. */
  lemma SetSwapKeeps(s: State, t: Tid, id: nat)
    requires Inv(s) && OnNode(s, t, id) && id in s.nodes && OpOk(s, t) && NodeOk(s, id)
    requires OpOf(s, t).stage == SetSwap && s.nodes[id].word == OpOf(s, t).seen
    ensures Inv(SetStep(s, t, OpOf(s, t), id, s.nodes[id]))
  {
    hide L.Inv, Inv, NodeOk, OpOk, Mild, Wins;
    var op, n := OpOf(s, t), s.nodes[id];
    var next := SetNext(n.word, op.ready);
    if !n.word.queued && next.queued {
      SetWins(s, t, id);
      AcquireKeeps(s, t, id, n.(word := next), op.(stage := SetQueue));
    } else {
      SetIsMild(s, t, id);
      SetSwapOk(s, t, id, next);
      NodeKeeps(s, t, id, n.(word := next), Free);
    }
  }

  lemma SetWins(s: State, t: Tid, id: nat)
    requires OnNode(s, t, id) && id in s.nodes && OpOk(s, t) && NodeOk(s, id)
    requires OpOf(s, t).stage == SetSwap && s.nodes[id].word == OpOf(s, t).seen
    requires !s.nodes[id].word.queued && SetNext(s.nodes[id].word, OpOf(s, t).ready).queued
    ensures var op, n := OpOf(s, t), s.nodes[id];
      id == s.handles[op.h].node && Wins(s, t, n.(word := SetNext(n.word, op.ready)), op.(stage := SetQueue))
  {
    BlankInterest(s.nodes[id].word, OpOf(s, t).ready);
  }

  lemma SetIsMild(s: State, t: Tid, id: nat)
    requires OnNode(s, t, id) && id in s.nodes && OpOf(s, t).stage == SetSwap
    ensures var op, n := OpOf(s, t), s.nodes[id];
      var next := SetNext(n.word, op.ready);
      (n.word.queued || !next.queued ==> Mild(n, n.(word := next), t, op) && next == n.word.(readiness := next.readiness))
  {}

  lemma SetSwapOk(s: State, t: Tid, id: nat, next: Word)
    requires OnNode(s, t, id) && id in s.nodes && OpOk(s, t) && NodeOk(s, id) && OpOf(s, t).stage == SetSwap
    requires next == s.nodes[id].word.(readiness := next.readiness)
    ensures var s' := SetOp(SetNode(s, id, s.nodes[id].(word := next)), t, Free); NodeOk(s', id) && OpOk(s', t)
  {
  }

  /** Without interest nothing is ever queued. */
  lemma BlankInterest(w: Word, ready: Flags)
    ensures w.interest == NONE ==> Effective(w.(readiness := ready)) == NONE
  {
  }

  /** The binding part of `update`, one access. */
  lemma BindKeeps(s: State, t: Tid, id: nat)
    requires Inv(s) && OnNode(s, t, id) && id in s.nodes
    requires OpOf(s, t).stage == BindLoad || OpOf(s, t).stage == BindSwap || OpOf(s, t).stage == BindCount || OpOf(s, t).stage == Lock
    ensures Inv(BindStep(s, t, OpOf(s, t), id, s.nodes[id]))
  {
    assert OpOk(s, t) && NodeOk(s, id);
    var st, n := OpOf(s, t).stage, s.nodes[id];
    if st == BindCount || (st == Lock && !n.locked) || (st == BindSwap && !n.bound) {
      BindWrites(s, t, id);
    } else {
      BindMoves(s, t, id);
    }
  }

  lemma BindWrites(s: State, t: Tid, id: nat)
    requires Inv(s) && OnNode(s, t, id) && id in s.nodes && OpOk(s, t) && NodeOk(s, id)
    requires
      || OpOf(s, t).stage == BindCount
      || (OpOf(s, t).stage == Lock && !s.nodes[id].locked)
      || (OpOf(s, t).stage == BindSwap && !s.nodes[id].bound)
    ensures Inv(BindStep(s, t, OpOf(s, t), id, s.nodes[id]))
  {
    hide L.Inv, Inv, NodeOk, OpOk, Mild;
    var op, n := OpOf(s, t), s.nodes[id];
    BindIsMild(s, t, id);
    if op.stage == Lock {
      LockOk(s, t, id);
      NodeKeeps(s, t, id, n.(locked := true, lockedBy := t), op.(stage := UpdLoad));
    } else if op.stage == BindSwap {
      BindOk(s, t, id);
      NodeKeeps(s, t, id, n.(bound := true, holds := true, binder := t), op.(stage := BindCount));
    } else {
      CountOk(s, t, id);
      NodeKeeps(s, t, id, n.(refs := n.refs + 1, binder := L.Poller), op.(stage := Lock));
    }
  }

  lemma BindIsMild(s: State, t: Tid, id: nat)
    requires OnNode(s, t, id) && id in s.nodes && OpOk(s, t) && NodeOk(s, id)
    ensures var op, n := OpOf(s, t), s.nodes[id];
      && (op.stage == Lock && !n.locked ==> Mild(n, n.(locked := true, lockedBy := t), t, op))
      && (op.stage == BindSwap && !n.bound ==> Mild(n, n.(bound := true, holds := true, binder := t), t, op))
      && (op.stage == BindCount ==> Mild(n, n.(refs := n.refs + 1, binder := L.Poller), t, op))
  {}

  lemma BindMoves(s: State, t: Tid, id: nat)
    requires Inv(s) && OnNode(s, t, id) && id in s.nodes && OpOk(s, t)
    requires
      || OpOf(s, t).stage == BindLoad
      || (OpOf(s, t).stage == BindSwap && s.nodes[id].bound)
      || (OpOf(s, t).stage == Lock && s.nodes[id].locked)
    ensures Inv(BindStep(s, t, OpOf(s, t), id, s.nodes[id]))
  {
    BindMoveOk(s, t, id);
    MoveKeeps(s, t, BindMove(OpOf(s, t), s.nodes[id]));
    assert BindStep(s, t, OpOf(s, t), id, s.nodes[id]) == SetOp(s, t, BindMove(OpOf(s, t), s.nodes[id]));
  }

  /** Where a registration call goes when it only looks at its node. */
  function BindMove(op: Op, n: Node): Op
    requires op.Doing?
  {
    if op.stage == Lock then Free else op.(stage := if n.bound then Lock else BindSwap)
  }

  lemma BindMoveOk(s: State, t: Tid, id: nat)
    requires OnNode(s, t, id) && id in s.nodes && OpOk(s, t)
    requires
      || OpOf(s, t).stage == BindLoad
      || (OpOf(s, t).stage == BindSwap && s.nodes[id].bound)
      || (OpOf(s, t).stage == Lock && s.nodes[id].locked)
    ensures OpOk(SetOp(s, t, BindMove(OpOf(s, t), s.nodes[id])), t)
  {
  }

  lemma LockOk(s: State, t: Tid, id: nat)
    requires OnNode(s, t, id) && id in s.nodes && OpOk(s, t) && NodeOk(s, id) && OpOf(s, t).stage == Lock && !s.nodes[id].locked
    ensures var s' := SetOp(SetNode(s, id, s.nodes[id].(locked := true, lockedBy := t)), t, OpOf(s, t).(stage := UpdLoad));
      NodeOk(s', id) && OpOk(s', t)
  {
  }

  /** An unbound node cannot have been retired while a registration call is under way. */
  lemma BindOk(s: State, t: Tid, id: nat)
    requires Inv(s) && OnNode(s, t, id) && id in s.nodes && OpOk(s, t) && OpOf(s, t).stage == BindSwap && !s.nodes[id].bound
    ensures
      var s' := SetOp(SetNode(s, id, s.nodes[id].(bound := true, holds := true, binder := t)), t, OpOf(s, t).(stage := BindCount));
      NodeOk(s', id) && OpOk(s', t)
  {
    hide L.Inv, RightOk, PollOk, HandlesOf;
    assert NodeOk(s, id) && HandleOk(s, OpOf(s, t).h);
  }

  lemma CountOk(s: State, t: Tid, id: nat)
    requires OnNode(s, t, id) && id in s.nodes && OpOk(s, t) && NodeOk(s, id) && OpOf(s, t).stage == BindCount
    ensures
      var s' := SetOp(SetNode(s, id, s.nodes[id].(refs := s.nodes[id].refs + 1, binder := L.Poller)), t, OpOf(s, t).(stage := Lock));
      NodeOk(s', id) && OpOk(s', t)
  {
    assert OpOf(s, t).h in HandlesOf(s.handles, id);
  }

  /** The locked part of `update`, one access. */
  lemma UpdateKeeps(s: State, t: Tid, id: nat)
    requires Inv(s) && OnNode(s, t, id) && id in s.nodes && (HoldsLock(OpOf(s, t).stage) || OpOf(s, t).stage == UpdPush)
    ensures Inv(UpdateStep(s, t, OpOf(s, t), id, s.nodes[id]))
  {
    hide L.Inv, NodeOk, RightOk;
    assert OpOk(s, t) && NodeOk(s, id);
    if OpOf(s, t).stage == UpdPush {
      PushAccessKeeps(s, t, id);
    } else if OpOf(s, t).stage == UnlockPush {
      BeginPushKeeps(s, t, id, OpOf(s, t).(stage := UpdPush), s.nodes[id].(locked := false));
    } else if OpOf(s, t).stage == UpdSwap && s.nodes[id].word == OpOf(s, t).seen {
      UpdSwapKeeps(s, t, id);
    } else if OpOf(s, t).stage == UpdWrite || OpOf(s, t).stage == Unlock {
      UpdWriteKeeps(s, t, id);
    } else {
      UpdMoves(s, t, id);
    }
  }

  lemma UpdWriteKeeps(s: State, t: Tid, id: nat)
    requires Inv(s) && OnNode(s, t, id) && id in s.nodes && OpOk(s, t) && NodeOk(s, id)
    requires OpOf(s, t).stage == UpdWrite || OpOf(s, t).stage == Unlock
    ensures Inv(UpdateStep(s, t, OpOf(s, t), id, s.nodes[id]))
  {
    hide L.Inv, Inv, NodeOk, RightOk, HandleOk;
    var op, n := OpOf(s, t), s.nodes[id];
    if op.stage == UpdWrite {
      WriteOk(s, t, id);
      NodeKeeps(s, t, id, n.(slots := n.slots[op.pos := op.u.token]), op.(stage := UpdSwap));
    } else {
      UnlockOk(s, t, id);
      NodeKeeps(s, t, id, n.(locked := false), Free);
    }
  }

  /** Where a locked update goes when it only looks at its node. */
  function UpdMove(op: Op, n: Node): Op
    requires op.Doing?
  {
    if op.stage == UpdLoad then op.(stage := UpdRead, seen := n.word)
    else if op.stage == UpdSwap then op.(seen := n.word)
    else if op.u.token == n.slots[op.seen.wr] then op.(stage := UpdSwap, pos := op.seen.wr)
    else op.(stage := UpdWrite, pos := NextTokenPos(op.seen.rd, op.seen.wr))
  }

  lemma UpdMoves(s: State, t: Tid, id: nat)
    requires Inv(s) && OnNode(s, t, id) && id in s.nodes && OpOk(s, t)
    requires
      || OpOf(s, t).stage == UpdLoad || OpOf(s, t).stage == UpdRead
      || (OpOf(s, t).stage == UpdSwap && s.nodes[id].word != OpOf(s, t).seen)
    ensures Inv(UpdateStep(s, t, OpOf(s, t), id, s.nodes[id]))
  {
    hide L.Inv;
    UpdMoveOk(s, t, id);
    MoveKeeps(s, t, UpdMove(OpOf(s, t), s.nodes[id]));
    assert UpdateStep(s, t, OpOf(s, t), id, s.nodes[id]) == SetOp(s, t, UpdMove(OpOf(s, t), s.nodes[id]));
  }

  lemma UpdMoveOk(s: State, t: Tid, id: nat)
    requires OnNode(s, t, id) && id in s.nodes && OpOk(s, t)
    requires
      || OpOf(s, t).stage == UpdLoad || OpOf(s, t).stage == UpdRead
      || (OpOf(s, t).stage == UpdSwap && s.nodes[id].word != OpOf(s, t).seen)
    ensures OpOk(SetOp(s, t, UpdMove(OpOf(s, t), s.nodes[id])), t)
  {
  }

  lemma WriteOk(s: State, t: Tid, id: nat)
    requires OnNode(s, t, id) && id in s.nodes && OpOk(s, t) && NodeOk(s, id) && OpOf(s, t).stage == UpdWrite
    ensures
      var op, n := OpOf(s, t), s.nodes[id];
      var s' := SetOp(SetNode(s, id, n.(slots := n.slots[op.pos := op.u.token])), t, op.(stage := UpdSwap));
      NodeOk(s', id) && OpOk(s', t)
  {
  }

  lemma UnlockOk(s: State, t: Tid, id: nat)
    requires OnNode(s, t, id) && id in s.nodes && OpOk(s, t) && NodeOk(s, id) && OpOf(s, t).stage == Unlock
    ensures var s' := SetOp(SetNode(s, id, s.nodes[id].(locked := false)), t, Free); NodeOk(s', id) && OpOk(s', t)
  {
  }

  lemma UpdSwapKeeps(s: State, t: Tid, id: nat)
    requires Inv(s) && OnNode(s, t, id) && id in s.nodes && OpOk(s, t) && NodeOk(s, id)
    requires OpOf(s, t).stage == UpdSwap && s.nodes[id].word == OpOf(s, t).seen
    ensures Inv(UpdateStep(s, t, OpOf(s, t), id, s.nodes[id]))
  {
    hide L.Inv, Inv, HandlesOf, NodeOk, RightOk;
    var op, n := OpOf(s, t), s.nodes[id];
    var next := UpdateNext(n.word, op.u, op.pos);
    if !n.word.queued && next.queued {
      AcquireKeeps(s, t, id, n.(word := next), op.(stage := UnlockPush));
    } else {
      UpdSwapOk(s, t, id, next);
      NodeKeeps(s, t, id, n.(word := next), op.(stage := Unlock));
    }
  }

  lemma UpdSwapOk(s: State, t: Tid, id: nat, next: Word)
    requires OnNode(s, t, id) && id in s.nodes && OpOk(s, t) && NodeOk(s, id) && OpOf(s, t).stage == UpdSwap
    requires next == s.nodes[id].word.(wr := OpOf(s, t).pos, interest := next.interest, opt := next.opt)
    ensures var s' := SetOp(SetNode(s, id, s.nodes[id].(word := next)), t, OpOf(s, t).(stage := Unlock)); NodeOk(s', id) && OpOk(s', t)
  {
  }

  lemma DropQueueKeeps(s: State, t: Tid, id: nat)
    requires Inv(s) && OnNode(s, t, id) && id in s.nodes && OpOf(s, t).At(DropQueue)
    requires OpOk(s, t) && NodeOk(s, id)
    ensures Inv(DropStep(s, t, OpOf(s, t), id, s.nodes[id]))
  {
    hide L.Inv;
    if s.nodes[id].bound {
      BeginPushKeeps(s, t, id, OpOf(s, t).(stage := DropPush), s.nodes[id]);
    } else {
      AbandonKeeps(s, t, id);
    }
  }

  /** `Registration::drop` and the release of any handle, one access. */
  lemma DropKeeps(s: State, t: Tid, id: nat)
    requires Inv(s) && OnNode(s, t, id) && id in s.nodes && Owned(OpOf(s, t).stage)
    ensures Inv(DropStep(s, t, OpOf(s, t), id, s.nodes[id]))
  {
    hide L.Inv;
    assert OpOk(s, t) && NodeOk(s, id);
    if OpOf(s, t).stage == DropPush {
      PushAccessKeeps(s, t, id);
    } else if OpOf(s, t).stage == DropQueue {
      DropQueueKeeps(s, t, id);
    } else if OpOf(s, t).stage == Release {
      ReleaseKeeps(s, t, id);
    } else {
      FlagKeeps(s, t, id);
    }
  }

  lemma FlagKeeps(s: State, t: Tid, id: nat)
    requires Inv(s) && OnNode(s, t, id) && id in s.nodes && OpOf(s, t).stage == Flag && OpOk(s, t) && NodeOk(s, id)
    ensures Inv(DropStep(s, t, OpOf(s, t), id, s.nodes[id]))
  {
    hide L.Inv, Inv, HandlesOf, RightOk;
    var op, n := OpOf(s, t), s.nodes[id];
    var n' := n.(word := n.word.(dropped := true, queued := true));
    if n.word.queued {
      FlagOk(s, t, id, n');
      NodeKeeps(s, t, id, n', op.(stage := Release));
    } else {
      AcquireKeeps(s, t, id, n', op.(stage := DropQueue));
    }
  }

  lemma FlagOk(s: State, t: Tid, id: nat, n': Node)
    requires OnNode(s, t, id) && id in s.nodes && OpOf(s, t).stage == Flag && OpOk(s, t) && NodeOk(s, id)
    requires n' == s.nodes[id].(word := s.nodes[id].word.(dropped := true)) && s.nodes[id].word.queued
    ensures var s' := SetOp(SetNode(s, id, n'), t, OpOf(s, t).(stage := Release)); NodeOk(s', id) && OpOk(s', t)
  {
    hide PlaceOk, HandlesOf, NodeOk, OpOk;
    FlagNodeOk(s, t, id, n');
    FlagOpOk(s, t, id, n');
  }

  lemma FlagNodeOk(s: State, t: Tid, id: nat, n': Node)
    requires OnNode(s, t, id) && id in s.nodes && OpOf(s, t).stage == Flag && NodeOk(s, id)
    requires n' == s.nodes[id].(word := s.nodes[id].word.(dropped := true)) && s.nodes[id].word.queued
    ensures NodeOk(SetOp(SetNode(s, id, n'), t, OpOf(s, t).(stage := Release)), id)
  {
    hide HandlesOf;
  }

  lemma FlagOpOk(s: State, t: Tid, id: nat, n': Node)
    requires OnNode(s, t, id) && id in s.nodes && OpOf(s, t).stage == Flag && OpOk(s, t) && n'.word.dropped
    ensures OpOk(SetOp(SetNode(s, id, n'), t, OpOf(s, t).(stage := Release)), t)
  {
    hide PlaceOk;
    ReleasePlace(OpOf(s, t).(stage := Release), t, n', s.l.closing);
  }

  // ---------------------------------------------------------------------------------------------
  // Handles come and go
  // ---------------------------------------------------------------------------------------------

  function Released(s: State, t: Tid, id: nat, h: nat): State
    requires id in s.nodes
  {
    SetOp(SetNode(s.(handles := s.handles - {h}), id, Drop1(s.nodes[id])), t, Free)
  }

  ghost predicate Releasing(s: State, t: Tid, id: nat, h: nat) {
    OnNode(s, t, id) && id in s.nodes && OpOf(s, t).At(Release) && OpOf(s, t).h == h && OpOk(s, t)
  }

  lemma ReleaseOther(s: State, t: Tid, id: nat, h: nat, u: Tid)
    requires Releasing(s, t, id, h) && OpOk(s, u) && u != t
    ensures OpOk(Released(s, t, id, h), u) && (OpOf(s, u).Doing? ==> OpOf(s, u).h != h)
  {
    var s', op := Released(s, t, id, h), OpOf(s, u);
    assert OpOf(s', u) == op;
    if op.Doing? {
      OthersHandle(s, t, h, u);
      var j := s.handles[op.h].node;
      hide PlaceOk, L.PcOf, Drop1, OpOk, Released;
      DroppedPlace(op, u, s.nodes[j], s.l.closing);
      ReleaseNodes(s, t, id, h, j);
      ReleaseHandles(s, t, id, h, op.h);
      SameOpOk(s, s', u);
    }
  }

  lemma OthersHandle(s: State, t: Tid, h: nat, u: Tid)
    requires OpOf(s, t).At(Release) && OpOf(s, t).h == h && OpOk(s, t) && OpOk(s, u) && OpOf(s, u).Doing? && u != t
    ensures OpOf(s, u).h != h && OpOf(s, u).h in s.handles && s.handles[OpOf(s, u).h].node in s.nodes
  {
    hide PlaceOk, L.PcOf;
  }

  lemma ReleaseHandles(s: State, t: Tid, id: nat, h: nat, g: nat)
    requires id in s.nodes && g in s.handles && g != h
    ensures var s' := Released(s, t, id, h); g in s'.handles && s'.handles[g] == s.handles[g] && s'.l == s.l && s'.nodes.Keys == s.nodes.Keys
  {}

  lemma SameOpOk(s: State, s': State, u: Tid)
    requires OpOk(s, u) && OpOf(s, u).Doing? && OpOf(s', u) == OpOf(s, u) && s'.l == s.l
    requires OpOf(s, u).h in s.handles && OpOf(s, u).h in s'.handles && s'.handles[OpOf(s, u).h] == s.handles[OpOf(s, u).h]
    requires var j := s.handles[OpOf(s, u).h].node;
      j in s.nodes && j in s'.nodes && s'.nodes[j].word == s.nodes[j].word && PlaceOk(OpOf(s, u), u, s'.nodes[j], s.l.closing)
    ensures OpOk(s', u)
  {
    hide PlaceOk, L.PcOf;
  }

  lemma ReleaseNodes(s: State, t: Tid, id: nat, h: nat, j: nat)
    requires id in s.nodes && j in s.nodes
    ensures Released(s, t, id, h).nodes[j] == (if j == id then Drop1(s.nodes[id]) else s.nodes[j])
    ensures Drop1(s.nodes[id]).word == s.nodes[id].word
  {}

  lemma DroppedPlace(op: Op, u: Tid, n: Node, closing: bool)
    requires op.Doing? && PlaceOk(op, u, n, closing)
    ensures PlaceOk(op, u, Drop1(n), closing)
  {}

  lemma ReleaseNode(s: State, t: Tid, id: nat, h: nat, j: nat)
    requires Inv(s) && Releasing(s, t, id, h) && j in s.nodes
    ensures NodeOk(Released(s, t, id, h), j)
  {
    assert NodeOk(s, j) && OpOk(s, s.nodes[j].binder) && OpOk(s, t);
    ReleaseCount(s.handles, h, id, j);
    ReleaseNodeOk(s, t, id, h, j);
  }

  lemma ReleaseCount(hs: map<nat, Handle>, h: nat, id: nat, j: nat)
    requires h in hs && hs[h].node == id
    ensures |HandlesOf(hs - {h}, j)| == |HandlesOf(hs, j)| - (if j == id then 1 else 0)
    ensures j == id ==> |HandlesOf(hs, j)| > 0
  {
    if j == id {
      assert HandlesOf(hs - {h}, j) == HandlesOf(hs, j) - {h};
      assert h in HandlesOf(hs, id);
    } else {
      assert HandlesOf(hs - {h}, j) == HandlesOf(hs, j);
    }
  }

  lemma ReleaseNodeOk(s: State, t: Tid, id: nat, h: nat, j: nat)
    requires Releasing(s, t, id, h) && j in s.nodes && NodeOk(s, j) && OpOk(s, s.nodes[j].binder)
    requires |HandlesOf(s.handles - {h}, j)| == |HandlesOf(s.handles, j)| - (if j == id then 1 else 0)
    requires j == id ==> |HandlesOf(s.handles, j)| > 0
    ensures NodeOk(Released(s, t, id, h), j)
  {
    hide NodeOk, OpOk;
    if j == id { ReleasedSelf(s, t, id, h); } else { ReleasedOther(s, t, id, h, j); }
  }

  lemma ReleasedSelf(s: State, t: Tid, id: nat, h: nat)
    requires Releasing(s, t, id, h) && NodeOk(s, id) && OpOk(s, s.nodes[id].binder)
    requires |HandlesOf(s.handles - {h}, id)| == |HandlesOf(s.handles, id)| - 1
    ensures NodeOk(Released(s, t, id, h), id)
  {}

  lemma ReleasedOther(s: State, t: Tid, id: nat, h: nat, j: nat)
    requires Releasing(s, t, id, h) && j in s.nodes && j != id && NodeOk(s, j) && OpOk(s, s.nodes[j].binder)
    requires |HandlesOf(s.handles - {h}, j)| == |HandlesOf(s.handles, j)|
    ensures NodeOk(Released(s, t, id, h), j)
  {}

  lemma ReleaseRight(s: State, t: Tid, id: nat, h: nat, j: nat)
    requires Releasing(s, t, id, h) && j in s.nodes && L.Node(j) in s.l.owner && RightOk(s, j)
    requires OpOk(s, s.l.owner[L.Node(j)])
    ensures RightOk(Released(s, t, id, h), j)
  {
  }

  lemma ReleaseKeeps(s: State, t: Tid, id: nat)
    requires Inv(s) && OnNode(s, t, id) && id in s.nodes && OpOf(s, t).At(Release)
    ensures Inv(Released(s, t, id, OpOf(s, t).h))
  {
    assert OpOk(s, t);
    var h := OpOf(s, t).h;
    ReleaseOps(s, t, id, h);
    forall j | j in s.nodes ensures NodeOk(Released(s, t, id, h), j) { ReleaseNode(s, t, id, h, j); }
    ReleaseRest(s, t, id, h);
  }

  lemma ReleaseOps(s: State, t: Tid, id: nat, h: nat)
    requires Inv(s) && Releasing(s, t, id, h)
    ensures var s' := Released(s, t, id, h);
      && (forall u :: OpOk(s', u))
      && (forall j :: L.Node(j) in s'.l.owner && j in s'.nodes ==> RightOk(s', j))
      && (forall g :: g in s'.handles ==> HandleOk(s', g))
  {
    hide L.Inv;
    var s' := Released(s, t, id, h);
    forall u ensures OpOk(s', u) {
      assert OpOk(s, u);
      if u != t { ReleaseOther(s, t, id, h, u); }
    }
    forall j | L.Node(j) in s'.l.owner && j in s'.nodes ensures RightOk(s', j) {
      assert RightOk(s, j) && OpOk(s, s.l.owner[L.Node(j)]);
      ReleaseRight(s, t, id, h, j);
    }
    forall g | g in s'.handles ensures HandleOk(s', g) {
      assert HandleOk(s, g);
      ReleaseHandle(s, t, id, h, g);
    }
  }

  lemma ReleaseHandle(s: State, t: Tid, id: nat, h: nat, g: nat)
    requires Releasing(s, t, id, h) && g in s.handles && g != h && HandleOk(s, g)
    ensures HandleOk(Released(s, t, id, h), g)
  {
    hide PlaceOk, L.PcOf;
    var s', m := Released(s, t, id, h), s.handles[g].mover;
    assert s'.handles[g] == s.handles[g];
    assert s.handles[g].moved ==> m != t && OpOf(s', m) == OpOf(s, m);
  }

  lemma ReleaseRest(s: State, t: Tid, id: nat, h: nat)
    requires Releasing(s, t, id, h) && PollOk(s) && OneRegistration(s) && (forall j :: L.Tracked(s.l, j) ==> j in s.nodes)
    ensures var s' := Released(s, t, id, h);
      PollOk(s') && OneRegistration(s') && (forall j :: L.Tracked(s'.l, j) ==> j in s'.nodes)
  {
    var s' := Released(s, t, id, h);
    forall j | L.Tracked(s'.l, j) ensures j in s'.nodes { assert L.Tracked(s.l, j); }
  }

  /** Every access of an ordinary thread keeps the invariant. */
  lemma StepKeeps(s: State, t: Tid)
    requires Inv(s) && OpOf(s, t).Doing?
    ensures Inv(ThreadStep(s, t))
  {
    assert OpOk(s, t);
    var id, st := s.handles[OpOf(s, t).h].node, OpOf(s, t).stage;
    if st == SetLoad || st == SetSwap || st == SetQueue || st == SetPush {
      SetKeeps(s, t, id);
    } else if Owned(st) {
      DropKeeps(s, t, id);
    } else if HoldsLock(st) || st == UpdPush {
      UpdateKeeps(s, t, id);
    } else {
      BindKeeps(s, t, id);
    }
  }

  // ---------------------------------------------------------------------------------------------
  // Calls begin, handles and nodes are created
  // ---------------------------------------------------------------------------------------------

  /** The places of threads, nodes and rights when only the table of handles grows or one handle is moved. */
  ghost predicate HandleFrame(s: State, s': State, t: Tid, op': Op) {
    && s' == s.(handles := s'.handles, ops := s'.ops)
    && (forall u :: u != t ==> OpOf(s', u) == OpOf(s, u))
    && OpOf(s, t).Free? && OpOf(s', t) == op'
    && (forall h :: h in s.handles ==> h in s'.handles && s'.handles[h].node == s.handles[h].node && s'.handles[h].reg == s.handles[h].reg)
    && (forall u, h :: OpOf(s, u).Doing? && OpOf(s, u).h == h && h in s.handles ==> s'.handles[h] == s.handles[h])
  }

  lemma CallOthers(s: State, s': State, t: Tid, op': Op, u: Tid)
    requires Inv(s) && HandleFrame(s, s', t, op') && u != t
    ensures OpOk(s', u)
  {
    assert OpOk(s, u);
  }

  lemma CallNode(s: State, s': State, t: Tid, op': Op, j: nat)
    requires Inv(s) && HandleFrame(s, s', t, op') && j in s.nodes && HandlesOf(s'.handles, j) == HandlesOf(s.handles, j)
    ensures NodeOk(s', j) && (L.Node(j) in s.l.owner ==> RightOk(s', j))
  {
    assert NodeOk(s, j);
    if L.Node(j) in s.l.owner { assert RightOk(s, j); }
  }

  lemma CallKeeps(s: State, t: Tid, op': Op)
    requires Inv(s) && Idle(s, t) && OpOk(SetOp(s, t, op'), t)
    ensures Inv(SetOp(s, t, op'))
  {
    var s' := SetOp(s, t, op');
    assert HandleFrame(s, s', t, op');
    forall u ensures OpOk(s', u) { if u != t { CallOthers(s, s', t, op', u); } }
    forall j | j in s'.nodes ensures NodeOk(s', j) && (L.Node(j) in s'.l.owner ==> RightOk(s', j)) { CallNode(s, s', t, op', j); }
    forall h | h in s'.handles ensures HandleOk(s', h) { assert HandleOk(s, h); }
    CallPoll(s, s');
  }

  lemma CallPoll(s: State, s': State)
    requires PollOk(s) && s' == s.(handles := s'.handles, ops := s'.ops)
    requires forall j :: L.Tracked(s.l, j) ==> j in s.nodes
    ensures PollOk(s') && (forall j :: L.Tracked(s'.l, j) ==> j in s'.nodes)
  {
    forall j | L.Tracked(s'.l, j) ensures j in s'.nodes { assert L.Tracked(s.l, j); }
  }

  lemma DropStartKeeps(s: State, t: Tid, h: nat)
    requires Inv(s) && Idle(s, t) && h in s.handles && !s.handles[h].moved && Unused(s, h)
    ensures Inv(DropStarted(s, t, h))
  {
    hide L.Inv;
    DropStartOps(s, t, h);
    DropStartRest(s, t, h);
    CallPoll(s, DropStarted(s, t, h));
  }

  lemma DropStartRest(s: State, t: Tid, h: nat)
    requires Inv(s) && Idle(s, t) && h in s.handles && !s.handles[h].moved
    ensures var s' := DropStarted(s, t, h); OneRegistration(s') && forall g :: g in s'.handles ==> HandleOk(s', g)
  {
    hide L.Inv;
    forall g | g in s.handles ensures HandleOk(DropStarted(s, t, h), g) { DropStartHandle(s, t, h, g); }
  }

  lemma DropStartOps(s: State, t: Tid, h: nat)
    requires Inv(s) && Idle(s, t) && h in s.handles && !s.handles[h].moved && Unused(s, h)
    ensures var s' := DropStarted(s, t, h);
      && (forall u :: OpOk(s', u))
      && (forall j :: j in s'.nodes ==> NodeOk(s', j) && (L.Node(j) in s'.l.owner ==> RightOk(s', j)))
  {
    hide L.Inv;
    var s', op' := DropStarted(s, t, h), Start(if s.handles[h].reg then Flag else Release, h, NONE, NoUpdate);
    assert HandleFrame(s, s', t, op');
    DropStartOk(s, t, h);
    forall u ensures OpOk(s', u) { if u != t { CallOthers(s, s', t, op', u); } }
    forall j | j in s'.nodes ensures NodeOk(s', j) && (L.Node(j) in s'.l.owner ==> RightOk(s', j)) {
      assert HandlesOf(s'.handles, j) == HandlesOf(s.handles, j);
      CallNode(s, s', t, op', j);
    }
  }

  lemma DropStartOk(s: State, t: Tid, h: nat)
    requires Inv(s) && Idle(s, t) && h in s.handles && !s.handles[h].moved
    ensures OpOk(DropStarted(s, t, h), t)
  {
    hide L.Inv;
    assert HandleOk(s, h);
  }

  lemma DropStartHandle(s: State, t: Tid, h: nat, g: nat)
    requires Inv(s) && Idle(s, t) && h in s.handles && !s.handles[h].moved && g in s.handles
    ensures HandleOk(DropStarted(s, t, h), g)
  {
    hide L.Inv;
    assert HandleOk(s, g);
  }

  lemma SetStartKeeps(s: State, t: Tid, h: nat, ready: Flags)
    requires Inv(s) && Idle(s, t) && h in s.handles && !s.handles[h].reg && !s.handles[h].moved
    ensures Inv(SetOp(s, t, Start(SetLoad, h, ready, NoUpdate)))
  {
    assert HandleOk(s, h);
    CallKeeps(s, t, Start(SetLoad, h, ready, NoUpdate));
  }

  lemma UpdateStartKeeps(s: State, t: Tid, h: nat, u: Update)
    requires Inv(s) && Idle(s, t) && h in s.handles && s.handles[h].reg && !s.handles[h].moved && !s.l.closing
    ensures Inv(SetOp(s, t, Start(BindLoad, h, NONE, u)))
  {
    assert HandleOk(s, h);
    CallKeeps(s, t, Start(BindLoad, h, NONE, u));
  }

  ghost predicate Clonable(s: State, h: nat, h1: nat) {
    h in s.handles && h1 !in s.handles && !s.handles[h].reg && !s.handles[h].moved && HandleOk(s, h)
  }

  /** A clone is counted in the same step that creates it. */
  lemma CloneKeeps(s: State, h: nat, h1: nat)
    requires Inv(s) && Clonable(s, h, h1)
    ensures Inv(Cloned(s, h, h1))
  {
    hide L.Inv;
    var s' := Cloned(s, h, h1);
    CloneOps(s, h, h1);
    forall j | j in s'.nodes ensures NodeOk(s', j) { CloneNode(s, h, h1, j); }
    CloneRights(s, h, h1);
  }

  lemma CloneOps(s: State, h: nat, h1: nat)
    requires Inv(s) && Clonable(s, h, h1)
    ensures var s' := Cloned(s, h, h1); (forall u :: OpOk(s', u)) && PollOk(s') && (forall j :: L.Tracked(s'.l, j) ==> j in s'.nodes)
  {
    hide L.Inv;
    var s' := Cloned(s, h, h1);
    forall u ensures OpOk(s', u) { assert OpOk(s, u); }
    forall j | L.Tracked(s'.l, j) ensures j in s'.nodes { assert L.Tracked(s.l, j); }
  }

  lemma CloneRights(s: State, h: nat, h1: nat)
    requires Clonable(s, h, h1)
    requires forall j :: L.Node(j) in s.l.owner && j in s.nodes ==> RightOk(s, j)
    requires forall g :: g in s.handles ==> HandleOk(s, g)
    requires forall u :: OpOk(s, u)
    ensures var s' := Cloned(s, h, h1);
      && (forall j :: L.Node(j) in s'.l.owner && j in s'.nodes ==> RightOk(s', j))
      && (forall g :: g in s'.handles ==> HandleOk(s', g))
  {
    var s' := Cloned(s, h, h1);
    forall j | L.Node(j) in s'.l.owner && j in s'.nodes ensures RightOk(s', j) {
      assert RightOk(s, j) && OpOk(s, s.l.owner[L.Node(j)]);
    }
    forall g | g in s'.handles ensures HandleOk(s', g) { if g != h1 { assert HandleOk(s, g); } }
  }

  lemma AddHandle(hs: map<nat, Handle>, h1: nat, hd: Handle, j: nat)
    requires h1 !in hs
    ensures |HandlesOf(hs[h1 := hd], j)| == |HandlesOf(hs, j)| + (if hd.node == j then 1 else 0)
  {
    if hd.node == j {
      assert HandlesOf(hs[h1 := hd], j) == HandlesOf(hs, j) + {h1};
    } else {
      assert HandlesOf(hs[h1 := hd], j) == HandlesOf(hs, j);
    }
  }

  lemma CloneNode(s: State, h: nat, h1: nat, j: nat)
    requires Inv(s) && Clonable(s, h, h1) && j in s.nodes
    ensures NodeOk(Cloned(s, h, h1), j)
  {
    assert NodeOk(s, j);
    var id := s.handles[h].node;
    AddHandle(s.handles, h1, Handle(id, false, false, L.Poller), j);
    assert h in HandlesOf(s.handles, id);
    assert s.nodes[j].binder != L.Poller ==> OpOk(s, s.nodes[j].binder);
    CloneNodeOk(s, h, h1, j);
  }

  lemma CloneNodeOk(s: State, h: nat, h1: nat, j: nat)
    requires Clonable(s, h, h1) && j in s.nodes && NodeOk(s, j)
    requires var id := s.handles[h].node;
      |HandlesOf(s.handles[h1 := Handle(id, false, false, L.Poller)], j)| == |HandlesOf(s.handles, j)| + (if id == j then 1 else 0)
    requires s.handles[h].node == j ==> |HandlesOf(s.handles, j)| > 0
    ensures NodeOk(Cloned(s, h, h1), j)
  {
  }

  ghost predicate Fresh(s: State, id: nat, h1: nat, h2: nat, n: Node) {
    && id !in s.nodes && h1 !in s.handles && h2 !in s.handles && h1 != h2
    && !n.word.queued && !n.word.dropped && !n.retired && n.frees == 0 && n.releases == 0 && n.binder == L.Poller
    && n.holds == n.bound && n.refs == (if n.bound then 3 else 2) && (!n.bound ==> n.word.interest == NONE)
  }

  lemma FreshNode(s: State, id: nat, h1: nat, h2: nat, n: Node, j: nat)
    requires Inv(s) && Fresh(s, id, h1, h2, n) && (j in s.nodes || j == id)
    ensures NodeOk(NewNode(s, id, h1, h2, n), j)
  {
    var hs1 := s.handles[h1 := Handle(id, true, false, L.Poller)];
    AddHandle(s.handles, h1, Handle(id, true, false, L.Poller), j);
    AddHandle(hs1, h2, Handle(id, false, false, L.Poller), j);
    if j == id {
      forall h | h in s.handles ensures s.handles[h].node != id { assert HandleOk(s, h); }
      assert HandlesOf(s.handles, id) == {};
      assert !L.Tracked(s.l, id);
    } else {
      assert NodeOk(s, j);
      assert s.nodes[j].binder != L.Poller ==> OpOk(s, s.nodes[j].binder);
    }
  }

  lemma FreshOthers(s: State, id: nat, h1: nat, h2: nat, n: Node)
    requires Inv(s) && Fresh(s, id, h1, h2, n)
    ensures forall u :: OpOk(NewNode(s, id, h1, h2, n), u)
    ensures forall j :: L.Node(j) in s.l.owner && j in s.nodes ==> RightOk(NewNode(s, id, h1, h2, n), j)
  {
    var s' := NewNode(s, id, h1, h2, n);
    forall u ensures OpOk(s', u) { assert OpOk(s, u); }
    forall j | L.Node(j) in s.l.owner && j in s.nodes ensures RightOk(s', j) { assert RightOk(s, j); }
  }

  lemma FreshHandles(s: State, id: nat, h1: nat, h2: nat, n: Node)
    requires Inv(s) && Fresh(s, id, h1, h2, n)
    ensures var s' := NewNode(s, id, h1, h2, n); OneRegistration(s') && forall h :: h in s'.handles ==> HandleOk(s', h)
  {
    var s' := NewNode(s, id, h1, h2, n);
    forall h | h in s'.handles ensures HandleOk(s', h) { if h in s.handles { assert HandleOk(s, h); } }
    forall h | h in s.handles ensures s.handles[h].node != id { assert HandleOk(s, h); }
  }

  lemma NewKeeps(s: State, id: nat, h1: nat, h2: nat, n: Node)
    requires Inv(s) && Fresh(s, id, h1, h2, n)
    ensures Inv(NewNode(s, id, h1, h2, n))
  {
    var s' := NewNode(s, id, h1, h2, n);
    forall j | j in s'.nodes ensures NodeOk(s', j) { FreshNode(s, id, h1, h2, n, j); }
    FreshOthers(s, id, h1, h2, n);
    FreshHandles(s, id, h1, h2, n);
    forall j | L.Tracked(s'.l, j) ensures j in s.nodes { assert L.Tracked(s.l, j); }
  }

  // ---------------------------------------------------------------------------------------------
  // Steps of the polling thread keep the invariant
  // ---------------------------------------------------------------------------------------------

  /** The list after a step of the polling thread that concerns at most the given node. */
  ghost predicate PollerList(l: L.List, l': L.List, id: nat) {
    && L.Inv(l')
    && l'.closing == l.closing
    && (forall u :: u != L.Poller ==> L.PcOf(l', u) == L.PcOf(l, u))
    && (forall j :: j != id ==> (L.Node(j) in l'.chain <==> L.Node(j) in l.chain))
    && (forall p :: p != L.Node(id) ==> (p in l'.owner <==> p in l.owner))
    && (forall p :: p != L.Node(id) && p in l.owner ==> l'.owner[p] == l.owner[p])
    && (L.Node(id) in l.owner && l.owner[L.Node(id)] != L.Poller ==> L.Node(id) in l'.owner && l'.owner[L.Node(id)] == l.owner[L.Node(id)])
  }

  ghost predicate PollerFrame(s: State, s': State, id: nat) {
    && s' == s.(l := s'.l, nodes := s'.nodes, poll := s'.poll, reports := s'.reports)
    && PollerList(s.l, s'.l, id)
    && (HasNode(s.poll.stage) ==> s.poll.id == id)
    && (L.Tracked(s'.l, id) ==> id in s.nodes)
    && (s'.nodes == s.nodes ||
          (id in s.nodes && id in s'.nodes && s'.nodes == s.nodes[id := s'.nodes[id]]
           && Evolves(s.nodes[id], s'.nodes[id], L.Poller) && s'.nodes[id].word.dropped == s.nodes[id].word.dropped))
  }

  lemma PollerOp(s: State, s': State, id: nat, u: Tid)
    requires Inv(s) && PollerFrame(s, s', id)
    ensures OpOk(s', u)
  {
    hide L.Inv;
    assert OpOk(s, u);
    var op := OpOf(s, u);
    if op.Doing? && s.handles[op.h].node == id && s'.nodes != s.nodes {
      EvolvesPlace(op, u, s.nodes[id], s'.nodes[id], L.Poller, s.l.closing);
    }
  }

  lemma PollerNode(s: State, s': State, id: nat, j: nat)
    requires Inv(s) && PollerFrame(s, s', id) && j != id && j in s.nodes
    ensures NodeOk(s', j) && (L.Node(j) in s'.l.owner ==> RightOk(s', j))
  {
    hide L.Inv;
    assert NodeOk(s, j);
    if L.Node(j) in s.l.owner { assert RightOk(s, j); }
  }

  lemma PollerKeeps(s: State, s': State, id: nat)
    requires Inv(s) && PollerFrame(s, s', id) && PollOk(s')
    requires id in s.nodes ==> NodeOk(s', id) && (L.Node(id) in s'.l.owner ==> RightOk(s', id))
    ensures Inv(s')
  {
    hide L.Inv;
    forall u ensures OpOk(s', u) { PollerOp(s, s', id, u); }
    forall j | j in s'.nodes ensures NodeOk(s', j) && (L.Node(j) in s'.l.owner ==> RightOk(s', j)) {
      if j != id { PollerNode(s, s', id, j); }
    }
    forall h | h in s'.handles ensures HandleOk(s', h) { assert HandleOk(s, h); }
    forall j | L.Tracked(s'.l, j) ensures j in s'.nodes { if j != id { assert L.Tracked(s.l, j); } }
  }

  predicate InList(con: L.PollPc) { L.Dequeuing(con) || con.Requeue? || con.Closing? }

  /** The data node an access of the polling thread may concern. */
  function Touched(l: L.List, l': L.List, other: nat): nat {
    if l'.con.Holding? then l'.con.id else if l.con.Requeue? then l.con.id else other
  }

  lemma ListAccessPolls(l: L.List, other: nat)
    requires L.Inv(l) && L.Dequeuing(l.con) && L.PcOf(l, L.Poller).Out?
    ensures var l' := ListAccess(l);
      && PollerList(l, l', Touched(l, l', other))
      && (forall j :: L.Tracked(l', j) <==> L.Tracked(l, j))
      && (L.Dequeuing(l'.con) || l'.con.Holding? || l'.con.GotNothing?)
      && (l'.con.Holding? ==> l'.owner.Keys >= {L.Node(l'.con.id)} && l'.owner[L.Node(l'.con.id)] == L.Poller)
      && (!l'.con.Holding? ==> l'.owner == l.owner && forall j :: L.Node(j) in l'.chain <==> L.Node(j) in l.chain)
  {
    L.ApplyKeeps(l, L.PollAccess);
    L.PollTracks(l);
    L.DeqFlow(l);
    ListAccessFacts(l, ListAccess(l), other);
  }

  lemma ListAccessFacts(l: L.List, l': L.List, other: nat)
    requires L.Rights(l) && L.Inv(l') && L.PollEffect(l, l') && !l.con.Requeue?
    ensures PollerList(l, l', Touched(l, l', other))
    ensures l'.con.Holding? ==> L.Node(l'.con.id) in l'.owner && l'.owner[L.Node(l'.con.id)] == L.Poller
    ensures !l'.con.Holding? ==> l'.owner == l.owner && forall j :: L.Node(j) in l'.chain <==> L.Node(j) in l.chain
  {
    forall j | L.Node(j) in l.chain && (l'.con.Holding? ==> j != l'.con.id) ensures L.Node(j) in l'.chain {
      assert L.Tracked(l, j) && L.Tracked(l', j) && L.Node(j) !in l.owner;
    }
  }

  lemma ListAccessPushes(l: L.List, other: nat)
    requires L.Inv(l) && L.PcOf(l, L.Poller).At? && InList(l.con)
    ensures var l' := ListAccess(l);
      && PollerList(l, l', Touched(l, l', other))
      && (forall j :: L.Tracked(l', j) <==> L.Tracked(l, j))
      && l'.con == (if L.PcOf(l', L.Poller).At? then l.con else L.PollerDone(l.con))
      && (!l.con.Requeue? ==> l'.owner == l.owner && forall j :: L.Node(j) in l'.chain <==> L.Node(j) in l.chain)
      && (l.con.Requeue? && L.Node(l.con.id) in l'.owner ==> l'.owner[L.Node(l.con.id)] == L.Poller)
  {
    assert L.PcOk(l, L.Poller);
    L.ApplyKeeps(l, L.PushAccess(L.Poller));
    L.PushTracks(l, L.Poller);
    L.PushFlow(l);
    if L.PcOf(l, L.Poller).Is(L.Reject) { L.RejectTracks(l, L.Poller); }
    ListPushFacts(l, ListAccess(l), other);
  }

  lemma ListPushFacts(l: L.List, l': L.List, other: nat)
    requires L.Rights(l) && L.Shape(l) && L.PollerPush(l) && L.Inv(l') && L.PushEffect(l, L.Poller, l') && !L.PcOf(l, L.Poller).Is(L.Reject)
    requires InList(l.con) && (l'.con == l.con || l'.con == L.PollerDone(l.con))
    ensures PollerList(l, l', Touched(l, l', other))
    ensures forall j :: L.Tracked(l', j) <==> L.Tracked(l, j)
    ensures !l.con.Requeue? ==> l'.owner == l.owner && forall j :: L.Node(j) in l'.chain <==> L.Node(j) in l.chain
    ensures l.con.Requeue? && L.Node(l.con.id) in l'.owner ==> l'.owner[L.Node(l.con.id)] == L.Poller
  {
    assert L.PcOk(l, L.Poller);
    if L.PcOf(l, L.Poller).Is(L.Link) {
      var k := L.PlaceOfLink(l, L.Poller);
      assert l.chain[k + 1] in l.chain;
    }
  }

  // The stages of the polling thread, one lemma each.

  lemma DequeueKeeps(s: State)
    requires Inv(s) && s.poll.stage == Dequeue
    ensures Inv(PollerStep(s))
  {
    var l', s' := ListAccess(s.l), PollerStep(s);
    if L.PcOf(s.l, L.Poller).At? {
      ListAccessPushes(s.l, s.poll.id);
      DequeueRest(s, l');
    } else {
      ListAccessPolls(s.l, s.poll.id);
      if l'.con.Holding? {
        DequeueDelivers(s, l', Load);
      } else if l'.con.GotNothing? {
        DequeueEnds(s, l', Resting);
      } else {
        DequeueRest(s, l');
      }
    }
  }

  /** The access found nothing to deliver yet. */
  lemma DequeueRest(s: State, l': L.List)
    requires Inv(s) && (s.poll.stage == Dequeue || s.poll.stage == CloseDequeue) && L.Dequeuing(l'.con)
    requires PollerList(s.l, l', s.poll.id) && l'.owner == s.l.owner
    requires forall j :: L.Node(j) in l'.chain <==> L.Node(j) in s.l.chain
    ensures Inv(s.(l := l'))
  {
    hide L.Inv;
    var id := s.poll.id;
    DequeueSame(s, l', s.poll, id);
    PollerKeeps(s, s.(l := l'), id);
  }

  /** Steps that move no data node and change no right leave the node's own facts alone. */
  lemma DequeueSame(s: State, l': L.List, p': PollOp, id: nat)
    requires Inv(s) && l'.owner == s.l.owner && l'.closing == s.l.closing && !HasNode(s.poll.stage)
    requires forall j :: L.Node(j) in l'.chain <==> L.Node(j) in s.l.chain
    requires forall u :: u != L.Poller ==> L.PcOf(l', u) == L.PcOf(s.l, u)
    ensures var s' := s.(l := l', poll := p');
      && (id in s.nodes ==> NodeOk(s', id) && (L.Node(id) in s'.l.owner ==> RightOk(s', id)))
      && (L.Tracked(l', id) ==> id in s.nodes)
  {
    hide L.Inv;
    assert L.Tracked(l', id) <==> L.Tracked(s.l, id);
    if id in s.nodes {
      assert NodeOk(s, id);
      if L.Node(id) in s.l.owner { assert RightOk(s, id); }
    }
  }

  /** The dequeue returns the node it took out of the list. */
  lemma DequeueDelivers(s: State, l': L.List, stage: PollStage)
    requires Inv(s) && l'.con.Holding?
    requires (s.poll.stage == Dequeue && stage == Load) || (s.poll.stage == CloseDequeue && stage == CloseLoad)
    requires PollerList(s.l, l', l'.con.id) && (forall j :: L.Tracked(l', j) <==> L.Tracked(s.l, j))
    requires L.Node(l'.con.id) in l'.owner && l'.owner[L.Node(l'.con.id)] == L.Poller
    ensures Inv(s.(l := l', poll := s.poll.(stage := stage, id := l'.con.id)))
  {
    hide L.Inv;
    var id := l'.con.id;
    var s' := s.(l := l', poll := s.poll.(stage := stage, id := id));
    assert L.Tracked(l', id) && L.Tracked(s.l, id);
    assert NodeOk(s, id);
    assert L.Node(id) in s.l.owner ==> RightOk(s, id);
    PollerKeeps(s, s', id);
  }

  /** The dequeue reports that there is nothing. */
  lemma DequeueEnds(s: State, l': L.List, stage: PollStage)
    requires Inv(s) && s.poll.stage == Dequeue && stage == Resting && l'.con.GotNothing?
    requires PollerList(s.l, l', s.poll.id) && l'.owner == s.l.owner
    requires forall j :: L.Node(j) in l'.chain <==> L.Node(j) in s.l.chain
    ensures Inv(s.(l := L.Apply(l', L.ReleaseHeld), poll := s.poll.(stage := stage)))
  {
    L.ApplyKeeps(l', L.ReleaseHeld);
    ToIdle(s, l', s.poll.(stage := stage));
  }

  lemma ToIdle(s: State, l': L.List, p': PollOp)
    requires Inv(s) && s.poll.stage == Dequeue && p' == s.poll.(stage := Resting)
    requires PollerList(s.l, l', s.poll.id) && l'.owner == s.l.owner && L.Inv(l'.(con := L.Idle))
    requires forall j :: L.Node(j) in l'.chain <==> L.Node(j) in s.l.chain
    ensures Inv(s.(l := l'.(con := L.Idle), poll := p'))
  {
    hide L.Inv;
    var l2 := l'.(con := L.Idle);
    assert forall u :: u != L.Poller ==> L.PcOf(l2, u) == L.PcOf(s.l, u);
    DequeueSame(s, l2, p', s.poll.id);
    PollerKeeps(s, s.(l := l2, poll := p'), s.poll.id);
  }

  lemma RequeueStepKeeps(s: State)
    requires Inv(s) && s.poll.stage == Requeue
    ensures Inv(PollerStep(s))
  {
    hide L.Inv, NodeOk, OpOk, HandleOk, RightOk;
    var l', s', id := ListAccess(s.l), PollerStep(s), s.poll.id;
    RequeueAt(s.l, id);
    ListAccessPushes(s.l, id);
    L.RequeuePlace(s.l);
    hide L.PushStep;
    RequeueKeeps(s, l', s');
  }

  lemma RequeueAt(l: L.List, id: nat)
    requires L.Inv(l) && l.con == L.Requeue(id)
    ensures L.PcOf(l, L.Poller).At? && L.PcOf(l, L.Poller).n == L.Node(id) && !L.PcOf(l, L.Poller).Is(L.Reject)
  {
    assert L.PcOk(l, L.Poller);
  }

  lemma RequeueKeeps(s: State, l': L.List, s': State)
    requires Inv(s) && s.poll.stage == Requeue && PollerList(s.l, l', s.poll.id)
    requires forall j :: L.Tracked(l', j) <==> L.Tracked(s.l, j)
    requires l'.con == (if L.PcOf(l', L.Poller).At? then s.l.con else L.Idle)
    requires L.Node(s.poll.id) in l'.owner ==> l'.owner[L.Node(s.poll.id)] == L.Poller && L.PcOf(l', L.Poller).At?
    requires L.Tracked(s.l, s.poll.id)
    requires s' == s.(l := l', poll :=
      if l'.con.Idle? then s.poll.(stage := if s.poll.ready != NONE then Read else Top) else s.poll)
    ensures Inv(s')
  {
    var id := s.poll.id;
    RequeuedNode(s, l', s');
    PollerKeeps(s, s', id);
  }

  /** A node on its way back into the list is still held by the queue. */
  lemma RequeuedNode(s: State, l': L.List, s': State)
    requires Inv(s) && s.poll.stage == Requeue && PollerList(s.l, l', s.poll.id)
    requires forall j :: L.Tracked(l', j) <==> L.Tracked(s.l, j)
    requires l'.con == (if L.PcOf(l', L.Poller).At? then s.l.con else L.Idle)
    requires L.Node(s.poll.id) in l'.owner ==> l'.owner[L.Node(s.poll.id)] == L.Poller && L.PcOf(l', L.Poller).At?
    requires L.Tracked(s.l, s.poll.id)
    requires s' == s.(l := l', poll :=
      if l'.con.Idle? then s.poll.(stage := if s.poll.ready != NONE then Read else Top) else s.poll)
    ensures NodeOk(s', s.poll.id) && (L.Node(s.poll.id) in l'.owner ==> RightOk(s', s.poll.id)) && PollOk(s')
  {
    hide L.Inv;
    var id := s.poll.id;
    assert NodeOk(s, id);
    assert L.Tracked(l', id) <==> L.Tracked(s.l, id);
    assert L.Node(id) in s.l.owner ==> RightOk(s, id);
  }

  /** The polling thread holds the node of the word it is about to decide on. */
  ghost predicate Deciding(s: State, id: nat, n: Node) {
    (s.poll.stage == Load || s.poll.stage == Swap) && id == s.poll.id && id in s.nodes && n == s.nodes[id]
  }

  function ActList(s: State, next: Word): L.List {
    L.Apply(s.l, if next.queued then L.BeginRequeue else L.ReleaseHeld)
  }

  lemma ActListOk(s: State, id: nat, n: Node, next: Word)
    requires Inv(s) && Deciding(s, id, n)
    ensures PollerList(s.l, ActList(s, next), id)
    ensures var l' := ActList(s, next);
      && l'.chain == s.l.chain
      && (if next.queued then l'.con == L.Requeue(id) && L.Node(id) in l'.owner && l'.owner[L.Node(id)] == L.Poller
          else l'.con == L.Idle && L.Node(id) !in l'.owner)
    ensures L.Node(id) in s.l.owner && L.Node(id) !in s.l.chain
  {
    hide NodeOk, HandleOk, OpOk, HandlesOf;
    if next.queued {
      L.ApplyKeeps(s.l, L.BeginRequeue);
    } else {
      L.ApplyKeeps(s.l, L.ReleaseHeld);
    }
  }

  lemma ActKeeps(s: State, id: nat, n: Node)
    requires Inv(s) && Deciding(s, id, n) && !n.word.dropped
    ensures Inv(Act(SetNode(s, id, n.(word := PollNext(n.word))), n.word, PollNext(n.word), n.slots))
  {
    var n' := n.(word := PollNext(n.word));
    var s' := Act(SetNode(s, id, n'), n.word, PollNext(n.word), n.slots);
    ActListOk(s, id, n, PollNext(n.word));
    ActOk(s, id, n, s');
    PollerKeeps(s, s', id);
  }

  lemma ActOk(s: State, id: nat, n: Node, s': State)
    requires Inv(s) && Deciding(s, id, n) && !n.word.dropped
    requires s' == Act(SetNode(s, id, n.(word := PollNext(n.word))), n.word, PollNext(n.word), n.slots)
    requires L.Node(id) in s.l.owner && L.Node(id) !in s.l.chain
    requires var l' := ActList(s, PollNext(n.word));
      && PollerList(s.l, l', id) && l'.chain == s.l.chain
      && (if PollNext(n.word).queued then l'.con == L.Requeue(id) && L.Node(id) in l'.owner && l'.owner[L.Node(id)] == L.Poller
          else l'.con == L.Idle && L.Node(id) !in l'.owner)
    ensures NodeOk(s', id) && (L.Node(id) in s'.l.owner ==> RightOk(s', id)) && PollOk(s') && PollerFrame(s, s', id)
  {
    hide L.Inv, Inv, L.Apply, HandlesOf, HandleOk, OpOk, NodeOk, RightOk, PollOk, PollerFrame, Act, PollNext;
    ActNodeOk(s, id, n, s');
    ActPollOk(s, id, n, s');
  }

  lemma ActNodeOk(s: State, id: nat, n: Node, s': State)
    requires Inv(s) && Deciding(s, id, n) && !n.word.dropped
    requires s' == Act(SetNode(s, id, n.(word := PollNext(n.word))), n.word, PollNext(n.word), n.slots)
    requires L.Node(id) in s.l.owner && L.Node(id) !in s.l.chain
    requires var l' := ActList(s, PollNext(n.word));
      && PollerList(s.l, l', id) && l'.chain == s.l.chain
      && (if PollNext(n.word).queued then l'.con == L.Requeue(id) && L.Node(id) in l'.owner && l'.owner[L.Node(id)] == L.Poller
          else l'.con == L.Idle && L.Node(id) !in l'.owner)
    ensures NodeOk(s', id) && (L.Node(id) in s'.l.owner ==> RightOk(s', id))
  {
    hide L.Inv, L.Apply, HandlesOf, HandleOk, OpOk;
    assert NodeOk(s, id) && RightOk(s, id);
    assert s'.l == ActList(s, PollNext(n.word));
  }

  lemma ActPollOk(s: State, id: nat, n: Node, s': State)
    requires Inv(s) && Deciding(s, id, n) && !n.word.dropped
    requires s' == Act(SetNode(s, id, n.(word := PollNext(n.word))), n.word, PollNext(n.word), n.slots)
    requires L.Node(id) in s.l.owner && L.Node(id) !in s.l.chain
    requires var l' := ActList(s, PollNext(n.word));
      && PollerList(s.l, l', id) && l'.chain == s.l.chain
      && (if PollNext(n.word).queued then l'.con == L.Requeue(id) && L.Node(id) in l'.owner && l'.owner[L.Node(id)] == L.Poller
          else l'.con == L.Idle && L.Node(id) !in l'.owner)
    ensures PollOk(s') && PollerFrame(s, s', id)
  {
    hide L.Inv, L.Apply, HandlesOf, HandleOk, OpOk, NodeOk;
    assert RightOk(s, id);
    assert s'.l == ActList(s, PollNext(n.word));
  }

  lemma SawWordKeeps(s: State, id: nat, n: Node)
    requires Inv(s) && Deciding(s, id, n)
    ensures Inv(SawWord(s, n.word, n.slots))
  {
    if !n.word.dropped && PollNext(n.word) == n.word {
      assert s.nodes[id := n] == s.nodes;
      ActKeeps(s, id, n);
      assert SetNode(s, id, n.(word := PollNext(n.word))) == s;
    } else {
      SawMoves(s, id, n);
    }
  }

  lemma SawMoves(s: State, id: nat, n: Node)
    requires Inv(s) && Deciding(s, id, n) && (n.word.dropped || PollNext(n.word) != n.word)
    ensures Inv(SawWord(s, n.word, n.slots))
  {
    var s' := SawWord(s, n.word, n.slots);
    assert NodeOk(s, id) && (L.Node(id) in s.l.owner ==> RightOk(s, id));
    HeldTracked(s, id);
    SamePollerList(s.l, id);
    hide L.Inv;
    PollerKeeps(s, s', id);
  }

  lemma HeldTracked(s: State, id: nat)
    requires Inv(s) && HasNode(s.poll.stage) && s.poll.stage != Requeue && id == s.poll.id
    ensures L.Node(id) in s.l.owner && s.l.owner[L.Node(id)] == L.Poller && L.Tracked(s.l, id)
  {
  }

  lemma SamePollerList(l: L.List, id: nat)
    requires L.Inv(l)
    ensures PollerList(l, l, id)
  {
  }

  lemma SwapKeeps(s: State)
    requires Inv(s) && s.poll.stage == Swap
    ensures Inv(PollerStep(s))
  {
    var id := s.poll.id;
    if s.nodes[id].word == s.poll.seen {
      ActKeeps(s, id, s.nodes[id]);
    } else {
      SawWordKeeps(s, id, s.nodes[id]);
    }
  }

  // Releasing the queue's handle from the polling thread.

  ghost predicate Retiring(s: State, id: nat) {
    (s.poll.stage == DropNode || s.poll.stage == CloseRelease) && id == s.poll.id && id in s.nodes
  }

  function Retired(s: State, id: nat, l': L.List, stage: PollStage): State
    requires id in s.nodes
  {
    Goto(SetNode(s.(l := l'), id, Retire(s.nodes[id])), stage)
  }

  /** A node is being bound only while it is not dropped and its queue lives. */
  lemma BinderLives(s: State, id: nat)
    requires Inv(s) && id in s.nodes
    ensures s.nodes[id].binder != L.Poller ==> !s.nodes[id].word.dropped && !s.l.closing
  {
    hide L.Inv;
    var b := s.nodes[id].binder;
    assert NodeOk(s, id) && OpOk(s, b);
    if b != L.Poller { assert HandleOk(s, OpOf(s, b).h); }
  }

  lemma NoBinder(s: State, id: nat)
    requires Inv(s) && Retiring(s, id)
    ensures s.nodes[id].binder == L.Poller
  {
    hide L.Inv;
    BinderLives(s, id);
  }

  /** The queue lets go of a node exactly once: it held the node, and never will again. */
  lemma RetireKeeps(s: State, id: nat, l': L.List, stage: PollStage)
    requires Inv(s) && Retiring(s, id) && PollerList(s.l, l', id) && L.Node(id) !in l'.owner && l'.chain == s.l.chain
    requires (s.poll.stage == DropNode && stage == Top && l'.con == L.Idle)
      || (s.poll.stage == CloseRelease && stage == CloseDequeue && l'.con == L.Deq({}))
    ensures s.nodes[id].holds && s.nodes[id].releases == 0
    ensures Inv(Retired(s, id, l', stage))
  {
    hide L.Inv, HandlesOf, PlaceOk, OpOk, HandleOk, RightOk;
    HeldTracked(s, id);
    NoBinder(s, id);
    RetiredOk(s, id, l', stage);
    PollerKeeps(s, Retired(s, id, l', stage), id);
  }

  lemma RetiredOk(s: State, id: nat, l': L.List, stage: PollStage)
    requires Inv(s) && Retiring(s, id) && PollerList(s.l, l', id) && L.Node(id) !in l'.owner && l'.chain == s.l.chain
    requires L.Node(id) in s.l.owner && s.l.owner[L.Node(id)] == L.Poller && L.Tracked(s.l, id) && s.nodes[id].binder == L.Poller
    requires (s.poll.stage == DropNode && stage == Top && l'.con == L.Idle)
      || (s.poll.stage == CloseRelease && stage == CloseDequeue && l'.con == L.Deq({}))
    ensures s.nodes[id].holds && s.nodes[id].releases == 0
    ensures NodeOk(Retired(s, id, l', stage), id) && PollOk(Retired(s, id, l', stage))
  {
    hide L.Inv, HandlesOf;
    assert NodeOk(s, id) && RightOk(s, id);
    OwnedIsOut(s.l, id);
  }

  lemma OwnedIsOut(l: L.List, id: nat)
    requires L.Inv(l) && L.Node(id) in l.owner
    ensures L.Node(id) !in l.chain
  {}

  lemma RetireStepKeeps(s: State)
    requires Inv(s) && (s.poll.stage == DropNode || s.poll.stage == CloseRelease)
    ensures Inv(PollerStep(s))
  {
    hide HandlesOf, NodeOk, OpOk, HandleOk, RightOk;
    var id, l1 := s.poll.id, L.Apply(s.l, L.ReleaseHeld);
    HeldTracked(s, id);
    GivesUp(s.l, id);
    if s.poll.stage == DropNode {
      RetireKeeps(s, id, l1, Top);
    } else {
      L.ApplyKeeps(l1, L.BeginDeq({}));
      RetireKeeps(s, id, L.Apply(l1, L.BeginDeq({})), CloseDequeue);
    }
  }

  lemma GivesUp(l: L.List, id: nat)
    requires L.Inv(l) && l.con == L.Holding(id)
    ensures var l' := L.Apply(l, L.ReleaseHeld);
      PollerList(l, l', id) && l'.con == L.Idle && L.Node(id) !in l'.owner && l'.chain == l.chain
  {
    L.ApplyKeeps(l, L.ReleaseHeld);
  }

  // Steps of the polling thread that move no data node.

  /** The list keeps its data nodes and everybody's rights. */
  ghost predicate QuietList(l: L.List, l': L.List) {
    && L.Inv(l')
    && (l.closing ==> l'.closing)
    && l'.owner == l.owner
    && (forall j :: L.Node(j) in l'.chain <==> L.Node(j) in l.chain)
    && (forall u :: u != L.Poller ==> L.PcOf(l', u) == L.PcOf(l, u))
  }

  lemma QuietKeeps(s: State, l': L.List, p': PollOp, reports': seq<Report>)
    requires Inv(s) && QuietList(s.l, l') && (!HasNode(s.poll.stage) || (HasNode(p'.stage) && p'.id == s.poll.id))
    requires PollOk(s.(l := l', poll := p', reports := reports'))
    requires l'.closing != s.l.closing ==> forall t :: OpOf(s, t).Doing? ==> !InUpdate(OpOf(s, t).stage)
    ensures Inv(s.(l := l', poll := p', reports := reports'))
  {
    var s' := s.(l := l', poll := p', reports := reports');
    QuietOps(s, s');
    QuietNodes(s, s');
    hide L.Inv;
    forall h | h in s'.handles ensures HandleOk(s', h) { assert HandleOk(s, h); }
    forall j | L.Tracked(s'.l, j) ensures j in s'.nodes { assert L.Tracked(s.l, j); }
  }

  lemma QuietOps(s: State, s': State)
    requires Inv(s) && QuietList(s.l, s'.l) && s' == s.(l := s'.l, poll := s'.poll, reports := s'.reports)
    requires s'.l.closing != s.l.closing ==> forall t :: OpOf(s, t).Doing? ==> !InUpdate(OpOf(s, t).stage)
    ensures forall u :: OpOk(s', u)
  {
    hide L.Inv;
    forall u ensures OpOk(s', u) { assert OpOk(s, u); }
  }

  lemma QuietNodes(s: State, s': State)
    requires Inv(s) && QuietList(s.l, s'.l) && s' == s.(l := s'.l, poll := s'.poll, reports := s'.reports)
    requires !HasNode(s.poll.stage) || (HasNode(s'.poll.stage) && s'.poll.id == s.poll.id)
    ensures forall j :: j in s.nodes ==> NodeOk(s', j)
    ensures forall j :: L.Node(j) in s'.l.owner && j in s'.nodes ==> RightOk(s', j)
  {
    hide L.Inv;
    forall j | j in s.nodes ensures NodeOk(s', j) {
      assert NodeOk(s, j);
      assert L.Tracked(s'.l, j) <==> L.Tracked(s.l, j);
    }
    forall j | L.Node(j) in s'.l.owner && j in s'.nodes ensures RightOk(s', j) { assert RightOk(s, j); }
  }

  lemma QuietSelf(l: L.List)
    requires L.Inv(l)
    ensures QuietList(l, l)
  {
  }

  lemma QuietDeq(l: L.List, until: set<L.Ptr>)
    requires L.Inv(l) && (l.con.Idle? || l.con.GotNothing?)
    ensures QuietList(l, L.Apply(l, L.BeginDeq(until))) && L.Apply(l, L.BeginDeq(until)).con == L.Deq(until)
  {
    L.ApplyKeeps(l, L.BeginDeq(until));
  }

  lemma QuietTrans(l: L.List, l1: L.List, l2: L.List)
    requires QuietList(l, l1) && QuietList(l1, l2)
    ensures QuietList(l, l2)
  {
  }

  lemma ReadKeeps(s: State)
    requires Inv(s) && s.poll.stage == Read
    ensures Inv(PollerStep(s))
  {
    QuietSelf(s.l);
    var s' := PollerStep(s);
    QuietKeeps(s, s.l, s'.poll, s'.reports);
  }

  lemma CloseLoadKeeps(s: State)
    requires Inv(s) && s.poll.stage == CloseLoad
    ensures Inv(PollerStep(s))
  {
    QuietSelf(s.l);
    QuietKeeps(s, s.l, s.poll.(stage := CloseRelease), s.reports);
  }

  lemma LoopKeeps(s: State, a: Action)
    requires Inv(s) && Enabled(s, a) && (a.StartPoll? || a.NextNode? || a.EventsFull?)
    ensures Inv(Apply(s, a))
  {
    if a.EventsFull? {
      QuietSelf(s.l);
      QuietKeeps(s, s.l, s.poll.(stage := Resting), s.reports);
    } else {
      LoopDeqKeeps(s, if a.StartPoll? then {} else s.poll.until);
    }
  }

  lemma LoopDeqKeeps(s: State, until: set<L.Ptr>)
    requires Inv(s) && s.l.con.Idle? && (s.poll.stage == Resting || s.poll.stage == Top)
    requires !s.l.closing
    ensures Inv(s.(l := L.Apply(s.l, L.BeginDeq(until)), poll := s.poll.(stage := Dequeue, until := until)))
  {
    QuietDeq(s.l, until);
    QuietKeeps(s, L.Apply(s.l, L.BeginDeq(until)), s.poll.(stage := Dequeue, until := until), s.reports);
  }

  lemma RestKeeps(s: State, a: L.Action)
    requires Inv(s) && s.poll.stage == Resting && L.Enabled(s.l, a)
    requires a.BeginSleep? || a.PollAccess? || a.SelectReturns? || a.BeginClear?
    ensures Inv(s.(l := L.Apply(s.l, a)))
  {
    var l' := L.Apply(s.l, a);
    L.ApplyKeeps(s.l, a);
    if a.PollAccess? {
      L.RestFlow(s.l);
      L.PollTracks(s.l);
      ListAccessFacts(s.l, l', 0);
    }
    RestQuiet(s.l, l', a);
    QuietKeeps(s, l', s.poll, s.reports);
  }

  lemma RestQuiet(l: L.List, l': L.List, a: L.Action)
    requires l' == L.Apply(l, a) && L.Inv(l') && L.Resting(l.con) && L.Enabled(l, a)
    requires a.PollAccess? ==> L.PollEffect(l, l') && L.Resting(l'.con) && l'.owner == l.owner && forall j :: L.Node(j) in l'.chain <==> L.Node(j) in l.chain
    requires a.BeginSleep? || a.PollAccess? || a.SelectReturns? || a.BeginClear?
    ensures QuietList(l, l') && L.Resting(l'.con) && l'.closing == l.closing
  {
  }

  lemma CloseStartKeeps(s: State)
    requires Inv(s) && Enabled(s, DropQueueCall)
    ensures Inv(Apply(s, DropQueueCall))
  {
    hide L.Inv;
    var l' := L.Apply(s.l, L.BeginClose);
    L.ApplyKeeps(s.l, L.BeginClose);
    assert QuietList(s.l, l') && l'.con == L.Closing;
    QuietKeeps(s, l', s.poll.(stage := PushClosed), s.reports);
  }

  lemma PushClosedKeeps(s: State)
    requires Inv(s) && s.poll.stage == PushClosed
    ensures Inv(PollerStep(s))
  {
    var l' := ListAccess(s.l);
    assert L.PcOf(s.l, L.Poller).At?;
    ListAccessPushes(s.l, 0);
    assert QuietList(s.l, l');
    if l'.con.Idle? {
      CloseGoesOn(s, l', s.poll.(stage := CloseDequeue));
    } else {
      QuietKeeps(s, l', s.poll, s.reports);
    }
  }

  /** The queue's drop looks for the next node to release. */
  lemma CloseGoesOn(s: State, l': L.List, p': PollOp)
    requires Inv(s) && (s.poll.stage == PushClosed || s.poll.stage == CloseDequeue) && QuietList(s.l, l') && l'.closing == s.l.closing
    requires (l'.con.Idle? || l'.con.GotNothing?) && p' == s.poll.(stage := CloseDequeue)
    ensures Inv(s.(l := L.Apply(l', L.BeginDeq({})), poll := p'))
  {
    hide L.Inv;
    QuietDeq(l', {});
    QuietTrans(s.l, l', L.Apply(l', L.BeginDeq({})));
    QuietKeeps(s, L.Apply(l', L.BeginDeq({})), p', s.reports);
  }

  lemma CloseEnds(s: State, l': L.List)
    requires Inv(s) && s.poll.stage == CloseDequeue && QuietList(s.l, l') && l'.con.GotNothing? && l'.closing == s.l.closing
    ensures Inv(s.(l := L.Apply(l', L.ReleaseHeld), poll := s.poll.(stage := Gone)))
  {
    hide L.Inv;
    QuietRelease(l');
    QuietTrans(s.l, l', L.Apply(l', L.ReleaseHeld));
    QuietKeeps(s, L.Apply(l', L.ReleaseHeld), s.poll.(stage := Gone), s.reports);
  }

  lemma CloseDequeueKeeps(s: State)
    requires Inv(s) && s.poll.stage == CloseDequeue
    ensures Inv(PollerStep(s))
  {
    var l' := ListAccess(s.l);
    if L.PcOf(s.l, L.Poller).At? {
      ListAccessPushes(s.l, s.poll.id);
      DequeueRest(s, l');
    } else {
      ListAccessPolls(s.l, s.poll.id);
      if l'.con.Holding? {
        DequeueDelivers(s, l', CloseLoad);
      } else if l'.con.GotNothing? {
        CloseEmpty(s, l');
      } else {
        DequeueRest(s, l');
      }
    }
  }

  lemma CloseEmpty(s: State, l': L.List)
    requires Inv(s) && s.poll.stage == CloseDequeue && l' == ListAccess(s.l) && l'.con.GotNothing?
    requires QuietList(s.l, l') && l'.closing == s.l.closing
    ensures Inv(PollerStep(s))
  {
    if l'.con.inconsistent {
      CloseGoesOn(s, l', s.poll);
    } else {
      CloseEnds(s, l');
    }
  }

  lemma QuietRelease(l: L.List)
    requires L.Inv(l) && l.con.GotNothing?
    ensures QuietList(l, L.Apply(l, L.ReleaseHeld)) && L.Apply(l, L.ReleaseHeld).con == L.Idle
  {
    L.ApplyKeeps(l, L.ReleaseHeld);
  }

  lemma PollerStepKeeps(s: State)
    requires Inv(s) && s.poll.stage != Resting && s.poll.stage != Top && s.poll.stage != Gone
    ensures Inv(PollerStep(s))
  {
    match s.poll.stage
    case Dequeue => DequeueKeeps(s);
    case Load => SawWordKeeps(s, s.poll.id, s.nodes[s.poll.id]);
    case Swap => SwapKeeps(s);
    case DropNode => RetireStepKeeps(s);
    case Requeue => RequeueStepKeeps(s);
    case Read => ReadKeeps(s);
    case PushClosed => PushClosedKeeps(s);
    case CloseDequeue => CloseDequeueKeeps(s);
    case CloseLoad => CloseLoadKeeps(s);
    case CloseRelease => RetireStepKeeps(s);
  }

  /** Every action of every thread keeps the invariant. */
  lemma ApplyKeeps(s: State, a: Action)
    requires Inv(s) && Enabled(s, a)
    ensures Inv(Apply(s, a))
  {
    match a
    case NewUnbound(id, h1, h2) => NewKeeps(s, id, h1, h2, Unregistered());
    case NewBound(id, h1, h2, u) => NewKeeps(s, id, h1, h2, Registered(u));
    case CloneHandle(h, h1) =>
      assert HandleOk(s, h);
      CloneKeeps(s, h, h1);
    case CallSet(t, h, ready) => SetStartKeeps(s, t, h, ready);
    case CallUpdate(t, h, u) => UpdateStartKeeps(s, t, h, u);
    case CallDrop(t, h) => DropStartKeeps(s, t, h);
    case Step(t) => StepKeeps(s, t);
    case RestStep(a) => RestKeeps(s, a);
    case StartPoll => LoopKeeps(s, a);
    case NextNode => LoopKeeps(s, a);
    case EventsFull => LoopKeeps(s, a);
    case PollStep => PollerStepKeeps(s);
    case DropQueueCall => CloseStartKeeps(s);
  }

  lemma InitialOk()
    ensures Inv(Initial)
  {
    L.InitialOk();
  }
}
