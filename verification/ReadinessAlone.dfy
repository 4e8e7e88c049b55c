/**
  Every call on a registration, and every turn of the poll loop, comes to an end when nobody disturbs it, and does what
  it is for.
*/
module ReadinessAlone {
  import L = ReadinessList
  import A = ReadinessListAlone
  import opened ReadinessNodes
  import opened ReadinessFacts
  import opened ReadinessReports
  import opened ReadinessTold

  // ---------------------------------------------------------------------------------------------
  // Calls of ordinary threads
  // ---------------------------------------------------------------------------------------------

  /** The state after n steps of thread t in a row. */
  function Alone(s: State, t: Tid, n: nat): State
    decreases n
  {
    if n == 0 then s else Alone(ThreadStep(s, t), t, n - 1)
  }

  /** How many steps a call still needs at most, by its place, the node's word and its push. */
  function StageLeft(op: Op, w: Word, push: nat): nat {
    if op.Free? then 0
    else match op.stage
      case SetLoad => 8
      case SetSwap => if w == op.seen then 7 else 8
      case SetQueue => 6
      case SetPush => push
      case BindLoad => 15
      case BindSwap => 14
      case BindCount => 13
      case Lock => 12
      case UpdLoad => 11
      case UpdRead => 10
      case UpdWrite => 9
      case UpdSwap => if w == op.seen then 7 else 8
      case UnlockPush => 6
      case Unlock => 1
      case UpdPush => push
      case Flag => 8
      case DropQueue => 7
      case DropPush => 1 + push
      case Release => 1
  }

  /** Whatever is left of a push, less is left of the call. */
  ghost predicate Shorter(op: Op, n: Node, n': Node, op': Op) {
    forall left: nat, left': nat {:trigger StageLeft(op', n'.word, left'), StageLeft(op, n.word, left)} ::
      StageLeft(op', n'.word, left') < StageLeft(op, n.word, left)
  }

  function WordOf(s: State, id: nat): Word { if id in s.nodes then s.nodes[id].word else ZeroWord }

  function NodeOf(s: State, t: Tid): nat {
    if OpOf(s, t).Doing? && OpOf(s, t).h in s.handles then s.handles[OpOf(s, t).h].node else 0
  }

  function OpLeft(s: State, t: Tid): nat {
    StageLeft(OpOf(s, t), WordOf(s, NodeOf(s, t)), A.PushLeft(s.l, t))
  }

  /** What thread t's call, from where it is, still has to tell its node. */
  function Telling(op: Op, n: Node): Told
    requires op.Doing?
  {
    var td := Says(n);
    if (op.stage == SetLoad || op.stage == SetSwap) && !n.word.dropped then td.(ready := op.ready)
    else if Unpublished(op.stage) || (Unlocked(op.stage) && !n.locked) then
      td.(interest := op.u.interest, opt := op.u.opt, token := op.u.token)
    else td
  }

  /** In `update`, before the update lock was taken, and then before the swap. */
  predicate Unlocked(st: Stage) { st == BindLoad || st == BindSwap || st == BindCount || st == Lock }

  predicate Binds(st: Stage) { st == BindLoad || st == BindSwap }

  predicate Unpublished(st: Stage) { st == UpdLoad || st == UpdRead || st == UpdWrite || st == UpdSwap }

  /** The call has still to tell its node something. */
  predicate Tells(op: Op, n: Node)
    requires op.Doing?
  {
    || ((op.stage == SetLoad || op.stage == SetSwap) && !n.word.dropped)
    || Unpublished(op.stage) || (Unlocked(op.stage) && !n.locked)
  }

  /** What the call of thread t on node id, from where it is in n, has come to in n'. */
  ghost predicate NodeDone(op: Op, n: Node, n': Node)
    requires op.Doing?
  {
    && Says(n') == Telling(op, n)
    && (Tells(op, n) && Overlap(Telling(op, n)) ==> n'.word.queued)
    && (n.word.queued || op.stage == Flag ==> n'.word.queued)
    && (n'.locked <==> n.locked && !HoldsLock(op.stage))
    && (n'.word.dropped <==> n.word.dropped || op.stage == Flag)
    && (n.bound ==> n'.bound)
    && (Binds(op.stage) ==> n'.bound)
  }

  /** One step of a call, from place op and node n to op' and n': it is through, or leaves the call to do the rest. */
  ghost predicate StepOk(op: Op, n: Node, op': Op, n': Node)
    requires op.Doing?
  {
    if op'.Free? then NodeDone(op, n, n')
    else
      && op'.h == op.h && op'.ready == op.ready && op'.u == op.u && (Owned(op'.stage) <==> Owned(op.stage))
      && (Tells(op', n') ==> Says(n') == Says(n) && Telling(op', n') == Telling(op, n) && Tells(op, n))
      && (!Tells(op', n') ==> Says(n') == Telling(op, n) && (Tells(op, n) && Overlap(Telling(op, n)) ==> n'.word.queued))
      && (n.word.queued || op.stage == Flag ==> n'.word.queued || op'.stage == Flag)
      && ((n'.locked && !HoldsLock(op'.stage)) <==> (n.locked && !HoldsLock(op.stage)))
      && (n'.word.dropped || op'.stage == Flag <==> n.word.dropped || op.stage == Flag)
      && (n.bound ==> n'.bound)
      && (Binds(op.stage) ==> n'.bound || Binds(op'.stage))
  }

  lemma NodeGoesOn(op: Op, n: Node, op': Op, n': Node, n'': Node)
    requires op.Doing? && op'.Doing? && StepOk(op, n, op', n') && NodeDone(op', n', n'')
    ensures NodeDone(op, n, n'')
  {}

  /** What a step of thread t on node id leaves alone. */
  ghost predicate Frames(s: State, t: Tid, id: nat, s': State) {
    && id in s'.nodes && s'.nodes == s.nodes[id := s'.nodes[id]] && s'.poll == s.poll
    && s'.l.closing == s.l.closing
    && (forall u :: u != t ==> OpOf(s', u) == OpOf(s, u))
    && (forall u :: u != t ==> L.PcOf(s'.l, u) == L.PcOf(s.l, u))
  }

  /** The state after a step that changes the list, the node and the thread's place. */
  function Result(s: State, t: Tid, id: nat, l: L.List, n: Node, op: Op): State { SetOp(SetNode(s.(l := l), id, n), t, op) }

  lemma ResultFrames(s: State, t: Tid, id: nat, l: L.List, n: Node, op: Op)
    requires l.closing == s.l.closing && forall u :: u != t ==> L.PcOf(l, u) == L.PcOf(s.l, u)
    ensures var s' := Result(s, t, id, l, n, op);
      Frames(s, t, id, s') && s'.handles == s.handles && OpOf(s', t) == op && s'.nodes[id] == n && s'.l == l
  {}

  /** The step s' of thread t is one of its call on node id, and brings it nearer to its end. */
  ghost predicate Advances(s: State, t: Tid, op: Op, id: nat, n: Node, s': State)
    requires op.Doing?
  {
    && Frames(s, t, id, s') && s'.handles == s.handles && StepOk(op, n, OpOf(s', t), s'.nodes[id])
    && StageLeft(OpOf(s', t), s'.nodes[id].word, A.PushLeft(s'.l, t)) < StageLeft(op, n.word, A.PushLeft(s.l, t))
  }

  lemma ResultAdvances(s: State, t: Tid, op: Op, id: nat, n: Node, l: L.List, n': Node, op': Op)
    requires op.Doing? && l.closing == s.l.closing && forall u :: u != t ==> L.PcOf(l, u) == L.PcOf(s.l, u)
    requires StepOk(op, n, op', n') && StageLeft(op', n'.word, A.PushLeft(l, t)) < StageLeft(op, n.word, A.PushLeft(s.l, t))
    ensures Advances(s, t, op, id, n, Result(s, t, id, l, n', op'))
  {
    hide StepOk, StageLeft, A.PushLeft;
    ResultFrames(s, t, id, l, n', op');
  }

  lemma SameNode(s: State, t: Tid, id: nat, op: Op)
    requires id in s.nodes
    ensures SetOp(s, t, op) == Result(s, t, id, s.l, s.nodes[id], op)
  {
    assert s.nodes[id := s.nodes[id]] == s.nodes;
  }

  lemma BeginFrames(l: L.List, t: Tid, id: nat)
    ensures var l' := L.Apply(l, L.BeginPush(t, id));
      l'.closing == l.closing && A.PushLeft(l', t) == 5 && forall u :: u != t ==> L.PcOf(l', u) == L.PcOf(l, u)
  {}

  lemma RightFrames(l: L.List, t: Tid, id: nat)
    ensures Acquire(l, t, id).closing == l.closing && forall u :: L.PcOf(Acquire(l, t, id), u) == L.PcOf(l, u)
    ensures Abandon(l, id).closing == l.closing && forall u :: L.PcOf(Abandon(l, id), u) == L.PcOf(l, u)
  {}

  lemma PushAdvances(s: State, t: Tid, op: Op, id: nat, n: Node)
    requires op.Doing? && Pushes(op.stage) && L.Inv(s.l) && L.PcOf(s.l, t).At? && id in s.nodes && n == s.nodes[id]
    ensures Advances(s, t, op, id, n, PushAccess(s, t, op, id, n))
  {
    A.OneAccess(s.l, t);
    hide L.Inv, L.PushStep, Advances, StepOk, StageLeft;
    var l := L.Apply(s.l, L.PushAccess(t));
    var n' := if L.PcOf(s.l, t).Is(L.Reject) then Retire(n) else n;
    var op' := if L.PcOf(l, t).At? then op else AfterPush(op);
    PushStepOk(op, n, n', op', A.PushLeft(s.l, t), A.PushLeft(l, t));
    PushLeftOut(l, t);
    ResultAdvances(s, t, op, id, n, l, n', op');
  }

  lemma PushLeftOut(l: L.List, t: Tid)
    ensures L.PcOf(l, t).Out? ==> A.PushLeft(l, t) == 0
  {}

  lemma PushStepOk(op: Op, n: Node, n': Node, op': Op, left: nat, left': nat)
    requires op.Doing? && Pushes(op.stage) && (n' == n || n' == Retire(n)) && (op' == op || op' == AfterPush(op)) && left' < left
    ensures StepOk(op, n, op', n') && (op' == op || left' == 0 ==> StageLeft(op', n'.word, left') < StageLeft(op, n.word, left))
  {
    hide Overlap, StageLeft;
    assert Says(n') == Says(n) && !Tells(op, n);
    PushIsShorter(op, n, n', op', left, left');
  }

  lemma PushIsShorter(op: Op, n: Node, n': Node, op': Op, left: nat, left': nat)
    requires op.Doing? && Pushes(op.stage) && (op' == op || op' == AfterPush(op)) && left' < left
    ensures op' == op || left' == 0 ==> StageLeft(op', n'.word, left') < StageLeft(op, n.word, left)
  {}

  lemma SetAdvances(s: State, t: Tid, op: Op, id: nat, n: Node)
    requires op.Doing? && InSet(op.stage) && op.stage != SetPush && id in s.nodes && n == s.nodes[id]
    requires op.stage == SetSwap ==> !op.seen.dropped
    ensures Advances(s, t, op, id, n, SetStep(s, t, op, id, n))
  {
    hide L.Apply, PushAccess, SetNext, Overlap, Advances, StepOk, StageLeft, A.PushLeft;
    if op.stage == SetQueue {
      SetQueueAdvances(s, t, op, id, n);
    } else if op.stage == SetLoad || n.word != op.seen {
      var op' := if n.word.dropped then Free else op.(stage := SetSwap, seen := n.word);
      SameNode(s, t, id, op');
      SetMoveOk(op, n, op');
      ResultAdvances(s, t, op, id, n, s.l, n, op');
    } else {
      var n' := n.(word := SetNext(n.word, op.ready));
      var win := !n.word.queued && n'.word.queued;
      var op' := if win then op.(stage := SetQueue) else Free;
      var l := if win then Acquire(s.l, t, id) else s.l;
      SetSwapOk(op, n, n', op');
      RightFrames(s.l, t, id);
      ResultAdvances(s, t, op, id, n, l, n', op');
    }
  }

  lemma SetQueueAdvances(s: State, t: Tid, op: Op, id: nat, n: Node)
    requires op.At(SetQueue) && id in s.nodes && n == s.nodes[id]
    ensures Advances(s, t, op, id, n, SetStep(s, t, op, id, n))
  {
    hide L.Apply, PushAccess, SetNext, Overlap, Advances, A.PushLeft;
    if n.bound {
      BeginFrames(s.l, t, id);
      ResultAdvances(s, t, op, id, n, L.Apply(s.l, L.BeginPush(t, id)), n, op.(stage := SetPush));
    } else {
      RightFrames(s.l, t, id);
      ResultAdvances(s, t, op, id, n, Abandon(s.l, id), n.(retired := true), Free);
    }
  }

  lemma SetMoveOk(op: Op, n: Node, op': Op)
    requires op.At(SetLoad) || (op.At(SetSwap) && n.word != op.seen)
    requires op' == if n.word.dropped then Free else op.(stage := SetSwap, seen := n.word)
    ensures StepOk(op, n, op', n) && Shorter(op, n, n, op')
  {}

  lemma SetSwapOk(op: Op, n: Node, n': Node, op': Op)
    requires op.At(SetSwap) && n.word == op.seen && n' == n.(word := SetNext(n.word, op.ready))
    requires op' == if !n.word.queued && n'.word.queued then op.(stage := SetQueue) else Free
    requires !n.word.dropped
    ensures StepOk(op, n, op', n') && Shorter(op, n, n', op')
  {}

  lemma BindAdvances(s: State, t: Tid, op: Op, id: nat, n: Node)
    requires op.Doing? && Unlocked(op.stage) && id in s.nodes && n == s.nodes[id]
    requires op.stage == Lock || op.stage == BindCount ==> n.bound
    ensures Advances(s, t, op, id, n, BindStep(s, t, op, id, n))
  {
    hide L.Apply, Advances, StepOk, StageLeft, A.PushLeft;
    var l := s.l;
    if op.stage == BindLoad || (op.stage == BindSwap && n.bound) || (op.stage == Lock && n.locked) {
      var op' := if op.stage == Lock then Free else op.(stage := if n.bound then Lock else BindSwap);
      SameNode(s, t, id, op');
      BindMoveOk(op, n, op');
      ResultAdvances(s, t, op, id, n, l, n, op');
    } else {
      var n' :=
        if op.stage == BindSwap then n.(bound := true, holds := true, binder := t)
        else if op.stage == BindCount then n.(refs := n.refs + 1, binder := L.Poller)
        else n.(locked := true, lockedBy := t);
      var op' := op.(stage := if op.stage == BindSwap then BindCount else if op.stage == BindCount then Lock else UpdLoad);
      BindTakeOk(op, n, n', op', t);
      ResultAdvances(s, t, op, id, n, l, n', op');
    }
  }

  lemma BindMoveOk(op: Op, n: Node, op': Op)
    requires op.At(BindLoad) || (op.At(BindSwap) && n.bound) || (op.At(Lock) && n.locked)
    requires op' == if op.stage == Lock then Free else op.(stage := if n.bound then Lock else BindSwap)
    ensures StepOk(op, n, op', n) && Shorter(op, n, n, op')
  {}

  lemma BindTakeOk(op: Op, n: Node, n': Node, op': Op, t: Tid)
    requires (op.At(BindSwap) && !n.bound) || (op.At(BindCount) && n.bound) || (op.At(Lock) && !n.locked && n.bound)
    requires n' == if op.stage == BindSwap then n.(bound := true, holds := true, binder := t)
                   else if op.stage == BindCount then n.(refs := n.refs + 1, binder := L.Poller)
                   else n.(locked := true, lockedBy := t)
    requires op' == op.(stage := if op.stage == BindSwap then BindCount else if op.stage == BindCount then Lock else UpdLoad)
    ensures StepOk(op, n, op', n') && Shorter(op, n, n', op')
  {
    hide Overlap;
  }

  lemma UpdateAdvances(s: State, t: Tid, op: Op, id: nat, n: Node)
    requires op.Doing? && HoldsLock(op.stage) && id in s.nodes && n == s.nodes[id] && PlaceOk(op, t, n, s.l.closing)
    ensures Advances(s, t, op, id, n, UpdateStep(s, t, op, id, n))
  {
    hide L.Apply, PushAccess, UpdateNext, Overlap, Advances, StepOk, StageLeft, A.PushLeft;
    if op.stage == UpdSwap && n.word == op.seen {
      UpdSwapAdvances(s, t, op, id, n);
    } else if op.stage == UnlockPush || op.stage == Unlock {
      UnlockAdvances(s, t, op, id, n);
    } else if op.stage == UpdWrite {
      var n' := n.(slots := n.slots[op.pos := op.u.token]);
      UpdWriteOk(op, n, n');
      ResultAdvances(s, t, op, id, n, s.l, n', op.(stage := UpdSwap));
    } else {
      var op' := UpdMove(op, n);
      SameNode(s, t, id, op');
      UpdMoveOk(op, n, op');
      ResultAdvances(s, t, op, id, n, s.l, n, op');
    }
  }

  /** Where a step of `update` leads that changes nothing else. */
  function UpdMove(op: Op, n: Node): Op
    requires op.Doing?
  {
    if op.stage == UpdLoad then op.(stage := UpdRead, seen := n.word)
    else if op.stage == UpdSwap then op.(seen := n.word)
    else if op.u.token == n.slots[op.seen.wr] then op.(stage := UpdSwap, pos := op.seen.wr)
    else op.(stage := UpdWrite, pos := NextTokenPos(op.seen.rd, op.seen.wr))
  }

  lemma UpdMoveOk(op: Op, n: Node, op': Op)
    requires op.At(UpdLoad) || op.At(UpdRead) || (op.At(UpdSwap) && n.word != op.seen)
    requires n.locked && op' == UpdMove(op, n)
    ensures StepOk(op, n, op', n) && Shorter(op, n, n, op')
  {}

  lemma UpdWriteOk(op: Op, n: Node, n': Node)
    requires op.At(UpdWrite) && n.locked && op.pos != n.word.wr && n' == n.(slots := n.slots[op.pos := op.u.token])
    ensures StepOk(op, n, op.(stage := UpdSwap), n') && Shorter(op, n, n', op.(stage := UpdSwap))
  {}

  lemma UpdSwapAdvances(s: State, t: Tid, op: Op, id: nat, n: Node)
    requires op.At(UpdSwap) && n.word == op.seen && id in s.nodes && n == s.nodes[id] && PlaceOk(op, t, n, s.l.closing)
    ensures Advances(s, t, op, id, n, UpdateStep(s, t, op, id, n))
  {
    hide L.Apply, PushAccess, UpdateNext, Overlap, Advances, StepOk, StageLeft, A.PushLeft;
    var n' := n.(word := UpdateNext(n.word, op.u, op.pos));
    var win := !n.word.queued && n'.word.queued;
    var op' := op.(stage := if win then UnlockPush else Unlock);
    var l := if win then Acquire(s.l, t, id) else s.l;
    UpdSwapOk(op, n, n', op');
    RightFrames(s.l, t, id);
    ResultAdvances(s, t, op, id, n, l, n', op');
  }

  lemma UpdSwapOk(op: Op, n: Node, n': Node, op': Op)
    requires op.At(UpdSwap) && n.word == op.seen && n.locked && n.slots[op.pos] == op.u.token
    requires n' == n.(word := UpdateNext(n.word, op.u, op.pos))
    requires op' == op.(stage := if !n.word.queued && n'.word.queued then UnlockPush else Unlock)
    ensures StepOk(op, n, op', n') && Shorter(op, n, n', op')
  {}

  lemma UnlockAdvances(s: State, t: Tid, op: Op, id: nat, n: Node)
    requires (op.At(Unlock) || op.At(UnlockPush)) && id in s.nodes && n == s.nodes[id] && n.locked
    ensures Advances(s, t, op, id, n, UpdateStep(s, t, op, id, n))
  {
    hide L.Apply, PushAccess, UpdateNext, Overlap, Advances, StepOk, StageLeft, A.PushLeft;
    var n' := n.(locked := false);
    UnlockOk(op, n, n');
    if op.stage == UnlockPush {
      BeginFrames(s.l, t, id);
      ResultAdvances(s, t, op, id, n, L.Apply(s.l, L.BeginPush(t, id)), n', op.(stage := UpdPush));
    } else {
      ResultAdvances(s, t, op, id, n, s.l, n', Free);
    }
  }

  lemma UnlockOk(op: Op, n: Node, n': Node)
    requires (op.At(Unlock) || op.At(UnlockPush)) && n.locked && n' == n.(locked := false)
    ensures op.stage == Unlock ==> StepOk(op, n, Free, n') && Shorter(op, n, n', Free)
    ensures op.stage == UnlockPush ==> StepOk(op, n, op.(stage := UpdPush), n') && forall left: nat ::
      StageLeft(op.(stage := UpdPush), n'.word, 5) < StageLeft(op, n.word, left)
  {
    hide Overlap;
  }

  lemma DropAdvances(s: State, t: Tid, op: Op, id: nat, n: Node)
    requires (op.At(Flag) || op.At(DropQueue)) && id in s.nodes && n == s.nodes[id] && PlaceOk(op, t, n, s.l.closing)
    ensures Advances(s, t, op, id, n, DropStep(s, t, op, id, n))
  {
    hide L.Apply, PushAccess, Overlap, Advances, StepOk, StageLeft, A.PushLeft;
    RightFrames(s.l, t, id);
    if op.stage == Flag {
      var n' := n.(word := n.word.(dropped := true, queued := true));
      var op' := op.(stage := if n.word.queued then Release else DropQueue);
      FlagOk(op, n, n', op');
      ResultAdvances(s, t, op, id, n, if n.word.queued then s.l else Acquire(s.l, t, id), n', op');
    } else if n.bound {
      BeginFrames(s.l, t, id);
      DropPushOk(op, n);
      ResultAdvances(s, t, op, id, n, L.Apply(s.l, L.BeginPush(t, id)), n, op.(stage := DropPush));
    } else {
      DropAbandonOk(op, n);
      ResultAdvances(s, t, op, id, n, Abandon(s.l, id), n.(retired := true), op.(stage := Release));
    }
  }

  lemma FlagOk(op: Op, n: Node, n': Node, op': Op)
    requires op.At(Flag) && !n.word.dropped && n' == n.(word := n.word.(dropped := true, queued := true))
    requires op' == op.(stage := if n.word.queued then Release else DropQueue)
    ensures StepOk(op, n, op', n') && Shorter(op, n, n', op')
  {}

  lemma DropPushOk(op: Op, n: Node)
    requires op.At(DropQueue)
    ensures StepOk(op, n, op.(stage := DropPush), n)
    ensures forall left: nat :: StageLeft(op.(stage := DropPush), n.word, 5) < StageLeft(op, n.word, left)
  {
    hide Overlap;
  }

  lemma DropAbandonOk(op: Op, n: Node)
    requires op.At(DropQueue)
    ensures StepOk(op, n, op.(stage := Release), n.(retired := true)) && Shorter(op, n, n.(retired := true), op.(stage := Release))
  {
    hide Overlap, StageLeft;
    var op', n' := op.(stage := Release), n.(retired := true);
    assert Says(n') == Says(n) && !Tells(op, n) && !Tells(op', n');
    ReleaseIsLast(op, n, n', op');
  }

  lemma ReleaseIsLast(op: Op, n: Node, n': Node, op': Op)
    requires op.At(DropQueue) && op'.At(Release)
    ensures Shorter(op, n, n', op')
  {}

  /** What thread t's call, from where it is in s, has come to in s'. */
  ghost predicate Done(s: State, t: Tid, op: Op, id: nat, s': State)
    requires op.Doing? && id in s.nodes
  {
    && Frames(s, t, id, s') && OpOf(s', t).Free? && NodeDone(op, s.nodes[id], s'.nodes[id])
    && s'.handles == if Owned(op.stage) then s.handles - {op.h} else s.handles
  }

  lemma ReleaseEnds(s: State, t: Tid, op: Op, id: nat, n: Node)
    requires op.At(Release) && id in s.nodes && n == s.nodes[id] && OpOf(s, t) == op
    ensures Done(s, t, op, id, DropStep(s, t, op, id, n))
  {
    hide NodeDone;
    ReleaseOk(op, n);
    var s' := SetOp(SetNode(s.(handles := s.handles - {op.h}), id, Drop1(n)), t, Free);
    assert DropStep(s, t, op, id, n) == s';
    assert s'.nodes[id] == Drop1(n);
  }

  lemma ReleaseOk(op: Op, n: Node)
    requires op.At(Release)
    ensures NodeDone(op, n, Drop1(n))
  {
    hide Overlap;
  }

  /** Thread t's handle is being dropped exactly if that is the call the thread is in. */
  predicate MovedBy(s: State, t: Tid, op: Op)
    requires op.Doing? && op.h in s.handles
  {
    (Owned(op.stage) <==> s.handles[op.h].moved) && (s.handles[op.h].moved ==> s.handles[op.h].mover == t)
  }

  /** A thread in a call is on a node of the map, at a place that fits. */
  lemma InCall(s: State, t: Tid) returns (op: Op, id: nat, n: Node)
    requires Inv(s) && OpOf(s, t).Doing?
    ensures op == OpOf(s, t) && op.h in s.handles && id == s.handles[op.h].node == NodeOf(s, t) && id in s.nodes && n == s.nodes[id]
    ensures PlaceOk(op, t, n, s.l.closing) && L.Inv(s.l) && t != L.Poller && MovedBy(s, t, op)
    ensures Pushes(op.stage) <==> L.PcOf(s.l, t).At?
    ensures OpLeft(s, t) == StageLeft(op, n.word, A.PushLeft(s.l, t))
  {
    assert OpOk(s, t);
    op := OpOf(s, t);
    id := s.handles[op.h].node;
    n := s.nodes[id];
  }

  lemma ThreadAdvances(s: State, t: Tid)
    requires Inv(s) && OpOf(s, t).Doing?
    ensures var op, id := OpOf(s, t), NodeOf(s, t); var s' := ThreadStep(s, t);
      id in s.nodes && if op.stage == Release then Done(s, t, op, id, s') else Advances(s, t, op, id, s.nodes[id], s')
  {
    hide SetStep, BindStep, UpdateStep, DropStep, Advances, Done;
    var op, id, n := InCall(s, t);
    hide Inv;
    if Pushes(op.stage) {
      PushAdvances(s, t, op, id, n);
      PushSteps(s, t, op, id, n);
    } else if InSet(op.stage) {
      SetAdvances(s, t, op, id, n);
    } else if op.stage == Release {
      ReleaseEnds(s, t, op, id, n);
    } else if Owned(op.stage) {
      DropAdvances(s, t, op, id, n);
    } else if HoldsLock(op.stage) {
      UpdateAdvances(s, t, op, id, n);
    } else {
      BindAdvances(s, t, op, id, n);
    }
  }

  lemma PushSteps(s: State, t: Tid, op: Op, id: nat, n: Node)
    requires op.Doing? && Pushes(op.stage)
    ensures SetStep(s, t, op, id, n) == PushAccess(s, t, op, id, n) || op.stage != SetPush
    ensures UpdateStep(s, t, op, id, n) == PushAccess(s, t, op, id, n) || op.stage != UpdPush
    ensures DropStep(s, t, op, id, n) == PushAccess(s, t, op, id, n) || op.stage != DropPush
  {
    hide PushAccess;
  }

  /** The thread is through after one step, or goes on at its node and handle with less to do. */
  lemma AdvancesMeans(s: State, t: Tid, op: Op, id: nat, n: Node, s': State)
    requires op.Doing? && Advances(s, t, op, id, n, s') && id in s.nodes && n == s.nodes[id] && op.stage != Release
    requires op == OpOf(s, t) && op.h in s.handles && id == s.handles[op.h].node && MovedBy(s, t, op) && Inv(s')
    ensures OpOf(s', t).Free? ==> Done(s, t, op, id, s')
    ensures OpOf(s', t).Doing? ==> NodeOf(s', t) == id && OpLeft(s', t) < StageLeft(op, n.word, A.PushLeft(s.l, t))
    ensures OpOf(s', t).Doing? ==> OpOf(s', t).h == op.h && (Owned(OpOf(s', t).stage) <==> Owned(op.stage))
  {
    hide NodeDone, StageLeft, A.PushLeft, Inv;
    if OpOf(s', t).Free? {
      DroppersRelease(s, t, op, id, n, s');
    }
  }

  /** Only the release of the handle ends the drop of one. */
  lemma DroppersRelease(s: State, t: Tid, op: Op, id: nat, n: Node, s': State)
    requires op.Doing? && s.handles == s'.handles && op.h in s.handles && MovedBy(s, t, op) && Inv(s')
    requires OpOf(s', t).Free?
    ensures !Owned(op.stage)
  {
    hide L.Inv, NodeOk, RightOk, OpOk;
    assert HandleOk(s', op.h);
  }

  lemma DoneFrom(s: State, t: Tid, op: Op, id: nat, s1: State, s': State)
    requires op.Doing? && id in s.nodes && Advances(s, t, op, id, s.nodes[id], s1) && OpOf(s1, t).Doing?
    requires Owned(OpOf(s1, t).stage) <==> Owned(op.stage)
    requires id in s1.nodes && OpOf(s1, t).h == op.h && Done(s1, t, OpOf(s1, t), id, s')
    ensures Done(s, t, op, id, s')
  {
    NodeGoesOn(op, s.nodes[id], OpOf(s1, t), s1.nodes[id], s'.nodes[id]);
    hide NodeDone, StepOk, StageLeft, A.PushLeft;
  }

  lemma LeftIsPositive(s: State, t: Tid)
    requires Inv(s) && OpOf(s, t).Doing?
    ensures 0 < OpLeft(s, t) <= 15
    ensures InSet(OpOf(s, t).stage) || Owned(OpOf(s, t).stage) ==> OpLeft(s, t) <= 8
  {
    hide StageLeft, MovedBy, PlaceOk, L.Inv, A.PushLeft;
    var op, id, n := InCall(s, t);
    hide Inv;
    PushLeftIn(s.l, t);
    StageLeftIn(op, n.word, A.PushLeft(s.l, t));
  }

  lemma PushLeftIn(l: L.List, t: Tid)
    ensures A.PushLeft(l, t) <= 5 && (L.PcOf(l, t).At? ==> A.PushLeft(l, t) > 0)
  {}

  lemma StageLeftIn(op: Op, w: Word, push: nat)
    requires op.Doing? && push <= 5 && (Pushes(op.stage) ==> push > 0)
    ensures 0 < StageLeft(op, w, push) <= 15 && (InSet(op.stage) || Owned(op.stage) ==> StageLeft(op, w, push) <= 8)
  {}

  lemma {:induction false} StillFree(s: State, t: Tid, n: nat)
    requires OpOf(s, t).Free?
    ensures Alone(s, t, n) == s
    decreases n
  {
    if n > 0 { StillFree(s, t, n - 1); }
  }

  lemma StepIsReachable(s: State, t: Tid)
    requires Reachable(s) && OpOf(s, t).Doing?
    ensures Reachable(ThreadStep(s, t))
  {
    hide ThreadStep, Reachable;
    ReachableNext(s, Step(t));
  }

  /** A call that nobody disturbs ends, with all it was for done, and leaves all else alone. */
  lemma {:induction false} CallEnds(s: State, t: Tid, n: nat)
    requires Reachable(s) && OpOf(s, t).Doing? && OpLeft(s, t) <= n
    ensures Reachable(Alone(s, t, n)) && NodeOf(s, t) in s.nodes && Done(s, t, OpOf(s, t), NodeOf(s, t), Alone(s, t, n))
    decreases n
  {
    hide Reachable, Inv, Advances, Done, ThreadStep, StageLeft, NodeOf, OpLeft, MovedBy, PlaceOk, Pushes, L.Inv, L.PcOf, A.PushLeft, InSet, Owned;
    ReachableInv(s);
    LeftIsPositive(s, t);
    var op, id, nd := InCall(s, t);
    var s1 := ThreadStep(s, t);
    ThreadAdvances(s, t);
    StepIsReachable(s, t);
    ReachableInv(s1);
    if op.stage != Release {
      AdvancesMeans(s, t, op, id, nd, s1);
      if OpOf(s1, t).Doing? {
        CallEnds(s1, t, n - 1);
        DoneFrom(s, t, op, id, s1, Alone(s1, t, n - 1));
      } else {
        StillFree(s1, t, n - 1);
      }
    } else {
      StillFreeAfter(s, t, op, id, s1, n - 1);
    }
  }

  lemma StillFreeAfter(s: State, t: Tid, op: Op, id: nat, s1: State, n: nat)
    requires op.Doing? && id in s.nodes && Done(s, t, op, id, s1)
    ensures Alone(s1, t, n) == s1
  {
    hide NodeDone, Frames;
    StillFree(s1, t, n);
  }

  /** The node is in the list, or somebody other than thread t is at the place from which it gets there. */
  ghost predicate OnTheWay(s: State, t: Tid, id: nat) {
    L.Node(id) in s.l.chain || exists u :: u != t && HoldsPush(s, u, id)
  }

  lemma QueuedIsOnTheWay(s: State, t: Tid, id: nat)
    requires Reachable(s) && id in s.nodes && s.nodes[id].word.queued && OpOf(s, t).Free? && t != L.Poller
    requires !s.nodes[id].retired
    ensures OnTheWay(s, t, id)
  {
    QueuedMeansOneRight(s, id);
    hide Reachable;
  }

  lemma NotRetired(s: State, id: nat)
    requires Reachable(s) && id in s.nodes
    ensures s.nodes[id].retired ==> s.nodes[id].word.dropped || s.l.closing
    ensures s.nodes[id].holds ==> !s.nodes[id].retired
  {
    ReachableInv(s);
    assert NodeOk(s, id);
  }

  lemma CallIsDone(s: State, t: Tid, id: nat, n: nat)
    requires Reachable(s) && OnNode(s, t, id) && n >= 8 && (n >= 15 || InSet(OpOf(s, t).stage) || Owned(OpOf(s, t).stage))
    ensures t != L.Poller && id in s.nodes && Reachable(Alone(s, t, n)) && Done(s, t, OpOf(s, t), id, Alone(s, t, n))
    ensures var n' := Alone(s, t, n).nodes[id]; (n'.retired ==> n'.word.dropped || s.l.closing) && (n'.holds ==> !n'.retired)
  {
    hide Reachable, Alone, StageLeft, NodeDone, OpLeft;
    ReachableInv(s);
    LeftIsPositive(s, t);
    CallEnds(s, t, n);
    var op, j, nd := InCall(s, t);
    hide Inv, PlaceOk;
    NotRetired(Alone(s, t, n), id);
  }

  lemma SetDone(op: Op, n: Node, n': Node)
    requires (op.At(SetLoad) || op.At(SetSwap)) && NodeDone(op, n, n')
    ensures Says(n') == (if n.word.dropped then Says(n) else Says(n).(ready := op.ready))
    ensures n'.locked == n.locked && n'.word.dropped == n.word.dropped
    ensures !n.word.dropped && Overlap(Says(n')) ==> n'.word.queued
  {
    hide Overlap;
  }

  lemma UpdateDone(op: Op, n: Node, n': Node)
    requires op.Doing? && (Unlocked(op.stage) || Unpublished(op.stage)) && NodeDone(op, n, n')
    ensures n'.word.dropped == n.word.dropped && (Binds(op.stage) || n.bound ==> n'.bound)
    ensures
      if n.locked && Unlocked(op.stage) then Says(n') == Says(n) && n'.locked
      else
        && Says(n') == Says(n).(interest := op.u.interest, opt := op.u.opt, token := op.u.token) && !n'.locked
        && (Overlap(Says(n')) ==> n'.word.queued)
  {
    hide Overlap;
  }

  lemma DropDone(op: Op, n: Node, n': Node)
    requires op.Doing? && Owned(op.stage) && NodeDone(op, n, n')
    ensures Says(n') == Says(n) && n'.locked == n.locked && (n'.word.dropped <==> n.word.dropped || op.stage == Flag)
    ensures op.stage == Flag ==> n'.word.queued
  {
    hide Overlap;
  }

  /**
    From any reachable state in which a thread is at the load or the swap of set_readiness, whatever word it saw before,
    eight steps of its own end the call.  Unless the node was dropped it then says the readiness given, and else what
    it said; if it has something to report and the queue is not closing, it is in the list or somebody else is bringing
    it there.
   */
  lemma SetCompletes(s: State, t: Tid, id: nat)
    requires Reachable(s) && (OpOf(s, t).At(SetLoad) || OpOf(s, t).At(SetSwap)) && OnNode(s, t, id)
    ensures var s' := Alone(s, t, 8);
      && id in s.nodes && Frames(s, t, id, s') && OpOf(s', t).Free? && s'.handles == s.handles
      && var n, n' := s.nodes[id], s'.nodes[id];
      && Says(n') == (if n.word.dropped then Says(n) else Says(n).(ready := OpOf(s, t).ready))
      && n'.locked == n.locked && n'.word.dropped == n.word.dropped
      && (!n.word.dropped && !s.l.closing && Overlap(Says(n')) ==> OnTheWay(s', t, id))
  {
    hide Reachable, OnTheWay, NodeDone, Says, Overlap, Alone;
    CallIsDone(s, t, id, 8);
    var n, s' := s.nodes[id], Alone(s, t, 8);
    SetDone(OpOf(s, t), n, s'.nodes[id]);
    if !n.word.dropped && !s.l.closing && Overlap(Says(s'.nodes[id])) { QueuedIsOnTheWay(s', t, id); }
  }

  /**
    The same for update.  If another thread holds the update lock when this one gets there, the update is discarded.
    Otherwise the node says the interest, options and token given, the lock is free again, and if it has something to
    report it is in the list or somebody else is bringing it there.
   */
  lemma UpdateCompletes(s: State, t: Tid, id: nat)
    requires Reachable(s) && OpOf(s, t).Doing? && (Unlocked(OpOf(s, t).stage) || Unpublished(OpOf(s, t).stage)) && OnNode(s, t, id)
    ensures var s' := Alone(s, t, 15);
      && id in s.nodes && Frames(s, t, id, s') && OpOf(s', t).Free? && s'.handles == s.handles
      && var n, n', u := s.nodes[id], s'.nodes[id], OpOf(s, t).u;
      && n'.word.dropped == n.word.dropped && (Binds(OpOf(s, t).stage) || n.bound ==> n'.bound)
      && if n.locked && Unlocked(OpOf(s, t).stage) then Says(n') == Says(n) && n'.locked
         else
           && Says(n') == Says(n).(interest := u.interest, opt := u.opt, token := u.token) && !n'.locked
           && (Overlap(Says(n')) ==> OnTheWay(s', t, id))
  {
    hide Reachable, OnTheWay, NodeDone, Says, Overlap, Alone;
    CallIsDone(s, t, id, 15);
    UpdaterOpen(s, t, id);
    var n, s' := s.nodes[id], Alone(s, t, 15);
    UpdateDone(OpOf(s, t), n, s'.nodes[id]);
    if !(n.locked && Unlocked(OpOf(s, t).stage)) && Overlap(Says(s'.nodes[id])) { QueuedIsOnTheWay(s', t, id); }
  }

  lemma UpdaterOpen(s: State, t: Tid, id: nat)
    requires Reachable(s) && OpOf(s, t).Doing? && InUpdate(OpOf(s, t).stage) && OnNode(s, t, id)
    ensures !s.l.closing && id in s.nodes && !s.nodes[id].word.dropped
  {
    hide L.Inv, NodeOk, RightOk, HandlesOf, PollOk, L.PcOk;
    ReachableInv(s);
    assert OpOk(s, t) && HandleOk(s, OpOf(s, t).h);
  }

  lemma OwnerDropped(s: State, t: Tid, id: nat)
    requires Reachable(s) && OpOf(s, t).Doing? && Owned(OpOf(s, t).stage) && OnNode(s, t, id)
    ensures id in s.nodes && (s.handles[OpOf(s, t).h].reg ==> s.nodes[id].word.dropped || OpOf(s, t).stage == Flag)
  {
    hide L.Inv, NodeOk, RightOk, HandleOk, PollOk, PlaceOk, L.PcOk;
    ReachableInv(s);
    assert OpOk(s, t);
  }

  /**
    Dropping a handle ends within eight steps of an undisturbed thread, with the handle gone and nothing said otherwise.
    Dropping a registration leaves the node flagged, and while the queue keeps its handle the node is in the list or
    somebody else is bringing it there, so that poll will find the flag.
   */
  lemma DropCompletes(s: State, t: Tid, id: nat)
    requires Reachable(s) && OpOf(s, t).Doing? && Owned(OpOf(s, t).stage) && OnNode(s, t, id)
    ensures var s' := Alone(s, t, 8);
      && id in s.nodes && Frames(s, t, id, s') && OpOf(s', t).Free? && s'.handles == s.handles - {OpOf(s, t).h}
      && var n, n' := s.nodes[id], s'.nodes[id];
      && Says(n') == Says(n) && n'.locked == n.locked
      && (n'.word.dropped <==> n.word.dropped || OpOf(s, t).stage == Flag)
      && (s.handles[OpOf(s, t).h].reg ==> n'.word.dropped)
      && (OpOf(s, t).stage == Flag && n'.holds ==> OnTheWay(s', t, id))
  {
    hide Reachable, OnTheWay, NodeDone, Says, Alone;
    OwnerDropped(s, t, id);
    CallIsDone(s, t, id, 8);
    var s' := Alone(s, t, 8);
    DropDone(OpOf(s, t), s.nodes[id], s'.nodes[id]);
    if OpOf(s, t).stage == Flag && s'.nodes[id].holds { QueuedIsOnTheWay(s', t, id); }
  }

  // ---------------------------------------------------------------------------------------------
  // From the call on
  // ---------------------------------------------------------------------------------------------

  predicate CallsOn(a: Action, t: Tid, h: nat) { (a.CallSet? || a.CallUpdate? || a.CallDrop?) && a.t == t && a.h == h }

  /** The handle called on is one of a node of the map; the call leaves the nodes, the list and all others alone. */
  lemma CallBegins(s: State, t: Tid, h: nat, a: Action)
    requires Reachable(s) && Enabled(s, a) && CallsOn(a, t, h)
    ensures h in s.handles
    ensures var s1, id := Apply(s, a), s.handles[h].node;
      && Reachable(s1) && id in s.nodes && OnNode(s1, t, id) && OpOf(s1, t).h == h && s1.nodes == s.nodes && s1.l == s.l
      && Frames(s, t, id, s1)
      && (if a.CallDrop? then s1.handles == s.handles[h := s.handles[h].(moved := true, mover := t)] else s1.handles == s.handles)
      && OpOf(s1, t) == (match a
         case CallSet(_, _, ready) => Start(SetLoad, h, ready, NoUpdate)
         case CallUpdate(_, _, u) => Start(BindLoad, h, NONE, u)
         case _ => Start(if s.handles[h].reg then Flag else Release, h, NONE, NoUpdate))
  {
    hide Reachable;
    ReachableNext(s, a);
    HandleHasNode(s, h);
    assert s.nodes[s.handles[h].node := s.nodes[s.handles[h].node]] == s.nodes;
  }

  lemma HandleHasNode(s: State, h: nat)
    requires Reachable(s) && h in s.handles
    ensures s.handles[h].node in s.nodes
  {
    ReachableInv(s);
    assert HandleOk(s, h);
  }

  lemma FramesFrom(s: State, t: Tid, id: nat, s1: State, s': State)
    requires Frames(s, t, id, s1) && Frames(s1, t, id, s')
    ensures Frames(s, t, id, s')
  {}

  /**
    A call of set_readiness, undisturbed, makes the node say the readiness given, unless the node has been dropped; if
    the node then has something to report, it is on its way to poll.
   */
  lemma SetReadinessCall(s: State, t: Tid, h: nat, ready: Flags)
    requires Reachable(s) && Enabled(s, CallSet(t, h, ready))
    ensures var s', id := Alone(Apply(s, CallSet(t, h, ready)), t, 8), s.handles[h].node;
      && id in s.nodes && Frames(s, t, id, s') && OpOf(s', t).Free? && s'.handles == s.handles
      && var n, n' := s.nodes[id], s'.nodes[id];
      && Says(n') == (if n.word.dropped then Says(n) else Says(n).(ready := ready))
      && (!n.word.dropped && !s.l.closing && Overlap(Says(n')) ==> OnTheWay(s', t, id))
  {
    hide Reachable, Alone, OnTheWay, Frames, Says, Overlap;
    var a, id := CallSet(t, h, ready), s.handles[h].node;
    CallBegins(s, t, h, a);
    SetCompletes(Apply(s, a), t, id);
    FramesFrom(s, t, id, Apply(s, a), Alone(Apply(s, a), t, 8));
  }

  /**
    A call of update, undisturbed, binds the node to the queue and makes it say the interest, options and token given,
    unless another thread is inside update on it; if the node then has something to report, it is on its way to poll.
   */
  lemma UpdateCall(s: State, t: Tid, h: nat, u: Update)
    requires Reachable(s) && Enabled(s, CallUpdate(t, h, u))
    ensures var s', id := Alone(Apply(s, CallUpdate(t, h, u)), t, 15), s.handles[h].node;
      && id in s.nodes && Frames(s, t, id, s') && OpOf(s', t).Free? && s'.handles == s.handles
      && var n, n' := s.nodes[id], s'.nodes[id];
      && n'.bound
      && if n.locked then Says(n') == Says(n)
         else
           && Says(n') == Says(n).(interest := u.interest, opt := u.opt, token := u.token) && !n'.locked
           && (Overlap(Says(n')) ==> OnTheWay(s', t, id))
  {
    hide Reachable, Alone, OnTheWay, Frames, Says, Overlap;
    var a, id := CallUpdate(t, h, u), s.handles[h].node;
    CallBegins(s, t, h, a);
    UpdateCompletes(Apply(s, a), t, id);
    FramesFrom(s, t, id, Apply(s, a), Alone(Apply(s, a), t, 15));
  }

  /**
    Giving a handle up, undisturbed, leaves what its node says and the other handles as they were.  If it is that of the
    registration, the node is marked dropped, and while the queue keeps its own handle it is on its way to poll.
   */
  lemma DropCall(s: State, t: Tid, h: nat)
    requires Reachable(s) && Enabled(s, CallDrop(t, h))
    ensures var s', id := Alone(Apply(s, CallDrop(t, h)), t, 8), s.handles[h].node;
      && id in s.nodes && Frames(s, t, id, s') && OpOf(s', t).Free? && s'.handles == s.handles - {h}
      && var n, n' := s.nodes[id], s'.nodes[id];
      && Says(n') == Says(n) && (n'.word.dropped <==> n.word.dropped || s.handles[h].reg)
      && (s.handles[h].reg && n'.holds ==> OnTheWay(s', t, id))
  {
    hide Reachable, Alone, OnTheWay, Frames, Says, Overlap;
    var a, id := CallDrop(t, h), s.handles[h].node;
    CallBegins(s, t, h, a);
    DropCompletes(Apply(s, a), t, id);
    FramesFrom(s, t, id, Apply(s, a), Alone(Apply(s, a), t, 8));
  }
}
