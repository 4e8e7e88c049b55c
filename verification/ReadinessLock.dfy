/**
  The update lock of a node is taken exactly while one thread is between taking it and giving it back.
*/
module ReadinessLock {
  import L = ReadinessList
  import opened ReadinessNodes
  import opened ReadinessFacts

  /** Thread t is inside the part of `update` that holds the node's update lock. */
  predicate Inside(s: State, t: Tid, id: nat) { OnNode(s, t, id) && HoldsLock(OpOf(s, t).stage) }

  ghost predicate LockOk(s: State, id: nat)
    requires id in s.nodes
  {
    s.nodes[id].locked ==> Inside(s, s.nodes[id].lockedBy, id)
  }

  ghost predicate LocksOk(s: State) { forall id {:trigger LockOk(s, id)} :: id in s.nodes ==> LockOk(s, id) }

  predicate Takes(t: Tid, op': Op, n': Node) { n'.lockedBy == t && op'.Doing? && HoldsLock(op'.stage) }

  predicate Stays(t: Tid, op: Op, n: Node, n': Node)
    requires op.Doing?
  {
    n.locked && n'.lockedBy == n.lockedBy && (n.lockedBy == t ==> !HoldsLock(op.stage))
  }

  /** What a step of thread t, from place op to op', may do to the lock of its own node. */
  ghost predicate LockMoves(t: Tid, op: Op, n: Node, op': Op, n': Node) {
    && op.Doing?
    && (op'.Doing? ==> op'.h == op.h)
    && (n'.locked ==> Takes(t, op', n') || Stays(t, op, n, n'))
  }

  /** The thread's step s' is at its node and changes no other, nor another thread's place or handle. */
  ghost predicate OneNode(s: State, t: Tid, op: Op, id: nat, s': State) {
    && id in s.nodes && id in s'.nodes && s'.nodes == s.nodes[id := s'.nodes[id]]
    && (forall u :: u != t ==> OpOf(s', u) == OpOf(s, u))
    && (s'.handles == s.handles || (op.At(Release) && OpOf(s', t).Free? && s'.handles == s.handles - {op.h}))
    && LockMoves(t, op, s.nodes[id], OpOf(s', t), s'.nodes[id])
  }

  lemma PushMoves(s: State, t: Tid, op: Op, id: nat, n: Node)
    requires id in s.nodes && n == s.nodes[id] && op.Doing? && OpOf(s, t) == op && Pushes(op.stage)
    ensures OneNode(s, t, op, id, PushAccess(s, t, op, id, n))
  {
    hide L.Apply;
  }

  /** A step that changes the list, the node and the thread's place. */
  lemma ResultMoves(s: State, t: Tid, op: Op, id: nat, l: L.List, n': Node, op': Op)
    requires id in s.nodes && LockMoves(t, op, s.nodes[id], op', n')
    ensures OneNode(s, t, op, id, SetOp(SetNode(s.(l := l), id, n'), t, op'))
  {
    hide LockMoves;
  }

  lemma SameNodeMoves(s: State, t: Tid, op: Op, id: nat, op': Op)
    requires id in s.nodes && LockMoves(t, op, s.nodes[id], op', s.nodes[id])
    ensures OneNode(s, t, op, id, SetOp(s, t, op'))
  {
    hide LockMoves;
    assert s.nodes[id := s.nodes[id]] == s.nodes;
  }

  lemma SetMoves(s: State, t: Tid, op: Op, id: nat, n: Node)
    requires id in s.nodes && n == s.nodes[id] && op.Doing? && OpOf(s, t) == op
    requires op.At(SetLoad) || op.At(SetSwap) || op.At(SetQueue) || op.At(SetPush)
    ensures OneNode(s, t, op, id, SetStep(s, t, op, id, n))
  {
    hide L.Apply, PushAccess, SetNext, OneNode;
    if op.stage == SetPush {
      PushMoves(s, t, op, id, n);
    } else if op.stage == SetQueue {
      var op' := if n.bound then op.(stage := SetPush) else Free;
      ResultMoves(s, t, op, id, SetStep(s, t, op, id, n).l, if n.bound then n else n.(retired := true), op');
    } else if op.stage == SetLoad || n.word != op.seen {
      SameNodeMoves(s, t, op, id, if n.word.dropped then Free else op.(stage := SetSwap, seen := n.word));
    } else {
      var next := SetNext(n.word, op.ready);
      var op' := if !n.word.queued && next.queued then op.(stage := SetQueue) else Free;
      ResultMoves(s, t, op, id, SetStep(s, t, op, id, n).l, n.(word := next), op');
    }
  }

  lemma BindMoves(s: State, t: Tid, op: Op, id: nat, n: Node)
    requires id in s.nodes && n == s.nodes[id] && op.Doing? && OpOf(s, t) == op
    requires op.At(BindLoad) || op.At(BindSwap) || op.At(BindCount) || op.At(Lock)
    ensures OneNode(s, t, op, id, BindStep(s, t, op, id, n))
  {
    hide OneNode;
    if op.stage == BindLoad || (op.stage == BindSwap && n.bound) || (op.stage == Lock && n.locked) {
      SameNodeMoves(s, t, op, id, if op.stage == Lock then Free else op.(stage := if n.bound then Lock else BindSwap));
    } else {
      var s' := BindStep(s, t, op, id, n);
      ResultMoves(s, t, op, id, s.l, s'.nodes[id], OpOf(s', t));
    }
  }

  lemma UpdateMoves(s: State, t: Tid, op: Op, id: nat, n: Node)
    requires id in s.nodes && n == s.nodes[id] && op.Doing? && OpOf(s, t) == op && (HoldsLock(op.stage) || op.At(UpdPush))
    ensures OneNode(s, t, op, id, UpdateStep(s, t, op, id, n))
  {
    hide L.Apply, PushAccess, UpdateNext, OneNode;
    var s' := UpdateStep(s, t, op, id, n);
    if op.stage == UpdPush {
      PushMoves(s, t, op, id, n);
    } else if op.stage == UnlockPush || op.stage == Unlock {
      UnlockMoves(s, t, op, id, n);
    } else if op.stage == UpdWrite {
      ResultMoves(s, t, op, id, s.l, s'.nodes[id], op.(stage := UpdSwap));
    } else if op.stage == UpdSwap && n.word == op.seen {
      var n' := n.(word := UpdateNext(n.word, op.u, op.pos));
      ResultMoves(s, t, op, id, s'.l, n', op.(stage := if !n.word.queued && n'.word.queued then UnlockPush else Unlock));
    } else {
      SameNodeMoves(s, t, op, id, OpOf(s', t));
    }
  }

  lemma UnlockMoves(s: State, t: Tid, op: Op, id: nat, n: Node)
    requires id in s.nodes && n == s.nodes[id] && (op.At(UnlockPush) || op.At(Unlock))
    ensures OneNode(s, t, op, id, UpdateStep(s, t, op, id, n))
  {
    hide L.Apply, OneNode;
    ResultMoves(s, t, op, id, UpdateStep(s, t, op, id, n).l, n.(locked := false),
                if op.stage == Unlock then Free else op.(stage := UpdPush));
  }

  lemma DropMoves(s: State, t: Tid, op: Op, id: nat, n: Node)
    requires id in s.nodes && n == s.nodes[id] && op.Doing? && OpOf(s, t) == op && Owned(op.stage)
    ensures OneNode(s, t, op, id, DropStep(s, t, op, id, n))
  {
    hide L.Apply, PushAccess;
    if op.stage == DropPush {
      PushMoves(s, t, op, id, n);
      hide OneNode;
    } else if op.stage == Release {
      assert DropStep(s, t, op, id, n) == SetOp(SetNode(s.(handles := s.handles - {op.h}), id, Drop1(n)), t, Free);
    } else {
      FlagMoves(s, t, op, id, n);
    }
  }

  lemma FlagMoves(s: State, t: Tid, op: Op, id: nat, n: Node)
    requires id in s.nodes && n == s.nodes[id] && OpOf(s, t) == op && (op.At(Flag) || op.At(DropQueue))
    ensures OneNode(s, t, op, id, DropStep(s, t, op, id, n))
  {
    hide L.Apply, PushAccess;
    assert s.nodes[id := n] == s.nodes;
  }

  lemma OneNodeKeeps(s: State, t: Tid, op: Op, id: nat, s': State)
    requires OneNode(s, t, op, id, s') && LocksOk(s) && OpOf(s, t) == op && OnNode(s, t, id)
    requires forall u :: u != t && OpOf(s, u).Doing? && op.At(Release) ==> OpOf(s, u).h != op.h || !HoldsLock(OpOf(s, u).stage)
    ensures LocksOk(s')
  {
    forall j | j in s'.nodes ensures LockOk(s', j) {
      assert LockOk(s, j);
    }
  }

  lemma StepKeepsLocks(s: State, t: Tid)
    requires Inv(s) && LocksOk(s) && OpOf(s, t).Doing?
    ensures LocksOk(ThreadStep(s, t))
  {
    hide LocksOk, OneNode, SetStep, BindStep, UpdateStep, DropStep, L.Inv, NodeOk, RightOk, PlaceOk;
    assert OpOk(s, t);
    var op := OpOf(s, t);
    var id := s.handles[op.h].node;
    var n := s.nodes[id];
    forall u | u != t && OpOf(s, u).Doing? && op.At(Release) ensures OpOf(s, u).h != op.h || !HoldsLock(OpOf(s, u).stage) {
      assert OpOk(s, u);
    }
    hide Inv;
    if Owned(op.stage) {
      DropMoves(s, t, op, id, n);
    } else if HoldsLock(op.stage) || op.stage == UpdPush {
      UpdateMoves(s, t, op, id, n);
    } else if op.stage == BindLoad || op.stage == BindSwap || op.stage == BindCount || op.stage == Lock {
      BindMoves(s, t, op, id, n);
    } else {
      SetMoves(s, t, op, id, n);
    }
    OneNodeKeeps(s, t, op, id, ThreadStep(s, t));
  }

  /** No lock changes, and nobody leaves the part that holds one. */
  ghost predicate SameLocks(s: State, s': State) {
    && (forall id {:trigger s'.nodes[id]} :: id in s'.nodes && s'.nodes[id].locked ==>
          id in s.nodes && s.nodes[id].locked && s'.nodes[id].lockedBy == s.nodes[id].lockedBy)
    && (forall t, id :: Inside(s, t, id) ==> Inside(s', t, id))
  }

  lemma SameKeeps(s: State, s': State)
    requires LocksOk(s) && SameLocks(s, s')
    ensures LocksOk(s')
  {
    forall id | id in s'.nodes ensures LockOk(s', id) {
      if s'.nodes[id].locked { assert LockOk(s, id); }
    }
  }

  ghost predicate SameAt(nodes: map<nat, Node>, nodes': map<nat, Node>) {
    forall id {:trigger nodes'[id]} :: id in nodes' ==>
      id in nodes && nodes'[id].locked == nodes[id].locked && nodes'[id].lockedBy == nodes[id].lockedBy
  }

  lemma OneSame(nodes: map<nat, Node>)
    ensures SameAt(nodes, nodes)
    ensures forall id, n: Node {:trigger nodes[id := n]} :: id in nodes && n.locked == nodes[id].locked && n.lockedBy == nodes[id].lockedBy ==>
      SameAt(nodes, nodes[id := n])
  {}

  lemma SawNodes(s: State, w: Word, slots: Slots)
    ensures SawWord(s, w, slots).nodes == s.nodes && SawWord(s, w, slots).ops == s.ops && SawWord(s, w, slots).handles == s.handles
    ensures Act(s, w, PollNext(w), slots).nodes == s.nodes && Act(s, w, PollNext(w), slots).ops == s.ops
      && Act(s, w, PollNext(w), slots).handles == s.handles
  {
    hide L.Apply, PollNext;
  }

  lemma PollerNodes(s: State)
    ensures SameAt(s.nodes, PollerStep(s).nodes) && PollerStep(s).ops == s.ops && PollerStep(s).handles == s.handles
  {
    hide SameAt, L.Apply, ListAccess, PollNext, Act, SawWord;
    OneSame(s.nodes);
    var id := s.poll.id;
    if (s.poll.stage == Load || s.poll.stage == Swap) && id in s.nodes {
      var n := s.nodes[id];
      SawNodes(s, n.word, n.slots);
      SawNodes(SetNode(s, id, n.(word := PollNext(n.word))), n.word, n.slots);
    }
  }

  lemma PollerSame(s: State)
    ensures SameLocks(s, PollerStep(s))
  {
    hide PollerStep;
    PollerNodes(s);
  }

  lemma CallSame(s: State, a: Action)
    requires Enabled(s, a) && !a.Step? && !a.PollStep?
    requires forall t :: OpOf(s, t).Doing? ==> OpOf(s, t).h in s.handles
    ensures SameLocks(s, Apply(s, a))
  {
    hide L.Apply, L.Enabled, PollerStep, ThreadStep;
  }

  lemma ApplyKeepsLocks(s: State, a: Action)
    requires Inv(s) && LocksOk(s) && Enabled(s, a)
    ensures LocksOk(Apply(s, a))
  {
    hide LocksOk, SameLocks, PollerStep, ThreadStep, L.Apply, L.Enabled;
    if a.Step? {
      StepKeepsLocks(s, a.t);
    } else if a.PollStep? {
      PollerSame(s);
      SameKeeps(s, PollerStep(s));
    } else {
      forall t | OpOf(s, t).Doing? ensures OpOf(s, t).h in s.handles { assert OpOk(s, t); }
      CallSame(s, a);
      SameKeeps(s, Apply(s, a));
    }
  }

  lemma {:induction false} RunsKeepLocks(states: seq<State>, actions: seq<Action>, k: nat)
    requires Run(states, actions) && k < |states|
    ensures LocksOk(states[k])
  {
    hide Apply, Enabled, Inv, LockOk;
    if k > 0 {
      hide LocksOk;
      RunsKeepLocks(states, actions, k - 1);
      assert StepAt(states, actions, k - 1);
      RunsKeepInvariant(states, actions, k - 1);
      ApplyKeepsLocks(states[k - 1], actions[k - 1]);
    }
  }

  /** In every reachable state the lock is taken if and only if one thread holds it, and that thread alone does. */
  lemma LockedMeansHeld(s: State, id: nat)
    requires Reachable(s) && id in s.nodes
    ensures s.nodes[id].locked <==> exists t :: Inside(s, t, id)
    ensures forall t, u :: Inside(s, t, id) && Inside(s, u, id) ==> t == u
  {
    ReachableInv(s);
    var states, actions :| Run(states, actions) && s in states;
    var k :| 0 <= k < |states| && states[k] == s;
    RunsKeepLocks(states, actions, k);
    hide L.Inv, NodeOk, RightOk;
    assert LockOk(s, id);
    forall t | Inside(s, t, id) ensures s.nodes[id].locked && s.nodes[id].lockedBy == t { assert OpOk(s, t); }
  }
}
