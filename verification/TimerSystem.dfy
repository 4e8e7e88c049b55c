/** A registered timer and its wakeup thread together: the deadlines of the one are those the other wakes up for. */
module TimerSystem {
  import opened Wrappers
  import opened TimerModel
  import W = TimerWalk
  import K = TimerWakeup
  import opened TimingWheel

  datatype System<T> = System(walk: W.Walk<T>, wake: K.State)

  /** An operation of the owner, or a step of what it or the wakeup thread still has to do. */
  datatype Step<T> = Owner(op: W.Op<T>) | Access(step: K.Step)

  /** The calls an operation of the timer makes, as the class logs them. */
  ghost function CallsOf<T>(w: W.Walk<T>, op: W.Op<T>): seq<Call>
    requires W.Enabled(w, op)
  {
    match op
    case SetOp(x) => [Schedule(x.deadline)]
    case CancelOp(_) => []
    case PollOp(last) => if W.Poll(w, last).1.Some? then [] else [Unset, Schedule(W.NextTick(W.Poll(w, last).0))]
  }

  /** What the operation is to the wakeup protocol. */
  ghost function StepOf<T>(w: W.Walk<T>, op: W.Op<T>): K.Step
    requires W.Enabled(w, op)
  {
    match op
    case SetOp(x) => K.Insert(x.deadline)
    case CancelOp(i) => K.Remove(w.items[i].deadline)
    case PollOp(last) =>
      var (w', r) := W.Poll(w, last);
      if r.Some? then K.Remove(w'.tick) else K.Rest(W.NextTick(w'))
  }

  /** The owner is about to make just these calls. */
  predicate About(user: K.UserPc, calls: seq<Call>) {
    match user
    case Idle => calls == []
    case Unset(at) => calls == [Unset, Schedule(at)]
    case Load(at) => calls == [Schedule(at)]
    case _ => false
  }

  ghost predicate Enabled<T>(s: System<T>, step: Step<T>) {
    match step
    case Owner(op) => s.wake.user.Idle? && W.Enabled(s.walk, op)
    case Access(k) => (k.User? || k.Thread? || k.StartDrop?) && K.Enabled(s.wake, k)
  }

  ghost function Apply<T>(s: System<T>, step: Step<T>): System<T>
    requires Enabled(s, step)
  {
    match step
    case Owner(op) => System(W.Apply(s.walk, op), K.Apply(s.wake, StepOf(s.walk, op)))
    case Access(k) => s.(wake := K.Apply(s.wake, k))
  }

  function Deadlines<T>(c: seq<Item<T>>): multiset<nat> {
    if c == [] then multiset{} else multiset{c[0].deadline} + Deadlines(c[1..])
  }

  ghost predicate Inv<T>(s: System<T>) {
    W.WalkOk(s.walk) && s.walk.tick <= TICK_MAX && s.wake.live == Deadlines(s.walk.items) && K.Inv(s.wake)
  }

  // ---------------------------------------------------------------------------------------------
  // Deadlines
  // ---------------------------------------------------------------------------------------------

  lemma {:induction false} DeadlinesConcat<T>(a: seq<Item<T>>, b: seq<Item<T>>)
    ensures Deadlines(a + b) == Deadlines(a) + Deadlines(b)
  {
    if a == [] {
      assert a + b == b;
    } else {
      assert (a + b)[1..] == a[1..] + b;
      DeadlinesConcat(a[1..], b);
    }
  }

  lemma DeadlinesDrop<T>(c: seq<Item<T>>, i: nat)
    requires i < |c|
    ensures c[i].deadline in Deadlines(c) && Deadlines(Drop(c, i)) == Deadlines(c) - multiset{c[i].deadline}
  {
    hide Deadlines;
    var a, b := c[..i], c[i + 1..];
    assert c == a + ([c[i]] + b);
    DeadlinesConcat(a, [c[i]] + b);
    DeadlinesConcat(a, b);
    DeadlinesFirst(c[i], b);
  }

  lemma {:induction false} DeadlinesMeaning<T>(c: seq<Item<T>>, d: nat)
    ensures d in Deadlines(c) <==> exists i :: 0 <= i < |c| && c[i].deadline == d
  {
    if c == [] {
    } else {
      DeadlinesMeaning(c[1..], d);
      assert forall i :: 1 <= i < |c| ==> c[i] == c[1..][i - 1];
      if d in Deadlines(c[1..]) {
        var i :| 0 <= i < |c[1..]| && c[1..][i].deadline == d;
        assert c[i + 1].deadline == d;
      }
    }
  }

  // ---------------------------------------------------------------------------------------------
  // Every step keeps the two together
  // ---------------------------------------------------------------------------------------------

  /** A poll that fires takes out one timeout, due at the tick the poll comes to. */
  lemma {:induction false} PollTakes<T>(w: W.Walk<T>, last: nat) returns (i: nat)
    requires W.WalkOk(w) && W.Poll(w, last).1.Some?
    ensures i < |w.items| && W.Poll(w, last).0.items == Drop(w.items, i) && w.items[i].deadline == W.Poll(w, last).0.tick
    decreases last + 1 - w.tick, |w.items| - w.cursor
  {
    if w.cursor == |w.items| {
      W.EnterOk(w);
      i := PollTakes(W.Enter(w), last);
    } else {
      W.LookOk(w);
      assert W.ItemOk(w, w.cursor);
      if w.items[w.cursor].deadline <= w.tick {
        i := w.cursor;
      } else {
        W.PassOk(W.Look(w));
        i := PollTakes(W.Pass(W.Look(w)), last);
      }
    }
  }

  /** The answer of `next_tick` is early enough for the wakeup protocol exactly when it is not late. */
  lemma NextTickIsLower<T>(w: W.Walk<T>)
    requires W.WalkOk(w) && w.tick <= TICK_MAX
    ensures K.Lower(W.NextTick(w), Deadlines(w.items)) <==> w.items == [] || W.NextTick(w) <= W.EarliestDeadline(w)
    ensures W.AllCovered(w) ==> K.Lower(W.NextTick(w), Deadlines(w.items))
  {
    hide SlotOf;
    var at := W.NextTick(w);
    if w.items != [] {
      W.NextTickIsLate(w);
      DeadlinesMeaning(w.items, W.EarliestDeadline(w));
      assert w.items[Earliest(w.items)].deadline == W.EarliestDeadline(w);
    }
    if w.items == [] || at <= W.EarliestDeadline(w) {
      forall d | d in Deadlines(w.items) ensures at <= d { DeadlinesMeaning(w.items, d); }
    }
    if at in W.Covered(w) {
      var s: nat :| s < |w.covers| && at in w.covers[s];
      assert W.SlotFits(w, s);
    } else if W.AtCursor(w) {
      assert W.SlotFits(w, W.Current(w));
      assert at == TICK_MAX;
    }
  }

  lemma SetKeeps<T>(s: System<T>, x: Item<T>)
    requires Inv(s) && Enabled(s, Owner(W.SetOp(x)))
    ensures Inv(Apply(s, Owner(W.SetOp(x)))) && About(Apply(s, Owner(W.SetOp(x))).wake.user, CallsOf(s.walk, W.SetOp(x)))
  {
    hide K.Inv, W.WalkOk, Deadlines;
    assert K.Enabled(s.wake, K.Insert(x.deadline));
    W.InsertOk(s.walk, x);
    K.ApplyKeeps(s.wake, K.Insert(x.deadline));
    DeadlinesFirst(x, s.walk.items);
  }

  lemma DeadlinesFirst<T>(x: Item<T>, c: seq<Item<T>>)
    ensures Deadlines([x] + c) == Deadlines(c) + multiset{x.deadline}
  {
    assert ([x] + c)[1..] == c;
  }

  lemma CancelKeeps<T>(s: System<T>, i: nat)
    requires Inv(s) && Enabled(s, Owner(W.CancelOp(i)))
    ensures Inv(Apply(s, Owner(W.CancelOp(i)))) && About(Apply(s, Owner(W.CancelOp(i))).wake.user, CallsOf(s.walk, W.CancelOp(i)))
  {
    hide K.Inv, W.WalkOk, Deadlines;
    DeadlinesDrop(s.walk.items, i);
    W.RemoveOk(s.walk, i);
    K.ApplyKeeps(s.wake, K.Remove(s.walk.items[i].deadline));
  }

  lemma PollKeeps<T>(s: System<T>, last: nat)
    requires Inv(s) && Enabled(s, Owner(W.PollOp(last)))
    ensures Inv(Apply(s, Owner(W.PollOp(last)))) && About(Apply(s, Owner(W.PollOp(last))).wake.user, CallsOf(s.walk, W.PollOp(last)))
  {
    hide K.Inv, W.WalkOk, Deadlines, W.Poll, W.NextTick;
    var (w', r) := W.Poll(s.walk, last);
    W.PollOk(s.walk, last);
    W.PollMisses(s.walk, last);
    if r.Some? {
      var i := PollTakes(s.walk, last);
      DeadlinesDrop(s.walk.items, i);
      K.ApplyKeeps(s.wake, K.Remove(w'.tick));
    } else {
      W.RestCovers(s.walk, last);
      W.RestKeepsItems(s.walk, last);
      NextTickIsLower(w');
      K.ApplyKeeps(s.wake, K.Rest(W.NextTick(w')));
    }
  }

  /** Every operation is, to the protocol, a step that is possible, and leads to where the owner makes its calls. */
  lemma ApplyKeeps<T>(s: System<T>, step: Step<T>)
    requires Inv(s) && Enabled(s, step)
    ensures Inv(Apply(s, step))
    ensures step.Owner? ==> K.Enabled(s.wake, StepOf(s.walk, step.op)) && About(Apply(s, step).wake.user, CallsOf(s.walk, step.op))
  {
    hide K.Inv, W.WalkOk, Deadlines;
    match step
    case Owner(op) =>
      match op {
        case SetOp(x) => SetKeeps(s, x);
        case CancelOp(i) =>
          CancelKeeps(s, i);
          DeadlinesDrop(s.walk.items, i);
        case PollOp(last) =>
          PollKeeps(s, last);
          PollIsStep(s, last);
      }
    case Access(k) => K.ApplyKeeps(s.wake, k);
  }

  lemma PollIsStep<T>(s: System<T>, last: nat)
    requires Inv(s) && Enabled(s, Owner(W.PollOp(last)))
    ensures K.Enabled(s.wake, StepOf(s.walk, W.PollOp(last)))
  {
    hide K.Inv, W.WalkOk, Deadlines, W.Poll, W.NextTick;
    var (w', r) := W.Poll(s.walk, last);
    if r.Some? {
      var i := PollTakes(s.walk, last);
      DeadlinesDrop(s.walk.items, i);
    } else {
      W.PollOk(s.walk, last);
      W.PollMisses(s.walk, last);
      W.RestCovers(s.walk, last);
      W.RestKeepsItems(s.walk, last);
      NextTickIsLower(w');
    }
  }

  // ---------------------------------------------------------------------------------------------
  // Runs
  // ---------------------------------------------------------------------------------------------

  /** Just registered: `register` schedules the next tick, which is not too late. */
  ghost predicate Registers<T>(s: System<T>) {
    && W.WalkOk(s.walk) && s.walk.tick <= TICK_MAX && (s.walk.items != [] ==> W.NextTick(s.walk) <= W.EarliestDeadline(s.walk))
    && s.wake == K.Registered(Deadlines(s.walk.items), W.NextTick(s.walk))
  }

  ghost predicate StepAt<T>(states: seq<System<T>>, steps: seq<Step<T>>, i: nat)
    requires |states| == |steps| + 1
  {
    i < |steps| ==> Enabled(states[i], steps[i]) && states[i + 1] == Apply(states[i], steps[i])
  }

  ghost predicate Run<T>(states: seq<System<T>>, steps: seq<Step<T>>) {
    && |states| == |steps| + 1
    && Registers(states[0])
    && forall i: nat {:trigger StepAt(states, steps, i)} :: StepAt(states, steps, i)
  }

  lemma {:induction false} RunsKeepInvariant<T>(states: seq<System<T>>, steps: seq<Step<T>>, k: nat)
    requires Run(states, steps) && k < |states|
    ensures Inv(states[k])
  {
    if k == 0 {
      RegistersOk(states[0]);
    } else {
      RunsKeepInvariant(states, steps, k - 1);
      assert StepAt(states, steps, k - 1);
      ApplyKeeps(states[k - 1], steps[k - 1]);
    }
  }

  lemma RegistersOk<T>(s: System<T>)
    requires Registers(s)
    ensures Inv(s)
  {
    hide K.Inv, W.NextTick, Deadlines;
    NextTickIsLower(s.walk);
    forall d | d in Deadlines(s.walk.items) ensures 1 <= d <= TICK_MAX {
      DeadlinesMeaning(s.walk.items, d);
      var i: nat :| i < |s.walk.items| && s.walk.items[i].deadline == d;
      assert W.ItemOk(s.walk, i);
    }
    K.RegisteredOk(Deadlines(s.walk.items), W.NextTick(s.walk));
  }

  /**
    In every run of a registered timer with its wakeup thread, between two operations of the owner: for every live
    timeout a wakeup is scheduled no later than its deadline, or the timer is readable or about to be made so; and
    unless one of the last two holds, the thread is not asleep past the deadline.
   */
  lemma TimeoutNeverLate<T>(states: seq<System<T>>, steps: seq<Step<T>>, k: nat, i: nat)
    requires Run(states, steps) && k < |states| && states[k].wake.user.Idle? && i < |states[k].walk.items|
    ensures var wake, d := states[k].wake, states[k].walk.items[i].deadline;
      && (wake.wakeup <= d || wake.readable || wake.thread.Announce?)
      && !wake.thread.Exited?
      && (wake.readable || wake.thread.Announce? || wake.token || (wake.thread.Parked? ==> wake.thread.until <= d))
  {
    RunsKeepInvariant(states, steps, k);
    var s := states[k];
    DeadlinesMeaning(s.walk.items, s.walk.items[i].deadline);
    K.NotLate(s.wake, s.walk.items[i].deadline);
  }

  /**
    From any such state, six steps of the wakeup thread in a row, with the clock at the deadline or later and no
    spurious failure, lead through one in which the timer is readable; up to there no park returns without a reason.
   */
  lemma TimeoutDelivered<T>(states: seq<System<T>>, steps: seq<Step<T>>, k: nat, i: nat, nows: seq<nat>) returns (m: nat)
    requires Run(states, steps) && k < |states| && states[k].wake.user.Idle? && i < |states[k].walk.items|
    requires |nows| == 6 && forall j :: 0 <= j < 6 ==> states[k].walk.items[i].deadline <= nows[j] < K.MAX
    ensures m <= 6 && K.Stepped(states[k].wake, nows, m).readable && K.PromptUntil(states[k].wake, nows, m)
  {
    RunsKeepInvariant(states, steps, k);
    var s := states[k];
    DeadlinesMeaning(s.walk.items, s.walk.items[i].deadline);
    hide K.Inv;
    m := K.DeliveredFrom(s.wake, s.walk.items[i].deadline, nows);
  }

  // ---------------------------------------------------------------------------------------------
  // The protocol within the system
  // ---------------------------------------------------------------------------------------------

  ghost function Wakes<T>(states: seq<System<T>>): seq<K.State> {
    seq(|states|, i requires 0 <= i < |states| => states[i].wake)
  }

  ghost function StepIn<T>(s: System<T>, step: Step<T>): K.Step
    requires Enabled(s, step)
  {
    match step
    case Owner(op) => StepOf(s.walk, op)
    case Access(k) => k
  }

  ghost function StepsIn<T>(states: seq<System<T>>, steps: seq<Step<T>>): seq<K.Step>
    requires Run(states, steps)
  {
    seq(|steps|, i requires 0 <= i < |steps| => assert StepAt(states, steps, i); StepIn(states[i], steps[i]))
  }

  /** What a run of the system is to the wakeup protocol is a run of it, so all that holds of its runs holds here. */
  lemma WakesRun<T>(states: seq<System<T>>, steps: seq<Step<T>>)
    requires Run(states, steps)
    ensures K.Run(Wakes(states), StepsIn(states, steps))
  {
    var ws, ks := Wakes(states), StepsIn(states, steps);
    WakesStart(states[0]);
    forall i | 0 <= i < |ks| ensures K.Enabled(ws[i], ks[i]) && ws[i + 1] == K.Apply(ws[i], ks[i]) {
      assert StepAt(states, steps, i);
      RunsKeepInvariant(states, steps, i);
      ApplyKeeps(states[i], steps[i]);
    }
  }

  lemma WakesStart<T>(s: System<T>)
    requires Registers(s)
    ensures exists live, at :: K.Lower(at, live) && (forall d :: d in live ==> 1 <= d <= K.MAX) && s.wake == K.Registered(live, at)
  {
    hide K.Inv, W.NextTick, Deadlines;
    NextTickIsLower(s.walk);
    forall d | d in Deadlines(s.walk.items) ensures 1 <= d <= TICK_MAX {
      DeadlinesMeaning(s.walk.items, d);
      var i: nat :| i < |s.walk.items| && s.walk.items[i].deadline == d;
      assert W.ItemOk(s.walk, i);
    }
    assert s.wake == K.Registered(Deadlines(s.walk.items), W.NextTick(s.walk));
  }

  /** The owner sets a timeout for this tick, or a poll that finds nothing has `next_tick` answer it. */
  ghost predicate AsksFor<T>(s: System<T>, step: Step<T>, tick: nat) {
    && step.Owner? && W.Enabled(s.walk, step.op)
    && match step.op
       case SetOp(x) => tick == x.deadline
       case PollOp(last) => W.Poll(s.walk, last).1 == None && tick == W.NextTick(W.Poll(s.walk, last).0)
       case CancelOp(_) => false
  }

  lemma AsksIs<T>(s: System<T>, step: Step<T>, tick: nat)
    requires Enabled(s, step) && (StepIn(s, step) == K.Insert(tick) || StepIn(s, step) == K.Rest(tick))
    ensures AsksFor(s, step, tick)
  {
    hide K.Inv, W.WalkOk, W.NextTick, W.Poll, Inv;
  }

  /**
    In every run of the system, whenever the thread is about to make the timer readable, it has taken out a tick that
    was the deadline of a timeout being set, or what `next_tick` answered to `register` or to a poll that found
    nothing, and has seen the clock at that tick or later.
   */
  lemma TimerNotEarly<T>(states: seq<System<T>>, steps: seq<Step<T>>, k: nat) returns (i: nat, j: nat)
    requires Run(states, steps) && k < |steps|
    requires !states[k].wake.thread.Announce? && states[k + 1].wake.thread.Announce?
    ensures i < j < k && var tick := states[k].wake.wakeup;
      && (i == 0 ==> tick == W.NextTick(states[0].walk))
      && (i > 0 ==> AsksFor(states[i - 1], steps[i - 1], tick))
      && steps[j].Access? && steps[j].step.Thread? && tick <= steps[j].step.now
  {
    hide K.Inv, W.WalkOk, W.NextTick, W.Poll, Inv, AsksFor;
    WakesRun(states, steps);
    var ws, ks := Wakes(states), StepsIn(states, steps);
    var tick := states[k].wake.wakeup;
    var a: nat;
    a, j := K.NotEarly(ws, ks, k);
    assert StepAt(states, steps, j);
    if exists b :: 0 <= b < a && (ks[b] == K.Insert(tick) || ks[b] == K.Rest(tick)) {
      var b: nat :| b < a && (ks[b] == K.Insert(tick) || ks[b] == K.Rest(tick));
      assert StepAt(states, steps, b);
      AsksIs(states[b], steps[b], tick);
      i := b + 1;
    } else {
      i := 0;
    }
  }
}
