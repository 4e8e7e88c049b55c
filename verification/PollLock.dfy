/**
  The lock of `Poll::poll1`: one atomic word with a locked bit and a count of waiters, a mutex and a condition
  variable for those who wait.

  Every access to `lock_state`, every acquisition of the mutex and every notification is one step.  Waiting on
  the condition variable gives up the mutex; a wait ends by a notification, by its timeout, or for no reason, and
  whatever ended it, the timeout may be used up by then.
*/
module PollLock {

  datatype Phase =
    | Out
    | Fast          // about to compare-and-swap 0 to 1
    | Enter         // that failed: about to take the mutex
    | Loop          // holds the mutex, about to act on `curr`
    | Waiting       // on the condition variable
    | Notified      // the wait has ended: about to take the mutex again
    | Reload        // holds the mutex, about to load lock_state
    | Inside        // runs poll2
    | Notify        // has unlocked, with waiters: about to take the mutex and notify one

  /** A thread: `inc` while its waiter increment is outstanding; `timed` if it has a timeout, `zero` once that is used up. */
  datatype Pc = Pc(phase: Phase, curr: nat, inc: bool, timed: bool, zero: bool)

  type Tid = nat

  datatype State = State(lock: int, pcs: map<Tid, Pc>)

  datatype Step =
    | Call(t: Tid, timed: bool, zero: bool)
    | Access(t: Tid)
    | EndWait(t: Tid, expired: bool)           // by the timeout, or for no reason
    // the mutex is taken, `other` is woken, perhaps with its timeout used up, and the mutex is given back
    | NotifyOne(t: Tid, other: Tid, expired: bool)
    | NotifyNone(t: Tid)

  const Initial := State(0, map[])
  const Nobody := Pc(Out, 0, false, false, false)

  function PcOf(s: State, t: Tid): Pc { if t in s.pcs then s.pcs[t] else Nobody }

  function Set(s: State, t: Tid, pc: Pc): State { s.(pcs := s.pcs[t := pc]) }

  predicate HoldsMutex(pc: Pc) { pc.phase == Loop || pc.phase == Reload }

  ghost predicate MutexFree(s: State) { forall t :: t in s.pcs ==> !HoldsMutex(s.pcs[t]) }

  ghost predicate Enabled(s: State, step: Step) {
    match step
    case Call(t, timed, zero) => PcOf(s, t).phase == Out && (zero ==> timed)
    case Access(t) =>
      var phase := PcOf(s, t).phase;
      phase == Fast || phase == Loop || phase == Reload || phase == Inside || ((phase == Enter || phase == Notified) && MutexFree(s))
    case EndWait(t, expired) => PcOf(s, t).phase == Waiting && (expired ==> PcOf(s, t).timed)
    case NotifyOne(t, other, expired) =>
      PcOf(s, t).phase == Notify && MutexFree(s) && PcOf(s, other).phase == Waiting && (expired ==> PcOf(s, other).timed)
    case NotifyNone(t) => PcOf(s, t).phase == Notify && MutexFree(s) && forall u :: u in s.pcs ==> s.pcs[u].phase != Waiting
  }

  /** The loop of the slow path (lines 1092-1169), up to its next access. */
  function LoopAccess(s: State, t: Tid, pc: Pc): State {
    if pc.curr % 2 == 0 then
      if s.lock == pc.curr then Set(s.(lock := pc.curr + 1 - if pc.inc then 2 else 0), t, pc.(phase := Inside, inc := false))
      else Set(s, t, pc.(curr := Nat(s.lock)))
    else if pc.zero then
      Set(s.(lock := s.lock - if pc.inc then 2 else 0), t, Nobody)
    else if pc.inc then
      Set(s, t, pc.(phase := Waiting))
    else if s.lock == pc.curr then
      Set(s.(lock := pc.curr + 2), t, pc.(phase := Waiting, inc := true))
    else
      Set(s, t, pc.(curr := Nat(s.lock)))
  }

  function Nat(n: int): nat { if n < 0 then 0 else n }

  function AccessStep(s: State, t: Tid): State {
    var pc := PcOf(s, t);
    match pc.phase
    case Fast =>
      if s.lock == 0 then Set(s.(lock := 1), t, pc.(phase := Inside)) else Set(s, t, pc.(phase := Enter, curr := Nat(s.lock)))
    case Enter => Set(s, t, pc.(phase := Loop))
    case Loop => LoopAccess(s, t, pc)
    case Notified => Set(s, t, pc.(phase := Reload))
    case Reload => Set(s, t, pc.(phase := Loop, curr := Nat(s.lock)))
    case Inside => Set(s.(lock := s.lock - s.lock % 2), t, if s.lock != 1 then pc.(phase := Notify) else Nobody)
    case _ => s
  }

  /** The wait has ended, and may have used up the timeout. */
  function Woken(pc: Pc, expired: bool): Pc { pc.(phase := Notified, zero := pc.zero || expired) }

  function Apply(s: State, step: Step): State {
    match step
    case Call(t, timed, zero) => Set(s, t, Pc(Fast, 0, false, timed, zero))
    case Access(t) => AccessStep(s, t)
    case EndWait(t, expired) => Set(s, t, Woken(PcOf(s, t), expired))
    case NotifyOne(t, other, expired) => Set(Set(s, t, Nobody), other, Woken(PcOf(s, other), expired))
    case NotifyNone(t) => Set(s, t, Nobody)
  }

  // ---------------------------------------------------------------------------------------------
  // Invariant
  // ---------------------------------------------------------------------------------------------

  /** Threads whose waiter increment is outstanding. */
  ghost function Incremented(s: State): set<Tid> { set t | t in s.pcs && s.pcs[t].inc }

  ghost function InPoll2(s: State): set<Tid> { set t | t in s.pcs && s.pcs[t].phase == Inside }

  predicate PcOk(pc: Pc) {
    && (pc.inc ==> pc.phase == Loop || pc.phase == Waiting || pc.phase == Notified || pc.phase == Reload)
    && (pc.phase == Waiting || pc.phase == Notified || pc.phase == Reload ==> pc.inc)
    && (pc.phase == Loop && pc.inc ==> pc.curr >= 2)
    && (pc.phase == Waiting ==> !pc.zero)
  }

  ghost predicate LockOk(s: State) {
    && s.lock == 2 * |Incremented(s)| + |InPoll2(s)|
    && |InPoll2(s)| <= 1
    && (forall t {:trigger PcOf(s, t)} :: PcOk(PcOf(s, t)))
    && (forall t, u {:trigger PcOf(s, t), PcOf(s, u)} :: HoldsMutex(PcOf(s, t)) && HoldsMutex(PcOf(s, u)) ==> t == u)
  }

  /** Asleep, or about to sleep because the lock was seen taken. */
  predicate Drowsy(pc: Pc) { pc.phase == Waiting || (pc.phase == Loop && pc.inc && pc.curr % 2 == 1) }

  /** Will wake somebody, or look at the lock before it sleeps. */
  predicate Alert(pc: Pc) {
    pc.phase == Notify || pc.phase == Notified || pc.phase == Reload || (pc.phase == Loop && pc.curr % 2 == 0)
  }

  /** While somebody sleeps and the lock is free, somebody else is awake. */
  ghost predicate WakeOk(s: State) {
    s.lock % 2 == 0 && (exists t :: Drowsy(PcOf(s, t))) ==> exists t :: Alert(PcOf(s, t))
  }

  ghost predicate Inv(s: State) { LockOk(s) && WakeOk(s) }

  /** One thread moves on, and the word becomes l. */
  function Moved(s: State, t: Tid, pc: Pc, l: int): State { Set(s.(lock := l), t, pc) }

  function Bit(b: bool): int { if b then 1 else 0 }

  lemma Counts(s: State, t: Tid, pc: Pc, l: int)
    ensures var s' := Moved(s, t, pc, l);
      && |Incremented(s')| == |Incremented(s)| - Bit(PcOf(s, t).inc) + Bit(pc.inc)
      && |InPoll2(s')| == |InPoll2(s)| - Bit(PcOf(s, t).phase == Inside) + Bit(pc.phase == Inside)
  {
    var s' := Moved(s, t, pc, l);
    Differ(Incremented(s), Incremented(s'), t);
    Differ(InPoll2(s), InPoll2(s'), t);
  }

  /** Two sets that agree on everything but t. */
  lemma Differ(a: set<Tid>, b: set<Tid>, t: Tid)
    requires forall u :: u != t ==> (u in a <==> u in b)
    ensures |b| == |a| - Bit(t in a) + Bit(t in b)
  {
    assert a - {t} == b - {t};
    Without(a, t);
    Without(b, t);
  }

  lemma Without(a: set<Tid>, t: Tid)
    ensures |a| == |a - {t}| + Bit(t in a)
  {
    if t in a { assert a == (a - {t}) + {t}; } else { assert a == a - {t}; }
  }

  /** A move that accounts for its increment and for poll2 keeps the word's meaning. */
  lemma LockKept(s: State, t: Tid, pc: Pc, l: int)
    requires LockOk(s) && PcOk(pc)
    requires HoldsMutex(pc) ==> HoldsMutex(PcOf(s, t)) || MutexFree(s)
    requires pc.phase == Inside ==> PcOf(s, t).phase == Inside || |InPoll2(s)| == 0
    requires l == s.lock + 2 * (Bit(pc.inc) - Bit(PcOf(s, t).inc)) + Bit(pc.phase == Inside) - Bit(PcOf(s, t).phase == Inside)
    ensures LockOk(Moved(s, t, pc, l))
  {
    var s' := Moved(s, t, pc, l);
    Counts(s, t, pc, l);
    assert forall u :: PcOf(s', u) == if u == t then pc else PcOf(s, u);
    assert MutexFree(s) ==> forall u :: !HoldsMutex(PcOf(s, u));
    forall u, v | HoldsMutex(PcOf(s', u)) && HoldsMutex(PcOf(s', v)) ensures u == v {
      assert HoldsMutex(PcOf(s, u)) || u == t;
      assert HoldsMutex(PcOf(s, v)) || v == t;
    }
  }

  lemma Parity(s: State, t: Tid)
    requires LockOk(s)
    ensures s.lock >= 0
    ensures s.lock % 2 == 0 <==> |InPoll2(s)| == 0
    ensures PcOf(s, t).phase == Inside ==> s.lock % 2 == 1
    ensures PcOf(s, t).inc ==> s.lock >= 2
    ensures s.lock == 1 ==> !PcOf(s, t).inc
  {
    assert PcOf(s, t).phase == Inside ==> t in InPoll2(s);
    assert PcOf(s, t).inc ==> t in Incremented(s);
    ParityOf(s.lock, Incremented(s), InPoll2(s), t);
  }

  lemma ParityOf(lock: int, incremented: set<Tid>, inside: set<Tid>, t: Tid)
    requires lock == 2 * |incremented| + |inside| && |inside| <= 1
    ensures lock >= 0 && (lock % 2 == 0 <==> |inside| == 0)
    ensures t in inside ==> lock % 2 == 1
    ensures t in incremented ==> lock >= 2
  {
    Without(inside, t);
    Without(incremented, t);
  }

  /** Nobody falls asleep unseen: the mover is not drowsy, or was before, and was not the only one awake. */
  lemma WakeKept(s: State, t: Tid, pc: Pc, l: int)
    requires WakeOk(s)
    requires l % 2 == 1 || Alert(pc) || (s.lock % 2 == 0 && !Alert(PcOf(s, t)) && (Drowsy(pc) ==> Drowsy(PcOf(s, t))))
    ensures WakeOk(Moved(s, t, pc, l))
  {
    var s' := Moved(s, t, pc, l);
    assert forall u :: PcOf(s', u) == if u == t then pc else PcOf(s, u);
    if l % 2 == 0 {
      if Alert(pc) {
        assert Alert(PcOf(s', t));
      } else if u :| Drowsy(PcOf(s', u)) {
        assert Drowsy(PcOf(s, u));
        var v :| Alert(PcOf(s, v));
        assert Alert(PcOf(s', v));
      }
    }
  }

  lemma NobodyDrowsy(s: State)
    requires LockOk(s) && (s.lock == 1 || s.lock == 0)
    ensures forall t :: !Drowsy(PcOf(s, t))
  {
    forall t ensures !Drowsy(PcOf(s, t)) { Parity(s, t); assert PcOk(PcOf(s, t)); }
  }

  lemma LoopKeeps(s: State, t: Tid)
    requires Inv(s) && PcOf(s, t).phase == Loop
    ensures Inv(LoopAccess(s, t, PcOf(s, t)))
  {
    hide Incremented, InPoll2, WakeOk;
    var pc := PcOf(s, t);
    assert PcOk(pc);
    Parity(s, t);
    if pc.curr % 2 == 0 {
      if s.lock == pc.curr {
        LoopMove(s, t, pc.(phase := Inside, inc := false), pc.curr + 1 - if pc.inc then 2 else 0);
      } else {
        LoopMove(s, t, pc.(curr := Nat(s.lock)), s.lock);
      }
    } else if pc.zero {
      LoopMove(s, t, Nobody, s.lock - if pc.inc then 2 else 0);
    } else if pc.inc {
      LoopMove(s, t, pc.(phase := Waiting), s.lock);
    } else if s.lock == pc.curr {
      LoopMove(s, t, pc.(phase := Waiting, inc := true), pc.curr + 2);
    } else {
      LoopMove(s, t, pc.(curr := Nat(s.lock)), s.lock);
    }
  }

  lemma LoopMove(s: State, t: Tid, pc: Pc, l: int)
    requires Inv(s) && PcOf(s, t).phase == Loop && PcOk(pc)
    requires pc.phase == Inside ==> s.lock % 2 == 0
    requires l == s.lock + 2 * (Bit(pc.inc) - Bit(PcOf(s, t).inc)) + Bit(pc.phase == Inside)
    requires l % 2 == 1 || Alert(pc) || (s.lock % 2 == 0 && !Alert(PcOf(s, t)) && (Drowsy(pc) ==> Drowsy(PcOf(s, t))))
    ensures Inv(Moved(s, t, pc, l))
  {
    Parity(s, t);
    LockKept(s, t, pc, l);
    WakeKept(s, t, pc, l);
  }

  lemma AccessKeeps(s: State, t: Tid)
    requires Inv(s) && Enabled(s, Access(t))
    ensures Inv(AccessStep(s, t))
  {
    hide Incremented, InPoll2, WakeOk;
    var pc := PcOf(s, t);
    assert PcOk(pc);
    Parity(s, t);
    match pc.phase
    case Fast =>
      if s.lock == 0 {
        LockKept(s, t, pc.(phase := Inside), 1);
        WakeKept(s, t, pc.(phase := Inside), 1);
      } else {
        Idles(s, t, pc.(phase := Enter, curr := Nat(s.lock)));
      }
    case Enter => Idles(s, t, pc.(phase := Loop));
    case Loop => LoopKeeps(s, t);
    case Notified => Idles(s, t, pc.(phase := Reload));
    case Reload => Idles(s, t, pc.(phase := Loop, curr := Nat(s.lock)));
    case Inside => UnlockKeeps(s, t);
  }

  /** A move that leaves the word alone. */
  lemma Idles(s: State, t: Tid, pc: Pc)
    requires Inv(s) && PcOk(pc) && pc.phase != Inside && PcOf(s, t).phase != Inside && pc.inc == PcOf(s, t).inc
    requires HoldsMutex(pc) ==> HoldsMutex(PcOf(s, t)) || MutexFree(s)
    requires s.lock % 2 == 1 || Alert(pc) || (!Alert(PcOf(s, t)) && !Drowsy(pc))
    ensures Inv(Set(s, t, pc))
  {
    assert Moved(s, t, pc, s.lock) == Set(s, t, pc);
    LockKept(s, t, pc, s.lock);
    WakeKept(s, t, pc, s.lock);
  }

  lemma UnlockKeeps(s: State, t: Tid)
    requires Inv(s) && PcOf(s, t).phase == Inside
    ensures Inv(AccessStep(s, t))
  {
    hide Incremented, InPoll2;
    var pc := PcOf(s, t);
    assert PcOk(pc);
    Parity(s, t);
    if s.lock != 1 {
      LockKept(s, t, pc.(phase := Notify), s.lock - 1);
      hide WakeOk;
      WakeKept(s, t, pc.(phase := Notify), s.lock - 1);
    } else {
      LockKept(s, t, Nobody, 0);
      NobodyDrowsy(Moved(s, t, Nobody, 0));
    }
  }

  lemma SomebodyAlert(s: State, t: Tid)
    requires Alert(PcOf(s, t))
    ensures WakeOk(s)
  {}

  lemma NotifyKeeps(s: State, t: Tid, other: Tid, expired: bool)
    requires Inv(s) && Enabled(s, NotifyOne(t, other, expired))
    ensures Inv(Apply(s, NotifyOne(t, other, expired)))
  {
    hide Incremented, InPoll2, WakeOk;
    assert PcOk(PcOf(s, t)) && PcOk(PcOf(s, other));
    var pc := Woken(PcOf(s, other), expired);
    Idles(s, other, pc);
    var s1 := Set(s, other, pc);
    LockKept(s1, t, Nobody, s1.lock);
    var s2 := Moved(s1, t, Nobody, s1.lock);
    assert Alert(PcOf(s2, other));
    SomebodyAlert(s2, other);
    assert Set(Set(s, t, Nobody), other, pc).pcs == s2.pcs;
  }

  lemma NotifyNoneKeeps(s: State, t: Tid)
    requires Inv(s) && Enabled(s, NotifyNone(t))
    ensures Inv(Apply(s, NotifyNone(t)))
  {
    assert PcOk(PcOf(s, t));
    LockKept(s, t, Nobody, s.lock);
    var s' := Moved(s, t, Nobody, s.lock);
    forall u ensures !Drowsy(PcOf(s', u)) { assert u in s.pcs ==> !HoldsMutex(s.pcs[u]); }
  }

  lemma ApplyKeeps(s: State, step: Step)
    requires Inv(s) && Enabled(s, step)
    ensures Inv(Apply(s, step))
  {
    hide Incremented, InPoll2, WakeOk;
    match step
    case Call(t, timed, zero) =>
      assert PcOk(PcOf(s, t));
      Idles(s, t, Pc(Fast, 0, false, timed, zero));
    case Access(t) => AccessKeeps(s, t);
    case EndWait(t, expired) =>
      assert PcOk(PcOf(s, t));
      Idles(s, t, Woken(PcOf(s, t), expired));
    case NotifyOne(t, other, expired) => NotifyKeeps(s, t, other, expired);
    case NotifyNone(t) => NotifyNoneKeeps(s, t);
  }

  ghost predicate Run(states: seq<State>, steps: seq<Step>) {
    && |states| == |steps| + 1
    && states[0] == Initial
    && forall i :: 0 <= i < |steps| ==> Enabled(states[i], steps[i]) && states[i + 1] == Apply(states[i], steps[i])
  }

  lemma {:induction false} RunsKeepInvariant(states: seq<State>, steps: seq<Step>, k: nat)
    requires Run(states, steps) && k < |states|
    ensures Inv(states[k])
  {
    if k == 0 {
      assert Incremented(Initial) == {} && InPoll2(Initial) == {};
    } else {
      RunsKeepInvariant(states, steps, k - 1);
      ApplyKeeps(states[k - 1], steps[k - 1]);
    }
  }

  /**
    In every state of every run, the word is twice the outstanding increments, and one more while a thread runs
    poll2; there is never a second one; and no subtraction takes what is not there.
   */
  lemma LockMeaning(states: seq<State>, steps: seq<Step>, k: nat)
    requires Run(states, steps) && k < |states|
    ensures var s := states[k];
      && s.lock == 2 * |Incremented(s)| + |InPoll2(s)|
      && (forall t, u :: PcOf(s, t).phase == Inside && PcOf(s, u).phase == Inside ==> t == u)
      && (forall t :: PcOf(s, t).phase == Loop && PcOf(s, t).inc ==> s.lock >= 2 && PcOf(s, t).curr >= 2)
  {
    RunsKeepInvariant(states, steps, k);
    var s := states[k];
    forall t, u | PcOf(s, t).phase == Inside && PcOf(s, u).phase == Inside ensures t == u {
      Pair(InPoll2(s), t, u);
    }
    forall t | PcOf(s, t).phase == Loop && PcOf(s, t).inc ensures s.lock >= 2 && PcOf(s, t).curr >= 2 {
      Parity(s, t);
      assert PcOk(PcOf(s, t));
    }
  }

  lemma Pair(a: set<Tid>, t: Tid, u: Tid)
    requires t in a && u in a && |a| <= 1
    ensures t == u
  {
    Without(a, t);
    Without(a - {t}, u);
  }

  /** Nobody sleeps beside a free lock unless somebody is on the way to wake a sleeper or to take the lock. */
  lemma NoLostNotification(states: seq<State>, steps: seq<Step>, k: nat, t: Tid)
    requires Run(states, steps) && k < |states| && PcOf(states[k], t).phase == Waiting
    ensures states[k].lock % 2 == 1 || exists u :: u != t && Alert(PcOf(states[k], u))
  {
    RunsKeepInvariant(states, steps, k);
    assert Drowsy(PcOf(states[k], t));
  }

  // ---------------------------------------------------------------------------------------------
  // When a call comes to an end
  // ---------------------------------------------------------------------------------------------

  /** Nobody waits who has no time left. */
  lemma NobodyWaitsInVain(states: seq<State>, steps: seq<Step>, k: nat, t: Tid)
    requires Run(states, steps) && k < |states| && PcOf(states[k], t).phase == Waiting
    ensures !PcOf(states[k], t).zero
  {
    RunsKeepInvariant(states, steps, k);
    assert PcOk(PcOf(states[k], t));
  }

  /** The state after n accesses of thread t in a row. */
  function Alone(s: State, t: Tid, n: nat): State {
    if n == 0 then s else AccessStep(Alone(s, t, n - 1), t)
  }

  /** Nothing has happened to anybody but t. */
  ghost predicate OthersStay(s: State, s': State, t: Tid) {
    forall u :: u != t ==> PcOf(s', u) == PcOf(s, u)
  }

  lemma AccessOthers(s: State, t: Tid)
    ensures OthersStay(s, AccessStep(s, t), t)
  {}

  lemma AloneTwice(s: State, t: Tid)
    ensures Alone(s, t, 1) == AccessStep(s, t) && Alone(s, t, 2) == AccessStep(AccessStep(s, t), t)
  {
    assert Alone(s, t, 0) == s;
  }

  /** Thread t holds the mutex and has seen, or would see, that the lock is taken. */
  predicate SeesTaken(s: State, t: Tid) { PcOf(s, t).curr % 2 == 1 || s.lock % 2 == 1 }

  /**
    A thread in the loop, while nobody else moves, is through with it within two accesses, whatever it saw before:
    with no time left it is out, its own increment given back, exactly if the lock was taken, and else inside;
    with time left it waits, with one increment, exactly if the lock is taken, or was when it last looked and it had
    already counted itself; and else it is inside.
   */
  lemma LoopEnds(states: seq<State>, steps: seq<Step>, k: nat, t: Tid) returns (n: nat)
    requires Run(states, steps) && k < |states| && PcOf(states[k], t).phase == Loop
    ensures 1 <= n <= 2 && OthersStay(states[k], Alone(states[k], t, n), t)
    ensures var s, s', pc := states[k], Alone(states[k], t, n), PcOf(states[k], t);
      if pc.zero then
        && PcOf(s', t).phase == (if SeesTaken(s, t) then Out else Inside)
        && s'.lock == s.lock - 2 * Bit(pc.inc) + Bit(!SeesTaken(s, t))
      else if s.lock % 2 == 1 || (pc.inc && pc.curr % 2 == 1) then
        PcOf(s', t).phase == Waiting && s'.lock == s.lock + 2 - 2 * Bit(pc.inc)
      else
        PcOf(s', t).phase == Inside && s'.lock == s.lock + 1 - 2 * Bit(pc.inc)
  {
    RunsKeepInvariant(states, steps, k);
    n := LoopEndsFrom(states[k], t);
  }

  lemma LoopEndsFrom(s: State, t: Tid) returns (n: nat)
    requires Inv(s) && PcOf(s, t).phase == Loop
    ensures 1 <= n <= 2 && OthersStay(s, Alone(s, t, n), t)
    ensures var s', pc := Alone(s, t, n), PcOf(s, t);
      if pc.zero then
        && PcOf(s', t).phase == (if SeesTaken(s, t) then Out else Inside)
        && s'.lock == s.lock - 2 * Bit(pc.inc) + Bit(!SeesTaken(s, t))
      else if s.lock % 2 == 1 || (pc.inc && pc.curr % 2 == 1) then
        PcOf(s', t).phase == Waiting && s'.lock == s.lock + 2 - 2 * Bit(pc.inc)
      else
        PcOf(s', t).phase == Inside && s'.lock == s.lock + 1 - 2 * Bit(pc.inc)
  {
    hide Incremented, InPoll2, WakeOk;
    var pc := PcOf(s, t);
    Parity(s, t);
    AccessOthers(s, t);
    AccessOthers(AccessStep(s, t), t);
    AloneTwice(s, t);
    n := if PcOf(AccessStep(s, t), t).phase == Loop then 2 else 1;
  }

  /** What a thread in the loop goes by was in the word at some access of its own to it. */
  lemma {:induction false} CurrWasSeen(states: seq<State>, steps: seq<Step>, k: nat, t: Tid)
    requires Run(states, steps) && k < |states| && (PcOf(states[k], t).phase == Enter || PcOf(states[k], t).phase == Loop)
    ensures exists j {:trigger states[j]} :: 0 <= j < k && steps[j] == Access(t) && states[j].lock == PcOf(states[k], t).curr
  {
    if k == 0 {
    } else {
      hide Inv;
      RunsKeepInvariant(states, steps, k - 1);
      var s, pc := states[k - 1], PcOf(states[k - 1], t);
      LockIsNat(s);
      if steps[k - 1] == Access(t) && s.lock == PcOf(states[k], t).curr {
        assert 0 <= k - 1 < k;
      } else {
        CurrStays(s, steps[k - 1], t);
        CurrWasSeen(states, steps, k - 1, t);
      }
    }
  }

  lemma LockIsNat(s: State)
    requires Inv(s)
    ensures s.lock >= 0
  {
    Parity(s, 0);
  }

  lemma CurrStays(s: State, step: Step, t: Tid)
    requires Enabled(s, step) && s.lock >= 0
    requires PcOf(Apply(s, step), t).phase == Enter || PcOf(Apply(s, step), t).phase == Loop
    requires !(step == Access(t) && s.lock == PcOf(Apply(s, step), t).curr)
    ensures PcOf(s, t).phase == Enter || PcOf(s, t).phase == Loop
    ensures PcOf(s, t).curr == PcOf(Apply(s, step), t).curr
  {}

  /** A call that nobody disturbs, the mutex being free, is inside, out or waiting within four accesses. */
  lemma CallEnds(states: seq<State>, steps: seq<Step>, k: nat, t: Tid, timed: bool, zero: bool) returns (n: nat)
    requires Run(states, steps) && k < |states| && Enabled(states[k], Call(t, timed, zero)) && MutexFree(states[k])
    ensures var s, s' := states[k], Alone(Apply(states[k], Call(t, timed, zero)), t, n);
      && 1 <= n <= 4 && OthersStay(s, s', t)
      && PcOf(s', t).phase == (if s.lock % 2 == 0 then Inside else if zero then Out else Waiting)
      && s'.lock == s.lock + if s.lock % 2 == 0 then 1 else if zero then 0 else 2
  {
    RunsKeepInvariant(states, steps, k);
    var s := states[k];
    var s1 := Apply(s, Call(t, timed, zero));
    ApplyKeeps(s, Call(t, timed, zero));
    n := FromCall(s1, t);
  }

  lemma FromCall(s: State, t: Tid) returns (n: nat)
    requires Inv(s) && MutexFree(s) && PcOf(s, t).phase == Fast && !PcOf(s, t).inc
    ensures var s', zero := Alone(s, t, n), PcOf(s, t).zero;
      && 1 <= n <= 4 && OthersStay(s, s', t)
      && PcOf(s', t).phase == (if s.lock % 2 == 0 then Inside else if zero then Out else Waiting)
      && s'.lock == s.lock + if s.lock % 2 == 0 then 1 else if zero then 0 else 2
  {
    hide Incremented, InPoll2, WakeOk, Inv, AccessStep, MutexFree;
    AloneTwice(s, t);
    FirstTry(s, t);
    AccessOthers(s, t);
    if s.lock == 0 {
      n := 1;
    } else {
      var s1, s2 := AccessStep(s, t), Alone(s, t, 2);
      AccessOthers(s1, t);
      var m := LoopEndsFrom(s2, t);
      AloneTwice(s2, t);
      assert Alone(s, t, 3) == AccessStep(s2, t) && Alone(s, t, 4) == AccessStep(Alone(s, t, 3), t);
      n := 2 + m;
    }
  }

  /** The first access takes a free lock that nobody waits for; else the second leads to the loop, with the word as it is. */
  lemma FirstTry(s: State, t: Tid)
    requires Inv(s) && MutexFree(s) && PcOf(s, t).phase == Fast && !PcOf(s, t).inc
    ensures var s1, s2 := AccessStep(s, t), AccessStep(AccessStep(s, t), t);
      if s.lock == 0 then PcOf(s1, t).phase == Inside && s1.lock == 1
      else
        && Inv(s2) && s2.lock == s.lock && PcOf(s2, t).phase == Loop && !PcOf(s2, t).inc && PcOf(s2, t).zero == PcOf(s, t).zero
        && PcOf(s2, t).curr % 2 == s.lock % 2
  {
    hide Incremented, InPoll2, WakeOk;
    Parity(s, t);
    if s.lock != 0 {
      AccessKeeps(s, t);
      assert MutexFree(AccessStep(s, t));
      AccessKeeps(AccessStep(s, t), t);
    }
  }

  /** Thread t is woken: its wait ends by its timeout or for no reason, or another thread notifies it. */
  predicate Wakes(step: Step, t: Tid, expired: bool) {
    step == EndWait(t, expired) || (step.NotifyOne? && step.other == t && step.expired == expired)
  }

  /**
    A waiter that is woken with its time used up is out, its increment given back, within four accesses of its own if
    the lock is taken; with time left it waits again; and if the lock is free it is inside either way.
   */
  lemma WaitEnds(states: seq<State>, steps: seq<Step>, k: nat, step: Step, t: Tid, expired: bool) returns (n: nat)
    requires Run(states, steps) && k < |states| && Enabled(states[k], step) && Wakes(step, t, expired) && MutexFree(states[k])
    ensures var s, s' := states[k], Alone(Apply(states[k], step), t, n);
      && 1 <= n <= 4
      && PcOf(s', t).phase == (if s.lock % 2 == 0 then Inside else if expired then Out else Waiting)
      && s'.lock == s.lock + if s.lock % 2 == 0 then -1 else if expired then -2 else 0
  {
    RunsKeepInvariant(states, steps, k);
    ApplyKeeps(states[k], step);
    assert PcOk(PcOf(states[k], t));
    n := FromNotified(Apply(states[k], step), t);
  }

  lemma FromNotified(s: State, t: Tid) returns (n: nat)
    requires Inv(s) && MutexFree(s) && PcOf(s, t).phase == Notified
    ensures var s', zero := Alone(s, t, n), PcOf(s, t).zero;
      && 1 <= n <= 4
      && PcOf(s', t).phase == (if s.lock % 2 == 0 then Inside else if zero then Out else Waiting)
      && s'.lock == s.lock + if s.lock % 2 == 0 then -1 else if zero then -2 else 0
  {
    hide Incremented, InPoll2, WakeOk, Inv, AccessStep, MutexFree;
    AloneTwice(s, t);
    var s2 := Alone(s, t, 2);
    NotifiedLoops(s, t);
    var m := LoopEndsFrom(s2, t);
    AloneTwice(s2, t);
    assert Alone(s, t, 3) == AccessStep(s2, t) && Alone(s, t, 4) == AccessStep(Alone(s, t, 3), t);
    n := 2 + m;
  }

  /** Two accesses take a notified thread to the loop, with the word as it is. */
  lemma NotifiedLoops(s: State, t: Tid)
    requires Inv(s) && MutexFree(s) && PcOf(s, t).phase == Notified
    ensures var s2 := AccessStep(AccessStep(s, t), t);
      && Inv(s2) && s2.lock == s.lock && PcOf(s2, t).phase == Loop && PcOf(s2, t).inc && PcOf(s2, t).zero == PcOf(s, t).zero
      && PcOf(s2, t).curr % 2 == s.lock % 2
  {
    hide Incremented, InPoll2, WakeOk;
    Parity(s, t);
    assert PcOk(PcOf(s, t));
    AccessKeeps(s, t);
    AccessKeeps(AccessStep(s, t), t);
  }

  /**
    A thread that is through with poll2 frees the lock with one access, and is out, or, with the mutex free, its next
    step takes it out and wakes one waiter, any of them, if there is one.
   */
  lemma UnlockEnds(states: seq<State>, steps: seq<Step>, k: nat, t: Tid)
    requires Run(states, steps) && k < |states| && PcOf(states[k], t).phase == Inside
    ensures var s, s' := states[k], Alone(states[k], t, 1);
      && OthersStay(s, s', t) && s'.lock == s.lock - 1 && s'.lock % 2 == 0
      && PcOf(s', t).phase == (if Incremented(s) == {} then Out else Notify)
      && (MutexFree(s') && PcOf(s', t).phase == Notify ==>
           if exists u :: PcOf(s', u).phase == Waiting then
             forall u :: PcOf(s', u).phase == Waiting ==>
               && Enabled(s', NotifyOne(t, u, false)) && PcOf(Apply(s', NotifyOne(t, u, false)), t).phase == Out
               && PcOf(Apply(s', NotifyOne(t, u, false)), u).phase == Notified
           else Enabled(s', NotifyNone(t)) && PcOf(Apply(s', NotifyNone(t)), t).phase == Out)
  {
    hide Inv, WakeOk, LockOk, Enabled, Apply, Incremented, AccessStep;
    RunsKeepInvariant(states, steps, k);
    var s := states[k];
    AloneTwice(s, t);
    AccessOthers(s, t);
    FreesLock(s, t);
    if MutexFree(AccessStep(s, t)) && PcOf(AccessStep(s, t), t).phase == Notify { NotifyEnds(AccessStep(s, t), t); }
  }

  lemma FreesLock(s: State, t: Tid)
    requires Inv(s) && PcOf(s, t).phase == Inside
    ensures var s' := AccessStep(s, t);
      && s'.lock == s.lock - 1 && s'.lock % 2 == 0 && PcOf(s', t).phase == (if Incremented(s) == {} then Out else Notify)
  {
    hide WakeOk;
    Parity(s, t);
    InsideAlone(InPoll2(s), t);
    NoneIncremented(Incremented(s));
  }

  lemma NotifyEnds(s: State, t: Tid)
    requires MutexFree(s) && PcOf(s, t).phase == Notify
    ensures
      if exists u :: PcOf(s, u).phase == Waiting then
        forall u :: PcOf(s, u).phase == Waiting ==>
          && Enabled(s, NotifyOne(t, u, false)) && PcOf(Apply(s, NotifyOne(t, u, false)), t).phase == Out
          && PcOf(Apply(s, NotifyOne(t, u, false)), u).phase == Notified
      else Enabled(s, NotifyNone(t)) && PcOf(Apply(s, NotifyNone(t)), t).phase == Out
  {
    hide AccessStep;
    assert forall u :: u in s.pcs ==> PcOf(s, u) == s.pcs[u];
  }

  lemma InsideAlone(a: set<Tid>, t: Tid)
    requires t in a && |a| <= 1
    ensures |a| == 1
  {
    Without(a, t);
  }

  lemma NoneIncremented(a: set<Tid>)
    ensures |a| == 0 <==> a == {}
  {}
}
