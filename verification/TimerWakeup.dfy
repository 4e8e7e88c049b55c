/**
  The wakeup protocol of `corcovado::timer` between a registered timer and its wakeup thread.

  Every access to `wakeup_state`, every change of readiness, and every park and unpark is one step.  The weak
  compare-and-swap may fail for no reason, and a park may return for no reason.  The clock may show any tick at any
  time.
*/
module TimerWakeup {

  const MAX: nat := 0xffff_ffff_ffff_ffff
  const TERMINATE: nat := 0

  /** Where the timer's owner is. */
  datatype UserPc =
    | Idle
    | Unset(at: nat)               // poll found nothing: about to clear readiness; next_tick() will be `at`
    | Load(at: nat)                // schedule_readiness(at): about to load wakeup_state
    | Swap(curr: nat, at: nat)     // schedule_readiness(at): about to compare-and-swap
    | Unpark                       // about to unpark the wakeup thread
    | Drop                         // Inner::drop: about to store TERMINATE
    | DropUnpark
    | Gone

  /** Where the wakeup thread is; `until` is its sleep_until_tick. */
  datatype ThreadPc =
    | Reload                       // about to load wakeup_state
    | Look(until: nat)             // about to look at the clock
    | Parked(until: nat)
    | Take(until: nat)             // about to compare-and-swap wakeup_state to MAX
    | Announce                     // the swap was won: about to set readable
    | Exited

  datatype State = State(
    wakeup: nat,
    readable: bool,
    token: bool,                   // an unpark that no park has consumed
    live: multiset<nat>,           // the deadlines of the live timeouts
    user: UserPc,
    thread: ThreadPc)

  datatype Step =
    | Insert(deadline: nat)        // set_timeout_at, up to its call of schedule_readiness
    | Remove(deadline: nat)        // a cancel, or a poll that returns a timeout
    | Rest(at: nat)                // a poll that found nothing due
    | StartDrop
    | User(spurious: bool)
    | Thread(now: nat, spurious: bool)

  /** `register` has spawned the thread and calls schedule_readiness(next_tick()). */
  function Registered(live: multiset<nat>, at: nat): State {
    State(MAX, false, false, live, Load(at), Reload)
  }

  /** `at` is a possible answer of next_tick() when all slots bound their deadlines. */
  ghost predicate Lower(at: nat, live: multiset<nat>) {
    1 <= at <= MAX && forall d :: d in live ==> at <= d
  }

  ghost predicate Enabled(s: State, step: Step) {
    match step
    case Insert(d) => s.user.Idle? && 1 <= d <= MAX
    case Remove(d) => s.user.Idle? && d in s.live
    case Rest(at) => s.user.Idle? && Lower(at, s.live)
    case StartDrop => s.user.Idle?
    case User(_) => !s.user.Idle? && !s.user.Gone?
    case Thread(now, _) => now < MAX
  }

  function Saw(s: State, curr: nat, at: nat): UserPc {
    if curr <= at then Idle else Swap(curr, at)
  }

  function UserStep(s: State, spurious: bool): State {
    match s.user
    case Unset(at) => s.(readable := false, user := Load(at))
    case Load(at) => s.(user := Saw(s, s.wakeup, at))
    case Swap(curr, at) =>
      if s.wakeup == curr && !spurious then s.(wakeup := at, user := Unpark) else s.(user := Saw(s, s.wakeup, at))
    case Unpark => s.(token := true, user := Idle)
    case Drop => s.(wakeup := TERMINATE, user := DropUnpark)
    case DropUnpark => s.(token := true, user := Gone)
    case Idle => s
    case Gone => s
  }

  function ThreadStep(s: State, now: nat, spurious: bool): State {
    match s.thread
    case Reload => s.(thread := Look(s.wakeup))
    case Look(until) =>
      if until == TERMINATE then s.(thread := Exited)
      else if now < until then s.(thread := Parked(until))
      else s.(thread := Take(until))
    case Parked(_) => s.(token := false, thread := Reload)
    case Take(until) =>
      if s.wakeup == until && !spurious then s.(wakeup := MAX, thread := Announce) else s.(thread := Look(s.wakeup))
    case Announce => s.(readable := true, thread := Look(MAX))
    case Exited => s
  }

  function Apply(s: State, step: Step): State {
    match step
    case Insert(d) => s.(live := s.live + multiset{d}, user := Load(d))
    case Remove(d) => s.(live := s.live - multiset{d})
    case Rest(at) => s.(user := Unset(at))
    case StartDrop => s.(user := Drop)
    case User(spurious) => UserStep(s, spurious)
    case Thread(now, spurious) => ThreadStep(s, now, spurious)
  }

  // ---------------------------------------------------------------------------------------------
  // Invariant
  // ---------------------------------------------------------------------------------------------

  /** A wakeup for deadline d is on its way: scheduled, delivered, or about to be. */
  predicate OnItsWay(s: State, d: nat) {
    s.wakeup <= d || s.readable || s.thread.Announce?
  }

  predicate Dropping(s: State) { s.user.DropUnpark? || s.user.Gone? }

  /** The tick the owner is about to schedule, if it is on its way to do so. */
  predicate Schedules(s: State, d: nat) {
    match s.user
    case Unset(at) => at <= d
    case Load(at) => at <= d
    case Swap(_, at) => at <= d
    case _ => false
  }

  ghost predicate WakeupOk(s: State) {
    && (forall d :: d in s.live ==> 1 <= d <= MAX && (OnItsWay(s, d) || Schedules(s, d)))
    && (s.user.Unset? ==> Lower(s.user.at, s.live))
  }

  /** TERMINATE is written by the drop alone, and only then does the thread end. */
  ghost predicate TerminateOk(s: State) {
    && s.wakeup <= MAX
    && (s.wakeup == TERMINATE ==> Dropping(s))
    && (s.thread.Exited? || s.thread == Look(TERMINATE) ==> Dropping(s))
    && (s.user.Unset? || s.user.Load? || s.user.Swap? ==> 1 <= s.user.at)
    && (s.user.Swap? ==> s.user.at < s.user.curr)
    && (s.thread.Parked? || s.thread.Take? ==> s.thread.until >= 1)
  }

  /** A sleeping thread does not sleep past wakeup_state: it is, or is about to be, unparked. */
  predicate SleepOk(s: State) {
    match s.thread
    case Look(until) => Noticed(s, until)
    case Parked(until) => Noticed(s, until)
    case Announce => Noticed(s, MAX)
    case _ => true
  }

  predicate Noticed(s: State, until: nat) {
    until <= s.wakeup || s.token || s.user.Unpark? || s.user.DropUnpark?
  }

  ghost predicate Inv(s: State) {
    WakeupOk(s) && TerminateOk(s) && SleepOk(s)
  }

  lemma RegisteredOk(live: multiset<nat>, at: nat)
    requires Lower(at, live) && forall d :: d in live ==> 1 <= d <= MAX
    ensures Inv(Registered(live, at))
  {}

  lemma ApplyKeeps(s: State, step: Step)
    requires Inv(s) && Enabled(s, step)
    ensures Inv(Apply(s, step))
  {
    match step
    case User(spurious) => UserStepKeeps(s, spurious);
    case Thread(now, spurious) => ThreadStepKeeps(s, now, spurious);
    case Insert(_) =>
    case Remove(_) =>
    case Rest(_) =>
    case StartDrop =>
  }

  lemma UserStepKeeps(s: State, spurious: bool)
    requires Inv(s)
    ensures Inv(UserStep(s, spurious))
  {}

  lemma ThreadStepKeeps(s: State, now: nat, spurious: bool)
    requires Inv(s)
    ensures Inv(ThreadStep(s, now, spurious))
  {}

  ghost predicate Run(states: seq<State>, steps: seq<Step>) {
    && |states| == |steps| + 1
    && (exists live, at :: Lower(at, live) && (forall d :: d in live ==> 1 <= d <= MAX) && states[0] == Registered(live, at))
    && forall i :: 0 <= i < |steps| ==> Enabled(states[i], steps[i]) && states[i + 1] == Apply(states[i], steps[i])
  }

  lemma {:induction false} RunsKeepInvariant(states: seq<State>, steps: seq<Step>, k: nat)
    requires Run(states, steps) && k < |states|
    ensures Inv(states[k])
  {
    if k == 0 {
      var live, at :| Lower(at, live) && (forall d :: d in live ==> 1 <= d <= MAX) && states[0] == Registered(live, at);
      RegisteredOk(live, at);
    } else {
      RunsKeepInvariant(states, steps, k - 1);
      ApplyKeeps(states[k - 1], steps[k - 1]);
    }
  }

  // ---------------------------------------------------------------------------------------------
  // What the invariant means
  // ---------------------------------------------------------------------------------------------

  /**
    In every state of every run in which the owner is between two operations: for every live deadline the wakeup
    is scheduled no later than it, or the timer is readable, or the thread is about to make it readable.  And
    unless one of the last two holds, the thread is not asleep past the deadline.
   */
  lemma NeverLate(states: seq<State>, steps: seq<Step>, k: nat, d: nat)
    requires Run(states, steps) && k < |states| && states[k].user.Idle? && d in states[k].live
    ensures var s := states[k];
      && OnItsWay(s, d)
      && !s.thread.Exited?
      && (s.readable || s.thread.Announce? || s.token || (s.thread.Parked? ==> s.thread.until <= d))
  {
    RunsKeepInvariant(states, steps, k);
    NotLate(states[k], d);
  }

  lemma NotLate(s: State, d: nat)
    requires Inv(s) && s.user.Idle? && d in s.live
    ensures OnItsWay(s, d) && !s.thread.Exited?
    ensures s.readable || s.thread.Announce? || s.token || (s.thread.Parked? ==> s.thread.until <= d)
  {}

  /** Only the drop terminates the thread. */
  lemma TerminatedByDrop(states: seq<State>, steps: seq<Step>, k: nat)
    requires Run(states, steps) && k < |states|
    ensures states[k].wakeup == TERMINATE || states[k].thread.Exited? ==> exists j :: 0 <= j < k && steps[j].StartDrop?
  {
    RunsKeepInvariant(states, steps, k);
    if Dropping(states[k]) { DropStarted(states, steps, k); }
  }

  lemma {:induction false} DropStarted(states: seq<State>, steps: seq<Step>, k: nat)
    requires Run(states, steps) && k < |states| && (Dropping(states[k]) || states[k].user.Drop?)
    ensures exists j :: 0 <= j < k && steps[j].StartDrop?
  {
    if k == 0 {
    } else {
      if steps[k - 1].StartDrop? {
      } else {
        DropStarted(states, steps, k - 1);
      }
    }
  }

  // ---------------------------------------------------------------------------------------------
  // Operations come to an end
  // ---------------------------------------------------------------------------------------------

  /** The state after n steps of the owner in a row, none of them a spurious failure. */
  function Owning(s: State, n: nat): State
    decreases n
  {
    if n == 0 then s else Owning(UserStep(s, false), n - 1)
  }

  /**
    Undisturbed, the owner is done within four steps of its own: what it wanted scheduled, or something earlier, is,
    and a poll that found nothing has cleared the readiness; its drop has written the terminate value after two.
   */
  lemma OwnerEnds(states: seq<State>, steps: seq<Step>, k: nat)
    requires Run(states, steps) && k < |states|
    ensures var s := states[k]; var s' := Owning(s, 4);
      && (s.user.Unset? ==> s'.user.Idle? && !s'.readable && s'.wakeup <= s.user.at)
      && (s.user.Load? || s.user.Swap? ==> s'.user.Idle? && s'.readable == s.readable && s'.wakeup <= s.user.at)
      && (s.user.Unpark? ==> s'.user.Idle? && s'.wakeup == s.wakeup)
      && (s.user.Drop? || s.user.DropUnpark? ==> s'.user.Gone? && s'.wakeup == (if s.user.Drop? then TERMINATE else s.wakeup))
  {
    RunsKeepInvariant(states, steps, k);
    OwnerEndsFrom(states[k], 4);
  }

  function OwnerToGo(s: State): nat {
    match s.user
    case Unset(_) => 4
    case Load(_) => 3
    case Swap(curr, _) => if s.wakeup == curr then 2 else 3
    case Unpark => 1
    case Drop => 2
    case DropUnpark => 1
    case _ => 0
  }

  lemma {:induction false} OwnerEndsFrom(s: State, n: nat)
    requires Inv(s) && OwnerToGo(s) <= n
    ensures var s' := Owning(s, n);
      && (s.user.Unset? ==> s'.user.Idle? && !s'.readable && s'.wakeup <= s.user.at)
      && (s.user.Load? || s.user.Swap? ==> s'.user.Idle? && s'.readable == s.readable && s'.wakeup <= s.user.at)
      && (s.user.Unpark? ==> s'.user.Idle? && s'.wakeup == s.wakeup && s'.readable == s.readable)
      && (s.user.Drop? || s.user.DropUnpark? ==> s'.user.Gone? && s'.wakeup == (if s.user.Drop? then TERMINATE else s.wakeup))
      && (s.user.Idle? || s.user.Gone? ==> s' == s)
    decreases n
  {
    if n > 0 {
      UserStepKeeps(s, false);
      hide Inv;
      OwnerEndsFrom(UserStep(s, false), n - 1);
    }
  }

  // ---------------------------------------------------------------------------------------------
  // The wakeup arrives
  // ---------------------------------------------------------------------------------------------

  /** The state after m steps of the thread in a row, with the clock as told, none of them a spurious failure. */
  function Stepped(s: State, nows: seq<nat>, m: nat): State
    requires m <= |nows|
    decreases m
  {
    if m == 0 then s else Stepped(ThreadStep(s, nows[0], false), nows[1..], m - 1)
  }

  /** A park returns for a reason: the thread was unparked, or its time is up. */
  predicate Prompt(s: State, now: nat) { s.thread.Parked? ==> s.token || s.thread.until <= now }

  ghost predicate PromptUntil(s: State, nows: seq<nat>, m: nat)
    requires m <= |nows|
  {
    forall j {:trigger nows[j]} :: 0 <= j < m ==> Prompt(Stepped(s, nows, j), nows[j])
  }

  /** How many steps the thread may still need until the timer is readable, when that is due. */
  function ToGo(s: State): nat {
    if s.readable then 0
    else match s.thread
      case Announce => 1
      case Take(until) => if s.wakeup == until then 2 else 4
      case Look(until) => if s.wakeup == until then 3 else 6
      case Reload => 4
      case Parked(_) => 5
      case Exited => 6
  }

  lemma {:induction false} DeliveredFrom(s: State, d: nat, nows: seq<nat>) returns (m: nat)
    requires Inv(s) && s.user.Idle? && d in s.live && ToGo(s) <= |nows|
    requires forall i :: 0 <= i < |nows| ==> d <= nows[i] < MAX
    ensures m <= |nows| && Stepped(s, nows, m).readable && PromptUntil(s, nows, m)
    decreases |nows|
  {
    if s.readable {
      m := 0;
    } else {
      var s1 := ThreadStep(s, nows[0], false);
      ThreadStepKeeps(s, nows[0], false);
      StepDelivers(s, d, nows[0]);
      var n := DeliveredFrom(s1, d, nows[1..]);
      m := n + 1;
      forall j | 0 <= j < m ensures Prompt(Stepped(s, nows, j), nows[j]) {
        if j > 0 { assert nows[j] == nows[1..][j - 1]; }
      }
    }
  }

  lemma StepDelivers(s: State, d: nat, now: nat)
    requires Inv(s) && s.user.Idle? && d in s.live && d <= now < MAX && !s.readable
    ensures Prompt(s, now) && ToGo(ThreadStep(s, now, false)) < ToGo(s)
    ensures ThreadStep(s, now, false).user.Idle? && d in ThreadStep(s, now, false).live
  {}

  /**
    From any state of any run with the owner between two operations and deadline d live: six steps of the wakeup thread
    in a row, with the clock at d or later and no spurious failure, lead through a state in which the timer is
    readable, and up to there no park returns without a reason.
   */
  lemma Delivered(states: seq<State>, steps: seq<Step>, k: nat, d: nat, nows: seq<nat>) returns (m: nat)
    requires Run(states, steps) && k < |states| && states[k].user.Idle? && d in states[k].live
    requires |nows| == 6 && forall i :: 0 <= i < 6 ==> d <= nows[i] < MAX
    ensures m <= 6 && Stepped(states[k], nows, m).readable && PromptUntil(states[k], nows, m)
  {
    RunsKeepInvariant(states, steps, k);
    m := DeliveredFrom(states[k], d, nows);
  }

  /** Once the drop is over, five steps of the thread in a row end it, whatever the clock shows. */
  lemma DropEndsThread(states: seq<State>, steps: seq<Step>, k: nat, nows: seq<nat>) returns (m: nat)
    requires Run(states, steps) && k < |states| && states[k].user.Gone?
    requires |nows| == 5 && forall i :: 0 <= i < 5 ==> nows[i] < MAX
    ensures m <= 5 && Stepped(states[k], nows, m).thread.Exited? && PromptUntil(states[k], nows, m)
  {
    RunsKeepInvariant(states, steps, k);
    GoneIsTerminated(states, steps, k);
    m := EndsFrom(states[k], nows);
  }

  lemma {:induction false} GoneIsTerminated(states: seq<State>, steps: seq<Step>, k: nat)
    requires Run(states, steps) && k < |states|
    ensures Dropping(states[k]) ==> states[k].wakeup == TERMINATE
  {
    if k == 0 {
    } else {
      GoneIsTerminated(states, steps, k - 1);
      RunsKeepInvariant(states, steps, k - 1);
    }
  }

  function ToEnd(s: State): nat {
    match s.thread
    case Exited => 0
    case Look(until) => if until == TERMINATE then 1 else 4
    case Reload => 2
    case Take(_) => 2
    case Parked(_) => 3
    case Announce => 5
  }

  lemma {:induction false} EndsFrom(s: State, nows: seq<nat>) returns (m: nat)
    requires Inv(s) && s.user.Gone? && s.wakeup == TERMINATE && ToEnd(s) <= |nows|
    requires forall i :: 0 <= i < |nows| ==> nows[i] < MAX
    ensures m <= |nows| && Stepped(s, nows, m).thread.Exited? && PromptUntil(s, nows, m)
    decreases |nows|
  {
    if s.thread.Exited? {
      m := 0;
    } else {
      var s1 := ThreadStep(s, nows[0], false);
      ThreadStepKeeps(s, nows[0], false);
      var n := EndsFrom(s1, nows[1..]);
      m := n + 1;
      forall j | 0 <= j < m ensures Prompt(Stepped(s, nows, j), nows[j]) {
        if j > 0 { assert nows[j] == nows[1..][j - 1]; }
      }
    }
  }

  // ---------------------------------------------------------------------------------------------
  // It does not arrive early
  // ---------------------------------------------------------------------------------------------

  /** The owner has been asked to schedule this tick before step i. */
  ghost predicate Asked(states: seq<State>, steps: seq<Step>, i: nat, tick: nat) {
    && |states| == |steps| + 1 && i < |states|
    && (states[0].user == Load(tick) || exists j :: 0 <= j < i && (steps[j] == Insert(tick) || steps[j] == Rest(tick)))
  }

  /** At step i the owner schedules this tick. */
  ghost predicate ScheduledAt(states: seq<State>, steps: seq<Step>, i: nat, tick: nat) {
    && |states| == |steps| + 1 && i < |steps| && steps[i].User?
    && states[i].user.Swap? && states[i].user.at == tick && states[i + 1].user.Unpark? && states[i + 1].wakeup == tick
  }

  /** The tick the thread last saw in wakeup_state. */
  function Held(t: ThreadPc): nat {
    match t
    case Look(until) => until
    case Parked(until) => until
    case Take(until) => until
    case _ => MAX
  }

  lemma StepHolds(s: State, step: Step, tick: nat)
    requires Inv(s) && Enabled(s, step) && tick != MAX && tick != TERMINATE
    requires Apply(s, step).wakeup == tick || Held(Apply(s, step).thread) == tick
    ensures s.wakeup == tick || Held(s.thread) == tick
      || (step.User? && s.user.Swap? && s.user.at == tick && Apply(s, step).user.Unpark? && Apply(s, step).wakeup == tick)
  {}

  lemma {:induction false} WasScheduled(states: seq<State>, steps: seq<Step>, k: nat, tick: nat) returns (i: nat)
    requires Run(states, steps) && k < |states| && tick != MAX && tick != TERMINATE
    requires states[k].wakeup == tick || Held(states[k].thread) == tick
    ensures i < k && ScheduledAt(states, steps, i, tick)
  {
    var s, step := states[k - 1], steps[k - 1];
    RunsKeepInvariant(states, steps, k - 1);
    StepHolds(s, step, tick);
    if s.wakeup == tick || Held(s.thread) == tick {
      i := WasScheduled(states, steps, k - 1, tick);
    } else {
      i := k - 1;
    }
  }

  lemma {:induction false} WasAsked(states: seq<State>, steps: seq<Step>, k: nat, tick: nat)
    requires Run(states, steps) && k < |states| && Schedules(states[k], tick) && states[k].user.at == tick
    ensures Asked(states, steps, k, tick)
  {
    if k == 0 {
    } else {
      var s, step := states[k - 1], steps[k - 1];
      assert Enabled(s, step) && states[k] == Apply(s, step);
      if step.Insert? || step.Rest? {
      } else {
        WasAsked(states, steps, k - 1, tick);
      }
    }
  }

  lemma {:induction false} ClockWasSeen(states: seq<State>, steps: seq<Step>, k: nat, tick: nat) returns (i: nat)
    requires Run(states, steps) && k < |states| && states[k].thread == Take(tick)
    ensures i < k && steps[i].Thread? && states[i].thread == Look(tick) && tick <= steps[i].now
    ensures forall m :: i < m <= k ==> states[m].thread == Take(tick)
  {
    var s, step := states[k - 1], steps[k - 1];
    assert Enabled(s, step) && states[k] == Apply(s, step);
    if s.thread == Take(tick) {
      i := ClockWasSeen(states, steps, k - 1, tick);
    } else {
      i := k - 1;
    }
  }

  /**
    In every run, when the thread is about to make the timer readable it has taken out a tick that the owner was asked
    to schedule and has scheduled; after that a look at the clock has shown no earlier tick, and until it is taken out
    the thread does nothing else.
   */
  lemma NotEarly(states: seq<State>, steps: seq<Step>, k: nat) returns (i: nat, j: nat)
    requires Run(states, steps) && k < |steps| && !states[k].thread.Announce? && states[k + 1].thread.Announce?
    ensures i < j < k && states[k].wakeup != MAX && states[k + 1].wakeup == MAX
    ensures Asked(states, steps, i, states[k].wakeup) && ScheduledAt(states, steps, i, states[k].wakeup)
    ensures steps[j].Thread? && states[j].thread == Look(states[k].wakeup) && states[k].wakeup <= steps[j].now
    ensures forall m :: j < m <= k ==> states[m].thread == Take(states[k].wakeup)
  {
    hide Inv;
    assert Enabled(states[k], steps[k]) && states[k + 1] == Apply(states[k], steps[k]);
    var tick := states[k].wakeup;
    TakesWhatItHolds(states[k], steps[k]);
    j := ClockWasSeen(states, steps, k, tick);
    assert Enabled(states[j], steps[j]);
    TakenIsTick(states, steps, k);
    i := WasScheduled(states, steps, j, tick);
    WasAsked(states, steps, i, tick);
  }

  lemma TakesWhatItHolds(s: State, step: Step)
    requires Enabled(s, step) && !s.thread.Announce? && Apply(s, step).thread.Announce?
    ensures step.Thread? && s.thread == Take(s.wakeup) && Apply(s, step).wakeup == MAX
  {}

  lemma TakenIsTick(states: seq<State>, steps: seq<Step>, k: nat)
    requires Run(states, steps) && k < |states| && states[k].thread.Take?
    ensures states[k].thread.until != TERMINATE
  {
    RunsKeepInvariant(states, steps, k);
  }

  /** A poll that found nothing clears the readiness at this step. */
  ghost predicate ClearsAt(states: seq<State>, steps: seq<Step>, i: nat) {
    i < |steps| && i < |states| && steps[i].User? && states[i].user.Unset?
  }

  ghost predicate AnnouncesAt(states: seq<State>, steps: seq<Step>, i: nat) {
    i < |steps| && i < |states| && steps[i].Thread? && states[i].thread.Announce?
  }

  lemma StepReads(s: State, step: Step)
    requires Enabled(s, step)
    ensures Apply(s, step).readable ==
      if step.Thread? && s.thread.Announce? then true else if step.User? && s.user.Unset? then false else s.readable
  {}

  /** The timer is readable if and only if the thread has announced since a poll last cleared it. */
  lemma {:induction false} ReadableMeaning(states: seq<State>, steps: seq<Step>, k: nat)
    requires Run(states, steps) && k < |states|
    ensures states[k].readable <==>
      exists j: nat :: j < k && AnnouncesAt(states, steps, j) && forall i: nat :: j < i < k ==> !ClearsAt(states, steps, i)
  {
    if k == 0 {
    } else {
      assert Enabled(states[k - 1], steps[k - 1]) && states[k] == Apply(states[k - 1], steps[k - 1]);
      StepReads(states[k - 1], steps[k - 1]);
      hide Apply, Enabled;
      ReadableMeaning(states, steps, k - 1);
      if states[k].readable && !AnnouncesAt(states, steps, k - 1) {
        var j: nat :| j < k - 1 && AnnouncesAt(states, steps, j) && forall i: nat :: j < i < k - 1 ==> !ClearsAt(states, steps, i);
        assert !ClearsAt(states, steps, k - 1);
        assert j < k && forall i: nat :: j < i < k ==> !ClearsAt(states, steps, i);
      }
      if j: nat :| j < k && AnnouncesAt(states, steps, j) && forall i: nat :: j < i < k ==> !ClearsAt(states, steps, i) {
        assert j < k - 1 ==> !ClearsAt(states, steps, k - 1);
      }
    }
  }
}
