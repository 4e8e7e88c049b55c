/**
  The counters of `corcovado::channel`, with the receiver registered before the first send.

  Every access to `pending` and `senders`, every change of readiness, and every push to and pop from the inner
  queue is one step.  `pending` wraps around; `count` is auxiliary, its value without wrapping.
*/
module Channel {

  const Word: nat := 0x1_0000_0000_0000_0000

  /** Where a thread is that sends, or drops a sender. */
  datatype SendPc =
    | Inc(h: nat)                  // about to add to pending
    | Announce(h: nat)             // pending was 0: about to set readable

  /** Where the receiver is. */
  datatype RecvPc =
    | Idle
    | Load                         // a message was popped: about to load pending
    | Unset                        // pending was 1: about to clear readiness
    | Sub(first: bool)             // about to subtract from pending; `first`: it was 1 when loaded
    | Reset                        // more came in: about to set readable again

  datatype State<T> = State(
    pending: nat,
    count: int,
    readable: bool,
    live: set<nat>,                // sender handles
    senders: int,
    queue: seq<T>,                 // messages the receiver has not popped
    sends: map<nat, SendPc>,       // by thread
    recv: RecvPc,
    pushed: seq<T>,
    received: seq<T>)

  datatype Step<T> =
    | Push(t: nat, h: nat, msg: T)
    | Clone(h: nat, h1: nat)
    | DropSender(t: nat, h: nat)
    | SendStep(t: nat)
    | Pop
    | RecvStep

  function Initial<T>(h: nat): State<T> { State(0, 0, false, {h}, 1, [], map[], Idle, [], []) }

  /** A handle can be dropped only when nobody sends through it. */
  ghost predicate Unused<T>(s: State<T>, h: nat) {
    forall t :: t in s.sends ==> s.sends[t].h != h
  }

  /** Less than a quarter of the counter's range of messages exists at a time; memory does not hold more. */
  ghost predicate Roomy<T>(s: State<T>) { |s.queue| + |s.sends| + 2 <= Word / 4 }

  ghost predicate Enabled<T>(s: State<T>, step: Step<T>) {
    match step
    case Push(t, h, _) => t !in s.sends && h in s.live && Roomy(s)
    case Clone(h, h1) => h in s.live && h1 !in s.live
    case DropSender(t, h) => t !in s.sends && h in s.live && Unused(s, h) && Roomy(s)
    case SendStep(t) => t in s.sends
    case Pop => s.recv.Idle? && s.queue != []
    case RecvStep => !s.recv.Idle?
  }

  function Add<T>(s: State<T>): State<T> { s.(pending := (s.pending + 1) % Word, count := s.count + 1) }

  function Subtract<T>(s: State<T>): State<T> { s.(pending := (s.pending + Word - 1) % Word, count := s.count - 1) }

  function SendAccess<T>(s: State<T>, t: nat): State<T>
    requires t in s.sends
  {
    match s.sends[t]
    case Inc(h) =>
      if s.pending == 0 then Add(s).(sends := s.sends[t := Announce(h)]) else Add(s).(sends := s.sends - {t})
    case Announce(_) => s.(readable := true, sends := s.sends - {t})
  }

  function RecvAccess<T>(s: State<T>): State<T> {
    match s.recv
    case Idle => s
    case Load => s.(recv := if s.pending == 1 then Unset else Sub(false))
    case Unset => s.(readable := false, recv := Sub(true))
    case Sub(first) => Subtract(s).(recv := if first && s.pending > 1 then Reset else Idle)
    case Reset => s.(readable := true, recv := Idle)
  }

  function Apply<T>(s: State<T>, step: Step<T>): State<T>
    requires Enabled(s, step)
  {
    match step
    case Push(t, h, msg) => s.(queue := s.queue + [msg], pushed := s.pushed + [msg], sends := s.sends[t := Inc(h)])
    case Clone(_, h1) => s.(live := s.live + {h1}, senders := s.senders + 1)
    case DropSender(t, h) =>
      var s1 := s.(live := s.live - {h}, senders := s.senders - 1);
      if s.senders == 1 then s1.(sends := s.sends[t := Inc(h)]) else s1
    case SendStep(t) => SendAccess(s, t)
    case Pop => s.(queue := s.queue[1..], received := s.received + [s.queue[0]], recv := Load)
    case RecvStep => RecvAccess(s)
  }

  // ---------------------------------------------------------------------------------------------
  // Invariant
  // ---------------------------------------------------------------------------------------------

  /** Threads that have pushed, or dropped the last sender, and not yet counted it. */
  ghost function Uncounted<T>(s: State<T>): set<nat> {
    set t | t in s.sends && s.sends[t].Inc?
  }

  /** The receiver has popped a message and not yet discounted it. */
  predicate Discounts(r: RecvPc) { r.Load? || r.Unset? || r.Sub? }

  ghost predicate CountOk<T>(s: State<T>) {
    && s.pending == s.count % Word
    && s.count == |s.queue| + (if s.live == {} then 1 else 0) - |Uncounted(s)| + (if Discounts(s.recv) then 1 else 0)
    && |Uncounted(s)| + |s.queue| <= Word / 4
    && s.senders == |s.live|
    && s.received + s.queue == s.pushed
  }

  /** With something pending, the channel is readable, or somebody is about to make it so or to look again. */
  ghost predicate ReadyOk<T>(s: State<T>) {
    && (s.count > 0 ==> s.readable || (exists t :: t in s.sends && s.sends[t].Announce?) || s.recv == Sub(true) || s.recv.Reset?)
    && (s.recv.Unset? || s.recv == Sub(true) ==> s.count >= 1)
  }

  ghost predicate Inv<T>(s: State<T>) { CountOk(s) && ReadyOk(s) }

  lemma CountRange<T>(s: State<T>)
    requires CountOk(s)
    ensures -(Word as int) < s.count - 1 && s.count < Word
    ensures s.pending == 0 <==> s.count == 0
    ensures s.pending == 1 <==> s.count == 1
    ensures s.count >= 0 ==> s.pending == s.count
  {}

  lemma SubsetSize(a: set<nat>, b: set<nat>)
    requires a <= b
    ensures |a| <= |b|
  {
    assert b == a + (b - a);
  }

  lemma UncountedFits<T>(s: State<T>)
    ensures |Uncounted(s)| <= |s.sends|
  {
    SubsetSize(Uncounted(s), s.sends.Keys);
  }

  lemma PushKeeps<T>(s: State<T>, t: nat, h: nat, msg: T)
    requires Inv(s) && Enabled(s, Push(t, h, msg))
    ensures Inv(Apply(s, Push(t, h, msg)))
  {
    var s' := Apply(s, Push(t, h, msg));
    UncountedFits(s);
    assert Uncounted(s') == Uncounted(s) + {t};
    assert forall u :: u in s.sends && s.sends[u].Announce? ==> u in s'.sends && s'.sends[u].Announce?;
  }

  lemma DropKeeps<T>(s: State<T>, t: nat, h: nat)
    requires Inv(s) && Enabled(s, DropSender(t, h))
    ensures Inv(Apply(s, DropSender(t, h)))
  {
    assert s.live == (s.live - {h}) + {h} && |s.live - {h}| == |s.live| - 1;
    if s.senders == 1 {
      LastDropKeeps(s, t, h);
    } else {
      assert Uncounted(Apply(s, DropSender(t, h))) == Uncounted(s);
    }
  }

  lemma LastDropKeeps<T>(s: State<T>, t: nat, h: nat)
    requires Inv(s) && Enabled(s, DropSender(t, h)) && s.senders == 1 && |s.live - {h}| == 0
    ensures Inv(Apply(s, DropSender(t, h)))
  {
    var s' := Apply(s, DropSender(t, h));
    UncountedFits(s);
    assert Uncounted(s') == Uncounted(s) + {t};
    assert forall u :: u in s.sends && s.sends[u].Announce? ==> u in s'.sends && s'.sends[u].Announce?;
  }

  lemma SendKeeps<T>(s: State<T>, t: nat)
    requires Inv(s) && t in s.sends
    ensures Inv(SendAccess(s, t))
  {
    var s' := SendAccess(s, t);
    CountRange(s);
    if s.sends[t].Inc? {
      assert Uncounted(s') == Uncounted(s) - {t} && t in Uncounted(s);
      assert s.pending == 0 ==> t in s'.sends && s'.sends[t].Announce?;
    } else {
      assert Uncounted(s') == Uncounted(s);
    }
    assert forall u :: u != t && u in s.sends && s.sends[u].Announce? ==> u in s'.sends && s'.sends[u].Announce?;
  }

  lemma RecvKeeps<T>(s: State<T>)
    requires Inv(s)
    ensures Inv(RecvAccess(s))
  {
    var s' := RecvAccess(s);
    CountRange(s);
    assert Uncounted(s') == Uncounted(s) && s'.sends == s.sends;
  }

  lemma ApplyKeeps<T>(s: State<T>, step: Step<T>)
    requires Inv(s) && Enabled(s, step)
    ensures Inv(Apply(s, step))
  {
    match step
    case Push(t, h, msg) => PushKeeps(s, t, h, msg);
    case Clone(_, _) => assert Uncounted(Apply(s, step)) == Uncounted(s);
    case DropSender(t, h) => DropKeeps(s, t, h);
    case SendStep(t) => SendKeeps(s, t);
    case Pop => assert Uncounted(Apply(s, step)) == Uncounted(s);
    case RecvStep => RecvKeeps(s);
  }

  ghost predicate Run<T>(states: seq<State<T>>, steps: seq<Step<T>>, h: nat) {
    && |states| == |steps| + 1
    && states[0] == Initial(h)
    && forall i :: 0 <= i < |steps| ==> Enabled(states[i], steps[i]) && states[i + 1] == Apply(states[i], steps[i])
  }

  lemma {:induction false} RunsKeepInvariant<T>(states: seq<State<T>>, steps: seq<Step<T>>, h: nat, k: nat)
    requires Run(states, steps, h) && k < |states|
    ensures Inv(states[k])
  {
    if k == 0 {
      assert Uncounted(states[0]) == {};
    } else {
      RunsKeepInvariant(states, steps, h, k - 1);
      ApplyKeeps(states[k - 1], steps[k - 1]);
    }
  }

  /**
    Whenever no operation is in progress: the counter is the number of undelivered messages, and one more once
    the last sender is gone; while it is not 0, the channel is readable.
   */
  lemma Quiescent<T>(states: seq<State<T>>, steps: seq<Step<T>>, h: nat, k: nat)
    requires Run(states, steps, h) && k < |states| && states[k].sends == map[] && states[k].recv.Idle?
    ensures var s := states[k];
      && s.pending == |s.queue| + (if s.live == {} then 1 else 0)
      && (s.pending > 0 ==> s.readable)
      && s.received + s.queue == s.pushed
  {
    RunsKeepInvariant(states, steps, h, k);
    assert Uncounted(states[k]) == {};
  }

  /**
    In between, the counter is below 0, wrapped around, exactly while more sends are still to be counted than there
    are messages, and operations of the receiver or a last drop, that are counted and not yet discounted.
   */
  lemma WrapIsTransient<T>(states: seq<State<T>>, steps: seq<Step<T>>, h: nat, k: nat)
    requires Run(states, steps, h) && k < |states|
    ensures var s := states[k];
      s.pending >= Word / 2 <==> |Uncounted(s)| > |s.queue| + (if s.live == {} then 1 else 0) + (if Discounts(s.recv) then 1 else 0)
    ensures states[k].pending >= Word / 2 ==> exists t :: t in states[k].sends && states[k].sends[t].Inc?
  {
    RunsKeepInvariant(states, steps, h, k);
    var s := states[k];
    CountRange(s);
    assert |Uncounted(s)| > 0 ==> exists t :: t in Uncounted(s);
  }

  /** A message that is received before its send is counted takes the counter below 0. */
  lemma WrapHappens<T>(h: nat, t: nat, msg: T) returns (states: seq<State<T>>, steps: seq<Step<T>>)
    ensures Run(states, steps, h) && states[|steps|].pending == Word - 1 && states[|steps|].received == [msg]
  {
    steps := [Push(t, h, msg), Pop, RecvStep, RecvStep];
    var s0: State<T> := Initial(h);
    var s1 := Apply(s0, steps[0]);
    var s2 := Apply(s1, steps[1]);
    var s3 := Apply(s2, steps[2]);
    states := [s0, s1, s2, s3, Apply(s3, steps[3])];
  }

  // ---------------------------------------------------------------------------------------------
  // Operations come to an end
  // ---------------------------------------------------------------------------------------------

  /** The state after n accesses of thread t in a row. */
  function Sending<T>(s: State<T>, t: nat, n: nat): State<T>
    decreases n
  {
    if n == 0 || t !in s.sends then s else Sending(SendAccess(s, t), t, n - 1)
  }

  /** The state after n accesses of the receiver in a row. */
  function Receiving<T>(s: State<T>, n: nat): State<T>
    decreases n
  {
    if n == 0 then s else Receiving(RecvAccess(s), n - 1)
  }

  /**
    Undisturbed, a send or a last drop is done within two accesses, has added one to the counter, and leaves the
    channel readable if the counter was 0; the receiver is done within four, has taken one off, and leaves the channel
    readable if anything is left.
   */
  lemma OperationsEnd<T>(states: seq<State<T>>, steps: seq<Step<T>>, h: nat, k: nat)
    requires Run(states, steps, h) && k < |states|
    ensures var s := states[k]; forall t :: t in s.sends ==>
      var s' := Sending(s, t, 2);
      && t !in s'.sends && s'.count == s.count + (if s.sends[t].Inc? then 1 else 0)
      && s'.readable == (s.readable || s.sends[t].Announce? || s.pending == 0)
    ensures var s := states[k]; var s' := Receiving(s, 4);
      && s'.recv.Idle? && s'.count == s.count - (if Discounts(s.recv) then 1 else 0)
      && (s.recv.Load? ==> s'.readable == (s.readable && s.count != 1))
  {
    RunsKeepInvariant(states, steps, h, k);
    var s := states[k];
    forall t | t in s.sends ensures var s' := Sending(s, t, 2);
      && t !in s'.sends && s'.count == s.count + (if s.sends[t].Inc? then 1 else 0)
      && s'.readable == (s.readable || s.sends[t].Announce? || s.pending == 0)
    {
      SendEnds(s, t);
    }
    RecvEnds(s, 4);
  }

  lemma SendEnds<T>(s: State<T>, t: nat)
    requires Inv(s) && t in s.sends
    ensures var s' := Sending(s, t, 2);
      && t !in s'.sends && s'.count == s.count + (if s.sends[t].Inc? then 1 else 0)
      && s'.readable == (s.readable || s.sends[t].Announce? || s.pending == 0)
  {
    var s1 := SendAccess(s, t);
    if t in s1.sends { assert Sending(s1, t, 1) == Sending(SendAccess(s1, t), t, 0); }
  }

  function Left(r: RecvPc): nat {
    match r
    case Idle => 0
    case Reset => 1
    case Sub(_) => 2
    case Unset => 3
    case Load => 4
  }

  /** Whether the receiver, undisturbed, leaves the channel readable. */
  predicate LeavesReadable<T>(s: State<T>) {
    match s.recv
    case Idle => s.readable
    case Reset => true
    case Sub(first) => s.readable || (first && s.count > 1)
    case Unset => s.count > 1
    case Load => s.readable && s.count != 1
  }

  lemma {:induction false} RecvEnds<T>(s: State<T>, n: nat)
    requires Inv(s) && Left(s.recv) <= n
    ensures var s' := Receiving(s, n);
      s'.recv.Idle? && s'.count == s.count - (if Discounts(s.recv) then 1 else 0) && s'.readable == LeavesReadable(s)
    decreases n
  {
    if n == 0 {
    } else {
      var s' := RecvAccess(s);
      CountRange(s);
      RecvKeeps(s);
      hide Inv, CountOk, ReadyOk;
      RecvEnds(s', n - 1);
    }
  }

  // ---------------------------------------------------------------------------------------------
  // When a drained channel is still readable
  // ---------------------------------------------------------------------------------------------

  /** Who wrote the readiness last. */
  datatype Writer = Nobody | Sender | Clearer | Resetter

  function WriterOf<T>(s: State<T>, step: Step<T>): Writer {
    match step
    case SendStep(t) => if t in s.sends && s.sends[t].Announce? then Sender else Nobody
    case RecvStep => if s.recv.Unset? then Clearer else if s.recv.Reset? then Resetter else Nobody
    case _ => Nobody
  }

  ghost function LastWriter<T>(states: seq<State<T>>, steps: seq<Step<T>>, k: nat): Writer
    requires k <= |steps| && k < |states|
  {
    if k == 0 then Nobody
    else if WriterOf(states[k - 1], steps[k - 1]) != Nobody then WriterOf(states[k - 1], steps[k - 1])
    else LastWriter(states, steps, k - 1)
  }

  ghost predicate Announced<T>(s: State<T>) { exists t :: t in s.sends && s.sends[t].Announce? }

  /** What the receiver has set again is not left readable without something pending or an announcement to come. */
  ghost predicate WriterOk<T>(s: State<T>, w: Writer) {
    && (s.readable <==> w.Sender? || w.Resetter?)
    && (w.Resetter? ==> Announced(s) || (s.count >= 1 && (s.recv == Sub(false) ==> s.count >= 2)))
    && (w.Resetter? ==> s.recv != Sub(true))
    && (s.recv.Reset? ==> s.count >= 1)
  }

  lemma SendWrites<T>(s: State<T>, t: nat, w: Writer)
    requires Inv(s) && t in s.sends && WriterOk(s, w)
    ensures WriterOk(SendAccess(s, t), if s.sends[t].Announce? then Sender else w)
  {
    CountRange(s);
    var s' := SendAccess(s, t);
    if s.sends[t].Inc? && Announced(s) {
      var u :| u in s.sends && s.sends[u].Announce?;
      assert u in s'.sends && s'.sends[u].Announce?;
    }
    if s.sends[t].Inc? && s.pending == 0 { assert t in s'.sends && s'.sends[t].Announce?; }
  }

  lemma StepWrites<T>(s: State<T>, step: Step<T>, w: Writer)
    requires Inv(s) && Enabled(s, step) && WriterOk(s, w)
    ensures WriterOk(Apply(s, step), if WriterOf(s, step) != Nobody then WriterOf(s, step) else w)
  {
    var s' := Apply(s, step);
    match step
    case SendStep(t) => SendWrites(s, t, w);
    case RecvStep => CountRange(s);
    case _ => assert forall u :: u in s.sends && s.sends[u].Announce? ==> u in s'.sends && s'.sends[u].Announce?;
  }

  lemma {:induction false} RunsKeepWriter<T>(states: seq<State<T>>, steps: seq<Step<T>>, h: nat, k: nat)
    requires Run(states, steps, h) && k < |states|
    ensures WriterOk(states[k], LastWriter(states, steps, k))
  {
    if k == 0 {
    } else {
      RunsKeepInvariant(states, steps, h, k - 1);
      RunsKeepWriter(states, steps, h, k - 1);
      StepWrites(states[k - 1], steps[k - 1], LastWriter(states, steps, k - 1));
    }
  }

  /** Step i is a sender's announcement, of a send that had found the counter at 0 at step j. */
  ghost predicate AnnouncesAt<T>(states: seq<State<T>>, steps: seq<Step<T>>, j: nat, i: nat) {
    && j < i < |steps| && i < |states|
    && steps[i].SendStep? && steps[j] == steps[i]
    && steps[i].t in states[i].sends && states[i].sends[steps[i].t].Announce?
    && states[j].pending == 0 && steps[j].t in states[j].sends && states[j].sends[steps[j].t].Inc?
  }

  ghost predicate WritesAt<T>(states: seq<State<T>>, steps: seq<Step<T>>, i: nat) {
    i < |steps| && i < |states| && WriterOf(states[i], steps[i]) != Nobody
  }

  lemma {:induction false} AnnouncementCounted<T>(states: seq<State<T>>, steps: seq<Step<T>>, h: nat, i: nat, t: nat) returns (j: nat)
    requires Run(states, steps, h) && i < |states| && t in states[i].sends && states[i].sends[t].Announce?
    ensures j < i && steps[j] == SendStep(t) && states[j].pending == 0 && t in states[j].sends && states[j].sends[t].Inc?
  {
    var s, step := states[i - 1], steps[i - 1];
    assert Enabled(s, step) && states[i] == Apply(s, step);
    if t in s.sends && s.sends[t].Announce? {
      j := AnnouncementCounted(states, steps, h, i - 1, t);
    } else {
      j := i - 1;
    }
  }

  lemma {:induction false} LastWriterAt<T>(states: seq<State<T>>, steps: seq<Step<T>>, h: nat, k: nat) returns (i: nat)
    requires Run(states, steps, h) && k < |states| && LastWriter(states, steps, k) != Nobody
    ensures i < k && WriterOf(states[i], steps[i]) == LastWriter(states, steps, k)
    ensures forall m: nat :: i < m < k ==> !WritesAt(states, steps, m)
  {
    hide Apply, Enabled, Inv;
    if WriterOf(states[k - 1], steps[k - 1]) != Nobody {
      i := k - 1;
    } else {
      i := LastWriterAt(states, steps, h, k - 1);
    }
  }

  lemma {:induction false} LastWriterIs<T>(states: seq<State<T>>, steps: seq<Step<T>>, i: nat, k: nat)
    requires |states| == |steps| + 1 && i < k < |states| && WritesAt(states, steps, i)
    requires forall m: nat :: i < m < k ==> !WritesAt(states, steps, m)
    ensures LastWriter(states, steps, k) == WriterOf(states[i], steps[i])
  {
    if k == i + 1 {
    } else {
      assert !WritesAt(states, steps, k - 1);
      LastWriterIs(states, steps, i, k - 1);
    }
  }

  ghost predicate AtRest<T>(s: State<T>) { s.sends == map[] && s.recv.Idle? }

  /**
    In every run, with no operation in progress and nothing pending: the channel is readable if and only if the last
    step that wrote its readiness is the announcement of a send, which had found the counter at 0 before.
   */
  lemma DrainedReadable<T>(states: seq<State<T>>, steps: seq<Step<T>>, h: nat, k: nat)
    requires Run(states, steps, h) && k < |states| && AtRest(states[k]) && states[k].pending == 0
    ensures states[k].readable <==>
      exists j: nat, i: nat :: AnnouncesAt(states, steps, j, i) && i < k && forall m: nat :: i < m < k ==> !WritesAt(states, steps, m)
  {
    RunsKeepInvariant(states, steps, h, k);
    RunsKeepWriter(states, steps, h, k);
    CountRange(states[k]);
    hide Apply, Enabled, Inv;
    if states[k].readable {
      var i := LastWriterAt(states, steps, h, k);
      var j := AnnouncementCounted(states, steps, h, i, steps[i].t);
      assert AnnouncesAt(states, steps, j, i);
    }
    if j: nat, i: nat :| AnnouncesAt(states, steps, j, i) && i < k && forall m: nat :: i < m < k ==> !WritesAt(states, steps, m) {
      assert WritesAt(states, steps, i);
      LastWriterIs(states, steps, i, k);
    }
  }

  /** Each operation ends before the next begins. */
  ghost predicate Sequential<T>(states: seq<State<T>>, steps: seq<Step<T>>) {
    |states| == |steps| + 1 && forall i :: 0 <= i < |steps| && !steps[i].SendStep? && !steps[i].RecvStep? ==> AtRest(states[i])
  }

  ghost predicate Calm<T>(s: State<T>) {
    && s.count >= 0
    && (s.sends == map[] || (s.recv.Idle? && exists t :: s.sends.Keys == {t}))
    && (if Announced(s) then s.count == 1
        else if s.recv == Sub(true) then s.count == 1 && !s.readable
        else s.readable <==> s.count > 0)
    && (s.recv.Load? ==> s.count >= 1)
    && (s.recv.Unset? ==> s.count == 1)
    && (s.recv == Sub(false) ==> s.count >= 2)
    && !s.recv.Reset?
  }

  lemma SendIsCalm<T>(s: State<T>, t: nat)
    requires Inv(s) && Calm(s) && t in s.sends
    ensures Calm(SendAccess(s, t))
  {
    var s' := SendAccess(s, t);
    CountRange(s);
    assert s.sends.Keys == {t};
    if s.sends[t].Inc? {
      assert Announced(s) ==> exists u :: u in s.sends && u != t;
      assert t in s'.sends ==> s'.sends[t].Announce? && s'.sends.Keys == {t};
      assert t !in s'.sends ==> s'.sends == map[];
    } else {
      assert Announced(s) && s'.sends == map[];
    }
  }

  lemma StartIsCalm<T>(s: State<T>, step: Step<T>)
    requires Inv(s) && Calm(s) && Enabled(s, step) && AtRest(s) && !step.SendStep? && !step.RecvStep?
    ensures Calm(Apply(s, step))
  {
    var s' := Apply(s, step);
    assert !Announced(s) && !Announced(s');
    assert Uncounted(s) == {};
    match step
    case Push(t, _, _) => assert s'.sends.Keys == {t};
    case DropSender(t, _) => assert s.senders == 1 ==> s'.sends.Keys == {t};
    case _ =>
  }

  lemma StepIsCalm<T>(s: State<T>, step: Step<T>)
    requires Inv(s) && Calm(s) && Enabled(s, step) && (step.SendStep? || step.RecvStep? || AtRest(s))
    ensures Calm(Apply(s, step))
  {
    if step.SendStep? {
      hide Inv, Calm;
      SendIsCalm(s, step.t);
    } else if step.RecvStep? {
      CountRange(s);
      assert Announced(RecvAccess(s)) == Announced(s);
    } else {
      hide Inv, Calm;
      StartIsCalm(s, step);
    }
  }

  /**
    In every run in which each operation ends before the next begins, with none in progress, the channel is readable if
    and only if something is pending.
   */
  lemma {:induction false} SequentialReadable<T>(states: seq<State<T>>, steps: seq<Step<T>>, h: nat, k: nat)
    requires Run(states, steps, h) && Sequential(states, steps) && k < |states|
    ensures Calm(states[k])
    ensures AtRest(states[k]) ==> (states[k].readable <==> states[k].pending > 0)
  {
    hide Apply, Enabled, Inv, Calm, Announced;
    RunsKeepInvariant(states, steps, h, k);
    if k == 0 {
      InitialIsCalm(states[0], h);
    } else {
      RunsKeepInvariant(states, steps, h, k - 1);
      SequentialReadable(states, steps, h, k - 1);
      StepIsCalm(states[k - 1], steps[k - 1]);
    }
    if AtRest(states[k]) { CalmAtRest(states[k]); }
  }

  lemma InitialIsCalm<T>(s: State<T>, h: nat)
    requires s == Initial(h)
    ensures Calm(s)
  {}

  lemma CalmAtRest<T>(s: State<T>)
    requires Inv(s) && Calm(s) && AtRest(s)
    ensures s.readable <==> s.pending > 0
  {
    CountRange(s);
  }

  /** Otherwise it may stay readable: a send announces after the receiver has taken its message and cleared. */
  lemma RaceLeavesReadable<T>(h: nat, t: nat, msg: T) returns (states: seq<State<T>>, steps: seq<Step<T>>)
    ensures Run(states, steps, h) && var s := states[|steps|];
      AtRest(s) && s.live == {h} && s.received == [msg] && s.queue == [] && s.pending == 0 && s.readable
  {
    steps := [Push(t, h, msg), SendStep(t), Pop, RecvStep, RecvStep, RecvStep, SendStep(t)];
    var s0: State<T> := Initial(h);
    var s1 := Apply(s0, steps[0]);
    var s2 := Apply(s1, steps[1]);
    var s3 := Apply(s2, steps[2]);
    var s4 := Apply(s3, steps[3]);
    var s5 := Apply(s4, steps[4]);
    var s6 := Apply(s5, steps[5]);
    var s7 := Apply(s6, steps[6]);
    states := [s0, s1, s2, s3, s4, s5, s6, s7];
    assert s7.sends == map[];
  }
}
