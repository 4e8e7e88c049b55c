/**
  What `corcovado::timer::Timer` promises, without its wheel: a collection of timeouts from which a poll takes
  the earliest one, and the current tick.
*/
module TimerModel {
  import opened Wrappers

  const TICK_MAX: nat := 0xffff_ffff_ffff_ffff

  /** One live timeout.  A collection lists them newest first. */
  datatype Item<T> = Item(token: nat, deadline: nat, state: T)

  datatype Model<T> = Model(items: seq<Item<T>>, tick: nat)

  function Max(a: nat, b: nat): nat { if a < b then b else a }

  /** The slot of the wheel to which a tick belongs. */
  function SlotOf(tick: nat, n: nat): (s: nat)
    requires n > 0
    ensures s < n
  {
    tick % n
  }

  /** The collection without its i-th timeout. */
  function Drop<T>(c: seq<Item<T>>, i: nat): seq<Item<T>>
    requires i < |c|
  {
    c[..i] + c[i + 1..]
  }

  /** Where the first timeout with this token is; |c| when there is none. */
  function Find<T>(c: seq<Item<T>>, token: nat): (p: nat)
    ensures p <= |c| && (p < |c| ==> c[p].token == token)
  {
    if c == [] || c[0].token == token then 0 else 1 + Find(c[1..], token)
  }

  ghost predicate Own<T>(c: seq<Item<T>>, i: nat) {
    i < |c| ==> Find(c, c[i].token) == i
  }

  /** No two live timeouts share a token. */
  ghost predicate Distinct<T>(c: seq<Item<T>>) {
    forall i: nat {:trigger Own(c, i)} :: Own(c, i)
  }

  lemma {:induction false} FindConcat<T>(a: seq<Item<T>>, b: seq<Item<T>>, token: nat)
    ensures Find(a + b, token) == if Find(a, token) < |a| then Find(a, token) else |a| + Find(b, token)
  {
    if a == [] {
      assert a + b == b;
    } else {
      FindConcat(a[1..], b, token);
      assert (a + b)[1..] == a[1..] + b;
    }
  }

  lemma FindSplit<T>(c: seq<Item<T>>, i: nat, token: nat)
    requires Distinct(c) && i < |c|
    ensures Find(Drop(c, i), token) ==
      if token == c[i].token then |c| - 1 else if Find(c, token) > i then Find(c, token) - 1 else Find(c, token)
  {
    FindConcat(c[..i], c[i + 1..], token);
    assert c == c[..i] + ([c[i]] + c[i + 1..]);
    FindConcat(c[..i], [c[i]] + c[i + 1..], token);
    assert ([c[i]] + c[i + 1..])[1..] == c[i + 1..];
    assert Own(c, i);
    assert token == c[i].token ==> Own(c, i + 1 + Find(c[i + 1..], token));
  }

  lemma DropDistinct<T>(c: seq<Item<T>>, i: nat)
    requires Distinct(c) && i < |c|
    ensures Distinct(Drop(c, i))
  {
    var d := Drop(c, i);
    forall j: nat ensures Own(d, j) {
      if j < |d| {
        var k := if j < i then j else j + 1;
        assert d[j] == c[k];
        assert Own(c, k) && Own(c, i);
        FindSplit(c, i, d[j].token);
      }
    }
  }

  /** Timeout i comes first: nothing is due earlier, and nothing newer is due at the same tick. */
  ghost predicate First<T>(c: seq<Item<T>>, i: nat) {
    && i < |c|
    && (forall j :: 0 <= j < |c| ==> c[i].deadline <= c[j].deadline)
    && (forall j :: 0 <= j < i ==> c[i].deadline < c[j].deadline)
  }

  function Earliest<T>(c: seq<Item<T>>): (i: nat)
    requires c != []
    ensures First(c, i)
  {
    if |c| == 1 then 0
    else
      var j := Earliest(c[1..]) + 1;
      assert c[j] == c[1..][j - 1];
      assert forall k :: 1 <= k < |c| ==> c[k] == c[1..][k - 1];
      if c[0].deadline <= c[j].deadline then 0 else j
  }

  lemma FirstIsEarliest<T>(c: seq<Item<T>>, i: nat)
    requires First(c, i)
    ensures Earliest(c) == i
  {}

  // ---------------------------------------------------------------------------------------------
  // The three operations on the collection
  // ---------------------------------------------------------------------------------------------

  function Set<T>(m: Model<T>, token: nat, at: nat, state: T): Model<T> {
    m.(items := [Item(token, Max(at, m.tick + 1), state)] + m.items)
  }

  /** Is there a live timeout with this token and tick? */
  predicate Live<T>(m: Model<T>, token: nat, tick: nat) {
    var p := Find(m.items, token);
    p < |m.items| && m.items[p].deadline == tick
  }

  function Cancel<T>(m: Model<T>, token: nat, tick: nat): (r: (Model<T>, Option<T>)) {
    if Live(m, token, tick) then
      var p := Find(m.items, token);
      (m.(items := Drop(m.items, p)), Some(m.items[p].state))
    else
      (m, None)
  }

  /**
    Cancelling a timeout that has just been set, with a token not in use before, gives its state back and undoes the set,
    exactly if the tick is the one it was set for; with another tick nothing happens.
   */
  lemma CancelUndoesSet<T>(m: Model<T>, token: nat, at: nat, state: T, tick: nat)
    requires forall i :: 0 <= i < |m.items| ==> m.items[i].token != token
    ensures var m' := Set(m, token, at, state);
      Cancel(m', token, tick) == if tick == Max(at, m.tick + 1) then (m, Some(state)) else (m', None)
  {
    var items := Set(m, token, at, state).items;
    assert items[1..] == m.items;
    assert Drop(items, 0) == m.items;
  }

  /** Is the earliest timeout due at the tick up to which this poll looks? */
  predicate Due<T>(m: Model<T>, target: nat) {
    m.items != [] && m.items[Earliest(m.items)].deadline <= Max(target, m.tick)
  }

  function Poll<T>(m: Model<T>, target: nat): (r: (Model<T>, Option<T>)) {
    if Due(m, target) then
      var i := Earliest(m.items);
      (Model(Drop(m.items, i), m.items[i].deadline), Some(m.items[i].state))
    else
      (m.(tick := Max(target, m.tick) + 1), None)
  }

  // ---------------------------------------------------------------------------------------------
  // One poll
  // ---------------------------------------------------------------------------------------------

  /** No live timeout lies in the past. */
  ghost predicate NonePast<T>(m: Model<T>) {
    forall i :: 0 <= i < |m.items| ==> m.items[i].deadline >= m.tick
  }

  /**
    A poll answers None exactly when nothing is due at max(target, tick).  Otherwise it takes out the timeout that
    comes first, and the current tick becomes its deadline.
   */
  lemma PollMeaning<T>(m: Model<T>, target: nat)
    ensures var (m', r) := Poll(m, target);
      && (r.None? <==> forall i :: 0 <= i < |m.items| ==> m.items[i].deadline > Max(target, m.tick))
      && (r.None? ==> m'.items == m.items && m'.tick == Max(target, m.tick) + 1)
      && (r.Some? ==> exists i: nat | First(m.items, i) ::
            r.value == m.items[i].state && m'.items == Drop(m.items, i) && m'.tick == m.items[i].deadline)
  {
    if Due(m, target) { assert First(m.items, Earliest(m.items)); }
  }

  /** Does this poll fire only what its caller asked for, a timeout that is due at the target? */
  predicate FiresByTarget<T>(m: Model<T>, target: nat) {
    Poll(m, target).1.Some? ==> m.items[Earliest(m.items)].deadline <= target
  }

  /**
    A poll may fire a timeout that is only due after the caller's target: exactly when the timer has already moved
    beyond the target and a timeout is due at the tick it moved to.
   */
  lemma TargetIsExceeded<T>(m: Model<T>, target: nat)
    requires NonePast(m)
    ensures !FiresByTarget(m, target) <==> target < m.tick && exists i :: 0 <= i < |m.items| && m.items[i].deadline == m.tick
  {
    if target < m.tick && exists i :: 0 <= i < |m.items| && m.items[i].deadline == m.tick {
      var i :| 0 <= i < |m.items| && m.items[i].deadline == m.tick;
      assert m.items[Earliest(m.items)].deadline <= m.items[i].deadline;
    }
  }

  /** Two polls with the same target: the second fires a timeout of the tick after it. */
  lemma SecondPollExceedsTarget()
    ensures var m := Model([Item(0, 6, 'a')], 0);
      && NonePast(m) && Poll(m, 5) == (Model([Item(0, 6, 'a')], 6), None)
      && Poll(Poll(m, 5).0, 5) == (Model([], 6), Some('a'))
  {
    var c := [Item(0, 6, 'a')];
    assert Earliest(c) == 0 && Drop(c, 0) == [];
  }

  // ---------------------------------------------------------------------------------------------
  // Draining
  // ---------------------------------------------------------------------------------------------

  /** What polling with the same target brings until the first None. */
  function Drain<T>(m: Model<T>, target: nat): seq<Item<T>>
    decreases |m.items|
  {
    if Due(m, target) then [m.items[Earliest(m.items)]] + Drain(Poll(m, target).0, target) else []
  }

  function DueItems<T>(c: seq<Item<T>>, last: nat): seq<Item<T>> {
    if c == [] then [] else (if c[0].deadline <= last then [c[0]] else []) + DueItems(c[1..], last)
  }

  /** x goes before the first timeout that is due no earlier. */
  function InsertSorted<T>(x: Item<T>, c: seq<Item<T>>): seq<Item<T>> {
    if c == [] || x.deadline <= c[0].deadline then [x] + c else [c[0]] + InsertSorted(x, c[1..])
  }

  /** The stable sort by deadline: newer timeouts stay before older ones of the same tick. */
  function Sorted<T>(c: seq<Item<T>>): seq<Item<T>> {
    if c == [] then [] else InsertSorted(c[0], Sorted(c[1..]))
  }

  lemma {:induction false} SortedIsOrdered<T>(c: seq<Item<T>>)
    ensures Ordered(Sorted(c)) && multiset(Sorted(c)) == multiset(c)
  {
    assert Ordered<T>([]);
    hide Ordered;
    if c == [] {
    } else {
      SortedIsOrdered(c[1..]);
      InsertIsOrdered(c[0], Sorted(c[1..]));
      assert c == [c[0]] + c[1..];
    }
  }

  ghost predicate Ordered<T>(c: seq<Item<T>>) {
    forall i, j :: 0 <= i < j < |c| ==> c[i].deadline <= c[j].deadline
  }

  lemma OrderedCons<T>(x: Item<T>, c: seq<Item<T>>)
    requires Ordered(c) && (c != [] ==> x.deadline <= c[0].deadline)
    ensures Ordered([x] + c)
  {}

  lemma OrderedTail<T>(c: seq<Item<T>>)
    requires Ordered(c) && c != []
    ensures Ordered(c[1..]) && (|c| > 1 ==> c[0].deadline <= c[1].deadline)
  {}

  lemma {:induction false} InsertIsOrdered<T>(x: Item<T>, c: seq<Item<T>>)
    requires Ordered(c)
    ensures var r := InsertSorted(x, c);
      && Ordered(r) && multiset(r) == multiset(c) + multiset{x}
      && r != [] && (r[0] == x || (c != [] && r[0] == c[0]))
  {
    hide Ordered;
    if c != [] && x.deadline > c[0].deadline {
      OrderedTail(c);
      InsertIsOrdered(x, c[1..]);
      OrderedCons(c[0], InsertSorted(x, c[1..]));
      assert c == [c[0]] + c[1..];
    } else {
      OrderedCons(x, c);
    }
  }

  function AtTick<T>(c: seq<Item<T>>, tick: nat): seq<Item<T>> {
    if c == [] then [] else (if c[0].deadline == tick then [c[0]] else []) + AtTick(c[1..], tick)
  }

  /** The sort is stable. */
  lemma {:induction false} SortedIsStable<T>(c: seq<Item<T>>, tick: nat)
    ensures AtTick(Sorted(c), tick) == AtTick(c, tick)
  {
    if c == [] {
    } else {
      SortedIsStable(c[1..], tick);
      InsertIsStable(c[0], Sorted(c[1..]), tick);
    }
  }

  lemma {:induction false} InsertIsStable<T>(x: Item<T>, c: seq<Item<T>>, tick: nat)
    ensures AtTick(InsertSorted(x, c), tick) == AtTick([x] + c, tick)
  {
    assert ([x] + c)[1..] == c;
    if c == [] || x.deadline <= c[0].deadline {
    } else {
      InsertIsStable(x, c[1..], tick);
    }
  }

  /** The first timeout of all heads the sorted collection. */
  lemma {:induction false} FirstIsHead<T>(c: seq<Item<T>>, i: nat)
    requires First(c, i)
    ensures Sorted(c) == [c[i]] + Sorted(Drop(c, i))
  {
    if i == 0 {
      assert Drop(c, 0) == c[1..];
      SortedIsOrdered(c[1..]);
      var r := Sorted(c[1..]);
      assert r != [] ==> r[0] in multiset(r) && r[0] in c[1..];
    } else {
      FirstOfTail(c, i);
      FirstIsHead(c[1..], i - 1);
      assert Drop(c, i)[1..] == Drop(c[1..], i - 1) && Drop(c, i)[0] == c[0];
    }
  }

  lemma FirstOfTail<T>(c: seq<Item<T>>, i: nat)
    requires First(c, i) && i > 0
    ensures First(c[1..], i - 1) && c[1..][i - 1] == c[i] && c[i].deadline < c[0].deadline
  {
    assert forall j :: 0 <= j < |c| - 1 ==> c[1..][j] == c[j + 1];
  }

  lemma {:induction false} DueDrop<T>(c: seq<Item<T>>, i: nat, last: nat) returns (j: nat)
    requires First(c, i) && c[i].deadline <= last
    ensures First(DueItems(c, last), j) && DueItems(c, last)[j] == c[i]
    ensures Drop(DueItems(c, last), j) == DueItems(Drop(c, i), last)
  {
    hide DueItems, Drop;
    if i == 0 {
      j := 0;
      FirstDue(c, last);
    } else {
      FirstOfTail(c, i);
      j := DueDrop(c[1..], i - 1, last);
      hide First;
      var x, t, e := c[0], c[1..], DueItems(c[1..], last);
      assert c == [x] + t;
      DropCons(x, t, i - 1);
      DueCons(x, t, last);
      DueCons(x, Drop(t, i - 1), last);
      if x.deadline <= last {
        FirstCons(x, e, j);
        DropCons(x, e, j);
        j := j + 1;
      }
    }
  }

  lemma DropCons<T>(x: Item<T>, c: seq<Item<T>>, i: nat)
    requires i < |c|
    ensures Drop([x] + c, i + 1) == [x] + Drop(c, i)
  {}

  lemma DueCons<T>(x: Item<T>, c: seq<Item<T>>, last: nat)
    ensures DueItems([x] + c, last) == if x.deadline <= last then [x] + DueItems(c, last) else DueItems(c, last)
  {
    assert ([x] + c)[1..] == c;
  }

  lemma FirstDue<T>(c: seq<Item<T>>, last: nat)
    requires First(c, 0) && c[0].deadline <= last
    ensures First(DueItems(c, last), 0) && DueItems(c, last)[0] == c[0]
    ensures Drop(DueItems(c, last), 0) == DueItems(Drop(c, 0), last)
  {
    var d := DueItems(c, last);
    assert Drop(c, 0) == c[1..] && Drop(d, 0) == d[1..];
    DueSubset(c, last);
    forall k | 0 <= k < |d| ensures c[0].deadline <= d[k].deadline { assert d[k] in c; }
  }

  lemma FirstCons<T>(x: Item<T>, c: seq<Item<T>>, i: nat)
    requires First(c, i) && c[i].deadline < x.deadline
    ensures First([x] + c, i + 1) && ([x] + c)[i + 1] == c[i]
  {
    assert forall j :: 1 <= j <= |c| ==> ([x] + c)[j] == c[j - 1];
  }

  lemma {:induction false} DueSubset<T>(c: seq<Item<T>>, last: nat)
    ensures forall x :: x in DueItems(c, last) ==> x in c
  {
    if c == [] {
    } else {
      DueSubset(c[1..], last);
    }
  }

  lemma {:induction false} NoneDue<T>(c: seq<Item<T>>, last: nat)
    requires forall i :: 0 <= i < |c| ==> c[i].deadline > last
    ensures DueItems(c, last) == []
  {
    if c == [] {
    } else {
      NoneDue(c[1..], last);
    }
  }

  /** Draining brings what is due, all of it, in order of deadline, and newest first within one tick. */
  lemma {:induction false} DrainSorts<T>(m: Model<T>, target: nat)
    requires NonePast(m)
    ensures Drain(m, target) == Sorted(DueItems(m.items, Max(target, m.tick)))
    decreases |m.items|
  {
    var last := Max(target, m.tick);
    if Due(m, target) {
      var i := Earliest(m.items);
      var m' := Poll(m, target).0;
      assert Max(target, m'.tick) == last;
      DrainSorts(m', target);
      var j := DueDrop(m.items, i, last);
      FirstIsHead(DueItems(m.items, last), j);
    } else {
      NoneDue(m.items, last);
    }
  }

  // ---------------------------------------------------------------------------------------------
  // Whole runs
  // ---------------------------------------------------------------------------------------------

  datatype Op<T> = SetOp(token: nat, at: nat, state: T) | CancelOp(token: nat, tick: nat) | PollOp(target: nat)

  /** A timer with everything that was ever set, fired and cancelled. */
  datatype History<T> = History(m: Model<T>, made: seq<Item<T>>, fired: seq<Item<T>>, cancelled: seq<Item<T>>)

  function Apply<T>(h: History<T>, op: Op<T>): History<T> {
    match op
    case SetOp(token, at, state) =>
      var m' := Set(h.m, token, at, state);
      h.(m := m', made := h.made + [m'.items[0]])
    case CancelOp(token, tick) =>
      var m' := Cancel(h.m, token, tick).0;
      if Live(h.m, token, tick) then h.(m := m', cancelled := h.cancelled + [h.m.items[Find(h.m.items, token)]]) else h
    case PollOp(target) =>
      var m' := Poll(h.m, target).0;
      if Due(h.m, target) then h.(m := m', fired := h.fired + [h.m.items[Earliest(h.m.items)]]) else h.(m := m')
  }

  function Run<T>(ops: seq<Op<T>>): History<T> {
    if ops == [] then History(Model([], 0), [], [], []) else Apply(Run(ops[..|ops| - 1]), ops[|ops| - 1])
  }

  lemma DropMultiset<T>(c: seq<Item<T>>, i: nat)
    requires i < |c|
    ensures multiset(c) == multiset(Drop(c, i)) + multiset{c[i]}
  {
    assert c == c[..i] + ([c[i]] + c[i + 1..]);
  }

  /** Over any run, every timeout that was set is live, has fired or was cancelled, exactly one of these and once. */
  lemma {:induction false} Conservation<T>(ops: seq<Op<T>>)
    ensures var h := Run(ops); multiset(h.made) == multiset(h.m.items) + multiset(h.fired) + multiset(h.cancelled)
  {
    if ops == [] {
    } else {
      var h := Run(ops[..|ops| - 1]);
      Conservation(ops[..|ops| - 1]);
      match ops[|ops| - 1]
      case SetOp(token, at, state) =>
      case CancelOp(token, tick) => if Live(h.m, token, tick) { DropMultiset(h.m.items, Find(h.m.items, token)); }
      case PollOp(target) => if Due(h.m, target) { DropMultiset(h.m.items, Earliest(h.m.items)); }
    }
  }

  /** What has fired is in order of deadline, and nothing of it is due after the tick. */
  ghost predicate InOrder<T>(h: History<T>) {
    NonePast(h.m) && Ordered(h.fired) && forall x :: x in h.fired ==> x.deadline <= h.m.tick
  }

  lemma OpInOrder<T>(h: History<T>, op: Op<T>)
    requires InOrder(h)
    ensures InOrder(Apply(h, op))
  {
    hide InOrder, Poll, Due;
    match op
    case SetOp(token, at, state) => SetInOrder(h, token, at, state);
    case CancelOp(token, tick) => if Live(h.m, token, tick) { DropInOrder(h, Find(h.m.items, token)); }
    case PollOp(target) => PollInOrder(h, target);
  }

  lemma SetInOrder<T>(h: History<T>, token: nat, at: nat, state: T)
    requires InOrder(h)
    ensures InOrder(Apply(h, SetOp(token, at, state)))
  {
    hide Ordered;
  }

  lemma DropInOrder<T>(h: History<T>, i: nat)
    requires InOrder(h) && i < |h.m.items|
    ensures forall h': History<T> :: h'.m == h.m.(items := Drop(h.m.items, i)) && h'.fired == h.fired ==> InOrder(h')
  {
    hide Ordered;
  }

  lemma PollInOrder<T>(h: History<T>, target: nat)
    requires InOrder(h)
    ensures InOrder(Apply(h, PollOp(target)))
  {
    if Due(h.m, target) {
      assert forall x :: x in h.fired ==> x.deadline <= h.m.items[Earliest(h.m.items)].deadline;
    } else {
      hide Ordered;
    }
  }

  /** Over any run, timeouts fire in order of deadline, and no live timeout is due before one that has fired. */
  lemma {:induction false} FiresInOrder<T>(ops: seq<Op<T>>)
    ensures var h := Run(ops); NonePast(h.m) && Ordered(h.fired) && forall x :: x in h.fired ==> x.deadline <= h.m.tick
  {
    hide Apply;
    if ops == [] {
    } else {
      FiresInOrder(ops[..|ops| - 1]);
      OpInOrder(Run(ops[..|ops| - 1]), ops[|ops| - 1]);
    }
  }
}
