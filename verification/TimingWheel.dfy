/**
  The hashed timing wheel of `corcovado::timer::Timer`.

  A tick belongs to slot tick % n; the source masks with n - 1, n being a power of two, which is the same.
  The slab becomes a map whose fresh keys the caller supplies, and the calls on the wakeup machinery are logged.
*/
module TimingWheel {
  import opened Wrappers
  import opened TimerModel
  import W = TimerWalk

  const EMPTY: nat := 0xffff_ffff_ffff_ffff

  datatype Entry<T> = Entry(state: T, tick: nat, prev: nat, next: nat)

  /** What the caller gets to cancel a timeout with. */
  datatype Timeout = Timeout(token: nat, tick: nat)

  datatype WheelEntry = WheelEntry(nextTick: nat, head: nat)

  /** What the timer asks of the machinery behind `inner`. */
  datatype Call = Unset | Schedule(tick: nat)

  // ---------------------------------------------------------------------------------------------
  // The slots of a collection
  // ---------------------------------------------------------------------------------------------

  /** The tokens of the timeouts that hash to slot s, newest first. */
  function Slot<T>(c: seq<Item<T>>, n: nat, s: nat): seq<nat>
    requires n > 0
  {
    if c == [] then [] else (if SlotOf(c[0].deadline, n) == s then [c[0].token] else []) + Slot(c[1..], n, s)
  }

  lemma {:induction false} SlotConcat<T>(a: seq<Item<T>>, b: seq<Item<T>>, n: nat, s: nat)
    requires n > 0
    ensures Slot(a + b, n, s) == Slot(a, n, s) + Slot(b, n, s)
  {
    hide SlotOf;
    if a == [] {
      assert a + b == b;
    } else {
      SlotConcat(a[1..], b, n, s);
      assert (a + b)[1..] == a[1..] + b && (a + b)[0] == a[0];
      var first: seq<nat> := if SlotOf(a[0].deadline, n) == s then [a[0].token] else [];
      assert Slot(a, n, s) == first + Slot(a[1..], n, s);
    }
  }

  /** A slot's list is cut in three by any timeout. */
  lemma SlotSplit<T>(c: seq<Item<T>>, n: nat, s: nat, i: nat)
    requires n > 0 && i < |c|
    ensures Slot(c, n, s) == Slot(c[..i], n, s) + (if SlotOf(c[i].deadline, n) == s then [c[i].token] else []) + Slot(c[i + 1..], n, s)
  {
    assert c == c[..i] + c[i..];
    SlotConcat(c[..i], c[i..], n, s);
  }

  /** The place of timeout i in its slot. */
  function Place<T>(c: seq<Item<T>>, n: nat, i: nat): nat
    requires n > 0 && i < |c|
  {
    |Slot(c[..i], n, SlotOf(c[i].deadline, n))|
  }

  lemma PlaceOk<T>(c: seq<Item<T>>, n: nat, i: nat)
    requires n > 0 && i < |c|
    ensures var l := Slot(c, n, SlotOf(c[i].deadline, n)); Place(c, n, i) < |l| && l[Place(c, n, i)] == c[i].token
  {
    SlotSplit(c, n, SlotOf(c[i].deadline, n), i);
  }

  lemma PlaceGrows<T>(c: seq<Item<T>>, n: nat, i: nat, j: nat)
    requires n > 0 && i < j < |c| && SlotOf(c[i].deadline, n) == SlotOf(c[j].deadline, n)
    ensures Place(c, n, i) < Place(c, n, j)
  {
    SlotSplit(c[..j], n, SlotOf(c[i].deadline, n), i);
    assert c[..j][..i] == c[..i];
  }

  /** Every place of a slot is that of one timeout. */
  lemma {:induction false} Origin<T>(c: seq<Item<T>>, n: nat, s: nat, k: nat) returns (i: nat)
    requires n > 0 && k < |Slot(c, n, s)|
    ensures i < |c| && SlotOf(c[i].deadline, n) == s && c[i].token == Slot(c, n, s)[k] && Place(c, n, i) == k
  {
    hide SlotOf;
    var first: seq<nat> := if SlotOf(c[0].deadline, n) == s then [c[0].token] else [];
    assert Slot(c, n, s) == first + Slot(c[1..], n, s);
    if SlotOf(c[0].deadline, n) == s && k == 0 {
      i := 0;
    } else {
      i := Origin(c[1..], n, s, k - |first|);
      assert c[..i + 1] == [c[0]] + c[1..][..i];
      SlotConcat([c[0]], c[1..][..i], n, s);
      assert Slot([c[0]], n, s) == first;
      i := i + 1;
    }
  }

  // ---------------------------------------------------------------------------------------------
  // The linked lists
  // ---------------------------------------------------------------------------------------------

  function At(l: seq<nat>, i: int): nat { if 0 <= i < |l| then l[i] else EMPTY }

  ghost predicate Linked<T>(e: map<nat, Entry<T>>, l: seq<nat>, i: nat) {
    i < |l| ==> l[i] in e && e[l[i]].prev == At(l, i - 1) && e[l[i]].next == At(l, i + 1)
  }

  /** The entries of one slot form a doubly linked list in the order of l. */
  ghost predicate Threaded<T>(e: map<nat, Entry<T>>, l: seq<nat>) {
    forall i: nat {:trigger Linked(e, l, i)} :: Linked(e, l, i)
  }

  ghost predicate SlotOk<T>(e: map<nat, Entry<T>>, w: seq<WheelEntry>, c: seq<Item<T>>, s: nat) {
    s < |w| ==> w[s].head == At(Slot(c, |w|, s), 0) && Threaded(e, Slot(c, |w|, s)) && w[s].nextTick >= 1
  }

  ghost predicate Stored<T>(e: map<nat, Entry<T>>, c: seq<Item<T>>, i: nat) {
    i < |c| ==> c[i].token < EMPTY && c[i].token in e && e[c[i].token].tick == c[i].deadline && e[c[i].token].state == c[i].state
  }

  ghost predicate Known<T>(e: map<nat, Entry<T>>, c: seq<Item<T>>, t: nat) {
    t in e ==> Find(c, t) < |c|
  }

  /** The slab holds exactly the collection. */
  ghost predicate Holds<T>(e: map<nat, Entry<T>>, c: seq<Item<T>>) {
    && Distinct(c)
    && (forall i: nat {:trigger Stored(e, c, i)} :: Stored(e, c, i))
    && (forall t: nat {:trigger Known(e, c, t)} :: Known(e, c, t))
  }

  /**
    Timeout i is due now or later, and if now, it is at the cursor or behind it; its slot's `next_tick` bounds it
    from below, unless its slot is the one being walked and it is at the cursor or behind it.
   */
  ghost predicate TimeOk<T>(w: seq<WheelEntry>, c: seq<Item<T>>, i: nat, tick: nat, p: nat)
    requires |w| > 0
  {
    i < |c| ==>
      && c[i].deadline >= tick && c[i].deadline >= 1 && (c[i].deadline == tick ==> i >= p)
      && (BoundOk(w, c, i) || (SlotOf(c[i].deadline, |w|) == SlotOf(tick, |w|) && i >= p))
  }

  ghost predicate BoundOk<T>(w: seq<WheelEntry>, c: seq<Item<T>>, i: nat)
    requires |w| > 0
  {
    i < |c| ==> w[SlotOf(c[i].deadline, |w|)].nextTick <= c[i].deadline
  }

  /** The cursor is at the end of the current slot, or at one of its timeouts. */
  ghost predicate CursorOk<T>(c: seq<Item<T>>, n: nat, tick: nat, next: nat)
    requires n > 0
  {
    next != EMPTY ==> Find(c, next) < |c| && SlotOf(c[Find(c, next)].deadline, n) == SlotOf(tick, n)
  }

  ghost predicate TimesOk<T>(w: seq<WheelEntry>, tick: nat, next: nat, c: seq<Item<T>>)
    requires |w| > 0
  {
    && CursorOk(c, |w|, tick, next)
    && (forall i: nat {:trigger TimeOk(w, c, i, tick, Find(c, next))} :: TimeOk(w, c, i, tick, Find(c, next)))
  }

  ghost predicate Ok<T>(e: map<nat, Entry<T>>, w: seq<WheelEntry>, tick: nat, next: nat, c: seq<Item<T>>) {
    && |w| > 0
    && Holds(e, c)
    && (forall s: nat {:trigger SlotOk(e, w, c, s)} :: SlotOk(e, w, c, s))
    && TimesOk(w, tick, next, c)
  }

  /** Every slot's `next_tick` bounds all its deadlines from below. */
  ghost predicate AllBounded<T>(w: seq<WheelEntry>, c: seq<Item<T>>) {
    |w| > 0 && forall i: nat {:trigger BoundOk(w, c, i)} :: BoundOk(w, c, i)
  }

  lemma EmptyFound<T>(e: map<nat, Entry<T>>, c: seq<Item<T>>)
    requires Holds(e, c)
    ensures Find(c, EMPTY) == |c| && EMPTY !in e
  {
    assert Stored(e, c, Find(c, EMPTY)) && Known(e, c, EMPTY);
  }

  // ---------------------------------------------------------------------------------------------
  // What the operations do to the lists
  // ---------------------------------------------------------------------------------------------

  /** A new entry in front of its slot. */
  function Linkin<T>(e: map<nat, Entry<T>>, token: nat, x: Entry<T>): map<nat, Entry<T>> {
    if x.next in e then e[token := x][x.next := e[x.next].(prev := token)] else e[token := x]
  }

  lemma InsertKeeps<T>(e: map<nat, Entry<T>>, w: seq<WheelEntry>, tick: nat, next: nat, c: seq<Item<T>>, x: Item<T>)
    requires Ok(e, w, tick, next, c)
    requires x.token !in e && x.token < EMPTY && x.deadline > tick
    ensures
      var s := SlotOf(x.deadline, |w|);
      var e' := Linkin(e, x.token, Entry(x.state, x.deadline, EMPTY, w[s].head));
      var w' := w[s := WheelEntry(if x.deadline < w[s].nextTick then x.deadline else w[s].nextTick, x.token)];
      Ok(e', w', tick, next, [x] + c) && (AllBounded(w, c) ==> AllBounded(w', [x] + c))
  {
    var s := SlotOf(x.deadline, |w|);
    var y := Entry(x.state, x.deadline, EMPTY, w[s].head);
    var w' := w[s := WheelEntry(if x.deadline < w[s].nextTick then x.deadline else w[s].nextTick, x.token)];
    InsertHolds(e, c, x, y);
    forall r: nat ensures SlotOk(Linkin(e, x.token, y), w', [x] + c, r) {
      InsertSlot(e, w, c, x, y, w', r);
    }
    InsertTimes(e, w, tick, next, c, x, w');
  }

  lemma InsertSlot<T>(e: map<nat, Entry<T>>, w: seq<WheelEntry>, c: seq<Item<T>>, x: Item<T>, y: Entry<T>, w': seq<WheelEntry>, r: nat)
    requires |w| > 0 && Holds(e, c) && SlotOk(e, w, c, r) && SlotOk(e, w, c, SlotOf(x.deadline, |w|)) && x.token !in e
    requires y.prev == EMPTY && y.next == w[SlotOf(x.deadline, |w|)].head
    requires |w'| == |w| && w'[SlotOf(x.deadline, |w|)].head == x.token && w'[SlotOf(x.deadline, |w|)].nextTick >= 1
    requires r < |w| && r != SlotOf(x.deadline, |w|) ==> w'[r] == w[r]
    ensures SlotOk(Linkin(e, x.token, y), w', [x] + c, r)
  {
    var n, s := |w|, SlotOf(x.deadline, |w|);
    if r < n {
      var l := Slot(c, n, r);
      assert ([x] + c)[1..] == c;
      assert Slot([x] + c, n, r) == if r == s then [x.token] + l else l;
      if r == s { ConsThreaded(e, l, x.token, y, c, n, s); } else { OtherThreaded(e, c, n, s, r, x.token, y); }
    }
  }

  lemma InsertTimes<T>(e: map<nat, Entry<T>>, w: seq<WheelEntry>, tick: nat, next: nat, c: seq<Item<T>>, x: Item<T>, w': seq<WheelEntry>)
    requires |w| > 0 && Holds(e, c) && TimesOk(w, tick, next, c) && x.token !in e && x.token < EMPTY && x.deadline > tick
    requires |w'| == |w| && w'[SlotOf(x.deadline, |w|)].nextTick <= x.deadline && forall r :: 0 <= r < |w| ==> w'[r].nextTick <= w[r].nextTick
    ensures TimesOk(w', tick, next, [x] + c) && (AllBounded(w, c) ==> AllBounded(w', [x] + c))
  {
    var c' := [x] + c;
    assert c'[1..] == c;
    EmptyFound(e, c);
    assert Known(e, c, next) && (Find(c, next) < |c| ==> Stored(e, c, Find(c, next)));
    var p, p' := Find(c, next), Find(c', next);
    assert p' == 1 + p;
    forall i: nat ensures TimeOk(w', c', i, tick, p') {
      if i > 0 { assert TimeOk(w, c, i - 1, tick, p); }
    }
    if AllBounded(w, c) {
      forall i: nat ensures BoundOk(w', c', i) {
        if i > 0 { assert BoundOk(w, c, i - 1); }
      }
    }
  }

  lemma InsertHolds<T>(e: map<nat, Entry<T>>, c: seq<Item<T>>, x: Item<T>, y: Entry<T>)
    requires Holds(e, c) && x.token !in e && x.token < EMPTY && y.state == x.state && y.tick == x.deadline
    ensures Holds(Linkin(e, x.token, y), [x] + c)
  {
    var c' := [x] + c;
    var e' := Linkin(e, x.token, y);
    assert c'[1..] == c;
    forall i: nat ensures Stored(e', c', i) && Own(c', i) {
      if i > 0 { assert Stored(e, c, i - 1) && Own(c, i - 1); }
    }
    forall t: nat ensures Known(e', c', t) { assert Known(e, c, t); }
  }

  /** Tokens of the slots are live, and no token is in two slots. */
  lemma SlotLive<T>(e: map<nat, Entry<T>>, c: seq<Item<T>>, n: nat, s: nat, k: nat)
    requires Holds(e, c) && n > 0 && k < |Slot(c, n, s)|
    ensures var t := Slot(c, n, s)[k];
      && t in e && t < EMPTY && SlotOf(e[t].tick, n) == s
      && Find(c, t) < |c| && c[Find(c, t)].deadline == e[t].tick && Place(c, n, Find(c, t)) == k
  {
    var i := Origin(c, n, s, k);
    assert Own(c, i) && Stored(e, c, i);
  }

  lemma SlotDistinct<T>(e: map<nat, Entry<T>>, c: seq<Item<T>>, n: nat, s: nat)
    requires Holds(e, c) && n > 0
    ensures var l := Slot(c, n, s); forall i, j :: 0 <= i < j < |l| ==> l[i] != l[j]
  {
    forall k {:trigger Slot(c, n, s)[k]} | 0 <= k < |Slot(c, n, s)| ensures Find(c, Slot(c, n, s)[k]) < |c| && Place(c, n, Find(c, Slot(c, n, s)[k])) == k {
      SlotLive(e, c, n, s, k);
    }
  }

  lemma ConsThreaded<T>(e: map<nat, Entry<T>>, l: seq<nat>, token: nat, y: Entry<T>, c: seq<Item<T>>, n: nat, s: nat)
    requires Holds(e, c) && n > 0 && l == Slot(c, n, s) && Threaded(e, l) && token !in e
    requires y.prev == EMPTY && y.next == At(l, 0)
    ensures Threaded(Linkin(e, token, y), [token] + l)
  {
    SlotDistinct(e, c, n, s);
    var l' := [token] + l;
    var e' := Linkin(e, token, y);
    if l == [] { assert EMPTY !in e by { EmptyFound(e, c); } }
    forall i: nat ensures Linked(e', l', i) {
      if i < |l'| {
        assert Linked(e, l, 0);
        if i > 0 {
          assert Linked(e, l, i - 1);
          assert l'[i] == l[i - 1];
        }
      }
    }
  }

  lemma OtherThreaded<T>(e: map<nat, Entry<T>>, c: seq<Item<T>>, n: nat, s: nat, r: nat, token: nat, y: Entry<T>)
    requires Holds(e, c) && n > 0 && r != s && Threaded(e, Slot(c, n, r)) && token !in e && y.next == At(Slot(c, n, s), 0)
    ensures Threaded(Linkin(e, token, y), Slot(c, n, r))
  {
    var l := Slot(c, n, r);
    var e' := Linkin(e, token, y);
    EmptyFound(e, c);
    forall i: nat ensures Linked(e', l, i) {
      assert Linked(e, l, i);
      if i < |l| {
        SlotLive(e, c, n, r, i);
        if |Slot(c, n, s)| > 0 { SlotLive(e, c, n, s, 0); }
      }
    }
  }

  /** Entry k of a doubly linked list leaves it. */
  function Unlinked<T>(e: map<nat, Entry<T>>, prev: nat, next: nat): map<nat, Entry<T>> {
    var e1 := if prev in e then e[prev := e[prev].(next := next)] else e;
    if next in e1 then e1[next := e1[next].(prev := prev)] else e1
  }

  /** The wheel when the entry with these links leaves its slot's list. */
  function Shortened(w: seq<WheelEntry>, s: nat, prev: nat, next: nat): seq<WheelEntry>
    requires s < |w|
  {
    if prev == EMPTY then w[s := w[s].(head := next)] else w
  }

  lemma DropHolds<T>(e: map<nat, Entry<T>>, c: seq<Item<T>>, i: nat, e1: map<nat, Entry<T>>)
    requires Holds(e, c) && i < |c|
    requires e1.Keys == e.Keys && forall t :: t in e ==> e1[t].tick == e[t].tick && e1[t].state == e[t].state
    ensures Holds(e1 - {c[i].token}, Drop(c, i))
  {
    var e' := e1 - {c[i].token};
    var d := Drop(c, i);
    DropDistinct(c, i);
    forall j: nat ensures Stored(e', d, j) {
      if j < |d| {
        var k := if j < i then j else j + 1;
        assert d[j] == c[k];
        assert Stored(e, c, k) && Own(c, k) && Own(c, i);
      }
    }
    forall t: nat ensures Known(e', d, t) {
      assert Known(e, c, t) && Own(c, i);
      FindSplit(c, i, t);
    }
  }

  lemma CutMiddle(l: seq<nat>, a: seq<nat>, t: nat, b: seq<nat>)
    requires l == a + [t] + b
    ensures |a| < |l| && l[|a|] == t && l[..|a|] == a && l[|a| + 1..] == b
  {}

  /** The slot of a timeout that leaves. */
  lemma DropSlot<T>(c: seq<Item<T>>, n: nat, s: nat, i: nat)
    requires n > 0 && i < |c|
    ensures var l := Slot(c, n, s);
      && (SlotOf(c[i].deadline, n) != s ==> Slot(Drop(c, i), n, s) == l)
      && (SlotOf(c[i].deadline, n) == s ==>
            var k := Place(c, n, i); k < |l| && l[k] == c[i].token && Slot(Drop(c, i), n, s) == l[..k] + l[k + 1..])
  {
    hide SlotOf, Slot;
    var l, a, b := Slot(c, n, s), Slot(c[..i], n, s), Slot(c[i + 1..], n, s);
    SlotSplit(c, n, s, i);
    SlotConcat(c[..i], c[i + 1..], n, s);
    assert Slot(Drop(c, i), n, s) == a + b;
    if SlotOf(c[i].deadline, n) == s {
      assert Place(c, n, i) == |a|;
      CutMiddle(l, a, c[i].token, b);
    } else {
      assert a + [] + b == a + b;
    }
  }

  lemma CutThreaded<T>(e: map<nat, Entry<T>>, l: seq<nat>, k: nat)
    requires Threaded(e, l) && k < |l| && EMPTY !in e && forall i, j :: 0 <= i < j < |l| ==> l[i] != l[j]
    ensures l[k] in e && Threaded(Unlinked(e, e[l[k]].prev, e[l[k]].next) - {l[k]}, l[..k] + l[k + 1..])
  {
    assert Linked(e, l, k);
    var l' := l[..k] + l[k + 1..];
    var e' := Unlinked(e, e[l[k]].prev, e[l[k]].next) - {l[k]};
    forall i: nat ensures Linked(e', l', i) {
      if i < |l'| {
        var j := if i < k then i else i + 1;
        assert Linked(e, l, j);
        assert l'[i] == l[j];
      }
    }
  }

  lemma AwayThreaded<T>(e: map<nat, Entry<T>>, c: seq<Item<T>>, n: nat, s: nat, r: nat, k: nat)
    requires Holds(e, c) && n > 0 && r != s && Threaded(e, Slot(c, n, r)) && Threaded(e, Slot(c, n, s)) && k < |Slot(c, n, s)|
    ensures var t := Slot(c, n, s)[k]; t in e && Threaded(Unlinked(e, e[t].prev, e[t].next) - {t}, Slot(c, n, r))
  {
    var l, m := Slot(c, n, r), Slot(c, n, s);
    var t := m[k];
    assert Linked(e, m, k);
    var e' := Unlinked(e, e[t].prev, e[t].next) - {t};
    EmptyFound(e, c);
    SlotLive(e, c, n, s, k);
    if k > 0 { SlotLive(e, c, n, s, k - 1); }
    if k + 1 < |m| { SlotLive(e, c, n, s, k + 1); }
    forall i: nat ensures Linked(e', l, i) {
      assert Linked(e, l, i);
      if i < |l| { SlotLive(e, c, n, r, i); }
    }
  }

  lemma RemoveSlot<T>(e: map<nat, Entry<T>>, w: seq<WheelEntry>, c: seq<Item<T>>, i: nat, r: nat)
    requires |w| > 0 && Holds(e, c) && i < |c| && c[i].token in e && SlotOk(e, w, c, r) && SlotOk(e, w, c, SlotOf(c[i].deadline, |w|))
    ensures var x := e[c[i].token];
      SlotOk(Unlinked(e, x.prev, x.next) - {c[i].token}, Shortened(w, SlotOf(c[i].deadline, |w|), x.prev, x.next), Drop(c, i), r)
  {
    var n, s := |w|, SlotOf(c[i].deadline, |w|);
    if r < n {
      var k := Place(c, n, i);
      DropSlot(c, n, s, i);
      DropSlot(c, n, r, i);
      EmptyFound(e, c);
      assert Linked(e, Slot(c, n, s), k);
      if r == s {
        SlotDistinct(e, c, n, s);
        CutThreaded(e, Slot(c, n, s), k);
        if k > 0 { SlotLive(e, c, n, s, k - 1); }
      } else {
        AwayThreaded(e, c, n, s, r, k);
      }
    }
  }

  /** Where the cursor goes when it stands at timeout i: to the next one of the slot. */
  lemma NextPlace<T>(e: map<nat, Entry<T>>, c: seq<Item<T>>, n: nat, i: nat)
    requires n > 0 && Holds(e, c) && i < |c| && c[i].token in e && Threaded(e, Slot(c, n, SlotOf(c[i].deadline, n)))
    ensures var q := Find(c, e[c[i].token].next); var s := SlotOf(c[i].deadline, n);
      && i < q && (q < |c| ==> SlotOf(c[q].deadline, n) == s)
      && (q == |c| ==> e[c[i].token].next == EMPTY)
      && forall j :: i < j < q ==> SlotOf(c[j].deadline, n) != s
  {
    var s := SlotOf(c[i].deadline, n);
    var l, k := Slot(c, n, s), Place(c, n, i);
    PlaceOk(c, n, i);
    assert Linked(e, l, k);
    EmptyFound(e, c);
    var q := Find(c, e[c[i].token].next);
    if k + 1 < |l| {
      SlotLive(e, c, n, s, k + 1);
      if q < i { PlaceGrows(c, n, q, i); }
    }
    forall j | i < j < q ensures SlotOf(c[j].deadline, n) != s {
      if SlotOf(c[j].deadline, n) == s {
        PlaceGrows(c, n, i, j);
        PlaceOk(c, n, j);
        if q < |c| { PlaceGrows(c, n, j, q); }
      }
    }
  }

  /** The first timeout of a slot. */
  lemma HeadPlace<T>(e: map<nat, Entry<T>>, c: seq<Item<T>>, n: nat, s: nat)
    requires n > 0 && Holds(e, c)
    ensures var h := At(Slot(c, n, s), 0); var q := Find(c, h);
      && (h == EMPTY <==> q == |c|)
      && (q < |c| ==> SlotOf(c[q].deadline, n) == s)
      && forall j :: 0 <= j < q ==> SlotOf(c[j].deadline, n) != s
  {
    var l := Slot(c, n, s);
    EmptyFound(e, c);
    if |l| > 0 { SlotLive(e, c, n, s, 0); }
    var q := Find(c, At(l, 0));
    forall j | 0 <= j < q ensures SlotOf(c[j].deadline, n) != s {
      if SlotOf(c[j].deadline, n) == s {
        PlaceOk(c, n, j);
        if q < |c| { PlaceGrows(c, n, j, q); }
      }
    }
  }

  lemma RemoveKeeps<T>(e: map<nat, Entry<T>>, w: seq<WheelEntry>, tick: nat, next: nat, c: seq<Item<T>>, i: nat)
    requires Ok(e, w, tick, next, c) && i < |c| && c[i].token in e
    ensures
      var t := c[i].token;
      var x := e[t];
      var w' := Shortened(w, SlotOf(c[i].deadline, |w|), x.prev, x.next);
      && Ok(Unlinked(e, x.prev, x.next) - {t}, w', tick, if t == next then x.next else next, Drop(c, i))
      && (AllBounded(w, c) ==> AllBounded(w', Drop(c, i)))
  {
    var t := c[i].token;
    var x := e[t];
    var s := SlotOf(c[i].deadline, |w|);
    assert SlotOk(e, w, c, s);
    assert Stored(e, c, i);
    DropHolds(e, c, i, Unlinked(e, x.prev, x.next));
    forall r: nat ensures SlotOk(Unlinked(e, x.prev, x.next) - {t}, Shortened(w, s, x.prev, x.next), Drop(c, i), r) {
      assert SlotOk(e, w, c, r);
      RemoveSlot(e, w, c, i, r);
    }
    RemoveTimes(e, w, tick, next, c, i, Shortened(w, s, x.prev, x.next));
  }

  lemma RemoveTimes<T>(e: map<nat, Entry<T>>, w: seq<WheelEntry>, tick: nat, next: nat, c: seq<Item<T>>, i: nat, w': seq<WheelEntry>)
    requires |w| > 0 && Holds(e, c) && TimesOk(w, tick, next, c) && i < |c| && c[i].token in e && Threaded(e, Slot(c, |w|, SlotOf(c[i].deadline, |w|)))
    requires |w'| == |w| && forall r :: 0 <= r < |w| ==> w'[r].nextTick == w[r].nextTick
    ensures TimesOk(w', tick, if c[i].token == next then e[c[i].token].next else next, Drop(c, i))
    ensures AllBounded(w, c) ==> AllBounded(w', Drop(c, i))
  {
    hide SlotOf, Slot, TimeOk, BoundOk;
    var d := Drop(c, i);
    var next' := if c[i].token == next then e[c[i].token].next else next;
    assert Own(c, i) && Stored(e, c, i);
    NextPlace(e, c, |w|, i);
    FindSplit(c, i, next');
    EmptyFound(e, c);
    var p, p' := Find(c, next), Find(d, next');
    assert p' < |d| ==> d[p'] == if p' < i then c[p'] else c[p' + 1];
    forall j: nat ensures TimeOk(w', d, j, tick, p') && (AllBounded(w, c) ==> BoundOk(w', d, j)) {
      var k := if j < i then j else j + 1;
      assert TimeOk(w, c, k, tick, p) && (AllBounded(w, c) ==> BoundOk(w, c, k));
      TimeKept(w, w', c, k, d, j, tick, p, p');
    }
  }

  lemma TimeKept<T>(w: seq<WheelEntry>, w': seq<WheelEntry>, c: seq<Item<T>>, k: nat, d: seq<Item<T>>, j: nat, tick: nat, p: nat, p': nat)
    requires |w| == |w'| > 0 && forall r :: 0 <= r < |w| ==> w'[r].nextTick == w[r].nextTick
    requires j < |d| ==> k < |c| && d[j] == c[k] && (k >= p && SlotOf(c[k].deadline, |w|) == SlotOf(tick, |w|) ==> j >= p')
    requires TimeOk(w, c, k, tick, p)
    ensures TimeOk(w', d, j, tick, p') && (BoundOk(w, c, k) ==> BoundOk(w', d, j))
  {}

  // ---------------------------------------------------------------------------------------------
  // How the cursor moves
  // ---------------------------------------------------------------------------------------------

  /** The wheel after the slot of tick was entered. */
  function Entered(w: seq<WheelEntry>, s: nat): seq<WheelEntry>
    requires s < |w|
  {
    if w[s].head == EMPTY then w[s := w[s].(nextTick := TICK_MAX)] else w
  }

  lemma BoundsAtEnd<T>(e: map<nat, Entry<T>>, w: seq<WheelEntry>, tick: nat, c: seq<Item<T>>)
    requires Ok(e, w, tick, EMPTY, c)
    ensures AllBounded(w, c)
  {
    EmptyFound(e, c);
    forall i: nat ensures BoundOk(w, c, i) { assert TimeOk(w, c, i, tick, |c|); }
  }

  lemma SameLists<T>(e: map<nat, Entry<T>>, w: seq<WheelEntry>, w': seq<WheelEntry>, c: seq<Item<T>>)
    requires forall s: nat {:trigger SlotOk(e, w, c, s)} :: SlotOk(e, w, c, s)
    requires |w'| == |w| && forall s :: 0 <= s < |w| ==> w'[s].head == w[s].head && (w'[s] == w[s] || w'[s].nextTick >= 1)
    ensures forall s: nat {:trigger SlotOk(e, w', c, s)} :: SlotOk(e, w', c, s)
  {
    forall s: nat ensures SlotOk(e, w', c, s) { assert SlotOk(e, w, c, s); }
  }

  lemma TickKeeps<T>(e: map<nat, Entry<T>>, w: seq<WheelEntry>, tick: nat, c: seq<Item<T>>)
    requires Ok(e, w, tick, EMPTY, c)
    ensures var s := SlotOf(tick + 1, |w|);
      Ok(e, Entered(w, s), tick + 1, w[s].head, c) && AllBounded(Entered(w, s), c)
  {
    var s := SlotOf(tick + 1, |w|);
    var w' := Entered(w, s);
    var next' := w[s].head;
    assert SlotOk(e, w, c, s);
    EmptyFound(e, c);
    BoundsAtEnd(e, w, tick, c);
    HeadPlace(e, c, |w|, s);
    SameLists(e, w, w', c);
    var p, tick' := Find(c, next'), tick + 1;
    forall i: nat ensures TimeOk(w', c, i, tick', p) && BoundOk(w', c, i) {
      assert TimeOk(w, c, i, tick, |c|) && BoundOk(w, c, i);
    }
    assert TimesOk(w', tick', next', c);
  }

  /** The wheel after the entry at the cursor, found not to be due, was walked over. */
  function Walked(w: seq<WheelEntry>, s: nat, deadline: nat): seq<WheelEntry>
    requires s < |w|
  {
    w[s := w[s].(nextTick := if deadline < w[s].nextTick then deadline else w[s].nextTick)]
  }

  /** The wheel after the slot's bound was cleared at its first entry. */
  function Cleared(w: seq<WheelEntry>, s: nat, curr: nat): seq<WheelEntry>
    requires s < |w|
  {
    if curr == w[s].head then w[s := w[s].(nextTick := TICK_MAX)] else w
  }

  lemma ClearKeeps<T>(e: map<nat, Entry<T>>, w: seq<WheelEntry>, tick: nat, next: nat, c: seq<Item<T>>)
    requires Ok(e, w, tick, next, c) && next != EMPTY
    ensures Ok(e, Cleared(w, SlotOf(tick, |w|), next), tick, next, c)
  {
    var s := SlotOf(tick, |w|);
    var w' := Cleared(w, s, next);
    assert SlotOk(e, w, c, s);
    SameLists(e, w, w', c);
    HeadPlace(e, c, |w|, s);
    var p := Find(c, next);
    forall i: nat ensures TimeOk(w', c, i, tick, p) { assert TimeOk(w, c, i, tick, p); }
  }

  lemma WalkKeeps<T>(e: map<nat, Entry<T>>, w: seq<WheelEntry>, tick: nat, next: nat, c: seq<Item<T>>)
    requires Ok(e, w, tick, next, c) && next != EMPTY
    ensures next in e
    ensures e[next].tick > tick ==>
      Ok(e, Walked(w, SlotOf(tick, |w|), e[next].tick), tick, e[next].next, c) && Find(c, e[next].next) > Find(c, next)
  {
    var s := SlotOf(tick, |w|);
    var p := Find(c, next);
    assert Stored(e, c, p) && SlotOk(e, w, c, s);
    if e[next].tick > tick {
      var w' := Walked(w, s, e[next].tick);
      NextPlace(e, c, |w|, p);
      SameLists(e, w, w', c);
      var q := Find(c, e[next].next);
      EmptyFound(e, c);
      forall i: nat ensures TimeOk(w', c, i, tick, q) { assert TimeOk(w, c, i, tick, p); }
    }
  }

  /** An entry due at the cursor is the first timeout of all. */
  lemma CursorIsFirst<T>(e: map<nat, Entry<T>>, w: seq<WheelEntry>, tick: nat, next: nat, c: seq<Item<T>>)
    requires Ok(e, w, tick, next, c) && next != EMPTY
    ensures next in e && Find(c, next) < |c| && Stored(e, c, Find(c, next))
    ensures e[next].tick <= tick ==> First(c, Find(c, next)) && e[next].tick == tick
  {
    var p := Find(c, next);
    assert TimeOk(w, c, p, tick, p) && Stored(e, c, p);
    forall j: nat | j < |c| ensures c[j].deadline >= tick && (j < p ==> c[j].deadline > tick) {
      assert TimeOk(w, c, j, tick, p);
    }
  }

  lemma HeadLive<T>(e: map<nat, Entry<T>>, w: seq<WheelEntry>, c: seq<Item<T>>, s: nat)
    requires |w| > 0 && s < |w| && Holds(e, c) && SlotOk(e, w, c, s)
    ensures w[s].head in e <==> w[s].head != EMPTY
  {
    EmptyFound(e, c);
    assert Linked(e, Slot(c, |w|, s), 0);
  }

  lemma LinksLive<T>(e: map<nat, Entry<T>>, w: seq<WheelEntry>, tick: nat, next: nat, c: seq<Item<T>>, t: nat)
    requires Ok(e, w, tick, next, c) && t in e
    ensures Find(c, t) < |c| && Stored(e, c, Find(c, t))
    ensures e[t].prev in e <==> e[t].prev != EMPTY
    ensures e[t].next in e <==> e[t].next != EMPTY
    ensures t != EMPTY && e[t].prev != t && e[t].next != t && (e[t].prev == e[t].next ==> e[t].prev == EMPTY)
  {
    EmptyFound(e, c);
    assert Known(e, c, t);
    var i := Find(c, t);
    var s := SlotOf(c[i].deadline, |w|);
    var l, k := Slot(c, |w|, s), Place(c, |w|, i);
    PlaceOk(c, |w|, i);
    assert SlotOk(e, w, c, s);
    assert Linked(e, l, k);
    assert k > 0 ==> Linked(e, l, k - 1);
    assert Linked(e, l, k + 1);
    SlotDistinct(e, c, |w|, s);
  }

  // ---------------------------------------------------------------------------------------------
  // The wheel and the walk
  // ---------------------------------------------------------------------------------------------

  /** Every slot's `next_tick` is the least deadline its bound covers. */
  ghost predicate BoundsHold(w: seq<WheelEntry>, covers: seq<set<nat>>) {
    |w| == |covers| && forall s {:trigger w[s]} :: 0 <= s < |w| ==> w[s].nextTick == W.Least(covers[s])
  }

  lemma LeastAdd(c: set<nat>, d: nat)
    requires d <= TICK_MAX
    ensures W.Least(c + {d}) == if d < W.Least(c) then d else W.Least(c)
  {
    var m := W.Least(c + {d});
    assert W.Least(c) in c ==> W.Least(c) in c + {d};
    assert d in c + {d};
  }

  /** The least of all bounds is the least of what they cover together. */
  lemma LeastOfAll<T>(walk: W.Walk<T>, s: nat)
    requires s < |walk.covers| && forall r :: 0 <= r < |walk.covers| ==> W.Least(walk.covers[s]) <= W.Least(walk.covers[r])
    ensures W.Least(W.Covered(walk)) == W.Least(walk.covers[s])
  {
    var m := W.Least(walk.covers[s]);
    assert m in walk.covers[s] ==> m in W.Covered(walk);
    forall d | d in W.Covered(walk) ensures m <= d {
      var r :| 0 <= r < |walk.covers| && d in walk.covers[r];
      assert W.Least(walk.covers[r]) <= d;
    }
  }

  /** The head of a slot is its first timeout. */
  lemma HeadIsFrom<T>(e: map<nat, Entry<T>>, c: seq<Item<T>>, n: nat, s: nat)
    requires n > 0 && Holds(e, c)
    ensures Find(c, At(Slot(c, n, s), 0)) == W.From(c, n, s, 0)
  {
    hide SlotOf;
    HeadPlace(e, c, n, s);
  }

  /** The next link of an entry leads to the next timeout of its slot. */
  lemma NextIsFrom<T>(e: map<nat, Entry<T>>, c: seq<Item<T>>, n: nat, i: nat)
    requires n > 0 && Holds(e, c) && i < |c| && c[i].token in e && Threaded(e, Slot(c, n, SlotOf(c[i].deadline, n)))
    ensures Find(c, e[c[i].token].next) == W.From(c, n, SlotOf(c[i].deadline, n), i + 1)
  {
    hide SlotOf;
    NextPlace(e, c, n, i);
  }

  /** The cursor after timeout i has left. */
  lemma RemovedCursor<T>(e: map<nat, Entry<T>>, w: seq<WheelEntry>, tick: nat, next: nat, c: seq<Item<T>>, i: nat)
    requires Ok(e, w, tick, next, c) && i < |c| && c[i].token in e
    ensures var p := Find(c, next);
      Find(Drop(c, i), if c[i].token == next then e[c[i].token].next else next) ==
        if i < p then p - 1 else if i == p then W.From(Drop(c, i), |w|, SlotOf(tick, |w|), i) else p
  {
    hide SlotOf;
    var n, d := |w|, Drop(c, i);
    EmptyFound(e, c);
    assert Own(c, i) && Stored(e, c, i) && SlotOk(e, w, c, SlotOf(c[i].deadline, n));
    var next' := if c[i].token == next then e[c[i].token].next else next;
    FindSplit(c, i, next');
    if c[i].token == next {
      NextIsFrom(e, c, n, i);
      FromDrop(c, n, SlotOf(tick, n), i);
    }
  }

  lemma FromDrop<T>(c: seq<Item<T>>, n: nat, s: nat, i: nat)
    requires n > 0 && i < |c|
    ensures W.From(Drop(c, i), n, s, i) == W.From(c, n, s, i + 1) - 1
  {
    hide SlotOf;
    var d := Drop(c, i);
    assert forall j :: i <= j < |d| ==> d[j] == c[j + 1];
    var q := W.From(c, n, s, i + 1);
    assert q < |c| ==> d[q - 1] == c[q];
  }

  /** What the methods need to know of a wheel in order, one slot at a time. */
  lemma SlotFacts<T>(e: map<nat, Entry<T>>, w: seq<WheelEntry>, tick: nat, next: nat, c: seq<Item<T>>, t: nat)
    requires Ok(e, w, tick, next, c)
    ensures |w| > 0 && Holds(e, c) && SlotOk(e, w, c, SlotOf(t, |w|)) && Find(c, EMPTY) == |c| && EMPTY !in e
    ensures next != EMPTY ==> Find(c, next) < |c| && c[Find(c, next)].token == next && SlotOf(c[Find(c, next)].deadline, |w|) == SlotOf(tick, |w|)
  {
    EmptyFound(e, c);
  }

  // ---------------------------------------------------------------------------------------------
  // The timer
  // ---------------------------------------------------------------------------------------------

  class Timer<T> {
    var entries: map<nat, Entry<T>>
    const wheel: array<WheelEntry>
    var tick: nat
    var next: nat                 // the cursor: the next entry that may fire
    var registered: bool
    var calls: seq<Call>
    ghost var items: seq<Item<T>> // the live timeouts, newest first
    ghost var covers: seq<set<nat>>
    ghost var gone: seq<set<nat>>
    ghost var missed: set<nat>    // what the bounds cover, as in TimerWalk

    ghost predicate Valid() reads this, wheel {
      Ok(entries, wheel[..], tick, next, items) && W.WalkOk(Walk()) && BoundsHold(wheel[..], covers)
    }

    ghost function Walk(): W.Walk<T> reads this {
      W.Walk(items, tick, Find(items, next), covers, gone, missed)
    }

    ghost function State(): Model<T> reads this {
      Model(items, tick)
    }

    /** No deadline lies before the bound of its slot. */
    ghost predicate Covered() reads this, wheel {
      AllBounded(wheel[..], items)
    }

    constructor (slots: nat)
      requires slots > 0
      ensures Valid() && Covered() && State() == Model([], 0) && fresh(wheel) && !registered && calls == [] && wheel.Length == slots
      ensures Walk() == W.Start(slots)
    {
      covers, gone, missed := seq(slots, _ => {}), seq(slots, _ => {}), {};
      entries, tick, next, registered, calls, items := map[], 0, EMPTY, false, [], [];
      wheel := new WheelEntry[slots](_ => WheelEntry(TICK_MAX, EMPTY));
      new;
      forall s: nat ensures SlotOk(entries, wheel[..], items, s) {
        if s < slots { assert wheel[..][s] == WheelEntry(TICK_MAX, EMPTY); }
        forall i: nat ensures Linked(entries, Slot(items, slots, s), i) {}
      }
      W.StartOk<T>(slots);
      assert Walk() == W.Start(slots);
    }

    method ScheduleReadiness(at: nat)
      modifies this`calls
      ensures calls == if registered then old(calls) + [Schedule(at)] else old(calls)
    {
      if registered { calls := calls + [Schedule(at)]; }
    }

    method SetTimeoutAt(token: nat, at: nat, state: T) returns (timeout: Timeout)
      requires Valid() && token !in entries && token < EMPTY && tick < TICK_MAX && at <= TICK_MAX
      modifies this, wheel
      ensures Valid() && State() == Set(old(State()), token, at, state)
      ensures Walk() == W.Insert(old(Walk()), Item(token, Max(at, old(tick) + 1), state))
      ensures timeout == Timeout(token, items[0].deadline)
      ensures old(Covered()) ==> Covered()
      ensures registered == old(registered)
      ensures calls == if registered then old(calls) + [Schedule(timeout.tick)] else old(calls)
    {
      var t := if at <= tick then tick + 1 else at;
      timeout := Insert(token, t, state);
    }

    method Insert(token: nat, deadline: nat, state: T) returns (timeout: Timeout)
      requires Valid() && token !in entries && token < EMPTY && tick < deadline <= TICK_MAX
      modifies this, wheel
      ensures Valid() && items == [Item(token, deadline, state)] + old(items) && tick == old(tick)
      ensures Walk() == W.Insert(old(Walk()), Item(token, deadline, state))
      ensures timeout == Timeout(token, deadline)
      ensures old(Covered()) ==> Covered()
      ensures registered == old(registered)
      ensures calls == if registered then old(calls) + [Schedule(deadline)] else old(calls)
    {
      hide Ok, AllBounded, W.WalkOk, Holds, SlotOk;
      SlotFacts(entries, wheel[..], tick, next, items, deadline);
      var slot := SlotOf(deadline, wheel.Length);
      var curr := wheel[slot];
      HeadLive(entries, wheel[..], items, slot);
      InsertKeeps(entries, wheel[..], tick, next, items, Item(token, deadline, state));
      InsertWalks(entries, Walk(), next, Item(token, deadline, state));
      LeastAdd(covers[slot], deadline);
      ghost var e' := Linkin(entries, token, Entry(state, deadline, EMPTY, curr.head));
      entries := entries[token := Entry(state, deadline, EMPTY, curr.head)];
      if curr.head != EMPTY {
        entries := entries[curr.head := entries[curr.head].(prev := token)];
      }
      assert entries == e';
      ghost var w' := wheel[..][slot := WheelEntry(if deadline < curr.nextTick then deadline else curr.nextTick, token)];
      wheel[slot] := WheelEntry(if deadline < curr.nextTick then deadline else curr.nextTick, token);
      assert wheel[..] == w';
      items := [Item(token, deadline, state)] + items;
      covers := covers[slot := covers[slot] + {deadline}];
      ScheduleReadiness(deadline);
      timeout := Timeout(token, deadline);
    }

    method CancelTimeout(timeout: Timeout) returns (r: Option<T>)
      requires Valid()
      modifies this, wheel
      ensures Valid() && (State(), r) == Cancel(old(State()), timeout.token, timeout.tick)
      ensures Walk() == if r.Some? then W.Remove(old(Walk()), Find(old(items), timeout.token)) else old(Walk())
      ensures old(Covered()) ==> Covered()
      ensures registered == old(registered) && calls == old(calls)
    {
      assert Known(entries, items, timeout.token) && Stored(entries, items, Find(items, timeout.token));
      if timeout.token !in entries { return None; }
      var links := entries[timeout.token];
      if links.tick != timeout.tick { return None; }
      Unlink(links, timeout.token);
      r := Some(entries[timeout.token].state);
      entries := entries - {timeout.token};
    }

    /** The entry leaves its list, and the cursor leaves the entry; the caller still has to drop the entry. */
    method Unlink(links: Entry<T>, token: nat)
      requires Valid() && token in entries && links == entries[token]
      modifies this`entries, this`next, this`items, this`gone, wheel
      ensures token in entries && entries[token] == links
      ensures Ok(entries - {token}, wheel[..], tick, next, items) && W.WalkOk(Walk()) && BoundsHold(wheel[..], covers)
      ensures Find(old(items), token) < |old(items)| && items == Drop(old(items), Find(old(items), token))
      ensures W.WalkOk(old(Walk())) && Walk() == W.Remove(old(Walk()), Find(old(items), token))
      ensures old(Covered()) ==> Covered()
    {
      hide Ok, AllBounded, W.WalkOk, Holds, Drop;
      SlotFacts(entries, wheel[..], tick, next, items, links.tick);
      W.Sizes(Walk());
      ghost var i := Find(items, token);
      ghost var w' := Shortened(wheel[..], SlotOf(links.tick, wheel.Length), links.prev, links.next);
      ghost var e' := Unlinked(entries, links.prev, links.next);
      LinksLive(entries, wheel[..], tick, next, items, token);
      RemoveKeeps(entries, wheel[..], tick, next, items, i);
      RemovedCursor(entries, wheel[..], tick, next, items, i);
      W.RemoveOk(Walk(), i);
      ghost var walk := W.Remove(Walk(), i);
      items, gone := Drop(items, i), walk.gone;
      if links.prev == EMPTY {
        var slot := SlotOf(links.tick, wheel.Length);
        wheel[slot] := wheel[slot].(head := links.next);
      } else {
        entries := entries[links.prev := entries[links.prev].(next := links.next)];
      }
      if links.next != EMPTY {
        entries := entries[links.next := entries[links.next].(prev := links.prev)];
        if token == next { next := links.next; }
      } else if token == next {
        next := EMPTY;
      }
      assert wheel[..] == w';
      assert entries == e';
    }

    method PollTo(target: nat) returns (r: Option<T>)
      requires Valid() && tick < TICK_MAX && target < TICK_MAX
      modifies this, wheel
      ensures Valid() && (State(), r) == Poll(old(State()), target)
      ensures (Walk(), r) == W.Poll(old(Walk()), Max(target, old(tick)))
      ensures r.None? ==> Covered()
      ensures registered == old(registered)
      ensures r.None? && registered ==>
        (&& |calls| == |old(calls)| + 2 && calls[..|old(calls)|] == old(calls) && calls[|old(calls)|] == Unset
         && calls[|old(calls)| + 1].Schedule? && IsNextTick(calls[|old(calls)| + 1].tick))
      ensures r.Some? || !registered ==> calls == old(calls)
    {
      hide Valid, Covered, Earliest, Drop, W.WalkOk, W.Poll, IsNextTick;
      WalkSizes();
      ghost var m, walk := State(), Walk();
      var last := if target < tick then tick else target;
      while tick <= last
        invariant Valid() && items == m.items && m.tick <= tick <= last + 1
        invariant tick > last ==> Covered()
        invariant W.Sized(Walk()) && W.Poll(walk, last) == W.Poll(Walk(), last)
        invariant registered == old(registered) && calls == old(calls)
        decreases last + 1 - tick, |items| - Find(items, next)
      {
        r := Turn(last);
        if r.Some? {
          FiresFirst(m, target, tick);
          return;
        }
        WalkSizes();
      }
      NothingLeft();
      WalkSizes();
      W.PollDone(Walk(), last);
      Rest();
      r := None;
    }

    /** One turn of the loop. */
    method Turn(last: nat) returns (r: Option<T>)
      requires Valid() && tick <= last
      modifies this`entries, this`tick, this`next, this`items, this`covers, this`gone, this`missed, wheel
      ensures Valid() && W.WalkOk(old(Walk()))
      ensures W.Sized(Walk()) && W.Poll(old(Walk()), last) == if r.Some? then (Walk(), r) else W.Poll(Walk(), last)
      ensures r.None? ==> items == old(items)
      ensures r.None? ==> (tick == old(tick) && Find(items, next) > old(Find(items, next))) || (tick == old(tick) + 1 && Covered())
      ensures r.Some? ==> tick == old(tick) && old(items) != []
      ensures r.Some? ==> var i := Earliest(old(items));
        items == Drop(old(items), i) && tick == old(items)[i].deadline && r.value == old(items)[i].state
    {
      hide Valid, Covered, Earliest, Drop, W.WalkOk, W.Poll, W.Enter, W.Look, W.Pass, W.Remove, IsNextTick;
      WalkSizes();
      W.PollTurn(Walk(), last);
      var curr := next;
      r := None;
      if curr == EMPTY {
        EnterNextSlot();
      } else {
        var links := Look(curr);
        if links.tick <= tick {
          var state := Trigger(links, curr);
          r := Some(state);
        } else {
          WalkOn(links);
        }
      }
      WalkSizes();
    }

    lemma WalkSizes()
      requires Valid()
      ensures W.WalkOk(Walk()) && W.Sized(Walk()) && Find(items, next) <= |items|
    {
      W.Sizes(Walk());
    }

    lemma NothingLeft()
      requires Valid()
      ensures items != [] ==> items[Earliest(items)].deadline >= tick
    {
      NothingDue(entries, wheel[..], tick, next, items);
    }

    /** The entry at the cursor; at the first one of a slot, the slot's bound is cleared. */
    method Look(curr: nat) returns (links: Entry<T>)
      requires Valid() && curr == next && next != EMPTY
      modifies wheel, this`covers, this`gone, this`missed
      ensures Valid() && Walk() == W.Look(old(Walk())) && curr in entries && links == entries[curr]
      ensures Find(items, next) < |items| && links.tick == items[Find(items, next)].deadline
    {
      HeadIsFrom(entries, items, wheel.Length, SlotOf(tick, wheel.Length));
      EmptyFound(entries, items);
      assert SlotOk(entries, wheel[..], items, SlotOf(tick, wheel.Length));
      W.LookOk(Walk());
      ghost var walk := W.Look(Walk());
      ghost var w := Cleared(wheel[..], SlotOf(tick, wheel.Length), curr);
      ClearKeeps(entries, wheel[..], tick, curr, items);
      var slot := SlotOf(tick, wheel.Length);
      if curr == wheel[slot].head {
        wheel[slot] := wheel[slot].(nextTick := TICK_MAX);
      }
      covers, gone, missed := walk.covers, walk.gone, walk.missed;
      assert wheel[..] == w;
      CursorIsFirst(entries, wheel[..], tick, curr, items);
      WalkKeeps(entries, wheel[..], tick, curr, items);
      links := entries[curr];
    }

    /** The entry at the cursor is not due: its slot's bound takes it in, and the cursor moves on. */
    method WalkOn(links: Entry<T>)
      requires Valid() && next != EMPTY && next in entries && links == entries[next] && links.tick > tick
      modifies this`next, this`covers, wheel
      ensures Valid() && Find(items, next) > Find(items, old(next))
      ensures Find(items, old(next)) < |items| && Walk() == W.Pass(old(Walk()))
    {
      hide Ok, AllBounded, W.WalkOk, Holds;
      ghost var i := Find(items, next);
      SlotFacts(entries, wheel[..], tick, next, items, tick);
      CursorIsFirst(entries, wheel[..], tick, next, items);
      NextIsFrom(entries, items, wheel.Length, i);
      W.PassOk(Walk());
      W.CursorDeadline(Walk());
      LeastAdd(covers[SlotOf(tick, wheel.Length)], links.tick);
      var slot := SlotOf(tick, wheel.Length);
      ghost var w := Walked(wheel[..], slot, links.tick);
      WalkKeeps(entries, wheel[..], tick, next, items);
      var nextTick := wheel[slot].nextTick;
      wheel[slot] := wheel[slot].(nextTick := if links.tick < nextTick then links.tick else nextTick);
      next := links.next;
      covers := covers[slot := covers[slot] + {links.tick}];
      assert wheel[..] == w;
    }

    /** The entry at the cursor is due: it is the first of all, and leaves the timer. */
    method Trigger(links: Entry<T>, curr: nat) returns (state: T)
      requires Valid() && curr == next && next != EMPTY && curr in entries && links == entries[curr] && links.tick <= tick
      modifies this`entries, this`next, this`items, this`gone, wheel
      ensures Valid()
      ensures Find(old(items), curr) < |old(items)| && Walk() == W.Remove(old(Walk()), Find(old(items), curr))
      ensures state == old(items)[Find(old(items), curr)].state
      ensures old(items) != [] && var i := Earliest(old(items));
        items == Drop(old(items), i) && tick == old(items)[i].deadline && state == old(items)[i].state
    {
      CursorIsFirst(entries, wheel[..], tick, curr, items);
      FirstIsEarliest(items, Find(items, curr));
      Unlink(links, curr);
      state := entries[curr].state;
      entries := entries - {curr};
    }

    /** The current slot is through: on to the next tick and the head of its slot. */
    method EnterNextSlot()
      requires Valid() && next == EMPTY
      modifies this`tick, this`next, this`covers, this`gone, this`missed, wheel
      ensures Valid() && Covered() && tick == old(tick) + 1
      ensures old(Find(items, next)) == |items| && Walk() == W.Enter(old(Walk()))
    {
      EmptyFound(entries, items);
      assert SlotOk(entries, wheel[..], items, SlotOf(tick + 1, wheel.Length));
      HeadIsFrom(entries, items, wheel.Length, SlotOf(tick + 1, wheel.Length));
      W.EnterOk(Walk());
      ghost var walk := W.Enter(Walk());
      TickKeeps(entries, wheel[..], tick, items);
      ghost var w' := Entered(wheel[..], SlotOf(tick + 1, wheel.Length));
      tick := tick + 1;
      var slot := SlotOf(tick, wheel.Length);
      next := wheel[slot].head;
      if next == EMPTY {
        wheel[slot] := wheel[slot].(nextTick := TICK_MAX);
      }
      covers, gone, missed := walk.covers, walk.gone, walk.missed;
      assert wheel[..] == w';
    }

    /** No more timeouts to poll. */
    method Rest()
      requires Valid()
      modifies this`calls
      ensures Valid() && (old(Covered()) ==> Covered())
      ensures registered ==>
        (&& |calls| == |old(calls)| + 2 && calls[..|old(calls)|] == old(calls) && calls[|old(calls)|] == Unset
         && calls[|old(calls)| + 1].Schedule? && IsNextTick(calls[|old(calls)| + 1].tick))
      ensures !registered ==> calls == old(calls)
    {
      if registered {
        calls := calls + [Unset];
        var at := NextTick();
        ScheduleReadiness(at);
      }
    }

    /** The answer of `next_tick`: never 0, and no later than any deadline when all are bounded. */
    ghost predicate IsNextTick(at: nat) reads this, wheel {
      && |covers| > 0 && at == W.NextTick(Walk())
      && at >= 1
      && (Covered() ==> forall i :: 0 <= i < |items| ==> at <= items[i].deadline)
    }

    method NextTick() returns (at: nat)
      requires Valid()
      ensures IsNextTick(at)
    {
      EmptyFound(entries, items);
      if next != EMPTY {
        CursorIsFirst(entries, wheel[..], tick, next, items);
        var slot := SlotOf(entries[next].tick, wheel.Length);
        assert SlotOk(entries, wheel[..], items, slot);
        if wheel[slot].nextTick == tick {
          NoneEarlier(entries, wheel[..], tick, next, items);
          return tick;
        }
      }
      at := wheel[0].nextTick;
      var s := 1;
      while s < wheel.Length
        invariant 1 <= s <= wheel.Length
        invariant exists r :: 0 <= r < s && wheel[r].nextTick == at
        invariant forall r :: 0 <= r < s ==> at <= wheel[r].nextTick
      {
        if wheel[s].nextTick < at { at := wheel[s].nextTick; }
        s := s + 1;
      }
      var r :| 0 <= r < wheel.Length && wheel[r].nextTick == at;
      assert SlotOk(entries, wheel[..], items, r);
      forall q | 0 <= q < |covers| ensures W.Least(covers[r]) <= W.Least(covers[q]) {
        assert wheel[..][r].nextTick == W.Least(covers[r]) && wheel[..][q].nextTick == W.Least(covers[q]);
      }
      LeastOfAll(Walk(), r);
      if Covered() {
        forall i: nat | i < |items| ensures at <= items[i].deadline { assert BoundOk(wheel[..], items, i); }
      }
    }

    /** `register`: only once; the first wakeup covers every timeout when the last poll left none. */
    method Register() returns (ok: bool)
      requires Valid()
      modifies this`registered, this`calls
      ensures ok == !old(registered) && registered
      ensures !ok ==> calls == old(calls)
      ensures ok ==>
        (&& |calls| == |old(calls)| + 1 && calls[..|old(calls)|] == old(calls)
         && calls[|old(calls)|].Schedule? && IsNextTick(calls[|old(calls)|].tick))
    {
      if registered { return false; }
      registered := true;
      var at := NextTick();
      ScheduleReadiness(at);
      ok := true;
    }
  }

  lemma InsertWalks<T>(e: map<nat, Entry<T>>, walk: W.Walk<T>, next: nat, x: Item<T>)
    requires W.WalkOk(walk) && Holds(e, walk.items) && walk.cursor == Find(walk.items, next)
    requires (next != EMPTY ==> walk.cursor < |walk.items|) && x.token !in e && x.token < EMPTY && walk.tick < x.deadline <= TICK_MAX
    ensures W.WalkOk(W.Insert(walk, x)) && Find([x] + walk.items, next) == walk.cursor + 1
  {
    W.InsertOk(walk, x);
    assert Known(e, walk.items, next) && Stored(e, walk.items, walk.cursor);
    assert ([x] + walk.items)[1..] == walk.items;
  }

  lemma NoneEarlier<T>(e: map<nat, Entry<T>>, w: seq<WheelEntry>, tick: nat, next: nat, c: seq<Item<T>>)
    requires Ok(e, w, tick, next, c)
    ensures forall i :: 0 <= i < |c| ==> c[i].deadline >= tick
  {
    forall i: nat | i < |c| ensures c[i].deadline >= tick {
      assert TimeOk(w, c, i, tick, Find(c, next));
    }
  }

  lemma FiresFirst<T>(m: Model<T>, target: nat, tick: nat)
    requires m.items != [] && tick == m.items[Earliest(m.items)].deadline && tick <= Max(target, m.tick)
    ensures var i := Earliest(m.items); Poll(m, target) == (Model(Drop(m.items, i), tick), Some(m.items[i].state))
  {}

  lemma NothingDue<T>(e: map<nat, Entry<T>>, w: seq<WheelEntry>, tick: nat, next: nat, c: seq<Item<T>>)
    requires Ok(e, w, tick, next, c)
    ensures c != [] ==> c[Earliest(c)].deadline >= tick
  {
    NoneEarlier(e, w, tick, next, c);
  }
}
