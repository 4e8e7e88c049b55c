/**
  How the cursor of `corcovado::timer::Timer` walks over the slots, and what the bounds of the slots cover.

  A slot's bound, its `next_tick`, is the least deadline it covers.  It covers the timeouts that were inserted into
  the slot or walked over since it was last cleared, also those that are gone by now.
*/
module TimerWalk {
  import opened Wrappers
  import opened TimerModel

  /**
    `cursor` is the place of the next timeout of the current slot that may fire, |items| when there is none.
    `covers` lists for each slot the deadlines its bound covers, `gone` those of them whose timeout was cancelled
    or fired since, and `missed` holds the slots the cursor has left with a bound for the tick it left.
   */
  datatype Walk<T> = Walk(
    items: seq<Item<T>>,
    tick: nat,
    cursor: nat,
    covers: seq<set<nat>>,
    gone: seq<set<nat>>,
    missed: set<nat>)

  ghost predicate Sized<T>(w: Walk<T>) { |w.covers| > 0 && |w.gone| == |w.covers| }

  function Current<T>(w: Walk<T>): nat
    requires |w.covers| > 0
  {
    SlotOf(w.tick, |w.covers|)
  }

  /** The first timeout of slot s at place p or behind it; |c| when there is none. */
  function From<T>(c: seq<Item<T>>, n: nat, s: nat, p: nat): (q: nat)
    requires n > 0 && p <= |c|
    ensures p <= q <= |c| && (q < |c| ==> SlotOf(c[q].deadline, n) == s)
    ensures forall i :: p <= i < q ==> SlotOf(c[i].deadline, n) != s
    decreases |c| - p
  {
    if p == |c| || SlotOf(c[p].deadline, n) == s then p else From(c, n, s, p + 1)
  }

  /** The least member of a set of ticks; TICK_MAX when there is none before it. */
  ghost function Least(c: set<nat>): (m: nat)
    ensures m <= TICK_MAX && (m == TICK_MAX || m in c)
    ensures forall d :: d in c ==> m <= d
  {
    if c == {} then TICK_MAX
    else
      var d :| d in c;
      var m := Least(c - {d});
      assert forall e :: e in c ==> e == d || e in c - {d};
      if d < m then d else m
  }

  // ---------------------------------------------------------------------------------------------
  // The operations
  // ---------------------------------------------------------------------------------------------

  function Start<T>(n: nat): (w: Walk<T>)
    requires n > 0
    ensures Sized(w) && w.cursor <= |w.items|
  {
    Walk([], 0, 0, seq(n, _ => {}), seq(n, _ => {}), {})
  }

  /** A timeout is inserted: its slot's bound covers it, and the places of all others shift. */
  function Insert<T>(w: Walk<T>, x: Item<T>): (r: Walk<T>)
    requires |w.covers| > 0
    ensures (Sized(w) ==> Sized(r)) && (w.cursor <= |w.items| ==> r.cursor <= |r.items|)
  {
    var s := SlotOf(x.deadline, |w.covers|);
    w.(items := [x] + w.items, cursor := w.cursor + 1, covers := w.covers[s := w.covers[s] + {x.deadline}])
  }

  /** Timeout i goes, cancelled or fired; a bound that covers it does so on. */
  ghost function Remove<T>(w: Walk<T>, i: nat): (r: Walk<T>)
    requires Sized(w) && i < |w.items| && w.cursor <= |w.items|
    ensures Sized(r) && |r.covers| == |w.covers| && r.cursor <= |r.items|
  {
    var c, d := Drop(w.items, i), w.items[i].deadline;
    var s := SlotOf(d, |w.covers|);
    w.(items := c,
       cursor := if i < w.cursor then w.cursor - 1 else if i == w.cursor then From(c, |w.covers|, Current(w), i) else w.cursor,
       gone := if d in w.covers[s] then w.gone[s := w.gone[s] + {d}] else w.gone)
  }

  /** The bound of slot s is cleared. */
  ghost function Clear<T>(w: Walk<T>, s: nat): Walk<T>
    requires Sized(w) && s < |w.covers|
  {
    w.(covers := w.covers[s := {}], gone := w.gone[s := {}], missed := w.missed - {s})
  }

  /** The cursor goes on to the next tick and the head of its slot; the bound of an empty slot is cleared. */
  ghost function Enter<T>(w: Walk<T>): Walk<T>
    requires Sized(w)
  {
    var w1 := w.(tick := w.tick + 1, missed := if w.tick in w.covers[Current(w)] then w.missed + {Current(w)} else w.missed);
    var w2 := w1.(cursor := From(w.items, |w.covers|, Current(w1), 0));
    if w2.cursor == |w.items| then Clear(w2, Current(w2)) else w2
  }

  /** The cursor stands on the first timeout of the current slot. */
  predicate OnHead<T>(w: Walk<T>)
    requires |w.covers| > 0
  {
    w.cursor < |w.items| && w.cursor == From(w.items, |w.covers|, Current(w), 0)
  }

  /** At the first timeout of a slot, the slot's bound is cleared. */
  ghost function Look<T>(w: Walk<T>): (r: Walk<T>)
    requires Sized(w)
    ensures Sized(r) && r.items == w.items && r.cursor == w.cursor && r.tick == w.tick
  {
    if OnHead(w) then Clear(w, Current(w)) else w
  }

  /** The timeout at the cursor is not due: the slot's bound covers it, and the cursor goes on to the next one. */
  function Pass<T>(w: Walk<T>): Walk<T>
    requires |w.covers| > 0 && w.cursor < |w.items|
  {
    var s := Current(w);
    w.(covers := w.covers[s := w.covers[s] + {w.items[w.cursor].deadline}],
       cursor := From(w.items, |w.covers|, s, w.cursor + 1))
  }

  /** A poll up to tick `last`. */
  ghost function Poll<T>(w: Walk<T>, last: nat): (r: (Walk<T>, Option<T>))
    requires Sized(w) && w.cursor <= |w.items|
    ensures Sized(r.0) && |r.0.covers| == |w.covers| && r.0.cursor <= |r.0.items|
    decreases last + 1 - w.tick, |w.items| - w.cursor
  {
    if w.tick > last then (w, None)
    else if w.cursor == |w.items| then Poll(Enter(w), last)
    else if w.items[w.cursor].deadline <= w.tick then (Remove(Look(w), w.cursor), Some(w.items[w.cursor].state))
    else Poll(Pass(Look(w)), last)
  }

  /** The bound of slot s. */
  ghost function Bound<T>(w: Walk<T>, s: nat): nat
    requires s < |w.covers|
  {
    Least(w.covers[s])
  }

  /** Something may be due right now: there is a timeout at the cursor, and the slot's bound is the current tick. */
  ghost predicate AtCursor<T>(w: Walk<T>)
    requires |w.covers| > 0
  {
    w.cursor < |w.items| && Bound(w, Current(w)) == w.tick
  }

  /** What all bounds together cover. */
  ghost function Covered<T>(w: Walk<T>): set<nat> {
    set s, d | 0 <= s < |w.covers| && d in w.covers[s] :: d
  }

  /** The answer of `next_tick`. */
  ghost function NextTick<T>(w: Walk<T>): nat
    requires |w.covers| > 0
  {
    if AtCursor(w) then w.tick else Least(Covered(w))
  }

  // ---------------------------------------------------------------------------------------------
  // Invariant
  // ---------------------------------------------------------------------------------------------

  /** Timeout i is not past, is at the cursor or behind it if it is due, and is covered unless the cursor is before it. */
  ghost predicate ItemOk<T>(w: Walk<T>, i: nat)
    requires |w.covers| > 0
  {
    i < |w.items| ==>
      var d := w.items[i].deadline;
      var s := SlotOf(d, |w.covers|);
      && w.tick <= d && 1 <= d <= TICK_MAX && (d == w.tick ==> i >= w.cursor)
      && (d in w.covers[s] || (s == Current(w) && i >= w.cursor))
  }

  /** Is a timeout with this deadline live? */
  ghost predicate Lives<T>(w: Walk<T>, d: nat) { exists i :: 0 <= i < |w.items| && w.items[i].deadline == d }

  ghost predicate Past(c: set<nat>, tick: nat) { exists d :: d in c && d < tick }

  /** What slot s covers is of this slot, and live or gone; the slot was missed exactly if it covers something past. */
  ghost predicate SlotFits<T>(w: Walk<T>, s: nat)
    requires Sized(w)
  {
    s < |w.covers| ==>
      && (forall d :: d in w.covers[s] ==> SlotOf(d, |w.covers|) == s && 1 <= d <= TICK_MAX && (Lives(w, d) || d in w.gone[s]))
      && w.gone[s] <= w.covers[s]
      && (s in w.missed <==> Past(w.covers[s], w.tick))
  }

  ghost predicate WalkOk<T>(w: Walk<T>) {
    && Sized(w)
    && w.cursor <= |w.items|
    && (w.cursor < |w.items| ==> SlotOf(w.items[w.cursor].deadline, |w.covers|) == Current(w))
    && (forall i: nat {:trigger ItemOk(w, i)} :: ItemOk(w, i))
    && (forall s: nat {:trigger SlotFits(w, s)} :: SlotFits(w, s))
    && (forall s :: s in w.missed ==> s < |w.covers|)
  }

  /** One turn of the loop. */
  lemma PollTurn<T>(w: Walk<T>, last: nat)
    requires Sized(w) && w.cursor <= |w.items| && w.tick <= last
    ensures w.cursor == |w.items| ==> Poll(w, last) == Poll(Enter(w), last)
    ensures w.cursor < |w.items| ==>
      (var x := w.items[w.cursor];
       if x.deadline <= w.tick then Poll(w, last) == (Remove(Look(w), w.cursor), Some(x.state))
       else Poll(w, last) == Poll(Pass(Look(w)), last))
  {}

  lemma PollDone<T>(w: Walk<T>, last: nat)
    requires Sized(w) && w.cursor <= |w.items| && w.tick > last
    ensures Poll(w, last) == (w, None)
  {}

  lemma Sizes<T>(w: Walk<T>)
    requires WalkOk(w)
    ensures Sized(w) && w.cursor <= |w.items|
  {}

  lemma CursorDeadline<T>(w: Walk<T>)
    requires WalkOk(w) && w.cursor < |w.items|
    ensures Sized(w) && w.items[w.cursor].deadline <= TICK_MAX
  {
    assert ItemOk(w, w.cursor);
  }

  lemma StartOk<T>(n: nat)
    requires n > 0
    ensures WalkOk(Start<T>(n))
  {}

  lemma InsertOk<T>(w: Walk<T>, x: Item<T>)
    requires WalkOk(w) && w.tick < x.deadline <= TICK_MAX
    ensures WalkOk(Insert(w, x))
  {
    hide SlotOf;
    var w' := Insert(w, x);
    forall i: nat ensures ItemOk(w', i) {
      if i > 0 { assert ItemOk(w, i - 1); }
    }
    forall s: nat ensures SlotFits(w', s) {
      assert SlotFits(w, s);
      assert w'.items[0].deadline == x.deadline;
      assert forall i :: 0 <= i < |w.items| ==> w'.items[i + 1] == w.items[i];
    }
  }

  lemma RemoveOk<T>(w: Walk<T>, i: nat)
    requires WalkOk(w) && i < |w.items|
    ensures WalkOk(Remove(w, i))
  {
    hide SlotOf;
    var w' := Remove(w, i);
    assert forall j :: 0 <= j < |w'.items| ==> w'.items[j] == w.items[if j < i then j else j + 1];
    forall j: nat ensures ItemOk(w', j) {
      assert ItemOk(w, if j < i then j else j + 1);
      if i == w.cursor && j < w'.cursor && j >= i { assert SlotOf(w'.items[j].deadline, |w.covers|) != Current(w); }
    }
    forall s: nat ensures SlotFits(w', s) {
      assert SlotFits(w, s);
      if s < |w.covers| {
        forall d | d in w.covers[s] ensures Lives(w', d) || d in w'.gone[s] { LivesOn(w, i, d); }
      }
    }
  }

  lemma LivesOn<T>(w: Walk<T>, i: nat, d: nat)
    requires Sized(w) && w.cursor <= |w.items| && i < |w.items|
    ensures Lives(w, d) ==> Lives(Remove(w, i), d) || d == w.items[i].deadline
  {
    if Lives(w, d) {
      var j :| 0 <= j < |w.items| && w.items[j].deadline == d;
      var c := Drop(w.items, i);
      if j < i { assert c[j] == w.items[j]; } else if j > i { assert c[j - 1] == w.items[j]; }
    }
  }

  /** A bound may be cleared when no timeout of its slot lies before the cursor. */
  lemma ClearOk<T>(w: Walk<T>, s: nat)
    requires WalkOk(w) && s == Current(w) && From(w.items, |w.covers|, s, 0) >= w.cursor
    ensures WalkOk(Clear(w, s))
  {
    hide SlotOf;
    var w' := Clear(w, s);
    forall i: nat ensures ItemOk(w', i) { assert ItemOk(w, i); }
    forall r: nat ensures SlotFits(w', r) { assert SlotFits(w, r); }
  }

  lemma EnterOk<T>(w: Walk<T>)
    requires WalkOk(w) && w.cursor == |w.items|
    ensures WalkOk(Enter(w))
  {
    hide SlotOf, Clear;
    var s := Current(w);
    var w1 := w.(tick := w.tick + 1, missed := if w.tick in w.covers[s] then w.missed + {s} else w.missed);
    var w2 := w1.(cursor := From(w.items, |w.covers|, Current(w1), 0));
    forall i: nat ensures ItemOk(w2, i) { assert ItemOk(w, i); }
    forall r: nat ensures SlotFits(w2, r) {
      assert SlotFits(w, r);
      assert r < |w.covers| ==> (Past(w.covers[r], w2.tick) <==> Past(w.covers[r], w.tick) || w.tick in w.covers[r]);
      assert forall d {:trigger Lives(w2, d)} :: Lives(w, d) ==> Lives(w2, d);
    }
    if w2.cursor == |w.items| { ClearOk(w2, Current(w2)); }
  }

  lemma LookOk<T>(w: Walk<T>)
    requires WalkOk(w)
    ensures WalkOk(Look(w))
  {
    if OnHead(w) { ClearOk(w, Current(w)); }
  }

  lemma PassOk<T>(w: Walk<T>)
    requires WalkOk(w) && w.cursor < |w.items| && w.items[w.cursor].deadline > w.tick
    ensures WalkOk(Pass(w))
  {
    hide SlotOf;
    var w' := Pass(w);
    assert ItemOk(w, w.cursor);
    forall i: nat ensures ItemOk(w', i) { assert ItemOk(w, i); }
    forall s: nat ensures SlotFits(w', s) {
      assert SlotFits(w, s);
      assert forall d {:trigger Lives(w', d)} :: Lives(w, d) ==> Lives(w', d);
      assert Lives(w', w.items[w.cursor].deadline);
    }
  }

  lemma {:induction false} PollOk<T>(w: Walk<T>, last: nat)
    requires WalkOk(w)
    ensures WalkOk(Poll(w, last).0)
    decreases last + 1 - w.tick, |w.items| - w.cursor
  {
    if w.tick > last {
    } else if w.cursor == |w.items| {
      EnterOk(w);
      PollOk(Enter(w), last);
    } else {
      LookOk(w);
      if w.items[w.cursor].deadline <= w.tick {
        RemoveOk(Look(w), w.cursor);
      } else {
        PassOk(Look(w));
        PollOk(Pass(Look(w)), last);
      }
    }
  }

  // ---------------------------------------------------------------------------------------------
  // Runs
  // ---------------------------------------------------------------------------------------------

  /** One operation of a caller: a timeout is set or cancelled, or the timer is polled up to some tick. */
  datatype Op<T> = SetOp(x: Item<T>) | CancelOp(i: nat) | PollOp(last: nat)

  ghost predicate Enabled<T>(w: Walk<T>, op: Op<T>) {
    && Sized(w) && w.cursor <= |w.items|
    && match op
       case SetOp(x) => w.tick < x.deadline <= TICK_MAX
       case CancelOp(i) => i < |w.items|
       case PollOp(last) => w.tick <= last < TICK_MAX
  }

  ghost function Apply<T>(w: Walk<T>, op: Op<T>): Walk<T>
    requires Enabled(w, op)
  {
    match op
    case SetOp(x) => Insert(w, x)
    case CancelOp(i) => Remove(w, i)
    case PollOp(last) => Poll(w, last).0
  }

  ghost predicate StepAt<T>(ws: seq<Walk<T>>, ops: seq<Op<T>>, i: nat)
    requires |ws| == |ops| + 1
  {
    i < |ops| ==> Enabled(ws[i], ops[i]) && ws[i + 1] == Apply(ws[i], ops[i])
  }

  ghost predicate Run<T>(ws: seq<Walk<T>>, ops: seq<Op<T>>, n: nat) {
    && n > 0 && |ws| == |ops| + 1 && ws[0] == Start(n)
    && forall i: nat {:trigger StepAt(ws, ops, i)} :: StepAt(ws, ops, i)
  }

  /** The bookkeeping is right in every state of every run. */
  lemma {:induction false} RunsKeepWalkOk<T>(ws: seq<Walk<T>>, ops: seq<Op<T>>, n: nat, k: nat)
    requires Run(ws, ops, n) && k < |ws|
    ensures WalkOk(ws[k]) && ws[k].tick <= TICK_MAX
  {
    if k == 0 {
      StartOk<T>(n);
    } else {
      RunsKeepWalkOk(ws, ops, n, k - 1);
      assert StepAt(ws, ops, k - 1);
      var w := ws[k - 1];
      match ops[k - 1]
      case SetOp(x) => InsertOk(w, x);
      case CancelOp(i) => RemoveOk(w, i);
      case PollOp(last) =>
        PollOk(w, last);
        PollMisses(w, last);
    }
  }

  // ---------------------------------------------------------------------------------------------
  // When next_tick lies in the past
  // ---------------------------------------------------------------------------------------------

  lemma PastMissed<T>(w: Walk<T>)
    requires WalkOk(w)
    ensures Past(Covered(w), w.tick) <==> w.missed != {}
  {
    if Past(Covered(w), w.tick) {
      var d :| d in Covered(w) && d < w.tick;
      var s :| 0 <= s < |w.covers| && d in w.covers[s];
      assert SlotFits(w, s);
      assert s in w.missed;
    }
    if w.missed != {} {
      var s :| s in w.missed;
      assert SlotFits(w, s);
      var d :| d in w.covers[s] && d < w.tick;
      assert d in Covered(w);
    }
  }

  /** `next_tick` answers a tick of the past if and only if a slot was missed and nothing may be due at the cursor. */
  lemma NextTickIsPast<T>(w: Walk<T>)
    requires WalkOk(w) && w.tick <= TICK_MAX
    ensures NextTick(w) < w.tick <==> w.missed != {} && !AtCursor(w)
  {
    PastMissed(w);
  }

  /** The bound of the current slot is still for the current tick, but the cursor is not on the slot's first timeout. */
  predicate Displaced<T>(w: Walk<T>)
    requires |w.covers| > 0
  {
    w.tick in w.covers[Current(w)] && !OnHead(w)
  }

  /**
    In a poll that takes the timer from w to tick `to`, was the bound of slot s cleared?  It was if the poll found
    the cursor on the slot's first timeout, or if it entered the slot and found it empty or went on in it.
   */
  ghost predicate Cleared<T>(w: Walk<T>, last: nat, to: nat, fired: bool, s: nat)
    requires |w.covers| > 0
  {
    || (w.tick <= last && s == Current(w) && OnHead(w))
    || exists u {:trigger SlotOf(u, |w.covers|)} :: w.tick < u <= to && SlotOf(u, |w.covers|) == s &&
         (u < to || fired || From(w.items, |w.covers|, s, 0) == |w.items|)
  }

  /** Is slot s missed after such a poll? */
  ghost predicate MissedAfter<T>(w: Walk<T>, last: nat, to: nat, fired: bool, s: nat)
    requires |w.covers| > 0
  {
    !Cleared(w, last, to, fired, s) && (s in w.missed || (to > w.tick && s == Current(w) && Displaced(w)))
  }

  lemma EnterMisses<T>(w: Walk<T>, last: nat, to: nat, fired: bool, s: nat)
    requires WalkOk(w) && w.cursor == |w.items| && w.tick < to <= last + 1 && (fired ==> to <= last)
    requires to == last + 1 || fired
    ensures MissedAfter(w, last, to, fired, s) <==> MissedAfter(Enter(w), last, to, fired, s)
  {
    hide SlotOf, ItemOk, SlotFits;
    var w1 := Enter(w);
    assert Displaced(w) <==> w.tick in w.covers[Current(w)];
    assert !Displaced(w1);
    var u := w.tick + 1;
    assert SlotOf(u, |w.covers|) == Current(w1);
    assert OnHead(w1) <==> From(w.items, |w.covers|, Current(w1), 0) < |w.items|;
    if Cleared(w, last, to, fired, s) && !Cleared(w1, last, to, fired, s) {
      assert s == Current(w1) && From(w.items, |w.covers|, s, 0) == |w.items|;
    }
  }

  lemma PassMisses<T>(w: Walk<T>, last: nat, to: nat, fired: bool, s: nat)
    requires WalkOk(w) && w.cursor < |w.items| && w.items[w.cursor].deadline > w.tick && w.tick <= to && w.tick <= last
    ensures MissedAfter(w, last, to, fired, s) <==> MissedAfter(Pass(Look(w)), last, to, fired, s)
  {
    hide SlotOf, ItemOk, SlotFits;
    var w1 := Pass(Look(w));
    assert !OnHead(w1);
    assert Displaced(w1) <==> Displaced(w);
  }

  /** One poll misses the current slot, and no other, if the cursor was displaced in it; it makes good those it clears. */
  lemma {:induction false} PollMisses<T>(w: Walk<T>, last: nat)
    requires WalkOk(w)
    ensures var (w', r) := Poll(w, last);
      && |w'.covers| == |w.covers|
      && (if r.Some? then w.tick <= w'.tick <= last else w'.tick == Max(w.tick, last + 1))
      && forall s {:trigger s in w'.missed} :: s in w'.missed <==> MissedAfter(w, last, w'.tick, r.Some?, s)
    decreases last + 1 - w.tick, |w.items| - w.cursor
  {
    hide SlotOf, ItemOk, SlotFits, MissedAfter;
    var (w', r) := Poll(w, last);
    if w.tick > last {
      forall s ensures s in w'.missed <==> MissedAfter(w, last, w'.tick, r.Some?, s) { NoneMissed(w, last, s); }
    } else if w.cursor == |w.items| {
      EnterOk(w);
      PollMisses(Enter(w), last);
      forall s ensures s in w'.missed <==> MissedAfter(w, last, w'.tick, r.Some?, s) {
        EnterMisses(w, last, w'.tick, r.Some?, s);
      }
    } else if w.items[w.cursor].deadline > w.tick {
      LookOk(w);
      PassOk(Look(w));
      PollMisses(Pass(Look(w)), last);
      forall s ensures s in w'.missed <==> MissedAfter(w, last, w'.tick, r.Some?, s) {
        PassMisses(w, last, w'.tick, r.Some?, s);
      }
    } else {
      forall s ensures s in w'.missed <==> MissedAfter(w, last, w'.tick, r.Some?, s) { FireMisses(w, last, s); }
    }
  }

  lemma NoneMissed<T>(w: Walk<T>, last: nat, s: nat)
    requires |w.covers| > 0 && w.tick > last
    ensures MissedAfter(w, last, w.tick, false, s) <==> s in w.missed
  {}

  lemma FireMisses<T>(w: Walk<T>, last: nat, s: nat)
    requires WalkOk(w) && w.tick <= last && w.cursor < |w.items|
    ensures MissedAfter(w, last, w.tick, true, s) <==> s in Look(w).missed
  {
    hide SlotOf;
  }

  /**
    After a poll that finds nothing, `next_tick` lies in the past if and only if nothing may be due at the cursor
    and some slot was not cleared by this poll and was missed before, or is the one in which the cursor was displaced.
   */
  lemma RestIsPast<T>(w: Walk<T>, last: nat)
    requires WalkOk(w) && w.tick <= last < TICK_MAX && Poll(w, last).1.None?
    ensures var w' := Poll(w, last).0;
      NextTick(w') < w'.tick <==>
        !AtCursor(w') && exists s :: !Cleared(w, last, last + 1, false, s) && (s in w.missed || (s == Current(w) && Displaced(w)))
  {
    PollOk(w, last);
    PollMisses(w, last);
    var w' := Poll(w, last).0;
    NextTickIsPast(w');
    if w'.missed != {} {
      var s :| s in w'.missed;
      assert MissedAfter(w, last, last + 1, false, s);
    }
    if s :| !Cleared(w, last, last + 1, false, s) && (s in w.missed || (s == Current(w) && Displaced(w))) {
      assert MissedAfter(w, last, last + 1, false, s);
      assert s in w'.missed;
    }
  }

  /** An insertion displaces the cursor exactly if it puts a new head before a cursor that stands on the old one. */
  lemma InsertDisplaces<T>(w: Walk<T>, x: Item<T>)
    requires WalkOk(w) && w.tick < x.deadline
    ensures Displaced(Insert(w, x)) <==>
      Displaced(w) || (w.tick in w.covers[Current(w)] && OnHead(w) && SlotOf(x.deadline, |w.covers|) == Current(w))
  {
    hide SlotOf, ItemOk, SlotFits;
    var w', s := Insert(w, x), Current(w);
    assert w'.items[0] == x;
    FromShift(x, w.items, |w.covers|, s, 0);
  }

  lemma {:induction false} FromShift<T>(x: Item<T>, c: seq<Item<T>>, n: nat, s: nat, p: nat)
    requires n > 0 && p <= |c|
    ensures From([x] + c, n, s, p + 1) == From(c, n, s, p) + 1
    decreases |c| - p
  {
    hide SlotOf;
    if p == |c| || SlotOf(c[p].deadline, n) == s {
    } else {
      FromShift(x, c, n, s, p + 1);
    }
  }

  lemma {:induction false} FromSkip<T>(c: seq<Item<T>>, n: nat, s: nat, p: nat, i: nat)
    requires n > 0 && p <= i <= |c| && forall j :: p <= j < i ==> SlotOf(c[j].deadline, n) != s
    ensures From(c, n, s, p) == From(c, n, s, i)
    decreases i - p
  {
    if p == i {
    } else {
      FromSkip(c, n, s, p + 1, i);
    }
  }

  /** A cancellation displaces the cursor exactly if it leaves no timeout at or behind a cursor on the slot's head. */
  lemma RemoveDisplaces<T>(w: Walk<T>, i: nat)
    requires WalkOk(w) && i < |w.items| && w.tick in w.covers[Current(w)] && OnHead(w)
    ensures Displaced(Remove(w, i)) <==> i == w.cursor && From(w.items, |w.covers|, Current(w), i + 1) == |w.items|
  {
    hide SlotOf, ItemOk, SlotFits;
    var c, s, n := Drop(w.items, i), Current(w), |w.covers|;
    assert forall j :: 0 <= j < |c| ==> c[j] == w.items[if j < i then j else j + 1];
    var r := From(w.items, n, s, i + 1);
    if i == w.cursor {
      FromSkip(c, n, s, 0, i);
      if r < |w.items| { assert c[r - 1] == w.items[r]; }
    } else if i > w.cursor {
      assert c[w.cursor] == w.items[w.cursor];
    } else {
      assert c[w.cursor - 1] == w.items[w.cursor];
    }
  }

  // ---------------------------------------------------------------------------------------------
  // When next_tick is the earliest deadline
  // ---------------------------------------------------------------------------------------------

  /** Every bound covers all live timeouts of its slot, as after a poll that found nothing. */
  ghost predicate AllCovered<T>(w: Walk<T>) {
    |w.covers| > 0 && forall i {:trigger w.items[i]} :: 0 <= i < |w.items| ==> w.items[i].deadline in w.covers[SlotOf(w.items[i].deadline, |w.covers|)]
  }

  lemma {:induction false} RestCovers<T>(w: Walk<T>, last: nat)
    requires WalkOk(w) && Poll(w, last).1.None? && (w.tick > last ==> AllCovered(w))
    ensures AllCovered(Poll(w, last).0)
    decreases last + 1 - w.tick, |w.items| - w.cursor
  {
    hide SlotOf;
    if w.tick > last {
    } else if w.cursor == |w.items| {
      EnterOk(w);
      EnterCovers(w);
      RestCovers(Enter(w), last);
    } else {
      LookOk(w);
      PassOk(Look(w));
      RestCovers(Pass(Look(w)), last);
    }
  }

  lemma {:induction false} RestKeepsItems<T>(w: Walk<T>, last: nat)
    requires Sized(w) && w.cursor <= |w.items| && Poll(w, last).1.None?
    ensures Poll(w, last).0.items == w.items
    decreases last + 1 - w.tick, |w.items| - w.cursor
  {
    if w.tick > last {
    } else if w.cursor == |w.items| {
      RestKeepsItems(Enter(w), last);
    } else {
      RestKeepsItems(Pass(Look(w)), last);
    }
  }

  lemma EnterCovers<T>(w: Walk<T>)
    requires WalkOk(w) && w.cursor == |w.items|
    ensures AllCovered(Enter(w))
  {
    hide SlotOf;
    forall i: nat | i < |w.items|
      ensures w.items[i].deadline in Enter(w).covers[SlotOf(w.items[i].deadline, |w.covers|)]
    {
      assert ItemOk(w, i);
    }
  }

  ghost function EarliestDeadline<T>(w: Walk<T>): nat {
    if w.items == [] then TICK_MAX else w.items[Earliest(w.items)].deadline
  }

  /** Some bound covers a timeout that is gone and was due before d. */
  ghost predicate GoneBefore<T>(w: Walk<T>, d: nat) {
    exists s, g :: 0 <= s < |w.gone| && g in w.gone[s] && g < d
  }

  /**
    `next_tick` is the earliest live deadline if and only if no bound covers a timeout that was cancelled or fired
    and was due before it; or, if something may be due at the cursor, if a live timeout is due at the current tick.
   */
  lemma NextTickIsEarliest<T>(w: Walk<T>)
    requires WalkOk(w) && AllCovered(w)
    ensures NextTick(w) == EarliestDeadline(w) <==>
      if AtCursor(w) then Lives(w, w.tick) else !GoneBefore(w, EarliestDeadline(w))
  {
    hide SlotOf;
    var e := EarliestDeadline(w);
    forall i: nat | i < |w.items| ensures w.items[i].deadline >= e && w.items[i].deadline >= w.tick && w.items[i].deadline in Covered(w) {
      assert ItemOk(w, i);
    }
    if AtCursor(w) {
      if Lives(w, w.tick) { var i :| 0 <= i < |w.items| && w.items[i].deadline == w.tick; }
    } else {
      LeastIsEarliest(w);
    }
  }

  lemma LeastIsEarliest<T>(w: Walk<T>)
    requires WalkOk(w) && AllCovered(w)
    requires forall i :: 0 <= i < |w.items| ==> w.items[i].deadline >= EarliestDeadline(w) && w.items[i].deadline in Covered(w)
    ensures Least(Covered(w)) == EarliestDeadline(w) <==> !GoneBefore(w, EarliestDeadline(w))
  {
    hide SlotOf;
    var e, m := EarliestDeadline(w), Least(Covered(w));
    if GoneBefore(w, e) {
      var s, g :| 0 <= s < |w.gone| && g in w.gone[s] && g < e;
      assert SlotFits(w, s);
      assert g in Covered(w);
    }
    if w.items != [] {
      assert ItemOk(w, Earliest(w.items));
      assert m <= e;
    }
    if m < e {
      var s :| 0 <= s < |w.covers| && m in w.covers[s];
      assert SlotFits(w, s);
      assert !Lives(w, m);
    }
  }

  /**
    In every run, right after a poll that found nothing: `next_tick` answers a tick of the past if and only if a slot
    was missed and nothing may be due at the cursor; and it is the earliest live deadline if and only if no bound
    covers an earlier timeout that is gone, or, with something that may be due at the cursor, if it is due.
   */
  lemma AfterRest<T>(ws: seq<Walk<T>>, ops: seq<Op<T>>, n: nat, k: nat)
    requires Run(ws, ops, n) && 0 < k < |ws| && ops[k - 1].PollOp?
    requires Enabled(ws[k - 1], ops[k - 1]) && Poll(ws[k - 1], ops[k - 1].last).1.None?
    ensures WalkOk(ws[k]) && var w := ws[k];
      && (NextTick(w) < w.tick <==> w.missed != {} && !AtCursor(w))
      && (NextTick(w) == EarliestDeadline(w) <==> if AtCursor(w) then Lives(w, w.tick) else !GoneBefore(w, EarliestDeadline(w)))
  {
    RunsKeepWalkOk(ws, ops, n, k - 1);
    RunsKeepWalkOk(ws, ops, n, k);
    assert StepAt(ws, ops, k - 1);
    NextTickIsPast(ws[k]);
    RestCovers(ws[k - 1], ops[k - 1].last);
    NextTickIsEarliest(ws[k]);
  }

  // ---------------------------------------------------------------------------------------------
  // When next_tick comes too late
  // ---------------------------------------------------------------------------------------------

  /**
    `next_tick` comes after a live deadline if and only if nothing may be due at the cursor, the earliest live deadline
    is not covered, and no bound covers an earlier timeout that is gone.  An uncovered deadline is one of the current
    slot, at the cursor or behind it.
   */
  lemma NextTickIsLate<T>(w: Walk<T>)
    requires WalkOk(w) && w.items != []
    ensures var e := EarliestDeadline(w);
      && (NextTick(w) > e <==>
            !AtCursor(w) && e != TICK_MAX && e !in w.covers[SlotOf(e, |w.covers|)] && !GoneBefore(w, e))
      && (NextTick(w) > e ==> !AllCovered(w) && SlotOf(e, |w.covers|) == Current(w) && Earliest(w.items) >= w.cursor)
  {
    hide SlotOf;
    var e := EarliestDeadline(w);
    var s := SlotOf(e, |w.covers|);
    assert ItemOk(w, Earliest(w.items));
    assert e in w.covers[s] ==> e in Covered(w);
    if g :| g in Covered(w) && g <= e {
      var r :| 0 <= r < |w.covers| && g in w.covers[r];
      assert SlotFits(w, r);
      if g < e { assert !Lives(w, g) && g in w.gone[r]; }
    }
    if GoneBefore(w, e) {
      var r, g :| 0 <= r < |w.gone| && g in w.gone[r] && g < e;
      assert SlotFits(w, r) && g in Covered(w);
    }
  }

  /** Some timeout before the cursor has this deadline. */
  ghost predicate Behind<T>(w: Walk<T>, d: nat) {
    exists i :: 0 <= i < w.cursor && i < |w.items| && w.items[i].deadline == d
  }

  /** The bound of the current slot covers only what lies before the cursor, and what is gone. */
  ghost predicate OpenOk<T>(w: Walk<T>)
    requires Sized(w)
  {
    forall d {:trigger d in w.covers[Current(w)]} :: d in w.covers[Current(w)] ==> d in w.gone[Current(w)] || Behind(w, d)
  }

  /** The current slot was opened, or else every timeout is covered. */
  ghost predicate CoverOk<T>(w: Walk<T>, open: bool)
    requires Sized(w)
  {
    if open then OpenOk(w) else AllCovered(w)
  }

  lemma InsertCoverOk<T>(w: Walk<T>, x: Item<T>, open: bool)
    requires WalkOk(w) && w.tick < x.deadline <= TICK_MAX && CoverOk(w, open)
    ensures CoverOk(Insert(w, x), open)
  {
    hide SlotOf, ItemOk, SlotFits;
    var w' := Insert(w, x);
    if open {
      assert w'.items[0] == x && Behind(w', x.deadline);
      forall d | d in w'.covers[Current(w')] ensures d in w'.gone[Current(w')] || Behind(w', d) {
        assert d == x.deadline || d in w.covers[Current(w)];
        if Behind(w, d) {
          var i :| 0 <= i < w.cursor && i < |w.items| && w.items[i].deadline == d;
          assert w'.items[i + 1].deadline == d;
        }
      }
    } else {
      forall i {:trigger w'.items[i]} | 0 <= i < |w'.items|
        ensures w'.items[i].deadline in w'.covers[SlotOf(w'.items[i].deadline, |w'.covers|)]
      {
        if i > 0 { assert w'.items[i] == w.items[i - 1]; }
      }
    }
  }

  lemma RemoveCoverOk<T>(w: Walk<T>, i: nat, open: bool)
    requires WalkOk(w) && i < |w.items| && CoverOk(w, open)
    ensures CoverOk(Remove(w, i), open)
  {
    hide SlotOf, ItemOk;
    var w' := Remove(w, i);
    assert forall j :: 0 <= j < |w'.items| ==> w'.items[j] == w.items[if j < i then j else j + 1];
    if open {
      assert SlotFits(w, Current(w));
      forall d | d in w'.covers[Current(w')] ensures d in w'.gone[Current(w')] || Behind(w', d) {
        assert d in w.covers[Current(w)];
        if Behind(w, d) && d != w.items[i].deadline {
          var j :| 0 <= j < w.cursor && j < |w.items| && w.items[j].deadline == d;
          assert w'.items[if j < i then j else j - 1].deadline == d;
        }
      }
    } else {
      forall j {:trigger w'.items[j]} | 0 <= j < |w'.items|
        ensures w'.items[j].deadline in w'.covers[SlotOf(w'.items[j].deadline, |w'.covers|)]
      {
        assert w'.items[j] == w.items[if j < i then j else j + 1];
      }
    }
  }

  lemma PassCoverOk<T>(w: Walk<T>, open: bool)
    requires WalkOk(w) && w.cursor < |w.items| && CoverOk(w, open)
    ensures CoverOk(Pass(w), open)
  {
    hide SlotOf, ItemOk, SlotFits;
    var w' := Pass(w);
    assert w'.cursor > w.cursor && Behind(w', w.items[w.cursor].deadline);
    assert forall d {:trigger Behind(w', d)} :: Behind(w, d) ==> Behind(w', d);
  }

  /** At the head of its slot the cursor opens the slot: the bound covers nothing any more. */
  lemma LookCoverOk<T>(w: Walk<T>, open: bool)
    requires WalkOk(w) && CoverOk(w, open)
    ensures CoverOk(Look(w), open || OnHead(w))
    ensures OnHead(w) ==> Look(w).gone[Current(w)] == {}
  {
    hide SlotOf, ItemOk, SlotFits;
  }

  /** Does this poll leave the current slot open?  It has moved on to it, has opened it, or has found it open. */
  ghost predicate OpenAfter<T>(w: Walk<T>, last: nat, open: bool)
    requires Sized(w) && w.cursor <= |w.items|
  {
    Poll(w, last).1.Some? && (Poll(w, last).0.tick > w.tick || OnHead(w) || open)
  }

  /** A poll leaves every timeout covered, unless it returns one and leaves the slot open. */
  lemma {:induction false} PollCoverOk<T>(w: Walk<T>, last: nat, open: bool)
    requires WalkOk(w) && w.tick <= last && CoverOk(w, open)
    ensures CoverOk(Poll(w, last).0, OpenAfter(w, last, open))
    ensures var w' := Poll(w, last).0;
      OpenAfter(w, last, open) && (open ==> w.gone[Current(w)] == {}) ==> w'.gone[Current(w')] == {}
    decreases last + 1 - w.tick, |w.items| - w.cursor
  {
    hide SlotOf, ItemOk, SlotFits, OpenOk, AllCovered, Behind;
    if w.cursor == |w.items| {
      EnterOk(w);
      EnterCovers(w);
      PollMisses(Enter(w), last);
      if w.tick < last {
        PollCoverOk(Enter(w), last, false);
        EnteredOpens(w, last);
      }
    } else if w.items[w.cursor].deadline <= w.tick {
      FireCoverOk(w, open);
    } else {
      LookOk(w);
      LookCoverOk(w, open);
      PassOk(Look(w));
      PassCoverOk(Look(w), open || OnHead(w));
      PollMisses(Pass(Look(w)), last);
      PollCoverOk(Pass(Look(w)), last, open || OnHead(w));
      PassedHead(Look(w));
    }
  }

  /** A poll that goes on with the next tick fires on the head of a slot, or later. */
  lemma EnteredOpens<T>(w: Walk<T>, last: nat)
    requires WalkOk(w) && w.cursor == |w.items| && w.tick < last && WalkOk(Enter(w))
    ensures Poll(Enter(w), last).1.Some? ==> Poll(Enter(w), last).0.tick > Enter(w).tick || OnHead(Enter(w))
  {
    hide SlotOf, ItemOk, SlotFits;
    var w1 := Enter(w);
    if w1.cursor == |w1.items| {
      EnterOk(w1);
      PollTurn(w1, last);
      PollMisses(Enter(w1), last);
    }
  }

  lemma PassedHead<T>(w: Walk<T>)
    requires WalkOk(w) && w.cursor < |w.items|
    ensures !OnHead(Pass(w))
  {
    hide SlotOf, ItemOk, SlotFits;
  }

  lemma FireCoverOk<T>(w: Walk<T>, open: bool)
    requires WalkOk(w) && w.cursor < |w.items| && w.items[w.cursor].deadline <= w.tick && CoverOk(w, open)
    ensures var w' := Remove(Look(w), w.cursor);
      && CoverOk(w', open || OnHead(w))
      && ((open || OnHead(w)) && (open ==> w.gone[Current(w)] == {}) ==> w'.gone[Current(w')] == {})
  {
    hide SlotOf, SlotFits;
    LookOk(w);
    LookCoverOk(w, open);
    RemoveCoverOk(Look(w), w.cursor, open || OnHead(w));
    assert ItemOk(w, w.cursor);
    forall i: nat | i < w.cursor ensures w.items[i].deadline != w.tick { assert ItemOk(w, i); }
  }

  /**
    Right after a poll that returned a timeout, from a state in which all were covered: the earliest deadline left is
    uncovered if and only if the poll moved on or found the cursor on the head of its slot, and that deadline is of
    this slot and at the cursor or behind it.
   */
  lemma FiringUncovers<T>(w: Walk<T>, last: nat)
    requires WalkOk(w) && AllCovered(w) && w.tick <= last && Poll(w, last).1.Some? && Poll(w, last).0.items != []
    ensures var w' := Poll(w, last).0;
      var e := EarliestDeadline(w');
      e !in w'.covers[SlotOf(e, |w'.covers|)] <==>
        (w'.tick > w.tick || OnHead(w)) && SlotOf(e, |w'.covers|) == Current(w') && Earliest(w'.items) >= w'.cursor
  {
    hide SlotOf, ItemOk, SlotFits;
    PollOk(w, last);
    PollCoverOk(w, last, false);
    EarliestUncovered(Poll(w, last).0, OpenAfter(w, last, false));
  }

  /** When the current slot is open, its deadlines are uncovered from the cursor on, unless one like them is gone. */
  lemma EarliestUncovered<T>(w: Walk<T>, open: bool)
    requires WalkOk(w) && w.items != [] && CoverOk(w, open)
    ensures var e := EarliestDeadline(w);
      var s := SlotOf(e, |w.covers|);
      e !in w.covers[s] <==> open && s == Current(w) && Earliest(w.items) >= w.cursor && e !in w.gone[s]
  {
    hide SlotOf;
    var e := EarliestDeadline(w);
    assert ItemOk(w, Earliest(w.items)) && SlotFits(w, SlotOf(e, |w.covers|));
    assert w.items[Earliest(w.items)].deadline == e;
    if Earliest(w.items) < w.cursor { assert Behind(w, e); }
  }

  /** This poll returned a timeout, and has moved on or found the cursor on the head of its slot. */
  ghost predicate Opens<T>(ws: seq<Walk<T>>, ops: seq<Op<T>>, j: nat)
    requires |ws| == |ops| + 1
  {
    j < |ops| && ops[j].PollOp? && Enabled(ws[j], ops[j]) && OpenAfter(ws[j], ops[j].last, false)
  }

  /** No poll since has come back empty. */
  ghost predicate NoRest<T>(ws: seq<Walk<T>>, ops: seq<Op<T>>, j: nat, k: nat)
    requires |ws| == |ops| + 1
  {
    forall i {:trigger ops[i]} :: j < i < k <= |ops| && ops[i].PollOp? && Enabled(ws[i], ops[i]) ==> Poll(ws[i], ops[i].last).1.Some?
  }

  /** Some poll has opened the slot at the cursor, and none since has come back empty. */
  ghost predicate Open<T>(ws: seq<Walk<T>>, ops: seq<Op<T>>, k: nat)
    requires |ws| == |ops| + 1
  {
    exists j: nat {:trigger Opens(ws, ops, j)} :: j < k && Opens(ws, ops, j) && NoRest(ws, ops, j, k)
  }

  lemma OpenNext<T>(ws: seq<Walk<T>>, ops: seq<Op<T>>, k: nat)
    requires |ws| == |ops| + 1 && k < |ops| && Enabled(ws[k], ops[k])
    ensures Open(ws, ops, k + 1) <==> if ops[k].PollOp? then OpenAfter(ws[k], ops[k].last, Open(ws, ops, k)) else Open(ws, ops, k)
  {
    hide Poll;
    if Open(ws, ops, k + 1) {
      var j: nat :| j < k + 1 && Opens(ws, ops, j) && NoRest(ws, ops, j, k + 1);
      if j < k { assert NoRest(ws, ops, j, k); }
    }
    if Open(ws, ops, k) && (ops[k].PollOp? ==> Poll(ws[k], ops[k].last).1.Some?) {
      var j: nat :| j < k && Opens(ws, ops, j) && NoRest(ws, ops, j, k);
      assert NoRest(ws, ops, j, k + 1);
    }
    if ops[k].PollOp? && OpenAfter(ws[k], ops[k].last, false) {
      assert Opens(ws, ops, k) && NoRest(ws, ops, k, k + 1);
    }
  }

  lemma {:induction false} RunsKeepCoverOk<T>(ws: seq<Walk<T>>, ops: seq<Op<T>>, n: nat, k: nat)
    requires Run(ws, ops, n) && k < |ws|
    ensures WalkOk(ws[k]) && CoverOk(ws[k], Open(ws, ops, k))
    decreases k
  {
    hide OpenOk, AllCovered, Open, OpenAfter, Poll;
    RunsKeepWalkOk(ws, ops, n, k);
    if k == 0 {
      StartCovered<T>(n);
      NotOpenAtFirst(ws, ops);
    } else {
      RunsKeepCoverOk(ws, ops, n, k - 1);
      assert StepAt(ws, ops, k - 1);
      OpenNext(ws, ops, k - 1);
      var w, open := ws[k - 1], Open(ws, ops, k - 1);
      match ops[k - 1]
      case SetOp(x) => InsertCoverOk(w, x, open);
      case CancelOp(i) => RemoveCoverOk(w, i, open);
      case PollOp(last) => PollCoverOk(w, last, open);
    }
  }

  lemma StartCovered<T>(n: nat)
    requires n > 0
    ensures AllCovered(Start<T>(n))
  {}

  lemma NotOpenAtFirst<T>(ws: seq<Walk<T>>, ops: seq<Op<T>>)
    requires |ws| == |ops| + 1
    ensures !Open(ws, ops, 0)
  {}

  /**
    In every run, `next_tick`, which a `register` schedules, comes after a live deadline if and only if some poll that
    returned a timeout has moved on or found the cursor on the head of its slot, no poll since has come back empty,
    the earliest deadline is of the current slot, at the cursor or behind it, and no bound covers a timeout that is
    gone and was due by then.  If it is late, the last poll has returned a timeout.
   */
  lemma RegisterIsLate<T>(ws: seq<Walk<T>>, ops: seq<Op<T>>, n: nat, k: nat)
    requires Run(ws, ops, n) && k < |ws| && ws[k].items != []
    ensures WalkOk(ws[k]) && var w, e := ws[k], EarliestDeadline(ws[k]);
      NextTick(w) > e <==>
        && Open(ws, ops, k) && SlotOf(e, |w.covers|) == Current(w) && Earliest(w.items) >= w.cursor
        && !GoneBefore(w, e + 1) && e != TICK_MAX
    ensures NextTick(ws[k]) > EarliestDeadline(ws[k]) ==> exists j: nat {:trigger LastPoll(ws, ops, j, k)} :: LastPoll(ws, ops, j, k)
  {
    hide OpenOk, AllCovered, Open, SlotOf;
    RunsKeepCoverOk(ws, ops, n, k);
    var w := ws[k];
    NextTickIsLate(w);
    EarliestUncovered(w, Open(ws, ops, k));
    GoneByThen(w, EarliestDeadline(w));
    if Open(ws, ops, k) {
      OpenCursor(w);
      var j := LastPollFired(ws, ops, n, k);
      assert LastPoll(ws, ops, j, k);
    }
  }

  /** The last poll before state k is operation j, and it has returned a timeout. */
  ghost predicate LastPoll<T>(ws: seq<Walk<T>>, ops: seq<Op<T>>, j: nat, k: nat)
    requires |ws| == |ops| + 1
  {
    && j < k <= |ops|
    && ops[j].PollOp? && Enabled(ws[j], ops[j]) && Poll(ws[j], ops[j].last).1.Some?
    && forall i {:trigger ops[i]} :: j < i < k ==> !ops[i].PollOp?
  }

  lemma {:induction false} LastPollFired<T>(ws: seq<Walk<T>>, ops: seq<Op<T>>, n: nat, k: nat) returns (j: nat)
    requires Run(ws, ops, n) && k < |ws| && Open(ws, ops, k)
    ensures LastPoll(ws, ops, j, k)
    decreases k
  {
    hide Open, OpenAfter, Poll;
    if k == 0 {
      NotOpenAtFirst(ws, ops);
      assert false;
    } else {
      assert StepAt(ws, ops, k - 1);
      OpenNext(ws, ops, k - 1);
      if ops[k - 1].PollOp? {
        OpenFired(ws[k - 1], ops[k - 1].last, Open(ws, ops, k - 1));
        j := k - 1;
      } else {
        j := LastPollFired(ws, ops, n, k - 1);
      }
    }
  }

  lemma OpenFired<T>(w: Walk<T>, last: nat, open: bool)
    requires Sized(w) && w.cursor <= |w.items| && OpenAfter(w, last, open)
    ensures Poll(w, last).1.Some?
  {}

  lemma GoneByThen<T>(w: Walk<T>, e: nat)
    requires WalkOk(w)
    ensures GoneBefore(w, e + 1) <==> GoneBefore(w, e) || e in w.gone[SlotOf(e, |w.covers|)]
  {
    hide SlotOf;
    if GoneBefore(w, e + 1) {
      var s, g :| 0 <= s < |w.gone| && g in w.gone[s] && g < e + 1;
      assert SlotFits(w, s);
    }
  }

  /** In an open slot, something that may be due at the cursor is due, or left in the bound by a timeout that is gone. */
  lemma OpenCursor<T>(w: Walk<T>)
    requires WalkOk(w) && w.items != [] && OpenOk(w)
    ensures AtCursor(w) ==> GoneBefore(w, EarliestDeadline(w) + 1) || EarliestDeadline(w) == TICK_MAX
  {
    hide SlotOf;
    assert ItemOk(w, Earliest(w.items));
    forall i: nat | i < w.cursor ensures w.items[i].deadline != w.tick { assert ItemOk(w, i); }
    assert !Behind(w, w.tick);
  }

  // ---------------------------------------------------------------------------------------------
  // Inputs
  // ---------------------------------------------------------------------------------------------

  /**
    Two slots.  A timeout for tick 1 is at the cursor when one for tick 3 is put before it; the first one fires, and
    the poll that then finds nothing leaves the bound 1 behind although the timer is at tick 2 and only 3 is live.
   */
  lemma InsertedBefore() returns (w1: Walk<char>, w2: Walk<char>, w3: Walk<char>)
    ensures Sized(w1) && w1.cursor <= |w1.items| && Poll(Insert(Start(2), Item(7, 1, 'a')), 0) == (w1, None)
    ensures Sized(w2) && w2.cursor <= |w2.items| && Poll(Insert(w1, Item(8, 3, 'b')), 1) == (w2, Some('a'))
    ensures |w3.covers| > 0 && Poll(w2, 1) == (w3, None)
    ensures w3.items == [Item(8, 3, 'b')] && w3.tick == 2 && w3.missed == {1} && NextTick(w3) == 1
  {
    var a, b := Item(7, 1, 'a'), Item(8, 3, 'b');
    assert SlotOf(1, 2) == 1 && SlotOf(3, 2) == 1 && SlotOf(2, 2) == 0 && SlotOf(0, 2) == 0;
    var w0 := Walk([a], 0, 1, [{}, {1}], [{}, {}], {});
    CoverOne([{}, {}], 1, {1});
    assert Start<char>(2).covers == [{}, {}];
    assert Insert(Start(2), a) == w0;
    w1 := Walk([a], 1, 0, [{}, {1}], [{}, {}], {});
    assert Enter(w0) == w1;
    assert Poll(w1, 0) == (w1, None);
    var v := Walk([b, a], 1, 1, [{}, {1, 3}], [{}, {}], {});
    CoverOne(w1.covers, 3, {1, 3});
    assert Insert(w1, b).items == [b, a];
    assert Insert(w1, b) == v;
    assert Drop(v.items, 1) == [b];
    w2 := Walk([b], 1, 1, [{}, {1, 3}], [{}, {1}], {});
    assert Look(v) == v;
    assert Remove(v, 1).items == [b] && Remove(v, 1).cursor == 1;
    assert Remove(v, 1).gone == w2.gone;
    assert Remove(v, 1) == w2;
    w3 := Walk([b], 2, 1, [{}, {1, 3}], [{}, {1}], {1});
    assert Enter(w2) == w3;
    assert Poll(w3, 1) == (w3, None);
    BoundLeft(w3, {1, 3});
  }

  /** Two slots, and a timeout for tick 1 that is cancelled at the cursor: nothing is live, and the bound 1 is left behind. */
  lemma CancelledAtCursor() returns (w1: Walk<char>, w2: Walk<char>)
    ensures Sized(w1) && w1.cursor <= |w1.items| == 1 && Poll(Insert(Start(2), Item(7, 1, 'a')), 0) == (w1, None)
    ensures |w2.covers| > 0 && Poll(Remove(w1, 0), 1) == (w2, None)
    ensures w2.items == [] && w2.tick == 2 && w2.missed == {1} && NextTick(w2) == 1
  {
    var a := Item(7, 1, 'a');
    assert SlotOf(1, 2) == 1 && SlotOf(2, 2) == 0 && SlotOf(0, 2) == 0;
    var w0 := Walk([a], 0, 1, [{}, {1}], [{}, {}], {});
    CoverOne([{}, {}], 1, {1});
    assert Start<char>(2).covers == [{}, {}];
    assert Insert(Start(2), a) == w0;
    w1 := Walk([a], 1, 0, [{}, {1}], [{}, {}], {});
    assert Enter(w0) == w1;
    assert Poll(w1, 0) == (w1, None);
    assert Drop(w1.items, 0) == [];
    var v := Walk([], 1, 0, [{}, {1}], [{}, {1}], {});
    assert Remove(w1, 0) == v;
    w2 := Walk([], 2, 0, [{}, {1}], [{}, {1}], {1});
    assert Enter(v) == w2;
    assert Poll(w2, 1) == (w2, None);
    BoundLeft(w2, {1});
  }

  lemma CoverOne(covers: seq<set<nat>>, d: nat, c: set<nat>)
    requires |covers| == 2 && covers[1] + {d} == c
    ensures covers[1 := covers[1] + {d}] == [covers[0], c]
  {}

  lemma BoundLeft(w: Walk<char>, c: set<nat>)
    requires w.covers == [{}, c] && w.cursor == |w.items| && 1 in c && forall d :: d in c ==> d >= 1
    ensures NextTick(w) == 1
  {
    assert Covered(w) == c by {
      forall d | d in c ensures d in Covered(w) { assert d in w.covers[1]; }
    }
  }

  /** Two slots, and timeouts for ticks 3 and 1: once a poll has fired the one, the other is not covered by any bound. */
  lemma BetweenTwoPolls() returns (w: Walk<char>)
    ensures Poll(Insert(Insert(Start(2), Item(7, 3, 'a')), Item(8, 1, 'b')), 1) == (w, Some('b'))
    ensures |w.covers| > 0 && w.items == [Item(7, 3, 'a')] && NextTick(w) == TICK_MAX
  {
    var a, b := Item(7, 3, 'a'), Item(8, 1, 'b');
    assert SlotOf(1, 2) == 1 && SlotOf(3, 2) == 1 && SlotOf(0, 2) == 0;
    var w1 := Walk([a], 0, 1, [{}, {3}], [{}, {}], {});
    CoverOne([{}, {}], 3, {3});
    assert Start<char>(2).covers == [{}, {}];
    assert Insert(Start(2), a) == w1;
    var w2 := Walk([b, a], 0, 2, [{}, {1, 3}], [{}, {}], {});
    CoverOne([{}, {3}], 1, {1, 3});
    assert Insert(w1, b).items == [b, a];
    assert Insert(w1, b) == w2;
    var w3 := Walk([b, a], 1, 0, [{}, {1, 3}], [{}, {}], {});
    assert Enter(w2) == w3;
    w := Walk([a], 1, 0, [{}, {}], [{}, {}], {});
    assert Look(w3).covers == w.covers && Look(w3).gone == w.gone;
    assert Drop(w3.items, 0) == [a];
    assert Remove(Look(w3), 0) == w;
    assert Covered(w) == {};
  }
}
