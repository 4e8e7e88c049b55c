/**
  One call of `ReadinessQueue::poll` while nobody pushes: the list in the heap, and the loop over it.

  Without other threads every compare-and-swap succeeds and no load returns something stale, so each operation
  is one method.  The state words and what `poll` makes of them are those of `ReadinessNodes`.
*/
module ReadinessPoll {
  import opened N = ReadinessNodes

  class ReadinessNode {
    const id: nat
    var next: ReadinessNode?
    var word: Word
    var slots: Slots
    var refs: int

    constructor (id: nat, word: Word, slots: Slots, refs: int)
      ensures this.id == id && this.word == word && this.slots == slots && this.refs == refs && next == null
    {
      this.id, this.word, this.slots, this.refs, next := id, word, slots, refs, null;
    }
  }

  /** The caller's event list. */
  class Events {
    var list: seq<Report>
    const capacity: nat

    constructor (capacity: nat)
      ensures list == [] && this.capacity == capacity
    {
      this.capacity, list := capacity, [];
    }
  }

  datatype Popped = Nothing | Found(node: ReadinessNode)

  // ---------------------------------------------------------------------------------------------
  // What one call is to do, from the words and tokens of the queued nodes
  // ---------------------------------------------------------------------------------------------

  datatype Queued = Queued(id: nat, word: Word, slots: Slots)

  predicate Reports(x: Queued) { !x.word.dropped && Effective(x.word) != NONE }

  predicate Stays(x: Queued) { !x.word.dropped && PollNext(x.word).queued }

  function ReportOf(x: Queued): Report { Report(x.id, Effective(x.word), x.slots[x.word.wr]) }

  /** How many of the queued nodes are visited when there is room for so many events. */
  function Visited(q: seq<Queued>, room: nat): (k: nat)
    ensures k <= |q|
  {
    if q == [] || room == 0 then 0 else 1 + Visited(q[1..], if Reports(q[0]) then room - 1 else room)
  }

  function ReportsOf(q: seq<Queued>): seq<Report> {
    if q == [] then [] else ReportsOf(q[..|q| - 1]) + if Reports(q[|q| - 1]) then [ReportOf(q[|q| - 1])] else []
  }

  /** A visit goes on exactly until the events are full or every node was visited once. */
  lemma {:induction false} VisitedMeaning(q: seq<Queued>, room: nat)
    ensures var k := Visited(q, room);
      && |ReportsOf(q[..k])| <= room
      && (k < |q| ==> |ReportsOf(q[..k])| == room)
      && (forall j :: 0 <= j < k ==> |ReportsOf(q[..j])| < room)
  {
    if q == [] || room == 0 {
    } else {
      var room' := if Reports(q[0]) then room - 1 else room;
      var k := Visited(q[1..], room');
      VisitedMeaning(q[1..], room');
      forall j | 1 <= j <= 1 + k ensures |ReportsOf(q[..j])| == |ReportsOf(q[1..][..j - 1])| + room - room' {
        ReportsFront(q[..j]);
        assert q[..j][1..] == q[1..][..j - 1];
      }
    }
  }

  lemma {:induction false} ReportsFront(q: seq<Queued>)
    requires q != []
    ensures ReportsOf(q) == (if Reports(q[0]) then [ReportOf(q[0])] else []) + ReportsOf(q[1..])
  {
    if |q| > 1 {
      ReportsFront(q[..|q| - 1]);
      assert q[..|q| - 1][1..] == q[1..][..|q| - 2];
    } else {
      assert q[..0] == [] && q[1..] == [];
    }
  }

  // ---------------------------------------------------------------------------------------------
  // The queue
  // ---------------------------------------------------------------------------------------------

  class ReadinessQueue {
    var head: ReadinessNode
    var tail: ReadinessNode
    const endMarker: ReadinessNode
    const sleepMarker: ReadinessNode
    const closedMarker: ReadinessNode
    ghost var chain: seq<ReadinessNode>  // the nodes from tail to head
    ghost var known: set<ReadinessNode>  // the markers, and all nodes that were ever pushed

    predicate Marker(n: ReadinessNode) { n == endMarker || n == sleepMarker || n == closedMarker }

    /** The list without its markers. */
    ghost function Data(c: seq<ReadinessNode>): seq<ReadinessNode> {
      if c == [] then [] else Data(c[..|c| - 1]) + if Marker(c[|c| - 1]) then [] else [c[|c| - 1]]
    }

    ghost predicate Distinct(c: seq<ReadinessNode>) {
      forall i, j {:trigger c[i], c[j]} :: 0 <= i < j < |c| ==> c[i] != c[j]
    }

    ghost predicate LinkAt(c: seq<ReadinessNode>, i: nat)
      reads c
    {
      i < |c| ==> c[i].next == if i + 1 < |c| then c[i + 1] else null
    }

    ghost predicate Linked(c: seq<ReadinessNode>)
      reads c
    {
      forall i: nat {:trigger LinkAt(c, i)} :: LinkAt(c, i)
    }

    lemma ShapeSnoc(c: seq<ReadinessNode>, n: ReadinessNode)
      requires Shape(c) && c != [] && n !in c && n != sleepMarker && n != closedMarker && (n == endMarker ==> sleepMarker !in c)
      ensures Shape(c + [n])
    {}

    lemma ShapeRest(c: seq<ReadinessNode>)
      requires Shape(c) && c != []
      ensures Shape(c[1..]) && c[0] !in c[1..]
    {
      assert forall i :: 0 <= i < |c| - 1 ==> c[1..][i] == c[i + 1];
    }

    ghost predicate Shape(c: seq<ReadinessNode>) {
      && Distinct(c) && closedMarker !in c
      && (endMarker in c ==> sleepMarker !in c)
      && (sleepMarker in c ==> c[0] == sleepMarker)
    }

    ghost predicate Valid()
      reads this, known
    {
      && (forall n :: n in chain ==> n in known) && endMarker in known && sleepMarker in known
      && chain != [] && tail == chain[0] && head == chain[|chain| - 1]
      && endMarker != sleepMarker && endMarker != closedMarker && sleepMarker != closedMarker
      && Shape(chain) && Linked(chain)
    }

    constructor (end: ReadinessNode, sleep: ReadinessNode, closed: ReadinessNode)
      requires end != sleep && end != closed && sleep != closed && end.next == null
      ensures Valid() && chain == [end] && known == {end, sleep} && endMarker == end && sleepMarker == sleep && closedMarker == closed
    {
      head, tail, chain, known := end, end, [end], {end, sleep};
      endMarker, sleepMarker, closedMarker := end, sleep, closed;
    }

    /** The push of an intrusive list; whoever pushed behind the sleep marker must wake the poller. */
    method EnqueueNode(n: ReadinessNode) returns (wake: bool)
      requires Valid() && n !in chain && n != sleepMarker && n != closedMarker
      requires n == endMarker ==> sleepMarker !in chain
      modifies this, n`next, known`next
      ensures Valid() && chain == old(chain) + [n] && known == old(known) + {n} && wake == (old(head) == sleepMarker)
    {
      assert forall i :: 0 <= i < |chain| - 1 ==> chain[i] != head;
      hide Shape;
      ghost var c := chain;
      ShapeSnoc(c, n);
      n.next := null;
      var prev := head;
      head := n;
      prev.next := n;
      chain, known := chain + [n], known + {n};
      wake := prev == sleepMarker;
      forall i: nat ensures LinkAt(chain, i) {
        assert old(LinkAt(c, i));
        if i < |c| { assert chain[i] == c[i]; }
      }
    }

    lemma {:induction false} DataSnoc(c: seq<ReadinessNode>, n: ReadinessNode)
      ensures Data(c + [n]) == Data(c) + if Marker(n) then [] else [n]
    {
      assert (c + [n])[..|c|] == c;
    }

    lemma {:induction false} DataFront(c: seq<ReadinessNode>)
      requires c != []
      ensures Data(c) == (if Marker(c[0]) then [] else [c[0]]) + Data(c[1..])
    {
      if |c| > 1 {
        DataFront(c[..|c| - 1]);
        assert c[..|c| - 1][1..] == c[1..][..|c| - 2];
      } else {
        assert c[..0] == [] && c[1..] == [];
      }
    }

    lemma {:induction false} DataMember(c: seq<ReadinessNode>)
      ensures forall n :: n in Data(c) <==> n in c && !Marker(n)
      ensures Distinct(c) ==> Distinct(Data(c))
    {
      if c == [] {
      } else {
        var front, last := c[..|c| - 1], c[|c| - 1];
        DataMember(front);
        assert c == front + [last];
        assert Distinct(c) ==> last !in front;
      }
    }

    /** An empty queue goes from the sleep marker back to the end marker. */
    method ClearSleepMarker()
      requires Valid()
      modifies this, known`next
      ensures Valid() && Data(chain) == Data(old(chain)) && known == old(known)
      ensures chain == if old(chain) == [sleepMarker] then [endMarker] else old(chain)
    {
      if tail != sleepMarker { return; }
      LoneMarker();
      endMarker.next := null;
      if head != sleepMarker { return; }
      head := endMarker;
      tail := endMarker;
      chain := [endMarker];
      DataOfOne(sleepMarker);
      DataOfOne(endMarker);
    }

    lemma DataOfOne(n: ReadinessNode)
      ensures Data([n]) == if Marker(n) then [] else [n]
    {
      assert [n][..0] == [];
    }

    /** With the sleep marker at both ends it is the whole list, and else the end marker is not in the list. */
    lemma LoneMarker()
      requires Valid() && tail == sleepMarker
      ensures endMarker !in chain && (head == sleepMarker <==> chain == [sleepMarker])
    {
      assert chain[0] in chain;
      assert |chain| > 1 ==> chain[0] != chain[|chain| - 1];
    }

    /** Ready to sleep exactly when no node is queued; then the list is just the sleep marker. */
    method PrepareForSleep() returns (sleeps: bool)
      requires Valid()
      modifies this, known`next
      ensures Valid() && known == old(known) && sleeps == (Data(old(chain)) == []) && Data(chain) == Data(old(chain))
      ensures chain == if sleeps then [sleepMarker] else old(chain)
    {
      OnlyMarker();
      if tail == sleepMarker { return head == sleepMarker; }
      if tail != endMarker { return false; }
      sleepMarker.next := null;
      if head != endMarker { return false; }
      head := sleepMarker;
      tail := sleepMarker;
      chain := [sleepMarker];
      DataOfOne(sleepMarker);
      return true;
    }

    /** No node is queued exactly when the list is one marker. */
    lemma OnlyMarker()
      requires Valid()
      ensures Data(chain) == [] <==> |chain| == 1 && Marker(tail)
      ensures tail == endMarker ==> (head == endMarker <==> |chain| == 1) && sleepMarker !in chain
      ensures tail == sleepMarker ==> (head == sleepMarker <==> |chain| == 1)
      ensures Data(chain) == [] ==> tail == endMarker || tail == sleepMarker
      ensures !Marker(tail) ==> Data(chain) != [] && sleepMarker !in chain
    {
      DataMember(chain);
      assert chain[0] in chain;
      if |chain| > 1 {
        assert chain[1] in chain && chain[0] != chain[1] && chain[0] != chain[|chain| - 1];
      } else {
        assert chain == [chain[0]];
        DataOfOne(chain[0]);
      }
    }

    method DequeueNode(until: ReadinessNode?) returns (r: Popped)
      requires Valid()
      modifies this, known`next
      ensures Valid() && known == old(known)
      ensures var q := Data(old(chain));
        if q == [] || q[0] == until then r == Nothing && Data(chain) == q
        else r == Found(q[0]) && Data(chain) == q[1..] && q[0] !in chain && q[0] in known
    {
      OnlyMarker();
      if Marker(tail) {
        if tail.next == null {
          assert LinkAt(chain, 0);
          ClearSleepMarker();
          return Nothing;
        }
        SkipMarker();
      }
      r := PopData(until);
    }

    /** The tail moves past a marker. */
    method SkipMarker()
      requires Valid() && Marker(tail) && tail.next != null
      modifies this
      ensures Valid() && known == old(known) && Data(chain) == Data(old(chain)) && chain == old(chain)[1..] && !Marker(tail)
    {
      ghost var c := chain;
      assert LinkAt(c, 0);
      ShapeRest(c);
      DataFront(c);
      assert c[0] in c && c[1] in c && c[0] != c[1];
      tail := tail.next;
      chain := c[1..];
      LinkedRest(c);
    }

    lemma LinkedRest(c: seq<ReadinessNode>)
      requires c != [] && Linked(c)
      ensures Linked(c[1..])
    {
      forall i: nat ensures LinkAt(c[1..], i) { assert LinkAt(c, i + 1); }
    }

    /** The rest of a dequeue, with a data node at the tail. */
    method PopData(until: ReadinessNode?) returns (r: Popped)
      requires Valid() && !Marker(tail)
      modifies this, known`next
      ensures Valid() && known == old(known)
      ensures Data(old(chain)) != [] && Data(old(chain))[0] == old(tail)
      ensures var q := Data(old(chain));
        if q[0] == until then r == Nothing && Data(chain) == q
        else r == Found(q[0]) && Data(chain) == q[1..] && q[0] !in chain && q[0] in known
    {
      hide Data, Distinct;
      ghost var c := chain;
      OnlyMarker();
      DataFront(c);
      assert LinkAt(c, 0);
      if tail == until { return Nothing; }
      if tail.next == null {
        assert chain == [tail];
        var _ := EnqueueNode(endMarker);
        DataSnoc(c, endMarker);
        assert Data(c) + [] == Data(c);
      }
      r := Found(tail);
      ghost var c1 := chain;
      assert LinkAt(c1, 0);
      ShapeRest(c1);
      DataFront(c1);
      LinkedRest(c1);
      assert [c1[0]] + Data(c1[1..]) == Data(c);
      tail := tail.next;
      chain := c1[1..];
    }

    // One call of poll

    ghost function Items(q: seq<ReadinessNode>): (r: seq<Queued>)
      reads q
      ensures |r| == |q| && forall i :: 0 <= i < |q| ==> r[i] == Queued(q[i].id, q[i].word, q[i].slots)
    {
      if q == [] then [] else Items(q[..|q| - 1]) + [Queued(q[|q| - 1].id, q[|q| - 1].word, q[|q| - 1].slots)]
    }

    ghost function Refs(q: seq<ReadinessNode>): (r: seq<int>)
      reads q
      ensures |r| == |q| && forall i :: 0 <= i < |q| ==> r[i] == q[i].refs
    {
      if q == [] then [] else Refs(q[..|q| - 1]) + [q[|q| - 1].refs]
    }

    /** Those of the first k nodes that stay queued. */
    ghost function Kept(q: seq<ReadinessNode>, items: seq<Queued>, k: nat): seq<ReadinessNode>
      requires k <= |q| == |items|
    {
      if k == 0 then [] else Kept(q, items, k - 1) + if Stays(items[k - 1]) then [q[k - 1]] else []
    }

    /** What a visit has made of a node. */
    ghost predicate Done(n: ReadinessNode, was: Queued, refs: int)
      reads n
    {
      n.slots == was.slots && if was.word.dropped then n.word == was.word && n.refs == refs - 1 else n.word == PollNext(was.word) && n.refs == refs
    }

    /** The state word of a node just popped: released, or read and updated. */
    method Visit(n: ReadinessNode) returns (ready: Flags, queued: bool)
      requires n.word.queued
      modifies n`word, n`refs
      ensures Done(n, old(Queued(n.id, n.word, n.slots)), old(n.refs))
      ensures queued == Stays(old(Queued(n.id, n.word, n.slots)))
      ensures ready == if old(n.word.dropped) then NONE else Effective(old(n.word))
    {
      if n.word.dropped {
        n.refs := n.refs - 1;
        return NONE, false;
      }
      var next := n.word;
      ready := Effective(n.word);
      if Edge(n.word) {
        next := next.(queued := false);
        if Oneshot(n.word) && ready != NONE { next := next.(interest := NONE); }
      } else if ready == NONE {
        next := next.(queued := false);
      }
      next := next.(rd := next.wr);
      if n.word != next { n.word := next; }
      queued := next.queued;
    }

    ghost predicate NodeOk(q: seq<ReadinessNode>, items: seq<Queued>, refs: seq<int>, k: nat, i: nat)
      requires |items| == |refs| == |q|
      reads q
    {
      i < |q| ==>
        && q[i].id == items[i].id
        && if i < k then Done(q[i], items[i], refs[i])
           else q[i].word == items[i].word && q[i].refs == refs[i] && q[i].slots == items[i].slots
    }

    /** The first k nodes have been visited, the others not. */
    ghost predicate VisitedUpTo(q: seq<ReadinessNode>, items: seq<Queued>, refs: seq<int>, k: nat)
      reads q
    {
      |items| == |refs| == |q| && k <= |q| && forall i: nat {:trigger NodeOk(q, items, refs, k, i)} :: NodeOk(q, items, refs, k, i)
    }

    /** Where the loop is after k visits: the other nodes are in front of those that stay, and `until` is one of these. */
    ghost predicate At(q: seq<ReadinessNode>, items: seq<Queued>, k: nat, until: ReadinessNode?)
      requires k <= |q| == |items|
      reads this
    {
      var kept := Kept(q, items, k);
      Data(chain) == q[k..] + kept && until == if kept == [] then null else kept[0]
    }

    ghost predicate Nodes(q: seq<ReadinessNode>) {
      Distinct(q) && forall n :: n in q ==> !Marker(n)
    }

    lemma {:induction false} KeptVisited(q: seq<ReadinessNode>, items: seq<Queued>, k: nat, i: nat)
      requires k <= i < |q| == |items| && Nodes(q)
      ensures q[i] !in Kept(q, items, k)
    {
      if k == 0 {
      } else {
        KeptVisited(q, items, k - 1, i);
      }
    }

    /** The places of the nodes that stay are among those visited. */
    lemma {:induction false} KeptFrom(q: seq<ReadinessNode>, items: seq<Queued>, k: nat)
      requires k <= |q| == |items|
      ensures forall n :: n in Kept(q, items, k) ==> exists i: nat :: i < k && q[i] == n && Stays(items[i])
    {
      if k == 0 {
      } else {
        KeptFrom(q, items, k - 1);
        assert q[k - 1] == q[k - 1];
      }
    }

    /** All nodes in the list are queued, before and after. */
    lemma AllQueued(q: seq<ReadinessNode>, items: seq<Queued>, refs: seq<int>, k: nat, until: ReadinessNode?)
      requires VisitedUpTo(q, items, refs, k) && At(q, items, k, until)
      requires forall i :: 0 <= i < |q| ==> items[i].word.queued
      ensures forall n :: n in Data(chain) ==> n.word.queued
      ensures Data(chain) == q[k..] + Kept(q, items, k)
    {
      KeptFrom(q, items, k);
      forall n | n in Data(chain) ensures n.word.queued {
        if n in Kept(q, items, k) {
          var i: nat :| i < k && q[i] == n && Stays(items[i]);
          assert NodeOk(q, items, refs, k, i);
        } else {
          var i: nat :| i < |q[k..]| && q[k..][i] == n;
          assert NodeOk(q, items, refs, k, k + i);
        }
      }
    }

    /** One turn of the loop below. */
    method Turn(dst: Events, until: ReadinessNode?, ghost q: seq<ReadinessNode>, ghost items: seq<Queued>, ghost refs: seq<int>, ghost k: nat)
      returns (until': ReadinessNode?, more: bool)
      requires Valid() && Nodes(q) && VisitedUpTo(q, items, refs, k) && At(q, items, k, until)
      requires forall i :: 0 <= i < |q| ==> items[i].word.queued
      modifies this, dst, known
      ensures Valid() && known == old(known)
      ensures more == (k < |q|)
      ensures !more ==> VisitedUpTo(q, items, refs, k) && At(q, items, k, until') && dst.list == old(dst.list)
      ensures more ==> VisitedUpTo(q, items, refs, k + 1) && At(q, items, k + 1, until')
      ensures more ==> dst.list == old(dst.list) + if Reports(items[k]) then [ReportOf(items[k])] else []
    {
      hide Valid, Distinct, Data, Kept, Stays, Reports, ReportOf;
      until' := until;
      if k < |q| { KeptVisited(q, items, k, k); }
      DataMember(chain);
      var popped := DequeueNode(until);
      forall i: nat ensures NodeOk(q, items, refs, k, i) { assert old(NodeOk(q, items, refs, k, i)); }
      if popped.Nothing? { return until, false; }
      assert q[k..][0] == q[k] && q[k..][1..] == q[k + 1..] && popped.node in old(Data(chain));
      more := true;
      until' := VisitTurn(dst, until, popped.node, q, items, refs, k);
    }

    /** The rest of a turn, with the next node popped. */
    method VisitTurn(dst: Events, until: ReadinessNode?, n: ReadinessNode, ghost q: seq<ReadinessNode>, ghost items: seq<Queued>,
                     ghost refs: seq<int>, ghost k: nat)
      returns (until': ReadinessNode?)
      requires Valid() && Nodes(q) && VisitedUpTo(q, items, refs, k) && k < |q| && items[k].word.queued
      requires n == q[k] && n in known && n !in chain && Data(chain) == q[k + 1..] + Kept(q, items, k)
      requires until == if Kept(q, items, k) == [] then null else Kept(q, items, k)[0]
      modifies this, dst, known
      ensures Valid() && known == old(known)
      ensures VisitedUpTo(q, items, refs, k + 1) && At(q, items, k + 1, until')
      ensures dst.list == old(dst.list) + if Reports(items[k]) then [ReportOf(items[k])] else []
    {
      assert forall i :: 0 <= i < |q| && i != k ==> q[i] != n;
      hide Valid, Distinct;
      until' := until;
      assert NodeOk(q, items, refs, k, k);
      var ready, queued := VisitAndRequeue(n);
      if queued && until == null { until' := n; }
      if ready != NONE {
        dst.list := dst.list + [Report(n.id, ready, n.slots[n.word.rd])];
      }
      ghost var k' := k + 1;
      forall i: nat ensures NodeOk(q, items, refs, k', i) {
        assert old(NodeOk(q, items, refs, k, i));
        assert i < |q| && i != k ==> q[i] != n;
      }
    }

    /** A popped node is visited, and pushed again if it is still queued. */
    method VisitAndRequeue(n: ReadinessNode) returns (ready: Flags, queued: bool)
      requires Valid() && n in known && n !in chain && !Marker(n) && n.word.queued
      modifies this, known`next, n`word, n`refs
      ensures Valid() && known == old(known) && Data(chain) == Data(old(chain)) + if queued then [n] else []
      ensures Done(n, old(Queued(n.id, n.word, n.slots)), old(n.refs))
      ensures queued == Stays(old(Queued(n.id, n.word, n.slots)))
      ensures ready == if old(n.word.dropped) then NONE else Effective(old(n.word))
    {
      ready, queued := Visit(n);
      if queued {
        DataSnoc(chain, n);
        var _ := EnqueueNode(n);
      }
    }

    method Poll(dst: Events)
      requires Valid() && |dst.list| <= dst.capacity
      requires forall n :: n in Data(chain) ==> n.word.queued
      modifies this, dst, known
      ensures Valid() && known == old(known) && |dst.list| <= dst.capacity
      ensures forall n :: n in Data(chain) ==> n.word.queued
      ensures var q, items := Data(old(chain)), old(Items(Data(chain)));
        var k := Visited(items, old(dst.capacity - |dst.list|));
        && Data(chain) == q[k..] + Kept(q, items, k)
        && dst.list == old(dst.list) + ReportsOf(items[..k])
        && VisitedUpTo(q, items, old(Refs(Data(chain))), k)
    {
      hide Valid, Data, Nodes, ReportsOf, ReportOf, Items, Refs, Kept, Reports, Visited, VisitedUpTo, NodeOk, At;
      var until: ReadinessNode? := null;
      ghost var q, items, refs, k := Data(chain), Items(Data(chain)), Refs(Data(chain)), 0;
      ghost var room := dst.capacity - |dst.list|;
      StartVisits(q, items, refs);
      MakeReady(dst, q, items, refs);
      while |dst.list| < dst.capacity
        invariant Valid() && |dst.list| <= dst.capacity && known == old(known)
        invariant k <= |q| && VisitedUpTo(q, items, refs, k) && At(q, items, k, until)
        invariant dst.list == old(dst.list) + ReportsOf(items[..k])
        invariant Visited(items, room) == k + Visited(items[k..], dst.capacity - |dst.list|)
        decreases |q| - k
      {
        var more;
        VisitedStep(items, k, dst.capacity - |dst.list|);
        until, more := Turn(dst, until, q, items, refs, k);
        if !more { break; }
        k := k + 1;
      }
      VisitedEnd(items, k, dst.capacity - |dst.list|);
      AllQueued(q, items, refs, k, until);
    }

    lemma StartVisits(q: seq<ReadinessNode>, items: seq<Queued>, refs: seq<int>)
      requires Valid() && q == Data(chain) && items == Items(q) && refs == Refs(q)
      ensures Nodes(q) && VisitedUpTo(q, items, refs, 0) && At(q, items, 0, null)
      ensures items[..0] == [] && items[0..] == items && ReportsOf([]) == []
    {
      hide Valid, Nodes;
      ChainNodes();
      assert q[0..] == q;
      forall i: nat ensures NodeOk(q, items, refs, 0, i) {}
    }

    lemma ChainNodes()
      requires Valid()
      ensures Nodes(Data(chain))
    {
      DataMember(chain);
    }

    /** When the caller's list is full already, at least the sleep marker goes. */
    method MakeReady(dst: Events, ghost q: seq<ReadinessNode>, ghost items: seq<Queued>, ghost refs: seq<int>)
      requires Valid() && VisitedUpTo(q, items, refs, 0) && At(q, items, 0, null)
      modifies this, known`next
      ensures Valid() && known == old(known) && VisitedUpTo(q, items, refs, 0) && At(q, items, 0, null)
    {
      hide Valid;
      if |dst.list| == dst.capacity {
        ClearSleepMarker();
        forall i: nat ensures NodeOk(q, items, refs, 0, i) { assert old(NodeOk(q, items, refs, 0, i)); }
      }
    }
  }

  lemma VisitedStep(items: seq<Queued>, k: nat, room: nat)
    requires k <= |items| && room > 0
    ensures k < |items| ==>
      (var r := Reports(items[k]);
       && Visited(items[k..], room) == 1 + Visited(items[k + 1..], if r then room - 1 else room)
       && ReportsOf(items[..k + 1]) == ReportsOf(items[..k]) + if r then [ReportOf(items[k])] else [])
  {
    if k < |items| {
      assert items[k..][1..] == items[k + 1..] && items[..k + 1][..k] == items[..k];
    }
  }

  lemma VisitedEnd(items: seq<Queued>, k: nat, room: nat)
    requires k == |items| || (k < |items| && room == 0)
    ensures Visited(items[k..], room) == 0
  {}

  const READABLE := Flags(true, false, false, false)
  const ONESHOT := Flags(false, false, true, false)

  // ---------------------------------------------------------------------------------------------
  // Oneshot
  // ---------------------------------------------------------------------------------------------

  /**
    What a visit does to a live node: it reads the published token; an edge-triggered node leaves the queue, and
    with oneshot is disarmed if it fired; any other node stays queued exactly while it has something to report.
   */
  lemma VisitMeaning(w: Word)
    requires w.queued && !w.dropped
    ensures var w' := PollNext(w);
      && w'.rd == w.wr && w'.wr == w.wr && w'.readiness == w.readiness && w'.opt == w.opt && !w'.dropped
      && (Edge(w) ==> !w'.queued)
      && (!Edge(w) ==> (w'.queued <==> Effective(w) != NONE) && w'.interest == w.interest)
      && (Edge(w) && Oneshot(w) && Effective(w) != NONE ==> w'.interest == NONE && Effective(w') == NONE)
      && (!(Edge(w) && Oneshot(w) && Effective(w) != NONE) ==> w'.interest == w.interest)
  {}

  /** Any number of calls of `set_readiness`. */
  function Sets(w: Word, ready: seq<Flags>): Word {
    if ready == [] then w else SetNext(Sets(w, ready[..|ready| - 1]), ready[|ready| - 1])
  }

  lemma {:induction false} SetsDisarmed(w: Word, ready: seq<Flags>)
    requires w.interest == NONE && !w.queued
    ensures Sets(w, ready).interest == NONE && !Sets(w, ready).queued
  {
    if ready == [] {
    } else {
      SetsDisarmed(w, ready[..|ready| - 1]);
    }
  }

  /**
    Once poll has reported a oneshot node, no call of `set_readiness` gives it anything to report again or queues it,
    if and only if the node is also edge-triggered.
   */
  lemma OneshotSilences(w: Word)
    requires w.queued && !w.dropped && Oneshot(w) && Effective(w) != NONE
    ensures Edge(w) <==> forall ready :: Effective(Sets(PollNext(w), ready)) == NONE && !Sets(PollNext(w), ready).queued
  {
    hide PollNext;
    VisitMeaning(w);
    if Edge(w) {
      forall ready ensures Effective(Sets(PollNext(w), ready)) == NONE && !Sets(PollNext(w), ready).queued {
        SetsDisarmed(PollNext(w), ready);
      }
    } else {
      assert Sets(PollNext(w), []).queued;
    }
  }

  /** Oneshot without edge: nothing happens between two calls of poll, and both report the node. */
  method LevelOneshotTwice() returns (first: seq<Report>, second: seq<Report>)
    ensures first == second == [Report(0, READABLE, 7)]
  {
    hide ReadinessQueue.Valid, ReadinessQueue.Data;
    var queue := EmptyQueue();
    var n := new ReadinessNode(0, Word(READABLE, READABLE, ONESHOT, 0, 0, true, false), [7, 0, 0], 3);
    queue.DataSnoc(queue.chain, n);
    var _ := queue.EnqueueNode(n);
    first := PollOne(queue, n);
    second := PollOne(queue, n);
  }

  method EmptyQueue() returns (queue: ReadinessQueue)
    ensures fresh(queue) && fresh(queue.known) && queue.Valid() && queue.Data(queue.chain) == []
    ensures queue.chain == [queue.endMarker] && queue.sleepMarker in queue.known && fresh(queue.closedMarker)
  {
    var end := new ReadinessNode(0, ZeroWord, [0, 0, 0], 1);
    var sleep := new ReadinessNode(0, ZeroWord, [0, 0, 0], 1);
    var closed := new ReadinessNode(0, ZeroWord, [0, 0, 0], 1);
    queue := new ReadinessQueue(end, sleep, closed);
    queue.DataSnoc([], end);
    assert [] + [end] == [end];
  }

  /** One poll of a queue that holds just a level-triggered node. */
  method PollOne(queue: ReadinessQueue, n: ReadinessNode) returns (reports: seq<Report>)
    requires queue.Valid() && queue.Data(queue.chain) == [n]
    requires n.word.queued && !n.word.dropped && !Edge(n.word) && Effective(n.word) != NONE && n.word.rd == n.word.wr
    modifies queue, queue.known
    ensures queue.Valid() && queue.Data(queue.chain) == [n] && n.word == old(n.word) && n.slots == old(n.slots)
    ensures queue.known == old(queue.known)
    ensures reports == [Report(n.id, Effective(n.word), n.slots[n.word.wr])]
  {
    hide ReadinessQueue.Valid, ReadinessQueue.Data;
    var dst := new Events(16);
    ghost var items, refs := queue.Items([n]), queue.Refs([n]);
    assert items == [Queued(n.id, n.word, n.slots)];
    ghost var q := [n];
    queue.Poll(dst);
    assert Visited(items, 16) == 1;
    assert queue.Kept(q, items, 1) == [n];
    assert queue.NodeOk(q, items, refs, 1, 0);
    reports := dst.list;
  }
}
