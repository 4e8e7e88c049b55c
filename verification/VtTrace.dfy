/**
  What holds of the calls `copa::Parser` makes over whole runs: strings are bracketed, and arguments are in range.
*/
module VtTrace {
  import opened Utf8
  import opened Vt
  import opened VtGround
  import opened VtAdvance
  import opened VtChunks

  // ---------------------------------------------------------------------------------------------
  // Brackets
  // ---------------------------------------------------------------------------------------------

  /** Which string the calls made so far have left open. */
  datatype Mode = Outside | InDcs | InSos | InPm | InApc | Broken

  predicate Opens(e: Event, m: Mode) {
    (e.Hook? && m == InDcs) || (e.SosStart? && m == InSos) || (e.PmStart? && m == InPm) || (e.ApcStart? && m == InApc)
  }

  predicate Fills(e: Event, m: Mode) {
    (e.Put? && m == InDcs) || (e.SosPut? && m == InSos) || (e.PmPut? && m == InPm) || (e.ApcPut? && m == InApc)
  }

  predicate Closes(e: Event, m: Mode) {
    (e.Unhook? && m == InDcs) || (e.SosEnd? && m == InSos) || (e.PmEnd? && m == InPm) || (e.ApcEnd? && m == InApc)
  }

  function Opened(e: Event): Mode {
    if e.Hook? then InDcs else if e.SosStart? then InSos else if e.PmStart? then InPm else if e.ApcStart? then InApc else Outside
  }

  predicate Alone(e: Event) {
    e.Print? || e.Execute? || e.EscDispatch? || e.CsiDispatch? || e.OscDispatch?
  }

  function Track(m: Mode, e: Event): Mode {
    if m == Outside then (if Alone(e) then Outside else if Opened(e) != Outside then Opened(e) else Broken)
    else if Fills(e, m) then m
    else if Closes(e, m) then Outside
    else Broken
  }

  function TrackAll(m: Mode, events: seq<Event>): Mode {
    if events == [] then m else Track(TrackAll(m, events[..|events| - 1]), events[|events| - 1])
  }

  lemma {:induction false} TrackConcat(m: Mode, a: seq<Event>, b: seq<Event>)
    ensures TrackAll(m, a + b) == TrackAll(TrackAll(m, a), b)
  {
    if b == [] {
      assert a + b == a;
    } else {
      TrackConcat(m, a, b[..|b| - 1]);
      assert (a + b)[..|a + b| - 1] == a + b[..|b| - 1];
    }
  }

  lemma TrackNone(m: Mode)
    ensures TrackAll(m, []) == m
  {}

  lemma TrackOne(m: Mode, e: Event)
    ensures TrackAll(m, [e]) == Track(m, e)
  {
    assert [e][..0] == [];
    assert TrackAll(m, []) == m;
  }

  lemma TrackTwo(m: Mode, e: Event, f: Event)
    ensures TrackAll(m, [e, f]) == Track(Track(m, e), f)
  {
    assert [e, f] == [e] + [f];
    TrackConcat(m, [e], [f]);
    TrackOne(m, e);
    TrackOne(Track(m, e), f);
  }

  function ModeOf(state: State): Mode {
    match state
    case DcsPassthrough => InDcs
    case SosString => InSos
    case PmString => InPm
    case ApcString => InApc
    case _ => Outside
  }

  lemma GroundTracks(p: seq<byte>, b: byte)
    ensures var (vt', events) := NextGround(p, b); TrackAll(Outside, events) == Outside && ModeOf(vt'.state) == Outside
    decreases |p|
  {
    TrackOne(Outside, Print(Replacement));
    TrackOne(Outside, DispatchBad([b]));
    TrackOne(Outside, DispatchBad(p));
    if b != Esc && DecodeOne(p + [b]).Good? { TrackOne(Outside, Dispatch(DecodeOne(p + [b]).code)); }
    if b != Esc && p != [] && DecodeOne(p + [b]).Bad? {
      GroundTracks([], b);
      TrackConcat(Outside, [DispatchBad(p)], NextGround([], b).1);
    }
  }

  lemma NextTracks(vt: Vt, b: byte)
    ensures var (vt', events) := Next(vt, b); TrackAll(ModeOf(vt.state), events) == ModeOf(vt'.state)
  {
    hide TrackAll, NextGround, Collect, Param, Close, Groups, Separate;
    var m := ModeOf(vt.state);
    var events := Next(vt, b).1;
    TrackNone(m);
    if vt.state == Ground {
      GroundTracks(vt.pending, b);
    } else {
      AtMostThree(vt, b);
      if |events| == 1 { assert events == [events[0]]; TrackOne(m, events[0]); }
      if |events| == 2 { assert events == [events[0], events[1]]; TrackTwo(m, events[0], events[1]); }
      if |events| == 3 {
        assert events == [events[0]] + [events[1], events[2]];
        TrackConcat(m, [events[0]], [events[1], events[2]]);
        TrackOne(m, events[0]);
        TrackTwo(Track(m, events[0]), events[1], events[2]);
      }
    }
  }

  lemma AtMostThree(vt: Vt, b: byte)
    requires vt.state != Ground
    ensures |Next(vt, b).1| <= 3
  {}

  /** Over any run of the machine, what the calls leave open is what the state says. */
  lemma {:induction false} FoldTracks(vt: Vt, bytes: seq<byte>)
    ensures TrackAll(ModeOf(vt.state), Fold(vt, bytes).events) == ModeOf(Fold(vt, bytes).vt.state)
    decreases |bytes|
  {
    if bytes != [] {
      hide Next, TrackAll;
      var (vt', events) := Next(vt, bytes[0]);
      NextTracks(vt, bytes[0]);
      FoldTracks(vt', bytes[1..]);
      TrackConcat(ModeOf(vt.state), events, Fold(vt', bytes[1..]).events);
    } else {
      assert Fold(vt, bytes).events == [];
    }
  }

  lemma AdvanceTracks(vt: Vt, bytes: seq<byte>)
    requires WellFormed(vt)
    ensures TrackAll(ModeOf(vt.state), AdvanceOut(vt, bytes).events) == ModeOf(AdvanceOut(vt, bytes).vt.state)
  {
    hide Fold, Next, TrackAll;
    if vt.pending == [] {
      FoldTracks(vt, bytes);
    } else {
      PartialReads(vt.pending, bytes);
      PartialMeaning(vt.pending, bytes);
      var part := PartialPart(vt.pending, bytes);
      FoldTracks(part.vt, bytes[part.read..]);
      TrackConcat(Outside, part.events, Fold(part.vt, bytes[part.read..]).events);
      TrackNone(Outside);
      if |part.events| == 1 {
        assert part.events == [part.events[0]];
        TrackOne(Outside, part.events[0]);
      }
    }
  }

  /** Over any sequence of calls of `advance`, whether or not some go wrong. */
  lemma {:induction false} FeedTracks(vt: Vt, chunks: seq<seq<byte>>)
    requires WellFormed(vt)
    ensures TrackAll(ModeOf(vt.state), Feed(vt, chunks).events) == ModeOf(Feed(vt, chunks).vt.state)
    decreases |chunks|
  {
    if chunks != [] {
      hide TrackAll, AdvanceOut;
      var o := AdvanceOut(vt, chunks[0]);
      AdvanceWellFormed(vt, chunks[0]);
      AdvanceTracks(vt, chunks[0]);
      FeedTracks(o.vt, chunks[1..]);
      TrackConcat(ModeOf(vt.state), o.events, Feed(o.vt, chunks[1..]).events);
    } else {
      assert Feed(vt, chunks).events == [];
    }
  }

  /** What that means: a string's bytes and its end come after its start with nothing but its bytes in between, ... */
  lemma {:induction false} Bracketed(events: seq<Event>, i: nat, m: Mode)
    requires TrackAll(Outside, events) != Broken && i < |events| && (Fills(events[i], m) || Closes(events[i], m))
    ensures exists j: nat :: j < i && Opens(events[j], m) && forall k :: j < k < i ==> Fills(events[k], m)
  {
    NotBroken(Outside, events, i);
    NotBroken(Outside, events, i + 1);
    assert events[..i + 1][..i] == events[..i];
    OpenedBefore(events[..i], m);
    var j: nat :| j < i && Opens(events[..i][j], m) && forall k :: j < k < i ==> Fills(events[..i][k], m);
    assert forall k :: j < k < i ==> events[k] == events[..i][k];
  }

  lemma {:induction false} OpenedBefore(events: seq<Event>, m: Mode)
    requires TrackAll(Outside, events) == m && m != Outside && m != Broken
    ensures exists j: nat :: j < |events| && Opens(events[j], m) && forall k :: j < k < |events| ==> Fills(events[k], m)
  {
    var n := |events| - 1;
    if Opens(events[n], m) {
    } else {
      OpenedBefore(events[..n], m);
      var j: nat :| j < n && Opens(events[..n][j], m) && forall k :: j < k < n ==> Fills(events[..n][k], m);
      assert forall k :: j < k < n ==> events[k] == events[..n][k];
      assert Opens(events[j], m) && forall k :: j < k < |events| ==> Fills(events[k], m);
    }
  }

  lemma {:induction false} NotBroken(m: Mode, events: seq<Event>, i: nat)
    requires TrackAll(m, events) != Broken && i <= |events|
    ensures TrackAll(m, events[..i]) != Broken
    decreases |events|
  {
    if i == |events| {
      assert events[..i] == events;
    } else {
      NotBroken(m, events[..|events| - 1], i);
      assert events[..|events| - 1][..i] == events[..i];
    }
  }

  /** ... and after a start, the first call that is not a byte of the string is its end. */
  lemma {:induction false} EndsNext(events: seq<Event>, i: nat, j: nat, m: Mode)
    requires TrackAll(Outside, events) != Broken && i < j < |events| && Opens(events[i], m)
    requires forall k :: i < k < j ==> Fills(events[k], m)
    ensures Fills(events[j], m) || Closes(events[j], m)
  {
    NotBroken(Outside, events, j + 1);
    assert events[..j + 1][..j] == events[..j];
    StaysOpen(events, i, j, m);
  }

  lemma {:induction false} StaysOpen(events: seq<Event>, i: nat, j: nat, m: Mode)
    requires TrackAll(Outside, events) != Broken && i < j <= |events| && Opens(events[i], m)
    requires forall k :: i < k < j ==> Fills(events[k], m)
    ensures TrackAll(Outside, events[..j]) == m
  {
    NotBroken(Outside, events, j);
    assert events[..j][..j - 1] == events[..j - 1];
    if j == i + 1 {
    } else {
      StaysOpen(events, i, j - 1, m);
    }
  }

  // ---------------------------------------------------------------------------------------------
  // Arguments
  // ---------------------------------------------------------------------------------------------

  ghost predicate SequenceOk(params: seq<seq<nat>>, inter: seq<byte>) {
    params != [] && GroupsOk(params) && Count(params) <= MaxParams && |inter| <= MaxIntermediates
  }

  /** Sizes and ranges of what the performer is handed. */
  ghost predicate EventOk(e: Event) {
    match e
    case Print(c) => Scalar(c) && !(c < 0x20)
    case Execute(c) => c < 0x20 || 0x80 <= c <= 0x9F
    case EscDispatch(inter, _, final) => |inter| <= MaxIntermediates && 0x30 <= final <= 0x7E
    case CsiDispatch(params, inter, _, final) => SequenceOk(params, inter) && 0x40 <= final <= 0x7E
    case Hook(params, inter, _, final) => SequenceOk(params, inter) && 0x40 <= final <= 0x7E
    case OscDispatch(pieces, _) => 1 <= |pieces| <= MaxPieces
    case _ => true
  }

  ghost predicate AllOk(events: seq<Event>) {
    forall i {:trigger events[i]} :: 0 <= i < |events| ==> EventOk(events[i])
  }

  lemma CloseOk(d: Data)
    requires DataOk(d)
    ensures SequenceOk(Groups(Close(d)), d.inter)
  {
    if Full(d) {
      if d.open == [] { assert d.params + [] == d.params; } else { CountPush(d.params, d.open); }
      assert d.params == [] ==> Count(d.params) == 0;
    } else {
      CountPush(d.params, d.open + [d.param]);
      assert Groups(Close(d)) == d.params + [d.open + [d.param]];
    }
  }

  lemma GroundOk(p: seq<byte>, b: byte)
    requires p == [] || DecodeOne(p).Incomplete?
    ensures AllOk(NextGround(p, b).1)
    decreases |p|
  {
    if b != Esc && DecodeOne(p + [b]).Good? { EncodeDecoded(p + [b]); }
    if b != Esc && DecodeOne(p + [b]).Bad? {
      if p == [] { assert DecodeOne([b]).Bad? && [] + [b] == [b]; } else { LeadIsLong(p); GroundOk([], b); }
    }
  }

  lemma NextOk(vt: Vt, b: byte)
    requires WellFormed(vt)
    ensures AllOk(Next(vt, b).1)
  {
    match vt.state
    case Ground => GroundOk(vt.pending, b);
    case CsiEntry | CsiIgnore | CsiIntermediate | CsiParam => CsiOk(vt, b);
    case DcsEntry | DcsIgnore | DcsIntermediate | DcsParam => DcsOk(vt, b);
    case OscString => OscOk(vt.osc, b);
    case Escape | EscapeIntermediate => assert |vt.data.inter| <= MaxIntermediates;
    case DcsPassthrough | SosString | PmString | ApcString =>
  }

  lemma CsiOk(vt: Vt, b: byte)
    requires DataOk(vt.data)
    ensures AllOk(NextCsi(vt, b).1)
  {
    CloseOk(vt.data);
    hide DataOk, SequenceOk, Param, Collect, Close, Groups;
  }

  lemma DcsOk(vt: Vt, b: byte)
    requires DataOk(vt.data)
    ensures AllOk(NextDcs(vt, b).1)
  {
    CloseOk(vt.data);
    hide DataOk, SequenceOk, Param, Collect, Close, Groups;
  }

  lemma OscOk(o: Osc, b: byte)
    requires |o.pieces| <= MaxPieces
    ensures AllOk(NextOsc(o, b).1)
  {}

  /** Over any run of the machine, the calls are in order. */
  lemma {:induction false} FoldOk(vt: Vt, bytes: seq<byte>)
    requires WellFormed(vt)
    ensures AllOk(Fold(vt, bytes).events)
    decreases |bytes|
  {
    if bytes == [] {
    } else {
      hide Next, WellFormed, EventOk;
      NextWellFormed(vt, bytes[0]);
      NextOk(vt, bytes[0]);
      FoldOk(Next(vt, bytes[0]).0, bytes[1..]);
    }
  }

  /** Over any sequence of calls of `advance`, whether or not some go wrong. */
  lemma {:induction false} FeedOk(vt: Vt, chunks: seq<seq<byte>>)
    requires WellFormed(vt)
    ensures AllOk(Feed(vt, chunks).events)
    decreases |chunks|
  {
    if chunks == [] {
    } else {
      hide AdvanceOut, EventOk;
      AdvanceWellFormed(vt, chunks[0]);
      AdvanceOk(vt, chunks[0]);
      FeedOk(AdvanceOut(vt, chunks[0]).vt, chunks[1..]);
    }
  }

  lemma AdvanceOk(vt: Vt, bytes: seq<byte>)
    requires WellFormed(vt)
    ensures AllOk(AdvanceOut(vt, bytes).events)
  {
    hide Fold, PartialPart;
    if vt.pending == [] {
      FoldOk(vt, bytes);
    } else {
      PartialReads(vt.pending, bytes);
      PartialMeaning(vt.pending, bytes);
      var part := PartialPart(vt.pending, bytes);
      if DecodeOne(vt.pending + bytes).Good? { EncodeDecoded(vt.pending + bytes); TwoByteChar(vt.pending, bytes); }
      assert DataOk(NoData);
      FoldOk(part.vt, bytes[part.read..]);
    }
  }
}
