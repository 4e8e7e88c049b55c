/** OSC strings: what the machine dispatches for a whole string. */
module VtOsc {
  import opened Utf8
  import opened Vt

  /** A byte that is part of an OSC string, or ignored in it. */
  predicate Inside(b: byte) { b != 0x07 && !Cancel(b) && b != Esc }

  /** The bytes of a payload that are not ignored. */
  function Kept(payload: seq<byte>): seq<byte> {
    if payload == [] then []
    else Kept(payload[..|payload| - 1]) + if Control(payload[|payload| - 1]) then [] else [payload[|payload| - 1]]
  }

  /** The pieces of a string between its separators. */
  function Split(s: seq<byte>): (r: seq<seq<byte>>)
    ensures |r| > 0
  {
    if s == [] then [[]]
    else
      var before, b := Split(s[..|s| - 1]), s[|s| - 1];
      if b == Semicolon then before + [[]]
      else before[..|before| - 1] + [before[|before| - 1] + [b]]
  }

  function JoinPieces(pieces: seq<seq<byte>>): seq<byte>
    requires |pieces| > 0
  {
    if |pieces| == 1 then pieces[0]
    else JoinPieces(pieces[..|pieces| - 1]) + [Semicolon] + pieces[|pieces| - 1]
  }

  ghost predicate NoSemicolon(pieces: seq<seq<byte>>) {
    forall i :: 0 <= i < |pieces| ==> Semicolon !in pieces[i]
  }

  /** The pieces hold no separator, and with separators between them they are the string. */
  lemma {:induction false} SplitMeaning(s: seq<byte>)
    ensures JoinPieces(Split(s)) == s && NoSemicolon(Split(s))
  {
    if s == [] {
    } else {
      var t, b := s[..|s| - 1], s[|s| - 1];
      SplitMeaning(t);
      assert s == t + [b];
      var before := Split(t);
      if b == Semicolon { JoinNext(before, []); } else { JoinByte(before, b); }
    }
  }

  lemma JoinNext(pieces: seq<seq<byte>>, piece: seq<byte>)
    requires |pieces| > 0
    ensures JoinPieces(pieces + [piece]) == JoinPieces(pieces) + [Semicolon] + piece
  {
    assert (pieces + [piece])[..|pieces|] == pieces;
  }

  lemma JoinByte(pieces: seq<seq<byte>>, b: byte)
    requires |pieces| > 0 && NoSemicolon(pieces) && b != Semicolon
    ensures var longer := pieces[..|pieces| - 1] + [pieces[|pieces| - 1] + [b]];
      JoinPieces(longer) == JoinPieces(pieces) + [b] && NoSemicolon(longer)
  {
    var front, last := pieces[..|pieces| - 1], pieces[|pieces| - 1];
    if front == [] {
      assert front + [last + [b]] == [last + [b]];
    } else {
      JoinNext(front, last + [b]);
      assert JoinPieces(front) + [Semicolon] + (last + [b]) == JoinPieces(front) + [Semicolon] + last + [b];
    }
  }

  function Take(pieces: seq<seq<byte>>, n: nat): seq<seq<byte>> {
    if |pieces| <= n then pieces else pieces[..n]
  }

  /** The machine has read the string s. */
  ghost predicate Holds(o: Osc, s: seq<byte>) {
    var pieces := Split(s);
    && o.pieces == Take(pieces[..|pieces| - 1], MaxPieces)
    && (|pieces| <= MaxPieces ==> o.current == pieces[|pieces| - 1])
  }

  lemma ReadByte(o: Osc, s: seq<byte>, b: byte)
    requires Holds(o, s) && Inside(b)
    ensures var (vt, events) := NextOsc(o, b);
      && events == [] && vt == InOsc(vt.osc)
      && Holds(vt.osc, if Control(b) then s else s + [b])
  {
    if !Control(b) { assert (s + [b])[..|s + [b]| - 1] == s; }
  }

  lemma NextInOsc(o: Osc, b: byte)
    ensures Next(InOsc(o), b) == NextOsc(o, b)
  {}

  lemma {:induction false} ReadAll(payload: seq<byte>)
    requires forall i :: 0 <= i < |payload| ==> Inside(payload[i])
    ensures var o := Fold(InOsc(NoOsc), payload); o.events == [] && o.vt == InOsc(o.vt.osc) && Holds(o.vt.osc, Kept(payload))
  {
    if payload != [] {
      hide Next, NextOsc;
      var before, b := payload[..|payload| - 1], payload[|payload| - 1];
      ReadAll(before);
      var o := Fold(InOsc(NoOsc), before);
      assert payload == before + [b];
      FoldConcat(InOsc(NoOsc), before, [b]);
      FoldOne(o.vt, b);
      ReadByte(o.vt.osc, Kept(before), b);
      assert Control(b) ==> Kept(payload) == Kept(before);
      NextInOsc(o.vt.osc, b);
    } else {
      assert Split([])[..0] == [];
    }
  }

  lemma SeparateTakes(o: Osc, s: seq<byte>)
    requires Holds(o, s)
    ensures Separate(o).pieces == Take(Split(s), MaxPieces)
  {
    var pieces := Split(s);
    assert pieces == pieces[..|pieces| - 1] + [pieces[|pieces| - 1]];
  }

  /**
    ESC ] payload and a terminator: one dispatch of the first sixteen pieces of the payload without its ignored
    bytes, with the way it ended; CAN and SUB are executed after it, and ESC begins a new sequence.
   */
  lemma OscDispatches(payload: seq<byte>, end: byte)
    requires forall i :: 0 <= i < |payload| ==> Inside(payload[i])
    requires !Inside(end)
    ensures Fold(Grounded([]), [Esc, 0x5D] + payload + [end]) ==
      Out(if end == Esc then Plain(Escape) else Grounded([]),
          [OscDispatch(Take(Split(Kept(payload)), MaxPieces), end == 0x07)] + if Cancel(end) then [Execute(end)] else [])
  {
    hide Fold, Kept, Split, Take, Holds;
    var o := Fold(InOsc(NoOsc), payload);
    ReadAll(payload);
    SeparateTakes(o.vt.osc, Kept(payload));
    Enter();
    FoldConcat(Grounded([]), [Esc, 0x5D], payload);
    FoldConcat(Grounded([]), [Esc, 0x5D] + payload, [end]);
    FoldOne(o.vt, end);
  }

  lemma Enter()
    ensures Fold(Grounded([]), [Esc, 0x5D]) == Out(InOsc(NoOsc), [])
  {
    assert [Esc, 0x5D][1..] == [0x5D] && [0x5D][1..] == [];
    assert Fold(Plain(Escape), [0x5D]) == Out(InOsc(NoOsc), []);
  }
}
