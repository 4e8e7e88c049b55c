/**
  Input in chunks: when several calls of `copa::Parser::advance` amount to one, and exactly when a call differs
  from the byte-at-a-time machine.
*/
module VtChunks {
  import opened Utf8
  import opened Vt
  import opened VtGround
  import opened VtAdvance

  // ---------------------------------------------------------------------------------------------
  // Machines that can be reached
  // ---------------------------------------------------------------------------------------------

  ghost predicate GroupsOk(groups: seq<seq<nat>>) {
    forall i {:trigger groups[i]} :: 0 <= i < |groups| ==> groups[i] != [] && forall j :: 0 <= j < |groups[i]| ==> groups[i][j] <= U16Max
  }

  ghost predicate DataOk(d: Data) {
    && |d.inter| <= MaxIntermediates
    && GroupsOk(d.params) && (forall j :: 0 <= j < |d.open| ==> d.open[j] <= U16Max)
    && Count(d.params) + |d.open| <= MaxParams
    && d.param <= U16Max
  }

  predicate Collects(state: State) {
    state == EscapeIntermediate || state == CsiParam || state == CsiIntermediate || state == DcsParam || state == DcsIntermediate
  }

  ghost predicate WellFormed(vt: Vt) {
    && Carries(vt)
    && (!Collects(vt.state) ==> vt.data == NoData)
    && (vt.state != OscString ==> vt.osc == NoOsc)
    && DataOk(vt.data) && |vt.osc.pieces| <= MaxPieces
  }

  lemma ParamOk(d: Data, b: byte)
    requires DataOk(d)
    ensures DataOk(Param(d, b)) && DataOk(Collect(d, b))
  {
    hide GroupsOk, Count;
    if !Full(d) {
      CountPush(d.params, d.open + [d.param]);
      GroupsPush(d.params, d.open + [d.param]);
    }
  }

  lemma GroupsPush(groups: seq<seq<nat>>, group: seq<nat>)
    requires GroupsOk(groups) && group != [] && forall j :: 0 <= j < |group| ==> group[j] <= U16Max
    ensures GroupsOk(groups + [group])
  {}

  lemma CountPush(groups: seq<seq<nat>>, group: seq<nat>)
    ensures Count(groups + [group]) == Count(groups) + |group|
  {
    assert (groups + [group])[..|groups|] == groups;
  }

  lemma NextWellFormed(vt: Vt, b: byte)
    requires WellFormed(vt)
    ensures WellFormed(Next(vt, b).0)
  {
    match vt.state
    case Ground => GroundWellFormed(vt.pending, b);
    case CsiEntry | CsiIgnore | CsiIntermediate | CsiParam => SequenceWellFormed(vt, b);
    case DcsEntry | DcsIgnore | DcsIntermediate | DcsParam => SequenceWellFormed(vt, b);
    case Escape => EscapeWellFormed(b);
    case EscapeIntermediate => EscapeIntermediateWellFormed(vt, b);
    case OscString => OscWellFormed(vt.osc, b);
    case DcsPassthrough | SosString | PmString | ApcString => assert DataOk(NoData);
  }

  lemma SequenceWellFormed(vt: Vt, b: byte)
    requires WellFormed(vt)
    ensures vt.state.CsiEntry? || vt.state.CsiIgnore? || vt.state.CsiIntermediate? || vt.state.CsiParam? ==> WellFormed(NextCsi(vt, b).0)
    ensures vt.state.DcsEntry? || vt.state.DcsIgnore? || vt.state.DcsIntermediate? || vt.state.DcsParam? ==> WellFormed(NextDcs(vt, b).0)
  {
    hide WellFormed, NextCsi, NextDcs;
    if vt.state.CsiEntry? || vt.state.CsiIgnore? || vt.state.CsiIntermediate? || vt.state.CsiParam? {
      CsiWellFormed(vt, b);
    } else if vt.state.DcsEntry? || vt.state.DcsIgnore? || vt.state.DcsIntermediate? || vt.state.DcsParam? {
      DcsWellFormed(vt, b);
    }
  }

  lemma CsiWellFormed(vt: Vt, b: byte)
    requires WellFormed(vt) && (vt.state.CsiEntry? || vt.state.CsiIgnore? || vt.state.CsiIntermediate? || vt.state.CsiParam?)
    ensures WellFormed(NextCsi(vt, b).0)
  {
    assert DataOk(NoData);
    ParamOk(vt.data, b);
    hide DataOk, Param, Collect, Close, Groups, DecodeOne;
  }

  lemma DcsWellFormed(vt: Vt, b: byte)
    requires WellFormed(vt) && (vt.state.DcsEntry? || vt.state.DcsIgnore? || vt.state.DcsIntermediate? || vt.state.DcsParam?)
    ensures WellFormed(NextDcs(vt, b).0)
  {
    assert DataOk(NoData);
    ParamOk(vt.data, b);
    hide DataOk, Param, Collect, Close, Groups, DecodeOne;
  }

  lemma EscapeWellFormed(b: byte)
    ensures WellFormed(NextEscape(b).0)
  {
    assert DataOk(NoData);
    ParamOk(NoData, b);
    hide DataOk, Param, Collect, DecodeOne;
  }

  lemma EscapeIntermediateWellFormed(vt: Vt, b: byte)
    requires WellFormed(vt)
    ensures WellFormed(NextEscapeIntermediate(vt.data, b).0)
  {
    assert DataOk(NoData);
    ParamOk(vt.data, b);
    hide DataOk, Param, Collect, DecodeOne;
  }

  lemma OscWellFormed(o: Osc, b: byte)
    requires |o.pieces| <= MaxPieces
    ensures WellFormed(NextOsc(o, b).0)
  {
    assert DataOk(NoData);
  }

  lemma GroundWellFormed(p: seq<byte>, b: byte)
    ensures WellFormed(NextGround(p, b).0)
    decreases |p|
  {
    assert DataOk(NoData);
    if b != Esc && p != [] && DecodeOne(p + [b]).Bad? { GroundWellFormed([], b); }
  }

  lemma {:induction false} FoldWellFormed(vt: Vt, bytes: seq<byte>)
    requires WellFormed(vt)
    ensures WellFormed(Fold(vt, bytes).vt)
    decreases |bytes|
  {
    if bytes == [] {
    } else {
      NextWellFormed(vt, bytes[0]);
      FoldWellFormed(Next(vt, bytes[0]).0, bytes[1..]);
    }
  }

  lemma AdvanceWellFormed(vt: Vt, bytes: seq<byte>)
    requires WellFormed(vt)
    ensures WellFormed(AdvanceOut(vt, bytes).vt)
  {
    hide Fold, Next;
    if vt.pending == [] {
      FoldWellFormed(vt, bytes);
    } else {
      PartialReads(vt.pending, bytes);
      PartialMeaning(vt.pending, bytes);
      var part := PartialPart(vt.pending, bytes);
      assert DataOk(NoData);
      FoldWellFormed(part.vt, bytes[part.read..]);
    }
  }

  // ---------------------------------------------------------------------------------------------
  // A glitch is visible
  // ---------------------------------------------------------------------------------------------

  /** A call that only the ground state makes, for something above ASCII. */
  predicate High(e: Event) { (e.Print? && e.code >= 0x80) || (e.Execute? && e.control >= 0x80) }

  /** States inside a sequence that has made no call yet. */
  predicate Quiet(state: State) {
    match state
    case CsiEntry | CsiIgnore | CsiIntermediate | CsiParam => true
    case DcsEntry | DcsIgnore | DcsIntermediate | DcsParam => true
    case Escape | EscapeIntermediate | OscString => true
    case _ => false
  }

  lemma NextQuiet(vt: Vt, b: byte)
    requires Quiet(vt.state)
    ensures var (vt', events) := Next(vt, b);
      && (events != [] ==> b < 0x80 && !High(events[0]))
      && (b == Esc ==> vt' == Plain(Escape))
      && (events == [] && b != Esc ==> Quiet(vt'.state) || (vt' == Grounded([]) && 0x40 <= b <= 0x7E))
      && (b >= 0x80 ==> Quiet(vt'.state))
  {}

  lemma NextAbove(p: seq<byte>, b: byte)
    requires p == [] || (DecodeOne(p).Incomplete? && Length(p[0]) > 1)
    ensures var (vt', events) := NextGround(p, b);
      && (p != [] && b < 0x80 ==> events != [] && events[0] == Print(Replacement))
      && (b < 0x80 && b != Esc ==> vt' == Grounded([]))
      && (b != Esc ==> vt' == Grounded(vt'.pending) && (vt'.pending == [] || DecodeOne(vt'.pending).Incomplete?))
      && (b >= 0x80 ==> (events != [] && High(events[0])) || (events == [] && vt'.pending != []))
      && (b == Esc ==> vt' == Plain(Escape) && events == if p == [] then [] else [Print(Replacement)])
  {
    if p != [] {
      IncompleteMeaning(p);
      assert (p + [b])[0] == p[0];
      if DecodeOne(p + [b]).Good? { EncodeDecoded(p + [b]); PartialSize(p, p + [b]); AboveAscii(p + [b]); }
    }
  }

  lemma NextGrounded(p: seq<byte>, b: byte)
    ensures Next(Grounded(p), b) == NextGround(p, b)
  {}

  lemma AboveAscii(s: seq<byte>)
    requires s != [] && Length(s[0]) > 1 && DecodeOne(s).Good?
    ensures DecodeOne(s).code >= 0x80
  {}

  lemma LeadIsLong(p: seq<byte>)
    requires p != [] && DecodeOne(p).Incomplete?
    ensures Length(p[0]) > 1
  {}

  /**
    Two machines that read the same bytes, one in the ground state with something above ASCII read or dispatched,
    one inside a quiet sequence, never make the same calls and end in the same state.
   */
  lemma {:induction false} Diverge(made: seq<Event>, p: seq<byte>, vt: Vt, s: seq<byte>)
    requires Quiet(vt.state) && (p == [] || DecodeOne(p).Incomplete?)
    requires if made == [] then p != [] else High(made[0])
    ensures After(made, Fold(Grounded(p), s)) != Fold(vt, s)
    decreases |s|
  {
    if s == [] {
    } else {
      hide Next, DecodeOne;
      var b := s[0];
      if p != [] { LeadIsLong(p); }
      NextQuiet(vt, b);
      NextAbove(p, b);
      var (g, more) := NextGround(p, b);
      var (q, quiet) := Next(vt, b);
      var made' := made + more;
      NextGrounded(p, b);
      AfterAfter(made, more, Fold(g, s[1..]));
      assert After(made, Fold(Grounded(p), s)) == After(made', Fold(g, s[1..]));
      assert Fold(vt, s) == After(quiet, Fold(q, s[1..]));
      if quiet != [] {
        assert made' != [] && High(made'[0]);
        assert After(made', Fold(g, s[1..])).events[0] == made'[0] && After(quiet, Fold(q, s[1..])).events[0] == quiet[0];
      } else if b == Esc || !Quiet(q.state) {
        assert g == q && |made'| > 0;
      } else {
        Diverge(made', g.pending, q, s[1..]);
      }
    }
  }

  /** ESC before a byte above ASCII matters. */
  lemma LostEsc(s: seq<byte>)
    requires s != [] && s[0] >= 0x80
    ensures Fold(Plain(Escape), s) != Fold(Grounded([]), s)
  {
    hide Next, NextGround, DecodeOne;
    var b := s[0];
    NextAbove([], b);
    NextGrounded([], b);
    EscIgnores(b);
    var (g, made) := NextGround([], b);
    Diverge(made, g.pending, Plain(Escape), s[1..]);
  }

  lemma EscIgnores(b: byte)
    requires b >= 0x80
    ensures Next(Plain(Escape), b) == (Plain(Escape), [])
  {}

  /** No ASCII byte before a byte above ASCII can be left out in the ground state. */
  lemma LostByte(b: byte, s: seq<byte>)
    requires b < 0x80 && s != [] && s[0] >= 0x80
    ensures Fold(Grounded([]), [b] + s) != Fold(Grounded([]), s)
  {
    assert ([b] + s)[1..] == s;
    if b == Esc {
      FoldEsc([], s);
      LostEsc(s);
    } else {
      assert NextGround([], b) == (Grounded([]), [Dispatch(b)]);
    }
  }

  /** A glitch makes a difference, whatever follows. */
  lemma GlitchDiffers(vt: Vt, bytes: seq<byte>)
    requires WellFormed(vt) && Glitch(vt, bytes)
    ensures AdvanceOut(vt, bytes) != Fold(vt, bytes)
  {
    hide Fold, Check, PartialPart, DecodeOne;
    var p := vt.pending;
    assert vt == Grounded(p);
    PartialReads(p, bytes);
    PartialMeaning(p, bytes);
    FoldCarried(p, bytes);
    GlitchMeaning(p, bytes);
    TwoByteChar(p, bytes);
    var d := DecodeOne(p + bytes);
    assert d.size == 2;
    var tail := bytes[1..];
    if LosesByte(bytes) {
      var rest := bytes[2..];
      assert tail == [bytes[1]] + rest && rest[0] == bytes[2];
      LostByte(bytes[1], rest);
      assert AdvanceOut(vt, bytes) == After([Print(d.code)], Fold(Grounded([]), rest));
      assert Fold(vt, bytes) == After([Dispatch(d.code)], Fold(Grounded([]), tail));
      SameStart(Print(d.code), Fold(Grounded([]), rest), Dispatch(d.code), Fold(Grounded([]), tail));
    } else {
      SameStart(Print(d.code), Fold(Grounded([]), tail), Dispatch(d.code), Fold(Grounded([]), tail));
    }
  }

  lemma SameStart(e: Event, a: Out, f: Event, b: Out)
    ensures After([e], a) == After([f], b) <==> e == f && a == b
  {
    if After([e], a) == After([f], b) {
      assert ([e] + a.events)[0] == e && ([f] + b.events)[0] == f;
      assert ([e] + a.events)[1..] == a.events && ([f] + b.events)[1..] == b.events;
    }
  }

  /** One call of `advance` does what the machine does byte by byte, if and only if it is not one that goes wrong. */
  lemma AdvanceIsFold(vt: Vt, bytes: seq<byte>)
    requires WellFormed(vt)
    ensures AdvanceOut(vt, bytes) == Fold(vt, bytes) <==> !Glitch(vt, bytes)
  {
    if Glitch(vt, bytes) { GlitchDiffers(vt, bytes); } else { AdvanceAgrees(vt, bytes); }
  }

  /** A carried U+0080 is printed: ... */
  lemma ControlPrinted()
    ensures AdvanceOut(Grounded([0xC2]), [0x80]) == Out(Grounded([]), [Print(0x80)])
    ensures Fold(Grounded([0xC2]), [0x80]) == Out(Grounded([]), [Execute(0x80)])
  {
    FoldOne(Grounded([0xC2]), 0x80);
    PartialMeaning([0xC2], [0x80]);
    assert [0xC2] + [0x80] == [0xC2, 0x80];
    assert DecodeOne([0xC2, 0x80]) == Good(2, 0x80);
    FoldNothing(Grounded([]));
  }

  /** ... and the 'A' between a carried e-acute and the byte 0x80 is lost. */
  lemma LetterLost()
    ensures AdvanceOut(Grounded([0xC3]), [0xA9, 0x41, 0x80]) == Out(Grounded([]), [Print(0xE9), Execute(0x80)])
    ensures Fold(Grounded([0xC3]), [0xA9, 0x41, 0x80]) == Out(Grounded([]), [Print(0xE9), Print(0x41), Execute(0x80)])
  {
    var s: seq<byte> := [0xA9, 0x41, 0x80];
    assert [0xC3] + s == [0xC3, 0xA9, 0x41, 0x80] && DecodeOne([0xC3] + s) == Good(2, 0xE9);
    assert DecodeOne([0xC3]).Incomplete?;
    hide Fold, PartialPart, DecodeOne;
    LetterAndBad();
    CarriedLetter(s);
  }

  lemma CarriedLetter(s: seq<byte>)
    requires s == [0xA9, 0x41, 0x80] && DecodeOne([0xC3]).Incomplete? && DecodeOne([0xC3] + s) == Good(2, 0xE9)
    ensures AdvanceOut(Grounded([0xC3]), s) == After([Print(0xE9)], Fold(Grounded([]), [0x80]))
    ensures Fold(Grounded([0xC3]), s) == After([Print(0xE9)], Fold(Grounded([]), [0x41, 0x80]))
  {
    hide Fold, PartialPart, DecodeOne;
    PartialMeaning([0xC3], s);
    FoldCarried([0xC3], s);
    assert s[2..] == [0x80] && s[1..] == [0x41, 0x80];
  }

  lemma LetterAndBad()
    ensures Fold(Grounded([]), [0x80]) == Out(Grounded([]), [Execute(0x80)])
    ensures Fold(Grounded([]), [0x41, 0x80]) == Out(Grounded([]), [Print(0x41), Execute(0x80)])
  {
    FoldOne(Grounded([]), 0x80);
    assert [0x41, 0x80][1..] == [0x80];
    assert NextGround([], 0x41) == (Grounded([]), [Print(0x41)]);
  }

  // ---------------------------------------------------------------------------------------------
  // Several calls
  // ---------------------------------------------------------------------------------------------

  /** One call after another. */
  ghost function Feed(vt: Vt, chunks: seq<seq<byte>>): Out
    requires WellFormed(vt)
    decreases |chunks|
  {
    if chunks == [] then Out(vt, [])
    else
      var o := AdvanceOut(vt, chunks[0]);
      AdvanceWellFormed(vt, chunks[0]);
      After(o.events, Feed(o.vt, chunks[1..]))
  }

  /** None of these calls goes wrong. */
  ghost predicate Smooth(vt: Vt, chunks: seq<seq<byte>>)
    requires WellFormed(vt)
    decreases |chunks|
  {
    chunks == [] ||
    (AdvanceWellFormed(vt, chunks[0]);
     !Glitch(vt, chunks[0]) && Smooth(AdvanceOut(vt, chunks[0]).vt, chunks[1..]))
  }

  function Join(chunks: seq<seq<byte>>): seq<byte> {
    if chunks == [] then [] else chunks[0] + Join(chunks[1..])
  }

  /** However the input is cut up, when no call goes wrong, the calls amount to one run of the machine. */
  lemma {:induction false} ChunksAreFold(vt: Vt, chunks: seq<seq<byte>>)
    requires WellFormed(vt) && Smooth(vt, chunks)
    ensures Feed(vt, chunks) == Fold(vt, Join(chunks))
    decreases |chunks|
  {
    if chunks == [] {
    } else {
      var o := AdvanceOut(vt, chunks[0]);
      AdvanceWellFormed(vt, chunks[0]);
      AdvanceIsFold(vt, chunks[0]);
      ChunksAreFold(o.vt, chunks[1..]);
      FoldConcat(vt, chunks[0], Join(chunks[1..]));
    }
  }

  /** No call starts with a lead byte of a two-byte character carried over. */
  ghost predicate NoLeadCarried(vt: Vt, chunks: seq<seq<byte>>)
    requires WellFormed(vt)
    decreases |chunks|
  {
    chunks == [] ||
    (AdvanceWellFormed(vt, chunks[0]);
     !(|vt.pending| == 1 && TwoByteLead(vt.pending[0])) && NoLeadCarried(AdvanceOut(vt, chunks[0]).vt, chunks[1..]))
  }

  lemma {:induction false} NoLeadIsSmooth(vt: Vt, chunks: seq<seq<byte>>)
    requires WellFormed(vt) && NoLeadCarried(vt, chunks)
    ensures Smooth(vt, chunks)
    decreases |chunks|
  {
    if chunks == [] {
    } else {
      AdvanceWellFormed(vt, chunks[0]);
      NoLeadIsSmooth(AdvanceOut(vt, chunks[0]).vt, chunks[1..]);
    }
  }

  /** Two ways to cut up one input make the same calls and end in the same state. */
  lemma ChunkIndependence(vt: Vt, chunks: seq<seq<byte>>, others: seq<seq<byte>>)
    requires WellFormed(vt) && Join(chunks) == Join(others)
    requires NoLeadCarried(vt, chunks) && NoLeadCarried(vt, others)
    ensures Feed(vt, chunks) == Feed(vt, others)
  {
    NoLeadIsSmooth(vt, chunks);
    NoLeadIsSmooth(vt, others);
    ChunksAreFold(vt, chunks);
    ChunksAreFold(vt, others);
  }

  /** Cutting one call in two is harmless if and only if the second is not one that goes wrong. */
  lemma CutOnce(vt: Vt, a: seq<byte>, b: seq<byte>)
    requires WellFormed(vt) && !Glitch(vt, a) && !Glitch(vt, a + b)
    ensures var o := AdvanceOut(vt, a);
      && WellFormed(o.vt)
      && (After(o.events, AdvanceOut(o.vt, b)) == AdvanceOut(vt, a + b) <==> !Glitch(o.vt, b))
  {
    var o := AdvanceOut(vt, a);
    AdvanceWellFormed(vt, a);
    AdvanceIsFold(vt, a);
    AdvanceIsFold(vt, a + b);
    AdvanceIsFold(o.vt, b);
    FoldConcat(vt, a, b);
    SameEnd(o.events, AdvanceOut(o.vt, b), Fold(o.vt, b));
  }

  lemma SameEnd(made: seq<Event>, a: Out, b: Out)
    ensures After(made, a) == After(made, b) <==> a == b
  {
    if After(made, a) == After(made, b) {
      assert (made + a.events)[|made|..] == a.events && (made + b.events)[|made|..] == b.events;
    }
  }
}
