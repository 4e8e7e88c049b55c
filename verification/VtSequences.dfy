/**
  Escape, CSI and DCS sequences with any body, well-formed or not: which call the whole sequence comes to, told from its
  bytes alone.
*/
module VtSequences {
  import opened Utf8
  import opened Vt
  import opened VtChunks
  import opened VtCsi

  /** CAN, SUB and ESC end whatever is being read. */
  predicate Ends(b: byte) { Cancel(b) || b == Esc }

  predicate Final(b: byte) { 0x40 <= b <= 0x7E }

  predicate MarkerByte(b: byte) { 0x3C <= b <= 0x3F }

  predicate InterByte(b: byte) { 0x20 <= b <= 0x2F }

  /** Neither a C0 control nor DEL or above. */
  predicate Seen(b: byte) { 0x20 <= b < 0x7F }

  /** The bytes of a body that make up the sequence. */
  function Visible(body: seq<byte>): seq<byte> {
    if body == [] then [] else (if Seen(body[0]) then [body[0]] else []) + Visible(body[1..])
  }

  /** The calls its C0 controls are executed by. */
  function Executed(body: seq<byte>): seq<Event> {
    if body == [] then [] else (if body[0] < 0x20 then [Execute(body[0])] else []) + Executed(body[1..])
  }

  function FirstTwo(s: seq<byte>): seq<byte> { if |s| <= 2 then s else s[..2] }

  /** How a sequence ends that CAN, SUB or ESC cuts off. */
  function Ended(end: byte): Out {
    if end == Esc then Out(Plain(Escape), []) else Out(Grounded([]), [Execute(end)])
  }

  // ---------------------------------------------------------------------------------------------
  // Bodies of CSI and DCS sequences
  // ---------------------------------------------------------------------------------------------

  /** Inside a sequence: no byte that ends it. */
  ghost predicate Body(body: seq<byte>) { forall i :: 0 <= i < |body| ==> !Ends(body[i]) && !Final(body[i]) }

  /** What is visible is an optional marker, parameters, and intermediates, in this order. */
  ghost predicate Shaped(v: seq<byte>, m: seq<byte>, p: seq<byte>, i: seq<byte>) {
    && v == m + (p + i)
    && |m| <= 1 && (m != [] ==> MarkerByte(m[0]))
    && (forall k :: 0 <= k < |p| ==> ParamByte(p[k]))
    && (forall k :: 0 <= k < |i| ==> InterByte(i[k]))
  }

  ghost predicate Malformed(v: seq<byte>) { forall m, p, i :: !Shaped(v, m, p, i) }

  predicate Csi(st: State) { st == CsiEntry || st == CsiParam || st == CsiIntermediate || st == CsiIgnore }

  predicate Dcs(st: State) { st == DcsEntry || st == DcsParam || st == DcsIntermediate || st == DcsIgnore }

  /** Where a body is, by what it has shown. */
  function Place(dcs: bool, m: seq<byte>, p: seq<byte>, i: seq<byte>): State {
    if i != [] then (if dcs then DcsIntermediate else CsiIntermediate)
    else if m + p != [] then (if dcs then DcsParam else CsiParam)
    else if dcs then DcsEntry else CsiEntry
  }

  function Ignoring(dcs: bool): State { if dcs then DcsIgnore else CsiIgnore }

  function CollectAll(d: Data, s: seq<byte>): Data {
    if s == [] then d else Collect(CollectAll(d, s[..|s| - 1]), s[|s| - 1])
  }

  function Reads(m: seq<byte>, p: seq<byte>, i: seq<byte>): Data { CollectAll(ParamAll(CollectAll(NoData, m), p), i) }

  lemma UnseenNext(vt: Vt, b: byte)
    requires (Csi(vt.state) || Dcs(vt.state)) && !Ends(b) && !Seen(b)
    ensures Next(vt, b) == (vt, if b < 0x20 && Csi(vt.state) then [Execute(b)] else [])
  {
    hide Collect, Param, Close, Groups;
  }

  lemma SeenNext(dcs: bool, vt: Vt, b: byte)
    requires (if dcs then Dcs(vt.state) else Csi(vt.state)) && Seen(b) && !Final(b)
    ensures (if dcs then Dcs(Next(vt, b).0.state) else Csi(Next(vt, b).0.state)) && Next(vt, b).1 == []
  {
    hide Collect, Param, Close, Groups;
  }

  /** Unseen bytes change nothing; those of a CSI sequence are executed. */
  lemma {:induction false} FoldVisible(dcs: bool, vt: Vt, body: seq<byte>)
    requires (if dcs then Dcs(vt.state) else Csi(vt.state)) && Body(body)
    ensures var o := Fold(vt, Visible(body));
      && (if dcs then Dcs(o.vt.state) else Csi(o.vt.state)) && o.events == []
      && Fold(vt, body) == Out(o.vt, if dcs then [] else Executed(body))
    decreases |body|
  {
    if body == [] {
    } else {
      hide Next;
      var b := body[0];
      assert Body(body[1..]);
      if Seen(b) {
        SeenNext(dcs, vt, b);
        FoldVisible(dcs, Next(vt, b).0, body[1..]);
        assert Visible(body)[0] == b && Visible(body)[1..] == Visible(body[1..]);
      } else {
        UnseenNext(vt, b);
        FoldVisible(dcs, vt, body[1..]);
        assert Visible(body) == Visible(body[1..]);
      }
    }
  }

  lemma VisibleIsBody(body: seq<byte>)
    requires Body(body)
    ensures forall k :: 0 <= k < |Visible(body)| ==> 0x20 <= Visible(body)[k] < 0x40
  {}

  /** One more byte of a well-shaped body. */
  lemma ShapedNext(dcs: bool, m: seq<byte>, p: seq<byte>, i: seq<byte>, b: byte)
    requires 0x20 <= b < 0x40
    ensures var d := Reads(m, p, i);
      Next(With(Place(dcs, m, p, i), d), b) ==
        if InterByte(b) then (With(Place(dcs, m, p, i + [b]), Collect(d, b)), [])
        else if ParamByte(b) && i == [] then (With(Place(dcs, m, p + [b], i), Param(d, b)), [])
        else if MarkerByte(b) && m + p + i == [] then (With(Place(dcs, [b], p, i), Collect(d, b)), [])
        else (Plain(Ignoring(dcs)), [])
  {
    hide Collect, Param, Close, Groups, Reads;
  }

  /** The same on the whole body so far. */
  lemma ScanByte(dcs: bool, w: seq<byte>, m: seq<byte>, p: seq<byte>, i: seq<byte>, b: byte)
    requires 0x20 <= b < 0x40
    requires Fold(Plain(if dcs then DcsEntry else CsiEntry), w) == Out(With(Place(dcs, m, p, i), Reads(m, p, i)), [])
    ensures Fold(Plain(if dcs then DcsEntry else CsiEntry), w + [b]) == Out(
      if InterByte(b) then With(Place(dcs, m, p, i + [b]), Reads(m, p, i + [b]))
      else if ParamByte(b) && i == [] then With(Place(dcs, m, p + [b], i), Reads(m, p + [b], i))
      else if MarkerByte(b) && m + p + i == [] then With(Place(dcs, [b], p, i), Reads([b], p, i))
      else Plain(Ignoring(dcs)), [])
  {
    hide Next, Reads, Fold, Place;
    FoldConcat(Plain(if dcs then DcsEntry else CsiEntry), w, [b]);
    FoldOne(With(Place(dcs, m, p, i), Reads(m, p, i)), b);
    ShapedNext(dcs, m, p, i, b);
    ReadsMore(m, p, i, b);
  }

  lemma ReadsMore(m: seq<byte>, p: seq<byte>, i: seq<byte>, b: byte)
    ensures Reads(m, p, i + [b]) == Collect(Reads(m, p, i), b)
    ensures i == [] ==> Reads(m, p + [b], i) == Param(Reads(m, p, i), b)
    ensures m + p + i == [] ==> Reads([b], p, i) == Collect(Reads(m, p, i), b)
  {
    assert (i + [b])[..|i|] == i;
    hide Collect, Param;
    ParamConcat(CollectAll(NoData, m), p, [b]);
    assert forall d :: ParamAll(d, [b]) == ParamAll(Param(d, b), []);
    assert [b][..0] == [];
  }

  /** The visible part is well-shaped and read as such, or the sequence is ignored from some byte on. */
  lemma {:induction false} Scan(dcs: bool, v: seq<byte>) returns (m: seq<byte>, p: seq<byte>, i: seq<byte>)
    requires forall k :: 0 <= k < |v| ==> 0x20 <= v[k] < 0x40
    ensures var o := Fold(Plain(if dcs then DcsEntry else CsiEntry), v);
      || (Shaped(v, m, p, i) && o == Out(With(Place(dcs, m, p, i), Reads(m, p, i)), []))
      || o == Out(Plain(Ignoring(dcs)), [])
  {
    var start := Plain(if dcs then DcsEntry else CsiEntry);
    if v == [] {
      m, p, i := [], [], [];
      assert Shaped(v, m, p, i) && Reads(m, p, i) == NoData;
    } else {
      var w, b := v[..|v| - 1], v[|v| - 1];
      assert v == w + [b];
      m, p, i := Scan(dcs, w);
      hide Next, Reads, Fold, Shaped;
      if Fold(start, w) == Out(Plain(Ignoring(dcs)), []) {
        FoldConcat(start, w, [b]);
        FoldOne(Plain(Ignoring(dcs)), b);
        IgnoringNext(dcs, b);
      } else {
        ScanByte(dcs, w, m, p, i, b);
        m, p, i := ShapedMore(w, m, p, i, b);
      }
    }
  }

  lemma IgnoringNext(dcs: bool, b: byte)
    requires 0x20 <= b < 0x40
    ensures Next(Plain(Ignoring(dcs)), b) == (Plain(Ignoring(dcs)), [])
  {}

  lemma ShapedMore(w: seq<byte>, m: seq<byte>, p: seq<byte>, i: seq<byte>, b: byte)
    returns (m': seq<byte>, p': seq<byte>, i': seq<byte>)
    requires Shaped(w, m, p, i) && 0x20 <= b < 0x40
    ensures
      if InterByte(b) then (m', p', i') == (m, p, i + [b]) && Shaped(w + [b], m', p', i')
      else if ParamByte(b) && i == [] then (m', p', i') == (m, p + [b], i) && Shaped(w + [b], m', p', i')
      else if MarkerByte(b) && m + p + i == [] then (m', p', i') == ([b], p, i) && Shaped(w + [b], m', p', i')
      else true
  {
    if InterByte(b) {
      m', p', i' := m, p, i + [b];
      assert w + [b] == m + (p + (i + [b]));
    } else if ParamByte(b) && i == [] {
      m', p', i' := m, p + [b], i;
      assert w + [b] == m + ((p + [b]) + i);
    } else if MarkerByte(b) && m + p + i == [] {
      m', p', i' := [b], p, i;
      assert w + [b] == [b] + (p + i);
    } else {
      m', p', i' := m, p, i;
    }
  }

  // ---------------------------------------------------------------------------------------------
  // What has been read
  // ---------------------------------------------------------------------------------------------

  function Collected(d: Data, x: seq<byte>): Data { d.(inter := FirstTwo(x), ignoring := d.ignoring || |x| > 2) }

  lemma {:induction false} CollectsTwo(d: Data, s: seq<byte>)
    requires |d.inter| <= 2
    ensures CollectAll(d, s) == Collected(d, d.inter + s)
  {
    if s == [] {
      assert d.inter + s == d.inter;
    } else {
      hide Collect, Collected;
      var t, b := s[..|s| - 1], s[|s| - 1];
      CollectsTwo(d, t);
      assert d.inter + s == (d.inter + t) + [b];
      CollectOne(d, d.inter + t, b);
    }
  }

  lemma CollectOne(d: Data, x: seq<byte>, b: byte)
    ensures Collect(Collected(d, x), b) == Collected(d, x + [b])
  {}

  /** What a final byte hands over, of a body with marker m, groups gs and intermediates i. */
  lemma ReadsGroups(m: seq<byte>, gs: seq<seq<seq<byte>>>, i: seq<byte>)
    requires |m| <= 1 && gs != [] && Texts(gs)
    ensures var c := Close(Reads(m, Text(gs), i));
      && Groups(c) == VtCsi.Cut(AllValues(gs), MaxParams)
      && c.inter == FirstTwo(m + i)
      && (c.ignoring <==> |m + i| > 2 || Total(AllValues(gs)) > MaxParams)
  {
    hide ParamAll, Close, Groups, Text, Texts, AllValues, CollectAll;
    CollectsTwo(NoData, m);
    assert NoData.inter + m == m;
    var d := NoData.(inter := m);
    TextGroups(d, gs);
    CloseCollects(ParamAll(d, Text(gs)), i);
  }

  lemma CloseCollects(d: Data, i: seq<byte>)
    requires |d.inter| <= 1
    ensures var c := Close(CollectAll(d, i));
      && Groups(c) == Groups(Close(d)) && c.inter == FirstTwo(d.inter + i)
      && (c.ignoring <==> Close(d).ignoring || |d.inter + i| > 2)
  {
    CollectsTwo(d, i);
    hide CollectAll, FirstTwo;
  }

  // ---------------------------------------------------------------------------------------------
  // CSI
  // ---------------------------------------------------------------------------------------------

  lemma EnterCsi(body: seq<byte>, end: byte)
    requires Body(body)
    ensures var o := Fold(Plain(CsiEntry), Visible(body));
      && Csi(o.vt.state) && o.events == []
      && Fold(Grounded([]), [Esc, 0x5B] + (body + [end])) == After(Executed(body), Out(Next(o.vt, end).0, Next(o.vt, end).1))
  {
    hide Next, Executed, Visible;
    VtCsi.Enter();
    FoldConcat(Grounded([]), [Esc, 0x5B], body + [end]);
    FoldVisible(false, Plain(CsiEntry), body);
    FoldConcat(Plain(CsiEntry), body, [end]);
    FoldOne(Fold(Plain(CsiEntry), body).vt, end);
  }

  lemma NothingBefore(o: Out)
    ensures After([], o) == o
  {}

  /**
    ESC [, an optional private marker, any parameter text, any intermediates and a final byte: one dispatch of the
    groups of the text, cut to 32 values of at most 65535, with the first two of marker and intermediates; `ignore` is
    set if and only if there were more than 32 values or more than two of these.  C0 controls anywhere in between are
    executed, bytes from DEL on dropped, and neither changes the dispatch.
   */
  lemma CsiDispatched(body: seq<byte>, m: seq<byte>, gs: seq<seq<seq<byte>>>, i: seq<byte>, final: byte)
    requires Body(body) && Final(final) && gs != [] && Texts(gs) && Shaped(Visible(body), m, Text(gs), i)
    ensures Fold(Grounded([]), [Esc, 0x5B] + (body + [final])) ==
      Out(Grounded([]), Executed(body) +
        [CsiDispatch(VtCsi.Cut(AllValues(gs), MaxParams), FirstTwo(m + i), |m + i| > 2 || Total(AllValues(gs)) > MaxParams, final)])
  {
    hide Fold, Next, Executed, Visible, Shaped, Texts, Text;
    EnterCsi(body, final);
    VisibleIsBody(body);
    ScanShaped(false, Visible(body), m, Text(gs), i);
    CsiFinal(m, Text(gs), i, final);
    ShapedMarker(Visible(body), m, Text(gs), i);
    ReadsGroups(m, gs, i);
  }

  lemma ShapedMarker(v: seq<byte>, m: seq<byte>, p: seq<byte>, i: seq<byte>)
    requires Shaped(v, m, p, i)
    ensures |m| <= 1
  {}

  /** A well-shaped body is read as it is shaped, and nothing is ignored. */
  lemma {:induction false} ScanShaped(dcs: bool, v: seq<byte>, m: seq<byte>, p: seq<byte>, i: seq<byte>)
    requires Shaped(v, m, p, i)
    ensures Fold(Plain(if dcs then DcsEntry else CsiEntry), v) == Out(With(Place(dcs, m, p, i), Reads(m, p, i)), [])
    decreases |v|
  {
    if v == [] {
      assert m == [] && p == [] && i == [];
      assert Reads(m, p, i) == NoData;
    } else {
      hide Next, Reads, Fold, Place;
      var w, b := v[..|v| - 1], v[|v| - 1];
      assert v == w + [b];
      if i != [] {
        var i' := i[..|i| - 1];
        assert i == i' + [b] && w == m + (p + i');
        ScanShaped(dcs, w, m, p, i');
        ScanByte(dcs, w, m, p, i', b);
      } else if p != [] {
        var p' := p[..|p| - 1];
        assert p == p' + [b] && w == m + (p' + i);
        ScanShaped(dcs, w, m, p', i);
        ScanByte(dcs, w, m, p', i, b);
      } else {
        assert m == [b] && w == [] && w == [] + (p + i);
        ScanShaped(dcs, w, [], p, i);
        ScanByte(dcs, w, [], p, i, b);
      }
    }
  }

  lemma CsiFinal(m: seq<byte>, p: seq<byte>, i: seq<byte>, final: byte)
    requires Final(final)
    ensures var c := Close(Reads(m, p, i));
      Next(With(Place(false, m, p, i), Reads(m, p, i)), final) ==
        (Grounded([]), [CsiDispatch(Groups(c), Reads(m, p, i).inter, c.ignoring, final)])
    ensures Close(Reads(m, p, i)).inter == Reads(m, p, i).inter
  {
    hide Collect, Param, Groups, Reads, Count;
  }

  /** A body of any other shape is not dispatched: its controls are executed, and no other call is made. */
  lemma CsiIgnored(body: seq<byte>, final: byte)
    requires Body(body) && Final(final) && Malformed(Visible(body))
    ensures Fold(Grounded([]), [Esc, 0x5B] + (body + [final])) == Out(Grounded([]), Executed(body))
  {
    hide Fold, Executed, Visible, Shaped;
    EnterCsi(body, final);
    VisibleIsBody(body);
    var m, p, i := Scan(false, Visible(body));
    assert Executed(body) + [] == Executed(body);
  }

  /** Nor is one that CAN, SUB or ESC ends. */
  lemma CsiAborted(body: seq<byte>, end: byte)
    requires Body(body) && Ends(end)
    ensures Fold(Grounded([]), [Esc, 0x5B] + (body + [end])) == After(Executed(body), Ended(end))
  {
    hide Fold, Executed, Visible, Body, Collect, Param, Close, Groups;
    EnterCsi(body, end);
  }

  /** Every parameter text is the text of some groups. */
  lemma {:induction false} SomeGroups(p: seq<byte>) returns (gs: seq<seq<seq<byte>>>)
    requires forall k :: 0 <= k < |p| ==> ParamByte(p[k])
    ensures gs != [] && Texts(gs) && Text(gs) == p
  {
    if p == [] {
      gs := [[[]]];
    } else {
      hide Texts, Text, GroupText;
      var rest := SomeGroups(p[1..]);
      gs := Prepended(p[0], rest);
      assert p == [p[0]] + p[1..];
    }
  }

  lemma Prepended(b: byte, rest: seq<seq<seq<byte>>>) returns (gs: seq<seq<seq<byte>>>)
    requires ParamByte(b) && rest != [] && Texts(rest)
    ensures gs != [] && Texts(gs) && Text(gs) == [b] + Text(rest)
  {
    var g := rest[0];
    assert GroupText(g);
    if b == Semicolon {
      gs := [[[]]] + rest;
      assert gs[1..] == rest;
    } else {
      hide Text;
      var g' := PrependedGroup(b, g);
      gs := [g'] + rest[1..];
      FirstGroup(g', g, b, rest[1..]);
      assert rest == [g] + rest[1..];
    }
  }

  lemma PrependedGroup(b: byte, g: seq<seq<byte>>) returns (g': seq<seq<byte>>)
    requires ParamByte(b) && b != Semicolon && GroupText(g)
    ensures GroupText(g') && Colons(g') == [b] + Colons(g)
  {
    if b == Colon {
      g' := [[]] + g;
      assert g'[1..] == g;
    } else {
      assert Digits(g[0]);
      g' := [[b] + g[0]] + g[1..];
      assert g'[1..] == g[1..];
      assert Digits(g'[0]) && forall k :: 1 <= k < |g'| ==> g'[k] == g[k];
      assert |g| > 1 ==> [b] + g[0] + [Colon] + Colons(g[1..]) == [b] + (g[0] + [Colon] + Colons(g[1..]));
    }
  }

  lemma FirstGroup(g': seq<seq<byte>>, g: seq<seq<byte>>, b: byte, more: seq<seq<seq<byte>>>)
    requires Colons(g') == [b] + Colons(g)
    ensures Text([g'] + more) == [b] + Text([g] + more)
  {
    hide Colons;
    assert ([g'] + more)[1..] == more && ([g] + more)[1..] == more;
    assert [b] + Colons(g) + [Semicolon] + Text(more) == [b] + (Colons(g) + [Semicolon] + Text(more));
  }

  // ---------------------------------------------------------------------------------------------
  // DCS
  // ---------------------------------------------------------------------------------------------

  /** Inside a DCS payload. */
  ghost predicate Payload(s: seq<byte>) { forall i :: 0 <= i < |s| ==> !Ends(s[i]) && s[i] != 0x9C }

  /** DEL and what is above are not passed on. */
  function Puts(s: seq<byte>): seq<Event> {
    if s == [] then [] else (if s[0] < 0x7F then [Put(s[0])] else []) + Puts(s[1..])
  }

  lemma EnterDcs(header: seq<byte>, rest: seq<byte>)
    requires Body(header)
    ensures var o := Fold(Plain(DcsEntry), Visible(header));
      && Dcs(o.vt.state) && o.events == []
      && Fold(Grounded([]), [Esc, 0x50] + (header + rest)) == Fold(o.vt, rest)
  {
    assert [Esc, 0x50][1..] == [0x50] && [0x50][1..] == [];
    assert Fold(Plain(Escape), [0x50]) == Out(Plain(DcsEntry), []);
    assert Fold(Grounded([]), [Esc, 0x50]) == Out(Plain(DcsEntry), []);
    hide Next, Visible;
    FoldConcat(Grounded([]), [Esc, 0x50], header + rest);
    FoldVisible(true, Plain(DcsEntry), header);
    FoldConcat(Plain(DcsEntry), header, rest);
    NothingBefore(Fold(Fold(Plain(DcsEntry), Visible(header)).vt, rest));
  }

  lemma {:induction false} FoldPayload(s: seq<byte>)
    requires Payload(s)
    ensures Fold(Plain(DcsPassthrough), s) == Out(Plain(DcsPassthrough), Puts(s))
    decreases |s|
  {
    if s == [] {
    } else {
      assert Payload(s[1..]);
      FoldPayload(s[1..]);
    }
  }

  /** How a DCS string ends: by ST in one byte, or by CAN, SUB or ESC. */
  function Unhooked(end: byte): Out {
    if end == 0x9C then Out(Grounded([]), [Unhook]) else After([Unhook], Ended(end))
  }

  lemma EndPayload(end: byte)
    requires end == 0x9C || Ends(end)
    ensures Fold(Plain(DcsPassthrough), [end]) == Unhooked(end)
  {
    FoldOne(Plain(DcsPassthrough), end);
  }

  lemma DcsFinal(m: seq<byte>, p: seq<byte>, i: seq<byte>, final: byte)
    requires Final(final)
    ensures var c := Close(Reads(m, p, i));
      Next(With(Place(true, m, p, i), Reads(m, p, i)), final) ==
        (Plain(DcsPassthrough), [Hook(Groups(c), Reads(m, p, i).inter, c.ignoring, final)])
    ensures Close(Reads(m, p, i)).inter == Reads(m, p, i).inter
  {
    hide Collect, Param, Groups, Reads, Count;
  }

  /**
    ESC P, an optional private marker, any parameter text, any intermediates, a final byte, a payload and its end: one
    hook, with what a CSI sequence would dispatch, one put for each byte of the payload below DEL, and one unhook.
    C0 controls in front of the final byte are dropped; those of the payload are passed on.
   */
  lemma DcsHooked(header: seq<byte>, m: seq<byte>, gs: seq<seq<seq<byte>>>, i: seq<byte>, final: byte, payload: seq<byte>, end: byte)
    requires Body(header) && Final(final) && gs != [] && Texts(gs) && Shaped(Visible(header), m, Text(gs), i)
    requires Payload(payload) && (end == 0x9C || Ends(end))
    ensures Fold(Grounded([]), [Esc, 0x50] + (header + ([final] + (payload + [end])))) ==
      After([Hook(VtCsi.Cut(AllValues(gs), MaxParams), FirstTwo(m + i), |m + i| > 2 || Total(AllValues(gs)) > MaxParams, final)]
              + Puts(payload),
            Unhooked(end))
  {
    hide Fold, Next, Puts, Visible, Shaped, Texts, Text, Unhooked;
    EnterDcs(header, [final] + (payload + [end]));
    VisibleIsBody(header);
    ScanShaped(true, Visible(header), m, Text(gs), i);
    DcsFinal(m, Text(gs), i, final);
    ShapedMarker(Visible(header), m, Text(gs), i);
    ReadsGroups(m, gs, i);
    var vt := With(Place(true, m, Text(gs), i), Reads(m, Text(gs), i));
    FoldConcat(vt, [final], payload + [end]);
    FoldOne(vt, final);
    FoldConcat(Plain(DcsPassthrough), payload, [end]);
    FoldPayload(payload);
    EndPayload(end);
    AfterAfter(Next(vt, final).1, Puts(payload), Unhooked(end));
  }

  /** A header of any other shape is ignored up to CAN, SUB or ESC, whatever else comes. */
  lemma DcsIgnored(header: seq<byte>, rest: seq<byte>, end: byte)
    requires Body(header) && Malformed(Visible(header))
    requires (forall k :: 0 <= k < |rest| ==> !Ends(rest[k])) && Ends(end)
    ensures Fold(Grounded([]), [Esc, 0x50] + (header + (rest + [end]))) == Ended(end)
  {
    hide Fold, Visible, Shaped;
    EnterDcs(header, rest + [end]);
    VisibleIsBody(header);
    var m, p, i := Scan(true, Visible(header));
    FoldConcat(Plain(DcsIgnore), rest, [end]);
    FoldIgnored(rest);
    FoldOne(Plain(DcsIgnore), end);
    NothingBefore(Ended(end));
  }

  lemma {:induction false} FoldIgnored(s: seq<byte>)
    requires forall k :: 0 <= k < |s| ==> !Ends(s[k])
    ensures Fold(Plain(DcsIgnore), s) == Out(Plain(DcsIgnore), [])
    decreases |s|
  {
    if s == [] {
    } else {
      FoldIgnored(s[1..]);
    }
  }

  /** A header that CAN, SUB or ESC cuts off makes no other call either. */
  lemma DcsAborted(header: seq<byte>, end: byte)
    requires Body(header) && Ends(end)
    ensures Fold(Grounded([]), [Esc, 0x50] + (header + [end])) == Ended(end)
  {
    hide Fold, Visible, Body, Collect, Param, Close, Groups;
    EnterDcs(header, [end]);
    FoldOne(Fold(Plain(DcsEntry), Visible(header)).vt, end);
  }

  // ---------------------------------------------------------------------------------------------
  // ESC
  // ---------------------------------------------------------------------------------------------

  /** Between ESC and the final byte of an escape sequence: intermediates, C0 controls, and what is dropped. */
  ghost predicate EscBody(body: seq<byte>) { forall i :: 0 <= i < |body| ==> !Ends(body[i]) && !(0x30 <= body[i] <= 0x7E) }

  /** The final bytes that begin another kind of sequence when no intermediate comes before. */
  predicate Introducer(b: byte) { b == 0x50 || b == 0x58 || b == 0x5B || b == 0x5D || b == 0x5E || b == 0x5F }

  /** The machine after some intermediates. */
  function AfterInter(v: seq<byte>): Vt { if v == [] then Plain(Escape) else With(EscapeIntermediate, CollectAll(NoData, v)) }

  lemma {:induction false} FoldInter(v: seq<byte>, body: seq<byte>)
    requires EscBody(body)
    ensures Fold(AfterInter(v), body) == Out(AfterInter(v + Visible(body)), Executed(body))
    decreases |body|
  {
    if body == [] {
      assert v + [] == v;
    } else {
      hide Fold, Visible, Executed, AfterInter, Next, EscBody, Ends;
      var b := body[0];
      InterNext(v, b);
      FoldStep(AfterInter(v), body);
      VisibleStep(v, body);
      FoldInter(if Seen(b) then v + [b] else v, body[1..]);
    }
  }

  lemma FoldStep(vt: Vt, body: seq<byte>)
    requires body != []
    ensures Fold(vt, body) == After(Next(vt, body[0]).1, Fold(Next(vt, body[0]).0, body[1..]))
  {}

  lemma VisibleStep(v: seq<byte>, body: seq<byte>)
    requires body != [] && EscBody(body)
    ensures !Ends(body[0]) && !(0x30 <= body[0] <= 0x7E) && EscBody(body[1..])
    ensures v + Visible(body) == (if Seen(body[0]) then v + [body[0]] else v) + Visible(body[1..])
    ensures Executed(body) == (if body[0] < 0x20 then [Execute(body[0])] else []) + Executed(body[1..])
  {}

  lemma InterNext(v: seq<byte>, b: byte)
    requires !Ends(b) && !(0x30 <= b <= 0x7E)
    ensures Next(AfterInter(v), b) == (AfterInter(if Seen(b) then v + [b] else v), if b < 0x20 then [Execute(b)] else [])
  {
    assert (v + [b])[..|v|] == v;
    assert v == [] ==> CollectAll(NoData, v) == NoData;
    hide Collect;
  }

  lemma EnterEsc(body: seq<byte>, end: byte)
    requires EscBody(body)
    ensures var vt := AfterInter(Visible(body));
      Fold(Grounded([]), [Esc] + (body + [end])) == After(Executed(body), Out(Next(vt, end).0, Next(vt, end).1))
  {
    assert Fold(Grounded([]), [Esc]) == Out(Plain(Escape), []) by { FoldOne(Grounded([]), Esc); }
    hide Next, Executed, Visible;
    FoldConcat(Grounded([]), [Esc], body + [end]);
    FoldInter([], body);
    assert [] + Visible(body) == Visible(body);
    FoldConcat(Plain(Escape), body, [end]);
    FoldOne(AfterInter(Visible(body)), end);
    NothingBefore(Fold(Plain(Escape), body + [end]));
  }

  /**
    ESC, any intermediates and a final byte from 30 to 7E, unless it is one of the six introducers with no
    intermediate before it: one dispatch of the first two intermediates, `ignore` if there were more.  C0 controls in
    between are executed, bytes from DEL on dropped.
   */
  lemma EscDispatched(body: seq<byte>, final: byte)
    requires EscBody(body) && 0x30 <= final <= 0x7E && (Visible(body) == [] ==> !Introducer(final))
    ensures Fold(Grounded([]), [Esc] + (body + [final])) ==
      Out(Grounded([]), Executed(body) + [EscDispatch(FirstTwo(Visible(body)), |Visible(body)| > 2, final)])
  {
    hide Fold, Executed, Visible, Next, AfterInter;
    EnterEsc(body, final);
    InterFinal(Visible(body), final);
  }

  lemma InterFinal(v: seq<byte>, final: byte)
    requires 0x30 <= final <= 0x7E && (v == [] ==> !Introducer(final))
    ensures Next(AfterInter(v), final) == (Grounded([]), [EscDispatch(FirstTwo(v), |v| > 2, final)])
  {
    if v == [] {
      FirstFinal(final);
    } else {
      CollectsTwo(NoData, v);
      assert NoData.inter + v == v;
      hide CollectAll, Next, FirstTwo;
      LaterFinal(CollectAll(NoData, v), final);
    }
  }

  lemma FirstFinal(final: byte)
    requires 0x30 <= final <= 0x7E && !Introducer(final)
    ensures Next(Plain(Escape), final) == (Grounded([]), [EscDispatch([], false, final)])
  {}

  lemma LaterFinal(d: Data, final: byte)
    requires 0x30 <= final <= 0x7E
    ensures Next(With(EscapeIntermediate, d), final) == (Grounded([]), [EscDispatch(d.inter, d.ignoring, final)])
  {}

  /** The introducers begin a DCS, SOS, CSI, OSC, PM or APC sequence. */
  lemma EscIntroduces(body: seq<byte>, final: byte)
    requires EscBody(body) && Visible(body) == [] && Introducer(final)
    ensures Fold(Grounded([]), [Esc] + (body + [final])) ==
      After(Executed(body),
        if final == 0x50 then Out(Plain(DcsEntry), [])
        else if final == 0x58 then Out(Plain(SosString), [SosStart])
        else if final == 0x5B then Out(Plain(CsiEntry), [])
        else if final == 0x5D then Out(InOsc(NoOsc), [])
        else if final == 0x5E then Out(Plain(PmString), [PmStart])
        else Out(Plain(ApcString), [ApcStart]))
  {
    hide Fold, Executed, Visible;
    EnterEsc(body, final);
  }

  /** CAN and SUB end an escape sequence and are executed; ESC begins another one. */
  lemma EscAborted(body: seq<byte>, end: byte)
    requires EscBody(body) && Ends(end)
    ensures Fold(Grounded([]), [Esc] + (body + [end])) == After(Executed(body), Ended(end))
  {
    hide Fold, Executed, Visible;
    EnterEsc(body, end);
  }

  // ---------------------------------------------------------------------------------------------
  // SOS, PM and APC strings
  // ---------------------------------------------------------------------------------------------

  datatype Kind = Sos | Pm | Apc

  function Intro(k: Kind): byte { match k case Sos => 0x58 case Pm => 0x5E case Apc => 0x5F }

  function StartOf(k: Kind): Event { match k case Sos => SosStart case Pm => PmStart case Apc => ApcStart }

  function PutOf(k: Kind, b: byte): Event { match k case Sos => SosPut(b) case Pm => PmPut(b) case Apc => ApcPut(b) }

  function EndOf(k: Kind): Event { match k case Sos => SosEnd case Pm => PmEnd case Apc => ApcEnd }

  function StringState(k: Kind): State { match k case Sos => SosString case Pm => PmString case Apc => ApcString }

  /** One put for every byte that is no C0 control. */
  function PutsOf(k: Kind, s: seq<byte>): seq<Event> {
    if s == [] then [] else (if s[0] >= 0x20 then [PutOf(k, s[0])] else []) + PutsOf(k, s[1..])
  }

  lemma {:induction false} FoldString(k: Kind, s: seq<byte>)
    requires forall i :: 0 <= i < |s| ==> !Ends(s[i]) && s[i] != 0x07
    ensures Fold(Plain(StringState(k)), s) == Out(Plain(StringState(k)), PutsOf(k, s))
    decreases |s|
  {
    if s == [] {
    } else {
      FoldString(k, s[1..]);
      StringNext(k, s[0]);
      hide Next;
    }
  }

  lemma StringNext(k: Kind, b: byte)
    requires !Ends(b) && b != 0x07
    ensures Next(Plain(StringState(k)), b) == (Plain(StringState(k)), if b >= 0x20 then [PutOf(k, b)] else [])
  {}

  /**
    ESC X, ESC ^ or ESC _, a string, and BEL, CAN, SUB or ESC: its start, one put for each of its bytes that is no C0
    control, and its end.  CAN and SUB are executed after that; an APC string is handed them before its end as well.
   */
  lemma StringTold(k: Kind, s: seq<byte>, end: byte)
    requires forall i :: 0 <= i < |s| ==> !Ends(s[i]) && s[i] != 0x07
    requires end == 0x07 || Ends(end)
    ensures Fold(Grounded([]), [Esc, Intro(k)] + (s + [end])) ==
      After([StartOf(k)] + (PutsOf(k, s) + ((if k == Apc && Cancel(end) then [ApcPut(end)] else []) + [EndOf(k)])),
            if end == 0x07 then Out(Grounded([]), []) else Ended(end))
  {
    EscIntroduces([], Intro(k));
    assert [Esc] + ([] + [Intro(k)]) == [Esc, Intro(k)];
    assert Fold(Grounded([]), [Esc, Intro(k)]) == Out(Plain(StringState(k)), [StartOf(k)]);
    hide Fold, PutsOf;
    FoldConcat(Grounded([]), [Esc, Intro(k)], s + [end]);
    FoldString(k, s);
    FoldConcat(Plain(StringState(k)), s, [end]);
    FoldOne(Plain(StringState(k)), end);
    StringEnds(k, end);
    hide Next, Ended;
    var e := if end == 0x07 then Out(Grounded([]), []) else Ended(end);
    var last := (if k == Apc && Cancel(end) then [ApcPut(end)] else []) + [EndOf(k)];
    AfterAfter(PutsOf(k, s), last, e);
    AfterAfter([StartOf(k)], PutsOf(k, s) + last, e);
  }

  lemma StringEnds(k: Kind, end: byte)
    requires end == 0x07 || Ends(end)
    ensures Out(Next(Plain(StringState(k)), end).0, Next(Plain(StringState(k)), end).1) ==
      After((if k == Apc && Cancel(end) then [ApcPut(end)] else []) + [EndOf(k)],
            if end == 0x07 then Out(Grounded([]), []) else Ended(end))
  {}
}
