/** `copa::Parser`, with its buffers, against the machine. */
module VtParser {
  import opened Utf8
  import opened Vt
  import opened VtGround
  import opened VtAdvance
  import opened VtChunks
  import opened VtParams
  import opened VtUntil

  /** The performer, as the list of calls made on it; it decides from them when to terminate. */
  class Performer {
    var log: seq<Event>
    const stop: seq<Event> -> bool

    constructor (stop: seq<Event> -> bool)
      ensures log == [] && this.stop == stop
    {
      this.stop, log := stop, [];
    }

    predicate Terminated() reads this { stop(log) }

    method Call(e: Event)
      modifies this
      ensures log == old(log) + [e]
    {
      log := log + [e];
    }
  }

  /** The ranges of an OSC string's pieces follow each other and lie inside it. */
  ghost predicate Ranges(ranges: seq<(nat, nat)>, size: nat) {
    forall i {:trigger ranges[i]} :: 0 <= i < |ranges| ==>
      ranges[i].0 == (if i == 0 then 0 else ranges[i - 1].1) && ranges[i].0 <= ranges[i].1 <= size
  }

  ghost function Begin(ranges: seq<(nat, nat)>): nat {
    if ranges == [] then 0 else ranges[|ranges| - 1].1
  }

  ghost function Pieces(raw: seq<byte>, ranges: seq<(nat, nat)>): (r: seq<seq<byte>>)
    requires Ranges(ranges, |raw|)
    ensures |r| == |ranges|
  {
    if ranges == [] then []
    else Pieces(raw, ranges[..|ranges| - 1]) + [raw[ranges[|ranges| - 1].0..ranges[|ranges| - 1].1]]
  }

  /** States in which nothing has been collected, although some of them are entered without a reset. */
  predicate Untouched(state: State) {
    state == Escape || state == CsiEntry || state == DcsEntry || state == SosString || state == PmString || state == ApcString
  }

  /** One more range, up to the end. */
  lemma RangesPush(raw: seq<byte>, ranges: seq<(nat, nat)>)
    requires Ranges(ranges, |raw|)
    ensures var longer := ranges + [(Begin(ranges), |raw|)];
      && Ranges(longer, |raw|)
      && Pieces(raw, longer) == Pieces(raw, ranges) + [raw[Begin(ranges)..]] && raw[Begin(longer)..] == []
  {
    RangesLonger(raw, ranges);
    hide Ranges;
    var longer := ranges + [(Begin(ranges), |raw|)];
    assert longer[..|longer| - 1] == ranges && longer[|longer| - 1] == (Begin(ranges), |raw|);
    assert raw[Begin(ranges)..|raw|] == raw[Begin(ranges)..];
  }

  lemma RangesLonger(raw: seq<byte>, ranges: seq<(nat, nat)>)
    requires Ranges(ranges, |raw|)
    ensures Ranges(ranges + [(Begin(ranges), |raw|)], |raw|) && Begin(ranges) <= |raw|
  {
    var longer := ranges + [(Begin(ranges), |raw|)];
    assert forall i :: 0 <= i < |ranges| ==> longer[i] == ranges[i];
  }

  class Parser {
    var state: State
    const intermediates: array<byte>
    var intermediateIdx: nat
    const params: Params
    var param: nat
    var oscRaw: seq<byte>
    const oscParams: array<(nat, nat)>
    var oscNumParams: nat
    var ignoring: bool
    const partialUtf8: array<byte>
    var partialUtf8Len: nat

    /** The buffers have their sizes, and no two are the same object. */
    ghost predicate Apart() {
      && intermediates.Length == MaxIntermediates && oscParams.Length == MaxPieces && partialUtf8.Length == 4
      && (intermediates as object) != partialUtf8 && (intermediates as object) != oscParams && (oscParams as object) != partialUtf8
      && (intermediates as object) != params.subparams && (intermediates as object) != params.params
      && (partialUtf8 as object) != params.subparams && (partialUtf8 as object) != params.params
      && (oscParams as object) != params.subparams && (oscParams as object) != params.params
      && (params.subparams as object) != params.params
    }

    ghost predicate CollectOk()
      reads this`intermediateIdx, this`param, intermediates, params, params.subparams, params.params
    {
      && Apart()
      && intermediateIdx <= MaxIntermediates
      && params.Valid() && GroupsOk(params.groups) && (forall j :: 0 <= j < |params.open| ==> params.open[j] <= U16Max)
      && param <= U16Max
    }

    /** What the current sequence has collected. */
    ghost function Collected(): Data
      reads this`intermediateIdx, this`param, this`ignoring, intermediates, params, params.subparams, params.params
      requires CollectOk()
    {
      Data(intermediates[..intermediateIdx], params.groups, params.open, param, ignoring)
    }

    ghost predicate OscOk()
      reads this`oscRaw, this`oscNumParams, oscParams
    {
      Apart() && oscNumParams <= MaxPieces && Ranges(oscParams[..oscNumParams], |oscRaw|)
    }

    /** The OSC string read so far. */
    ghost function OscRead(): Osc
      reads this`oscRaw, this`oscNumParams, oscParams
      requires OscOk()
    {
      Osc(Pieces(oscRaw, oscParams[..oscNumParams]), oscRaw[Begin(oscParams[..oscNumParams])..])
    }

    ghost predicate PartialOk()
      reads this`partialUtf8Len, partialUtf8
    {
      Apart() && partialUtf8Len <= 4 && (partialUtf8Len != 0 ==> DecodeOne(partialUtf8[..partialUtf8Len]).Incomplete?)
    }

    /** The bytes carried over from the last call. */
    ghost function Carried(): seq<byte>
      reads this`partialUtf8Len, partialUtf8
      requires PartialOk()
    {
      partialUtf8[..partialUtf8Len]
    }

    /** What the state says about the buffers: where nothing is reset, nothing needs to be. */
    ghost predicate Valid()
      reads this, intermediates, params, params.subparams, params.params, oscParams, partialUtf8
    {
      && Apart() && CollectOk() && OscOk() && PartialOk()
      && (Untouched(state) ==> Collected() == NoData)
      && (state != OscString && state != ApcString ==> oscRaw == [] && oscNumParams == 0)
      && (state != Ground ==> Carried() == [])
    }

    /** The machine this parser stands for. */
    ghost function View(): (vt: Vt)
      reads this, intermediates, params, params.subparams, params.params, oscParams, partialUtf8
      requires Valid()
      ensures vt.state == state && Shaped(vt)
      ensures !Collects(state) ==> vt.data == NoData
    {
      Vt(state, if Collects(state) then Collected() else NoData, Carried(), if state == OscString then OscRead() else NoOsc)
    }

    constructor ()
      ensures Valid() && View() == Grounded([])
      ensures fresh(intermediates) && fresh(params) && fresh(params.subparams) && fresh(params.params)
      ensures fresh(oscParams) && fresh(partialUtf8)
    {
      state := Ground;
      intermediates, intermediateIdx := new byte[MaxIntermediates](_ => 0), 0;
      params := new Params();
      param, oscRaw, oscNumParams, ignoring := 0, [], 0, false;
      oscParams := new (nat, nat)[MaxPieces](_ => (0, 0));
      partialUtf8, partialUtf8Len := new byte[4](_ => 0), 0;
    }

    // Actions

    method ActionCollect(b: byte)
      requires CollectOk()
      modifies this`intermediateIdx, this`ignoring, intermediates
      ensures CollectOk() && Collected() == Collect(old(Collected()), b)
    {
      if intermediateIdx == MaxIntermediates {
        ignoring := true;
      } else {
        intermediates[intermediateIdx] := b;
        intermediateIdx := intermediateIdx + 1;
      }
    }

    method ActionSubparam()
      requires CollectOk()
      modifies this`ignoring, this`param, params, params.subparams, params.params
      ensures CollectOk() && Collected() == Param(old(Collected()), 0x3A)
    {
      if params.IsFull() {
        ignoring := true;
      } else {
        params.Extend(param);
        param := 0;
      }
    }

    method ActionParam()
      requires CollectOk()
      modifies this`ignoring, this`param, params, params.subparams, params.params
      ensures CollectOk() && Collected() == Param(old(Collected()), 0x3B)
    {
      if params.IsFull() {
        ignoring := true;
      } else {
        params.Push(param);
        param := 0;
      }
    }

    method ActionParamnext(b: byte)
      requires CollectOk() && 0x30 <= b <= 0x39
      modifies this`ignoring, this`param
      ensures CollectOk() && Collected() == Param(old(Collected()), b)
    {
      if params.IsFull() {
        ignoring := true;
      } else {
        param := if param * 10 > U16Max then U16Max else param * 10;
        var digit := b as int - 0x30;
        param := if param + digit > U16Max then U16Max else param + digit;
      }
    }

    /** The last parameter is closed, and all parameters are handed over. */
    method FinishParams() returns (gs: seq<seq<nat>>, inter: seq<byte>)
      requires CollectOk()
      modifies this`ignoring, params, params.subparams, params.params
      ensures CollectOk() && Collected() == Close(old(Collected()))
      ensures gs == Groups(Collected()) && inter == old(Collected()).inter && ignoring == Collected().ignoring
    {
      if params.IsFull() {
        ignoring := true;
      } else {
        params.Push(param);
      }
      gs := params.Iterated();
      inter := intermediates[..intermediateIdx];
    }

    method ResetParams()
      requires CollectOk()
      modifies this`intermediateIdx, this`ignoring, this`param, params
      ensures CollectOk() && Collected() == NoData
    {
      intermediateIdx := 0;
      ignoring := false;
      param := 0;
      params.Clear();
    }

    method ActionOscPutParam()
      requires OscOk()
      modifies this`oscNumParams, oscParams
      ensures OscOk() && OscRead() == Separate(old(OscRead()))
    {
      var idx := |oscRaw|;
      ghost var ranges := oscParams[..oscNumParams];
      if oscNumParams == 0 {
        oscParams[0] := (0, idx);
      } else if oscNumParams == MaxPieces {
        return;
      } else {
        var prev := oscParams[oscNumParams - 1];
        oscParams[oscNumParams] := (prev.1, idx);
      }
      oscNumParams := oscNumParams + 1;
      assert oscParams[..oscNumParams] == ranges + [(Begin(ranges), idx)];
      RangesPush(oscRaw, ranges);
    }

    method ActionOscPut(b: byte)
      requires OscOk()
      modifies this`oscRaw
      ensures OscOk() && oscRaw == old(oscRaw) + [b]
      ensures OscRead() == old(OscRead()).(current := old(OscRead()).current + [b])
    {
      PiecesGrow(oscRaw, b, oscParams[..oscNumParams]);
      oscRaw := oscRaw + [b];
    }

    lemma {:induction false} PiecesGrow(raw: seq<byte>, b: byte, ranges: seq<(nat, nat)>)
      requires Ranges(ranges, |raw|)
      ensures Ranges(ranges, |raw| + 1) && Pieces(raw + [b], ranges) == Pieces(raw, ranges)
      ensures Begin(ranges) <= |raw| && (raw + [b])[Begin(ranges)..] == raw[Begin(ranges)..] + [b]
    {
      if ranges == [] {
      } else {
        var front, last := ranges[..|ranges| - 1], ranges[|ranges| - 1];
        PiecesGrow(raw, b, front);
        assert (raw + [b])[last.0..last.1] == raw[last.0..last.1];
      }
    }

    /** The ranges of the string become slices of it. */
    method OscSlices() returns (slices: seq<seq<byte>>)
      requires OscOk()
      ensures slices == OscRead().pieces
    {
      slices := [];
      ghost var ranges := oscParams[..oscNumParams];
      for i := 0 to oscNumParams
        invariant Ranges(ranges[..i], |oscRaw|) && slices == Pieces(oscRaw, ranges[..i])
      {
        var indices := oscParams[i];
        assert ranges[i] == indices && ranges[..i + 1][..i] == ranges[..i];
        slices := slices + [oscRaw[indices.0..indices.1]];
      }
      assert ranges[..oscNumParams] == ranges;
    }

    method ClearOsc()
      requires Apart()
      modifies this`oscNumParams, this`oscRaw
      ensures OscOk() && OscRead() == NoOsc && oscRaw == [] && oscNumParams == 0
    {
      oscRaw := [];
      oscNumParams := 0;
    }

    // Actions that leave the parser in order

    ghost function Parts(): set<object> {
      {this, intermediates, params, params.subparams, params.params, oscParams, partialUtf8}
    }

    /** States in which parameters or intermediates can be added. */
    predicate Gathers() reads this`state {
      state == Escape || state == CsiEntry || state == DcsEntry || Collects(state)
    }

    method Goto(next: State)
      requires Valid() && state != Ground && (Untouched(next) ==> Untouched(state)) && !Collects(next)
      requires next != OscString && next != ApcString
      requires state == OscString || state == ApcString ==> oscRaw == [] && oscNumParams == 0
      modifies this`state
      ensures Valid() && View() == Plain(next)
    {
      hide CollectOk, Collected, OscOk, OscRead, PartialOk, Carried;
      state := next;
    }

    method StartApc()
      requires Valid() && state == Escape
      modifies this`state
      ensures Valid() && View() == Plain(ApcString)
    {
      hide CollectOk, Collected, OscOk, OscRead, PartialOk, Carried;
      state := ApcString;
    }

    method StartOsc()
      requires Valid() && state == Escape
      modifies this`state, this`oscRaw, this`oscNumParams
      ensures Valid() && View() == InOsc(NoOsc)
    {
      hide CollectOk, Collected, OscOk, OscRead, PartialOk, Carried;
      ClearOsc();
      state := OscString;
    }

    method ResetInto(next: State)
      requires Valid() && state != Ground && !Collects(next) && next != OscString && next != ApcString
      requires state == OscString || state == ApcString ==> oscRaw == [] && oscNumParams == 0
      modifies this`state, this`intermediateIdx, this`ignoring, this`param, params
      ensures Valid() && View() == Plain(next)
    {
      hide CollectOk, Collected, OscOk, OscRead, PartialOk, Carried;
      ResetParams();
      state := next;
    }

    method CollectInto(next: State, b: byte)
      requires Valid() && Gathers() && Collects(next)
      modifies this`state, this`intermediateIdx, this`ignoring, intermediates
      ensures Valid() && View() == With(next, Collect(old(View()).data, b))
    {
      hide CollectOk, Collected, OscOk, OscRead, PartialOk, Carried, Collect;
      ActionCollect(b);
      state := next;
    }

    method ParamInto(next: State, b: byte)
      requires Valid() && Gathers() && Collects(next) && 0x30 <= b <= 0x3B
      modifies this`state, this`ignoring, this`param, params, params.subparams, params.params
      ensures Valid() && View() == With(next, Param(old(View()).data, b))
    {
      hide CollectOk, Collected, OscOk, OscRead, PartialOk, Carried, Param;
      ParamByte(b);
      state := next;
    }

    /** A digit, ':' or ';', in any state that takes parameters. */
    method ParamByte(b: byte)
      requires CollectOk() && 0x30 <= b <= 0x3B
      modifies this`ignoring, this`param, params, params.subparams, params.params
      ensures CollectOk() && Collected() == Param(old(Collected()), b)
    {
      hide CollectOk, Collected, Param;
      if b == 0x3A {
        ActionSubparam();
      } else if b == 0x3B {
        ActionParam();
      } else {
        ActionParamnext(b);
      }
    }

    method ActionCsiDispatch(p: Performer, b: byte)
      requires Valid() && Gathers()
      modifies Parts(), p
      ensures Valid() && View() == Grounded([])
      ensures var d := old(View()).data; p.log == old(p.log) + [CsiDispatch(Groups(Close(d)), d.inter, Close(d).ignoring, b)]
    {
      hide CollectOk, Collected, OscOk, OscRead, PartialOk, Carried, Close, Groups;
      var gs, inter := FinishParams();
      p.Call(CsiDispatch(gs, inter, ignoring, b));
      state := Ground;
    }

    method ActionHook(p: Performer, b: byte)
      requires Valid() && Gathers()
      modifies Parts(), p
      ensures Valid() && View() == Plain(DcsPassthrough)
      ensures var d := old(View()).data; p.log == old(p.log) + [Hook(Groups(Close(d)), d.inter, Close(d).ignoring, b)]
    {
      hide CollectOk, Collected, OscOk, OscRead, PartialOk, Carried, Close, Groups;
      var gs, inter := FinishParams();
      p.Call(Hook(gs, inter, ignoring, b));
      state := DcsPassthrough;
    }

    method EscDispatchCall(p: Performer, b: byte)
      requires Valid() && (state == Escape || state == EscapeIntermediate)
      modifies this`state, p
      ensures Valid() && View() == Grounded([])
      ensures var d := old(View()).data; p.log == old(p.log) + [EscDispatch(d.inter, d.ignoring, b)]
    {
      hide OscOk, OscRead, PartialOk, Carried;
      p.Call(EscDispatch(intermediates[..intermediateIdx], ignoring, b));
      state := Ground;
    }

    method OscPutParam()
      requires Valid() && (state == OscString || state == ApcString)
      modifies this`oscNumParams, oscParams
      ensures Valid() && View() == if state == OscString then InOsc(Separate(old(View()).osc)) else old(View())
    {
      hide CollectOk, Collected, OscOk, OscRead, PartialOk, Carried, Separate;
      ActionOscPutParam();
    }

    method OscPut(b: byte)
      requires Valid() && (state == OscString || state == ApcString)
      modifies this`oscRaw
      ensures Valid()
      ensures View() == if state == OscString then InOsc(old(View()).osc.(current := old(View()).osc.current + [b])) else old(View())
    {
      hide CollectOk, Collected, OscOk, OscRead, PartialOk, Carried;
      ActionOscPut(b);
    }

    method OscEnd(p: Performer, b: byte)
      requires Valid() && state == OscString
      modifies this`oscNumParams, this`oscRaw, oscParams, p
      ensures Valid() && oscRaw == [] && oscNumParams == 0
      ensures p.log == old(p.log) + [OscDispatch(Separate(old(View()).osc).pieces, b == 0x07)]
    {
      hide CollectOk, Collected, OscOk, OscRead, PartialOk, Carried, Separate;
      ActionOscPutParam();
      var slices := OscSlices();
      p.Call(OscDispatch(slices, b == 0x07));
      ClearOsc();
    }

    method ActionApcPut(p: Performer, b: byte)
      requires Valid() && state == ApcString
      modifies this`oscRaw, p
      ensures Valid() && View() == old(View()) && p.log == old(p.log) + [ApcPut(b)]
    {
      OscPut(b);
      p.Call(ApcPut(b));
    }

    method ActionApcEnd(p: Performer)
      requires Valid() && state == ApcString
      modifies this`oscRaw, this`oscNumParams, p
      ensures Valid() && oscRaw == [] && oscNumParams == 0 && p.log == old(p.log) + [ApcEnd]
    {
      hide CollectOk, Collected, OscOk, OscRead, PartialOk, Carried;
      p.Call(ApcEnd);
      ClearOsc();
    }

    // States

    /** CAN and SUB end any sequence, ESC begins another, and everything else is ignored. */
    method Anywhere(p: Performer, b: byte)
      requires Valid() && state != Ground && state != OscString && state != ApcString
      modifies Parts(), p
      ensures Valid() && View() == if Cancel(b) then Grounded([]) else if b == Esc then Plain(Escape) else old(View())
      ensures p.log == old(p.log) + if Cancel(b) then [Execute(b)] else []
    {
      if Cancel(b) {
        p.Call(Execute(b));
        Goto(Ground);
      } else if b == Esc {
        ResetInto(Escape);
      }
    }

    method AdvanceCsiEntry(p: Performer, b: byte)
      requires Valid() && state == CsiEntry
      modifies Parts(), p
      ensures Valid() && View() == NextCsi(old(View()), b).0 && p.log == old(p.log) + NextCsi(old(View()), b).1
    {
      hide Valid, View, Collect, Param, Close, Groups, Separate;
      if Control(b) {
        p.Call(Execute(b));
      } else if 0x20 <= b <= 0x2F {
        CollectInto(CsiIntermediate, b);
      } else if 0x30 <= b <= 0x39 {
        ParamInto(CsiParam, b);
      } else if b == 0x3A {
        ParamInto(CsiParam, b);
      } else if b == 0x3B {
        ParamInto(CsiParam, b);
      } else if 0x3C <= b <= 0x3F {
        CollectInto(CsiParam, b);
      } else if 0x40 <= b <= 0x7E {
        ActionCsiDispatch(p, b);
      } else {
        Anywhere(p, b);
      }
    }

    method AdvanceCsiIgnore(p: Performer, b: byte)
      requires Valid() && state == CsiIgnore
      modifies Parts(), p
      ensures Valid() && View() == NextCsi(old(View()), b).0 && p.log == old(p.log) + NextCsi(old(View()), b).1
    {
      hide Valid, View, Collect, Param, Close, Groups, Separate;
      if Control(b) {
        p.Call(Execute(b));
      } else if 0x20 <= b <= 0x3F {
      } else if 0x40 <= b <= 0x7E {
        Goto(Ground);
      } else if b == 0x7F {
      } else {
        Anywhere(p, b);
      }
    }

    method AdvanceCsiIntermediate(p: Performer, b: byte)
      requires Valid() && state == CsiIntermediate
      modifies Parts(), p
      ensures Valid() && View() == NextCsi(old(View()), b).0 && p.log == old(p.log) + NextCsi(old(View()), b).1
    {
      hide Valid, View, Collect, Param, Close, Groups, Separate;
      if Control(b) {
        p.Call(Execute(b));
      } else if 0x20 <= b <= 0x2F {
        CollectInto(CsiIntermediate, b);
      } else if 0x30 <= b <= 0x3F {
        Goto(CsiIgnore);
      } else if 0x40 <= b <= 0x7E {
        ActionCsiDispatch(p, b);
      } else {
        Anywhere(p, b);
      }
    }

    method AdvanceCsiParam(p: Performer, b: byte)
      requires Valid() && state == CsiParam
      modifies Parts(), p
      ensures Valid() && View() == NextCsi(old(View()), b).0 && p.log == old(p.log) + NextCsi(old(View()), b).1
    {
      hide Valid, View, Collect, Param, Close, Groups, Separate;
      if Control(b) {
        p.Call(Execute(b));
      } else if 0x20 <= b <= 0x2F {
        CollectInto(CsiIntermediate, b);
      } else if 0x30 <= b <= 0x39 {
        ParamInto(CsiParam, b);
      } else if b == 0x3A {
        ParamInto(CsiParam, b);
      } else if b == 0x3B {
        ParamInto(CsiParam, b);
      } else if 0x3C <= b <= 0x3F {
        Goto(CsiIgnore);
      } else if 0x40 <= b <= 0x7E {
        ActionCsiDispatch(p, b);
      } else if b == 0x7F {
      } else {
        Anywhere(p, b);
      }
    }

    method AdvanceDcsEntry(p: Performer, b: byte)
      requires Valid() && state == DcsEntry
      modifies Parts(), p
      ensures Valid() && View() == NextDcs(old(View()), b).0 && p.log == old(p.log) + NextDcs(old(View()), b).1
    {
      hide Valid, View, Collect, Param, Close, Groups, Separate;
      if Control(b) {
      } else if 0x20 <= b <= 0x2F {
        CollectInto(DcsIntermediate, b);
      } else if 0x30 <= b <= 0x39 {
        ParamInto(DcsParam, b);
      } else if b == 0x3A {
        ParamInto(DcsParam, b);
      } else if b == 0x3B {
        ParamInto(DcsParam, b);
      } else if 0x3C <= b <= 0x3F {
        CollectInto(DcsParam, b);
      } else if 0x40 <= b <= 0x7E {
        ActionHook(p, b);
      } else if b == 0x7F {
      } else {
        Anywhere(p, b);
      }
    }

    method AdvanceDcsIntermediate(p: Performer, b: byte)
      requires Valid() && state == DcsIntermediate
      modifies Parts(), p
      ensures Valid() && View() == NextDcs(old(View()), b).0 && p.log == old(p.log) + NextDcs(old(View()), b).1
    {
      hide Valid, View, Collect, Param, Close, Groups, Separate;
      if Control(b) {
      } else if 0x20 <= b <= 0x2F {
        CollectInto(DcsIntermediate, b);
      } else if 0x30 <= b <= 0x3F {
        Goto(DcsIgnore);
      } else if 0x40 <= b <= 0x7E {
        ActionHook(p, b);
      } else if b == 0x7F {
      } else {
        Anywhere(p, b);
      }
    }

    method AdvanceDcsParam(p: Performer, b: byte)
      requires Valid() && state == DcsParam
      modifies Parts(), p
      ensures Valid() && View() == NextDcs(old(View()), b).0 && p.log == old(p.log) + NextDcs(old(View()), b).1
    {
      hide Valid, View, Collect, Param, Close, Groups, Separate;
      if Control(b) {
      } else if 0x20 <= b <= 0x2F {
        CollectInto(DcsIntermediate, b);
      } else if 0x30 <= b <= 0x39 {
        ParamInto(DcsParam, b);
      } else if b == 0x3A {
        ParamInto(DcsParam, b);
      } else if b == 0x3B {
        ParamInto(DcsParam, b);
      } else if 0x3C <= b <= 0x3F {
        Goto(DcsIgnore);
      } else if 0x40 <= b <= 0x7E {
        ActionHook(p, b);
      } else if b == 0x7F {
      } else {
        Anywhere(p, b);
      }
    }

    method AdvanceDcsPassthrough(p: Performer, b: byte)
      requires Valid() && state == DcsPassthrough
      modifies Parts(), p
      ensures Valid() && View() == NextPassthrough(b).0 && p.log == old(p.log) + NextPassthrough(b).1
    {
      hide Valid, View, Collect, Param, Close, Groups, Separate;
      if Control(b) || 0x20 <= b <= 0x7E {
        p.Call(Put(b));
      } else if Cancel(b) {
        p.Call(Unhook);
        p.Call(Execute(b));
        Goto(Ground);
      } else if b == Esc {
        p.Call(Unhook);
        ResetInto(Escape);
      } else if b == 0x9C {
        p.Call(Unhook);
        Goto(Ground);
      }
    }

    method AdvanceEsc(p: Performer, b: byte)
      requires Valid() && state == Escape
      modifies Parts(), p
      ensures Valid() && View() == NextEscape(b).0 && p.log == old(p.log) + NextEscape(b).1
    {
      hide Valid, View, Collect, Param, Close, Groups, Separate;
      if Control(b) {
        p.Call(Execute(b));
      } else if 0x20 <= b <= 0x2F {
        CollectInto(EscapeIntermediate, b);
      } else if b == 0x50 {
        ResetInto(DcsEntry);
      } else if b == 0x58 {
        p.Call(SosStart);
        Goto(SosString);
      } else if b == 0x5B {
        ResetInto(CsiEntry);
      } else if b == 0x5D {
        StartOsc();
      } else if b == 0x5E {
        p.Call(PmStart);
        Goto(PmString);
      } else if b == 0x5F {
        p.Call(ApcStart);
        StartApc();
      } else if 0x30 <= b <= 0x7E {
        EscDispatchCall(p, b);
      } else if Cancel(b) {
        p.Call(Execute(b));
        Goto(Ground);
      }
    }

    method AdvanceEscIntermediate(p: Performer, b: byte)
      requires Valid() && state == EscapeIntermediate
      modifies Parts(), p
      ensures Valid()
      ensures View() == NextEscapeIntermediate(old(View()).data, b).0
      ensures p.log == old(p.log) + NextEscapeIntermediate(old(View()).data, b).1
    {
      hide Valid, View, Collect, Param, Close, Groups, Separate;
      if Control(b) {
        p.Call(Execute(b));
      } else if 0x20 <= b <= 0x2F {
        CollectInto(EscapeIntermediate, b);
      } else if 0x30 <= b <= 0x7E {
        EscDispatchCall(p, b);
      } else if b == 0x7F {
      } else {
        Anywhere(p, b);
      }
    }

    method OscCancelled(p: Performer, b: byte)
      requires Valid() && state == OscString
      modifies Parts(), p
      ensures Valid() && View() == Grounded([])
      ensures p.log == old(p.log) + [OscDispatch(Separate(old(View()).osc).pieces, b == 0x07), Execute(b)]
    {
      hide Valid, View, Separate;
      OscEnd(p, b);
      p.Call(Execute(b));
      Goto(Ground);
    }

    method AdvanceOscString(p: Performer, b: byte)
      requires Valid() && state == OscString
      modifies Parts(), p
      ensures Valid() && View() == NextOsc(old(View()).osc, b).0 && p.log == old(p.log) + NextOsc(old(View()).osc, b).1
    {
      hide Valid, View, Collect, Param, Close, Groups, Separate;
      if b == 0x07 {
        OscEnd(p, b);
        Goto(Ground);
      } else if Control(b) {
      } else if Cancel(b) {
        OscCancelled(p, b);
      } else if b == Esc {
        OscEnd(p, b);
        ResetInto(Escape);
      } else if b == Semicolon {
        OscPutParam();
      } else {
        OscPut(b);
      }
    }

    method ApcCancelled(p: Performer, b: byte)
      requires Valid() && state == ApcString
      modifies Parts(), p
      ensures Valid() && View() == Grounded([]) && p.log == old(p.log) + [ApcPut(b), ApcEnd, Execute(b)]
    {
      hide Valid, View;
      ActionApcPut(p, b);
      ActionApcEnd(p);
      p.Call(Execute(b));
      Goto(Ground);
    }

    method AdvanceApcString(p: Performer, b: byte)
      requires Valid() && state == ApcString
      modifies Parts(), p
      ensures Valid() && View() == NextApc(b).0 && p.log == old(p.log) + NextApc(b).1
    {
      hide Valid, View, Collect, Param, Close, Groups, Separate;
      if b == 0x07 {
        ActionApcEnd(p);
        Goto(Ground);
      } else if Control(b) {
      } else if Cancel(b) {
        ApcCancelled(p, b);
      } else if b == Esc {
        ActionApcEnd(p);
        Goto(Escape);
      } else if b == Semicolon {
        ActionApcPut(p, b);
        OscPutParam();
      } else {
        ActionApcPut(p, b);
      }
    }

    lemma OpaqueView()
      requires Valid() && (state == SosString || state == PmString)
      ensures View() == Plain(state)
    {
      hide CollectOk, Collected, OscOk, OscRead, PartialOk, Carried;
    }

    method OpaqueCancelled(p: Performer, b: byte, end: Event)
      requires Valid() && (state == SosString || state == PmString)
      modifies Parts(), p
      ensures Valid() && View() == Grounded([]) && p.log == old(p.log) + [end, Execute(b)]
    {
      hide Valid, View;
      p.Call(end);
      p.Call(Execute(b));
      Goto(Ground);
    }

    /** SOS and PM strings, with the calls their dispatcher makes. */
    method AdvanceOpaqueString(p: Performer, b: byte, put: Event, end: Event)
      requires Valid() && (state == SosString || state == PmString)
      modifies Parts(), p
      ensures Valid() && View() == NextOpaque(old(state), b, put, end).0
      ensures p.log == old(p.log) + NextOpaque(old(state), b, put, end).1
    {
      hide Valid, View, Shaped, Collect, Param, Close, Groups, Separate;
      OpaqueView();
      if b == 0x07 {
        p.Call(end);
        Goto(Ground);
      } else if Cancel(b) {
        OpaqueCancelled(p, b, end);
      } else if b == Esc {
        p.Call(end);
        Goto(Escape);
      } else if b >= 0x20 {
        p.Call(put);
      }
    }

    method ChangeState(p: Performer, b: byte)
      requires Valid() && state != Ground
      modifies Parts(), p
      ensures Valid() && View() == Next(old(View()), b).0 && p.log == old(p.log) + Next(old(View()), b).1
    {
      hide Valid, View, Collect, Param, Close, Groups, Separate;
      match state
      case CsiEntry => AdvanceCsiEntry(p, b);
      case CsiIgnore => AdvanceCsiIgnore(p, b);
      case CsiIntermediate => AdvanceCsiIntermediate(p, b);
      case CsiParam => AdvanceCsiParam(p, b);
      case DcsEntry => AdvanceDcsEntry(p, b);
      case DcsIgnore => Anywhere(p, b);
      case DcsIntermediate => AdvanceDcsIntermediate(p, b);
      case DcsParam => AdvanceDcsParam(p, b);
      case DcsPassthrough => AdvanceDcsPassthrough(p, b);
      case Escape => AdvanceEsc(p, b);
      case EscapeIntermediate => AdvanceEscIntermediate(p, b);
      case OscString => AdvanceOscString(p, b);
      case SosString => AdvanceOpaqueString(p, b, SosPut(b), SosEnd);
      case ApcString => AdvanceApcString(p, b);
      case PmString => AdvanceOpaqueString(p, b, PmPut(b), PmEnd);
    }

    // The ground state

    method GroundDispatch(p: Performer, text: seq<nat>)
      modifies p
      ensures p.log == old(p.log) + DispatchAll(text)
    {
      for i := 0 to |text|
        invariant old(p.log) + DispatchAll(text) == p.log + DispatchAll(text[i..])
      {
        var c := text[i];
        if c <= 0x1F || 0x80 <= c <= 0x9F {
          p.Call(Execute(c));
        } else {
          p.Call(Print(c));
        }
        assert text[i..][1..] == text[i + 1..];
      }
    }

    /** ESC is read in the ground state. */
    method GroundEsc()
      requires Valid() && state == Ground && partialUtf8Len == 0
      modifies Parts()
      ensures Valid() && View() == Plain(Escape)
    {
      hide CollectOk, Collected, OscOk, OscRead;
      state := Escape;
      ResetParams();
    }

    /** The bytes cut off by the end of the input are carried over. */
    method Carry(bytes: seq<byte>)
      requires Valid() && state == Ground && partialUtf8Len == 0 && bytes != [] && DecodeOne(bytes).Incomplete?
      modifies Parts()
      ensures Valid() && View() == Grounded(bytes)
    {
      hide CollectOk, Collected, OscOk, OscRead;
      IncompleteMeaning(bytes);
      forall j | 0 <= j < |bytes| {
        partialUtf8[j] := bytes[j];
      }
      partialUtf8Len := |bytes|;
      assert partialUtf8[..partialUtf8Len] == bytes;
    }

    method AdvanceGround(p: Performer, bytes: seq<byte>) returns (read: nat)
      requires Valid() && state == Ground && View() == Grounded([]) && bytes != []
      modifies Parts(), p
      ensures Valid() && View() == GroundPart(bytes).vt && read == GroundPart(bytes).read
      ensures p.log == old(p.log) + GroundPart(bytes).events
    {
      hide Valid, View, DecodeOne, Check, FindEsc, PartAt;
      var plain := FindEsc(bytes);
      FaultFits(bytes, plain);
      read := GroundUpTo(p, bytes, plain, Check(bytes[..plain]));
    }

    /** The same, with what the search for ESC and the validator answer. */
    method GroundUpTo(p: Performer, bytes: seq<byte>, plain: nat, checked: Checked) returns (read: nat)
      requires Valid() && state == Ground && View() == Grounded([]) && bytes != [] && Fits(bytes, plain, checked)
      requires checked.fault.CutShort? ==> checked.upTo < plain && DecodeOne(bytes[checked.upTo..plain]).Incomplete?
      modifies Parts(), p
      ensures Valid() && View() == PartAt(bytes, plain, checked).vt && read == PartAt(bytes, plain, checked).read
      ensures p.log == old(p.log) + PartAt(bytes, plain, checked).events
    {
      hide Valid, View, Shaped, FaultAt, DecodeOne, DispatchAll;
      NothingCarried();
      if plain == 0 {
        GroundEsc();
        return 1;
      }
      GroundDispatch(p, checked.chars);
      read := GroundFault(p, bytes, plain, checked);
    }

    method GroundFault(p: Performer, bytes: seq<byte>, plain: nat, checked: Checked) returns (read: nat)
      requires Valid() && state == Ground && View() == Grounded([]) && partialUtf8Len == 0 && Fits(bytes, plain, checked)
      requires checked.fault.CutShort? ==> checked.upTo < plain && DecodeOne(bytes[checked.upTo..plain]).Incomplete?
      modifies Parts(), p
      ensures Valid() && View() == FaultAt(bytes, plain, checked).vt && read == FaultAt(bytes, plain, checked).read
      ensures p.log == old(p.log) + FaultAt(bytes, plain, checked).events
    {
      hide Valid, View, Shaped, DispatchBad, DecodeOne, DispatchAll;
      if checked.fault.Clean? {
        if plain < |bytes| { GroundEsc(); }
        read := if plain < |bytes| then plain + 1 else plain;
      } else if checked.fault.BadSubpart? {
        BadCall(p, bytes[checked.upTo..checked.upTo + checked.fault.len]);
        read := checked.upTo + checked.fault.len;
      } else {
        assert plain == |bytes| ==> bytes[checked.upTo..plain] == bytes[checked.upTo..];
        CutOff(p, bytes[checked.upTo..plain], plain < |bytes|);
        read := if plain < |bytes| then plain + 1 else |bytes|;
      }
    }

    /** A character is cut off by ESC or by the end of the input. */
    method CutOff(p: Performer, bytes: seq<byte>, esc: bool)
      requires Valid() && state == Ground && partialUtf8Len == 0 && bytes != [] && DecodeOne(bytes).Incomplete?
      modifies Parts(), p
      ensures Valid() && View() == if esc then Plain(Escape) else Grounded(bytes)
      ensures p.log == old(p.log) + if esc then [Print(Replacement)] else []
    {
      hide Valid, View, DecodeOne;
      if esc {
        p.Call(Print(Replacement));
        GroundEsc();
      } else {
        Carry(bytes);
      }
    }

    method BadCall(p: Performer, bad: seq<byte>)
      requires bad != []
      modifies p
      ensures p.log == old(p.log) + [DispatchBad(bad)]
    {
      if |bad| == 1 && bad[0] <= 0x9F {
        p.Call(Execute(bad[0]));
      } else {
        p.Call(Print(Replacement));
      }
    }

    lemma ViewWellFormed()
      requires Valid()
      ensures WellFormed(View())
    {
      assert DataOk(NoData);
    }

    lemma NothingCarried()
      requires Valid()
      ensures View().pending == [] <==> partialUtf8Len == 0
    {}

    /** Up to three more bytes join the carried ones. */
    method TopUp(bytes: seq<byte>) returns (copied: nat)
      requires Valid() && partialUtf8Len != 0
      modifies this`partialUtf8Len, partialUtf8
      ensures copied == Min(|bytes|, 4 - old(partialUtf8Len)) && partialUtf8Len == old(partialUtf8Len) + copied <= 4
      ensures partialUtf8[..partialUtf8Len] == old(Carried()) + bytes[..copied]
    {
      var already := partialUtf8Len;
      copied := Min(|bytes|, 4 - already);
      ghost var buffer := old(Carried()) + bytes[..copied];
      forall k | already <= k < already + copied {
        partialUtf8[k] := bytes[k - already];
      }
      partialUtf8Len := already + copied;
      assert forall k :: 0 <= k < partialUtf8Len ==> partialUtf8[k] == buffer[k];
      assert partialUtf8[..partialUtf8Len] == buffer;
    }

    method AdvancePartialUtf8(p: Performer, bytes: seq<byte>) returns (read: nat)
      requires Valid() && View().pending != []
      modifies Parts(), p
      ensures Valid() && View() == PartialPart(old(View()).pending, bytes).vt
      ensures read == PartialPart(old(View()).pending, bytes).read
      ensures p.log == old(p.log) + PartialPart(old(View()).pending, bytes).events
    {
      hide CollectOk, OscOk, Collected, OscRead, DecodeOne, Check, PartialAt, PartialPart;
      ghost var carried := View().pending;
      IncompleteMeaning(carried);
      var already := partialUtf8Len;
      var copied := TopUp(bytes);
      ghost var buffer := partialUtf8[..partialUtf8Len];
      PartialSize(carried, buffer);
      PartialIs(carried, bytes, buffer);
      read := TakePartial(p, carried, already, Check(partialUtf8[..partialUtf8Len]));
    }

    /** The same, with what the validator answers for all the bytes now in the buffer. */
    method TakePartial(p: Performer, ghost carried: seq<byte>, already: nat, checked: Checked) returns (read: nat)
      requires Apart() && CollectOk() && OscOk() && state == Ground && oscRaw == [] && oscNumParams == 0
      requires 0 < already == |carried| <= partialUtf8Len <= 4
      requires checked.upTo > 0 ==>
        (var d := DecodeOne(partialUtf8[..partialUtf8Len]);
         checked.chars != [] && d.Good? && checked.chars[0] == d.code && already <= d.size <= checked.upTo)
      requires checked.fault.BadSubpart? && checked.upTo == 0 ==> already <= checked.fault.len
      requires checked.fault.CutShort? && checked.upTo == 0 ==> DecodeOne(partialUtf8[..partialUtf8Len]).Incomplete?
      requires checked.fault.Clean? ==> checked.upTo > 0
      modifies this`partialUtf8Len, p
      ensures Valid()
      ensures var buffer := old(partialUtf8[..partialUtf8Len]);
        var part := PartialAt(carried, buffer, checked, DecodeOne(buffer));
        View() == part.vt && read == part.read && p.log == old(p.log) + part.events
    {
      hide CollectOk, Collected, OscOk, OscRead, DecodeOne;
      if checked.upTo > 0 {
        p.Call(Print(checked.chars[0]));
        CodeSizeOk(partialUtf8[..partialUtf8Len]);
        partialUtf8Len := 0;
        read := (if checked.fault.Clean? then CodeSize(checked.chars[0]) else checked.upTo) - already;
      } else if checked.fault.BadSubpart? {
        p.Call(Print(Replacement));
        partialUtf8Len := 0;
        read := checked.fault.len - already;
      } else {
        read := partialUtf8Len - already;
      }
    }

    // Whole calls

    /** One turn of the loops below, from place i of the input to place j. */
    method Turn(p: Performer, bytes: seq<byte>, i: nat) returns (j: nat)
      requires Valid() && View().pending == [] && i < |bytes|
      modifies Parts(), p
      ensures Valid() && Stop(View(), p.log, j) == TurnFrom(Stop(old(View()), old(p.log), i), bytes)
    {
      hide Valid, View, Next, GroundPart;
      if state == Ground {
        var more := AdvanceGround(p, bytes[i..]);
        j := i + more;
      } else {
        ChangeState(p, bytes[i]);
        j := i + 1;
      }
    }

    method Advance(p: Performer, bytes: seq<byte>)
      requires Valid()
      modifies Parts(), p
      ensures Valid() && Out(View(), p.log) == After(old(p.log), AdvanceOut(old(View()), bytes))
    {
      ghost var start := Stop(View(), p.log, 0);
      var i := AdvanceCarried(p, bytes);
      hide Valid, View, Fold, AdvanceOut, After, TurnFrom;
      while i != |bytes|
        invariant Valid() && StopOk(Stop(View(), p.log, i), bytes)
        invariant After(start.log, AdvanceOut(start.vt, bytes)) == After(p.log, Fold(View(), bytes[i..]))
        decreases |bytes| - i
      {
        TurnFits(Stop(View(), p.log, i), bytes);
        i := Turn(p, bytes, i);
      }
      assert bytes[i..] == [];
      Finished(p.log, View());
    }

    /** The bytes carried over from the last call, if any. */
    method AdvanceCarried(p: Performer, bytes: seq<byte>) returns (read: nat)
      requires Valid()
      modifies Parts(), p
      ensures Valid() && StopOk(Stop(View(), p.log, read), bytes)
      ensures After(old(p.log), AdvanceOut(old(View()), bytes)) == After(p.log, Fold(View(), bytes[read..]))
      ensures forall stop {:trigger UntilCall(old(View()), old(p.log), bytes, stop)} ::
        UntilCall(old(View()), old(p.log), bytes, stop) == Until(Stop(View(), p.log, read), bytes, stop)
    {
      hide Valid, View, Fold, PartialPart, Until;
      NothingCarried();
      read := 0;
      if partialUtf8Len != 0 {
        ghost var part := PartialPart(View().pending, bytes);
        PartialFits(View().pending, bytes);
        read := AdvancePartialUtf8(p, bytes);
        AfterAfter(old(p.log), part.events, Fold(part.vt, bytes[read..]));
      } else {
        assert bytes[0..] == bytes;
      }
    }

    method AdvanceUntilTerminated(p: Performer, bytes: seq<byte>) returns (read: nat)
      requires Valid()
      modifies Parts(), p
      ensures Valid() && Stop(View(), p.log, read) == UntilCall(old(View()), old(p.log), bytes, p.stop)
    {
      ghost var start := Stop(View(), p.log, 0);
      read := AdvanceCarried(p, bytes);
      hide Valid, View, TurnFrom, UntilCall, Shaped;
      while read != |bytes| && !p.Terminated()
        invariant Valid() && StopOk(Stop(View(), p.log, read), bytes)
        invariant UntilCall(start.vt, start.log, bytes, p.stop) == Until(Stop(View(), p.log, read), bytes, p.stop)
        decreases |bytes| - read
      {
        TurnFits(Stop(View(), p.log, read), bytes);
        read := Turn(p, bytes, read);
      }
    }
  }

  lemma Finished(log: seq<Event>, vt: Vt)
    ensures After(log, Fold(vt, [])) == Out(vt, log)
  {
    assert log + [] == log;
  }

  /** `char::len_utf8`. */
  function CodeSize(c: nat): nat {
    if c < 0x80 then 1 else if c < 0x800 then 2 else if c < 0x10000 then 3 else 4
  }

  lemma CodeSizeOk(s: seq<byte>)
    requires s != [] && DecodeOne(s).Good?
    ensures CodeSize(DecodeOne(s).code) == DecodeOne(s).size
  {
    EncodeDecoded(s);
  }

  lemma PartialIs(p: seq<byte>, bytes: seq<byte>, buffer: seq<byte>)
    requires p != [] && DecodeOne(p).Incomplete? && |p| <= 4 && buffer == p + bytes[..Min(|bytes|, 4 - |p|)]
    requires Check(buffer).upTo > 0 ==> DecodeOne(buffer).Good? && |p| <= DecodeOne(buffer).size <= Check(buffer).upTo
    requires Check(buffer).fault.BadSubpart? && Check(buffer).upTo == 0 ==> |p| <= Check(buffer).fault.len
    ensures PartialPart(p, bytes) == PartialAt(p, buffer, Check(buffer), DecodeOne(buffer))
  {
    hide Check, PartialAt;
  }
}
