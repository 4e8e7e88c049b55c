/**
  What `copa::Parser` does to its performer, as a machine that takes one byte at a time.

  The machine carries only what can still matter: no stale parameters, no stale OSC buffer.
*/
module Vt {
  import opened Utf8

  const MaxIntermediates: nat := 2
  const MaxParams: nat := 32
  const MaxPieces: nat := 16
  const U16Max: nat := 65535
  const Esc: byte := 0x1B
  const Semicolon: byte := 0x3B

  /** The calls on `Perform`. */
  datatype Event =
    | Print(code: nat)
    | Execute(control: nat)
    | EscDispatch(inter: seq<byte>, ignored: bool, final: byte)
    | CsiDispatch(params: seq<seq<nat>>, inter: seq<byte>, ignored: bool, final: byte)
    | Hook(params: seq<seq<nat>>, inter: seq<byte>, ignored: bool, final: byte)
    | Put(b: byte)
    | Unhook
    | OscDispatch(pieces: seq<seq<byte>>, bell: bool)
    | SosStart | SosPut(b: byte) | SosEnd
    | PmStart | PmPut(b: byte) | PmEnd
    | ApcStart | ApcPut(b: byte) | ApcEnd

  datatype State =
    | CsiEntry | CsiIgnore | CsiIntermediate | CsiParam
    | DcsEntry | DcsIgnore | DcsIntermediate | DcsParam | DcsPassthrough
    | Escape | EscapeIntermediate
    | OscString | SosString | ApcString | PmString
    | Ground

  /** What an escape, CSI or DCS sequence has collected: `params` is closed, `open` is the group being read. */
  datatype Data = Data(inter: seq<byte>, params: seq<seq<nat>>, open: seq<nat>, param: nat, ignoring: bool)

  /** What an OSC string has collected: its closed pieces, and the bytes since the last separator. */
  datatype Osc = Osc(pieces: seq<seq<byte>>, current: seq<byte>)

  datatype Vt = Vt(state: State, data: Data, pending: seq<byte>, osc: Osc)

  const NoData := Data([], [], [], 0, false)
  const NoOsc := Osc([], [])

  function Plain(state: State): Vt { Vt(state, NoData, [], NoOsc) }

  function Grounded(pending: seq<byte>): Vt { Vt(Ground, NoData, pending, NoOsc) }

  function With(state: State, data: Data): Vt { Vt(state, data, [], NoOsc) }

  function InOsc(osc: Osc): Vt { Vt(OscString, NoData, [], osc) }

  // ---------------------------------------------------------------------------------------------
  // Parameters
  // ---------------------------------------------------------------------------------------------

  /** How many values some groups hold. */
  function Count(groups: seq<seq<nat>>): nat {
    if groups == [] then 0 else Count(groups[..|groups| - 1]) + |groups[|groups| - 1]|
  }

  predicate Full(d: Data) { Count(d.params) + |d.open| >= MaxParams }

  function Min(a: nat, b: nat): nat { if a < b then a else b }

  function Collect(d: Data, b: byte): Data {
    if |d.inter| >= MaxIntermediates then d.(ignoring := true) else d.(inter := d.inter + [b])
  }

  /** A digit, ':' or ';'. */
  function Param(d: Data, b: byte): Data {
    if Full(d) then d.(ignoring := true)
    else if b == 0x3A then d.(open := d.open + [d.param], param := 0)
    else if b == 0x3B then d.(params := d.params + [d.open + [d.param]], open := [], param := 0)
    else d.(param := Min(Min(d.param * 10, U16Max) + (if b >= 0x30 then b as int - 0x30 else 0), U16Max))
  }

  /** What the final byte of a sequence makes of its last parameter. */
  function Close(d: Data): Data {
    if Full(d) then d.(ignoring := true) else d.(params := d.params + [d.open + [d.param]], open := [])
  }

  /** The groups the performer can iterate over. */
  function Groups(d: Data): seq<seq<nat>> {
    d.params + if d.open == [] then [] else [d.open]
  }

  // ---------------------------------------------------------------------------------------------
  // One byte
  // ---------------------------------------------------------------------------------------------

  predicate Control(b: byte) { b < 0x20 && b != 0x18 && b != 0x1A && b != Esc }

  /** CAN and SUB end every sequence. */
  predicate Cancel(b: byte) { b == 0x18 || b == 0x1A }

  /** A character in the ground state. */
  function Dispatch(code: nat): Event {
    if code < 0x20 || 0x80 <= code <= 0x9F then Execute(code) else Print(code)
  }

  /** A maximal ill-formed subpart in the ground state. */
  function DispatchBad(bad: seq<byte>): Event {
    if |bad| == 1 && bad[0] <= 0x9F then Execute(bad[0]) else Print(Replacement)
  }

  function NextGround(pending: seq<byte>, b: byte): (Vt, seq<Event>)
    decreases |pending|
  {
    if b == Esc then (Plain(Escape), if pending == [] then [] else [Print(Replacement)])
    else match DecodeOne(pending + [b])
      case Incomplete => (Grounded(pending + [b]), [])
      case Good(_, code) => (Grounded([]), [Dispatch(code)])
      case Bad(_) =>
        if pending == [] then (Grounded([]), [DispatchBad([b])])
        else
          var (vt, events) := NextGround([], b);
          (vt, [DispatchBad(pending)] + events)
  }

  function NextEscape(b: byte): (Vt, seq<Event>) {
    if Cancel(b) then (Grounded([]), [Execute(b)])
    else if Control(b) then (Plain(Escape), [Execute(b)])
    else if b == Esc || b >= 0x7F then (Plain(Escape), [])
    else if b < 0x30 then (With(EscapeIntermediate, Collect(NoData, b)), [])
    else match b
      case 0x50 => (Plain(DcsEntry), [])
      case 0x58 => (Plain(SosString), [SosStart])
      case 0x5B => (Plain(CsiEntry), [])
      case 0x5D => (InOsc(NoOsc), [])
      case 0x5E => (Plain(PmString), [PmStart])
      case 0x5F => (Plain(ApcString), [ApcStart])
      case _ => (Grounded([]), [EscDispatch([], false, b)])
  }

  function NextEscapeIntermediate(d: Data, b: byte): (Vt, seq<Event>) {
    if Cancel(b) then (Grounded([]), [Execute(b)])
    else if b == Esc then (Plain(Escape), [])
    else if Control(b) then (With(EscapeIntermediate, d), [Execute(b)])
    else if b >= 0x7F then (With(EscapeIntermediate, d), [])
    else if b < 0x30 then (With(EscapeIntermediate, Collect(d, b)), [])
    else (Grounded([]), [EscDispatch(d.inter, d.ignoring, b)])
  }

  function NextCsi(vt: Vt, b: byte): (Vt, seq<Event>) {
    var d := vt.data;
    if Cancel(b) then (Grounded([]), [Execute(b)])
    else if b == Esc then (Plain(Escape), [])
    else if Control(b) then (vt, [Execute(b)])
    else if b >= 0x7F then (vt, [])
    else if b >= 0x40 then
      (Grounded([]), if vt.state == CsiIgnore then [] else [CsiDispatch(Groups(Close(d)), d.inter, Close(d).ignoring, b)])
    else if vt.state == CsiIgnore then (vt, [])
    else if b < 0x30 then (With(CsiIntermediate, Collect(d, b)), [])
    else if vt.state == CsiIntermediate then (Plain(CsiIgnore), [])
    else if b < 0x3C then (With(CsiParam, Param(d, b)), [])
    else if vt.state == CsiEntry then (With(CsiParam, Collect(d, b)), [])
    else (Plain(CsiIgnore), [])
  }

  /** A DCS up to its final byte.  Once ignored, only CAN, SUB and ESC end it. */
  function NextDcs(vt: Vt, b: byte): (Vt, seq<Event>) {
    var d := vt.data;
    if Cancel(b) then (Grounded([]), [Execute(b)])
    else if b == Esc then (Plain(Escape), [])
    else if vt.state == DcsIgnore || Control(b) || b >= 0x7F then (vt, [])
    else if b >= 0x40 then (Plain(DcsPassthrough), [Hook(Groups(Close(d)), d.inter, Close(d).ignoring, b)])
    else if b < 0x30 then (With(DcsIntermediate, Collect(d, b)), [])
    else if vt.state == DcsIntermediate then (Plain(DcsIgnore), [])
    else if b < 0x3C then (With(DcsParam, Param(d, b)), [])
    else if vt.state == DcsEntry then (With(DcsParam, Collect(d, b)), [])
    else (Plain(DcsIgnore), [])
  }

  function NextPassthrough(b: byte): (Vt, seq<Event>) {
    if Cancel(b) then (Grounded([]), [Unhook, Execute(b)])
    else if b == Esc then (Plain(Escape), [Unhook])
    else if b == 0x9C then (Grounded([]), [Unhook])
    else (Plain(DcsPassthrough), if b < 0x7F then [Put(b)] else [])
  }

  function Separate(o: Osc): Osc {
    if |o.pieces| >= MaxPieces then o else Osc(o.pieces + [o.current], [])
  }

  function NextOsc(o: Osc, b: byte): (Vt, seq<Event>) {
    var whole := OscDispatch(Separate(o).pieces, b == 0x07);
    if b == 0x07 then (Grounded([]), [whole])
    else if Cancel(b) then (Grounded([]), [whole, Execute(b)])
    else if b == Esc then (Plain(Escape), [whole])
    else if Control(b) then (InOsc(o), [])
    else if b == Semicolon then (InOsc(Separate(o)), [])
    else (InOsc(o.(current := o.current + [b])), [])
  }

  /** SOS and PM strings. */
  function NextOpaque(state: State, b: byte, put: Event, end: Event): (Vt, seq<Event>) {
    if b == 0x07 then (Grounded([]), [end])
    else if Cancel(b) then (Grounded([]), [end, Execute(b)])
    else if b == Esc then (Plain(Escape), [end])
    else (Plain(state), if Control(b) then [] else [put])
  }

  /** An APC string also passes on the CAN or SUB that ends it. */
  function NextApc(b: byte): (Vt, seq<Event>) {
    var (vt, events) := NextOpaque(ApcString, b, ApcPut(b), ApcEnd);
    (vt, if Cancel(b) then [ApcPut(b)] + events else events)
  }

  function Next(vt: Vt, b: byte): (Vt, seq<Event>) {
    match vt.state
    case Ground => NextGround(vt.pending, b)
    case Escape => NextEscape(b)
    case EscapeIntermediate => NextEscapeIntermediate(vt.data, b)
    case CsiEntry | CsiIgnore | CsiIntermediate | CsiParam => NextCsi(vt, b)
    case DcsEntry | DcsIgnore | DcsIntermediate | DcsParam => NextDcs(vt, b)
    case DcsPassthrough => NextPassthrough(b)
    case OscString => NextOsc(vt.osc, b)
    case SosString => NextOpaque(SosString, b, SosPut(b), SosEnd)
    case PmString => NextOpaque(PmString, b, PmPut(b), PmEnd)
    case ApcString => NextApc(b)
  }

  // ---------------------------------------------------------------------------------------------
  // Runs
  // ---------------------------------------------------------------------------------------------

  /** The machine with the calls it has made. */
  datatype Out = Out(vt: Vt, events: seq<Event>)

  function After(events: seq<Event>, o: Out): Out { Out(o.vt, events + o.events) }

  /** Byte after byte. */
  function Fold(vt: Vt, bytes: seq<byte>): Out
    decreases |bytes|
  {
    if bytes == [] then Out(vt, [])
    else
      var (vt', events) := Next(vt, bytes[0]);
      After(events, Fold(vt', bytes[1..]))
  }

  lemma AfterAfter(a: seq<Event>, b: seq<Event>, o: Out)
    ensures After(a, After(b, o)) == After(a + b, o)
  {
    assert a + (b + o.events) == a + b + o.events;
  }

  lemma {:induction false} FoldConcat(vt: Vt, a: seq<byte>, b: seq<byte>)
    ensures Fold(vt, a + b) == After(Fold(vt, a).events, Fold(Fold(vt, a).vt, b))
    decreases |a|
  {
    if a == [] {
      assert a + b == b;
    } else {
      var (vt', events) := Next(vt, a[0]);
      FoldConcat(vt', a[1..], b);
      assert (a + b)[1..] == a[1..] + b;
      AfterAfter(events, Fold(vt', a[1..]).events, Fold(Fold(vt', a[1..]).vt, b));
    }
  }

  lemma FoldOne(vt: Vt, b: byte)
    ensures Fold(vt, [b]) == Out(Next(vt, b).0, Next(vt, b).1)
  {
    assert Fold(Next(vt, b).0, []) == Out(Next(vt, b).0, []);
  }
}
