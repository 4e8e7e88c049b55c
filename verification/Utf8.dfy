/**
  UTF-8 as `copa` uses it through its validator and `str`: well-formedness after section 4 of RFC 3629, and the
  error length after the maximal-subpart rule in section 3.9 of the Unicode Standard.
*/
module Utf8 {

  type byte = x: int | 0 <= x < 256

  const Replacement: nat := 0xFFFD

  predicate Continuation(b: byte) { 0x80 <= b <= 0xBF }

  predicate TwoByteLead(b: byte) { 0xC2 <= b <= 0xDF }

  /** How many bytes a character that starts with this byte has; 0 when none does. */
  function Length(lead: byte): nat {
    if lead < 0x80 then 1
    else if TwoByteLead(lead) then 2
    else if 0xE0 <= lead <= 0xEF then 3
    else if 0xF0 <= lead <= 0xF4 then 4
    else 0
  }

  /** May b follow the lead byte of a character? */
  predicate SecondOk(lead: byte, b: byte) {
    && Continuation(b)
    && (lead == 0xE0 ==> 0xA0 <= b)
    && (lead == 0xED ==> b <= 0x9F)
    && (lead == 0xF0 ==> 0x90 <= b)
    && (lead == 0xF4 ==> b <= 0x8F)
  }

  /** The first character of a non-empty string, or why there is none. */
  datatype Decoded =
    | Good(size: nat, code: nat)
    | Bad(len: nat)      // its first `len` bytes are a maximal ill-formed subpart
    | Incomplete         // the whole string is a proper prefix of a character

  /** The bits of a lead byte. */
  function Lead(b: byte, mark: nat): nat
    requires mark <= b
  {
    b as int - mark
  }

  /** Six more bits, from a continuation byte. */
  function Append(bits: nat, b: byte): nat
    requires Continuation(b)
  {
    bits * 64 + (b as int - 0x80)
  }

  function DecodeOne(s: seq<byte>): Decoded
    requires s != []
  {
    var n := Length(s[0]);
    if n == 0 then Bad(1)
    else if n == 1 then Good(1, s[0])
    else if |s| == 1 then Incomplete
    else if !SecondOk(s[0], s[1]) then Bad(1)
    else if n == 2 then Good(2, Append(Lead(s[0], 0xC0), s[1]))
    else if |s| == 2 then Incomplete
    else if !Continuation(s[2]) then Bad(2)
    else if n == 3 then Good(3, Append(Append(Lead(s[0], 0xE0), s[1]), s[2]))
    else if |s| == 3 then Incomplete
    else if !Continuation(s[3]) then Bad(3)
    else Good(4, Append(Append(Append(Lead(s[0], 0xF0), s[1]), s[2]), s[3]))
  }

  // ---------------------------------------------------------------------------------------------
  // The decoder against the encoder
  // ---------------------------------------------------------------------------------------------

  /** A Unicode scalar value. */
  predicate Scalar(c: nat) { c < 0xD800 || 0xE000 <= c <= 0x10FFFF }

  function Encode(c: nat): seq<byte>
    requires Scalar(c)
  {
    var b := c / 64;
    var a := b / 64;
    if c < 0x80 then [c]
    else if c < 0x800 then [0xC0 + b, 0x80 + c % 64]
    else if c < 0x10000 then [0xE0 + a, 0x80 + b % 64, 0x80 + c % 64]
    else [0xF0 + a / 64, 0x80 + a % 64, 0x80 + b % 64, 0x80 + c % 64]
  }

  predicate Prefix(a: seq<byte>, b: seq<byte>) { |a| <= |b| && a == b[..|a|] }

  lemma DecodeEncoded(c: nat, rest: seq<byte>)
    requires Scalar(c)
    ensures DecodeOne(Encode(c) + rest) == Good(|Encode(c)|, c)
  {}

  lemma AppendSplits(bits: nat, b: byte)
    requires Continuation(b)
    ensures Append(bits, b) / 64 == bits && 0x80 + Append(bits, b) % 64 == b
  {}

  lemma EncodeDecoded(s: seq<byte>)
    requires s != [] && DecodeOne(s).Good?
    ensures var d := DecodeOne(s); Scalar(d.code) && 1 <= d.size <= 4 && d.size <= |s| && Encode(d.code) == s[..d.size]
  {
    var n := Length(s[0]);
    if n >= 2 {
      var one := Lead(s[0], if n == 2 then 0xC0 else if n == 3 then 0xE0 else 0xF0);
      AppendSplits(one, s[1]);
      if n >= 3 {
        var two := Append(one, s[1]);
        AppendSplits(two, s[2]);
        if n == 4 { AppendSplits(Append(two, s[2]), s[3]); }
      }
    }
  }

  /** What completes a proper prefix of a character. */
  function Completed(s: seq<byte>): seq<byte>
    requires s != [] && DecodeOne(s).Incomplete?
  {
    var second := if s[0] == 0xE0 then 0xA0 else if s[0] == 0xF0 then 0x90 else 0x80;
    (s + if |s| == 1 then [second, 0x80, 0x80] else [0x80, 0x80])[..Length(s[0])]
  }

  /** Incomplete means: not a character yet, but the beginning of one. */
  lemma IncompleteMeaning(s: seq<byte>)
    requires s != []
    ensures DecodeOne(s).Incomplete? <==> exists c: nat :: Scalar(c) && |s| < |Encode(c)| && Prefix(s, Encode(c))
    ensures DecodeOne(s).Incomplete? ==> 1 <= |s| <= 3
  {
    if DecodeOne(s).Incomplete? {
      var t := Completed(s);
      assert DecodeOne(t).Good?;
      EncodeDecoded(t);
      assert Prefix(s, Encode(DecodeOne(t).code));
    }
    forall c: nat | Scalar(c) && |s| < |Encode(c)| && Prefix(s, Encode(c)) ensures DecodeOne(s).Incomplete? {
      DecodeEncoded(c, []);
    }
  }

  /** A bad subpart is maximal: it begins a character, or is one byte that begins none; one byte more is too much. */
  lemma BadMeaning(s: seq<byte>)
    requires s != [] && DecodeOne(s).Bad?
    ensures var n := DecodeOne(s).len;
      && 1 <= n <= 3 && n <= |s|
      && (Length(s[0]) == 0 ==> n == 1 && DecodeOne(s[..1]) == Bad(1))
      && (Length(s[0]) > 0 ==> n < |s| && DecodeOne(s[..n]).Incomplete? && DecodeOne(s[..n + 1]) == Bad(n))
  {}

  /** Whatever follows the first character, or the first bad byte, does not matter. */
  lemma DecodePrefix(s: seq<byte>, t: seq<byte>)
    requires s != [] && !DecodeOne(s).Incomplete?
    ensures DecodeOne(s + t) == DecodeOne(s)
  {}

  // ---------------------------------------------------------------------------------------------
  // Whole strings
  // ---------------------------------------------------------------------------------------------

  datatype Fault = Clean | BadSubpart(len: nat) | CutShort

  /** The validator's answer: the characters of the valid beginning, its length, and what stopped it. */
  datatype Checked = Checked(chars: seq<nat>, upTo: nat, fault: Fault)

  function Check(s: seq<byte>): (r: Checked)
    ensures r.upTo <= |s|
    ensures r.fault.Clean? <==> r.upTo == |s|
    ensures r.fault.BadSubpart? ==> DecodeOne(s[r.upTo..]) == Bad(r.fault.len)
    ensures r.fault.CutShort? ==> DecodeOne(s[r.upTo..]) == Incomplete
  {
    if s == [] then Checked([], 0, Clean)
    else match DecodeOne(s)
      case Good(n, c) =>
        var rest := Check(s[n..]);
        assert s[n..][rest.upTo..] == s[n + rest.upTo..];
        Checked([c] + rest.chars, n + rest.upTo, rest.fault)
      case Bad(n) => Checked([], 0, BadSubpart(n))
      case Incomplete => Checked([], 0, CutShort)
  }

  ghost predicate AllScalar(cs: seq<nat>) { forall i {:trigger cs[i]} :: 0 <= i < |cs| ==> Scalar(cs[i]) }

  ghost function EncodeAll(cs: seq<nat>): seq<byte>
    requires AllScalar(cs)
  {
    if cs == [] then [] else Encode(cs[0]) + EncodeAll(cs[1..])
  }

  /** The valid beginning is the encoding of its characters. */
  lemma {:induction false} CheckedIsEncoded(s: seq<byte>)
    ensures var r := Check(s); AllScalar(r.chars) && EncodeAll(r.chars) == s[..r.upTo]
  {
    hide DecodeOne, Encode;
    if s == [] || !DecodeOne(s).Good? {
    } else {
      EncodeDecoded(s);
      var n, c := DecodeOne(s).size, DecodeOne(s).code;
      var r := Check(s[n..]);
      CheckedIsEncoded(s[n..]);
      EncodeCons(c, r.chars);
      assert s[..n + r.upTo] == s[..n] + s[n..][..r.upTo];
    }
  }

  lemma EncodeCons(c: nat, cs: seq<nat>)
    requires Scalar(c) && AllScalar(cs)
    ensures AllScalar([c] + cs) && EncodeAll([c] + cs) == Encode(c) + EncodeAll(cs)
  {
    assert ([c] + cs)[1..] == cs;
    assert forall i :: 1 <= i <= |cs| ==> ([c] + cs)[i] == cs[i - 1];
  }

  /** A string is accepted exactly when it encodes some characters, and then these are the answer. */
  lemma {:induction false} CheckEncoded(cs: seq<nat>)
    requires AllScalar(cs)
    ensures Check(EncodeAll(cs)) == Checked(cs, |EncodeAll(cs)|, Clean)
  {
    if cs == [] {
    } else {
      CheckEncoded(cs[1..]);
      DecodeEncoded(cs[0], EncodeAll(cs[1..]));
      assert EncodeAll(cs)[|Encode(cs[0])|..] == EncodeAll(cs[1..]);
    }
  }
}
