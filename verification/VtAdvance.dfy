/**
  One call of `copa::Parser::advance`, including what it does with bytes carried over from the call before, and
  exactly when that is what the byte-at-a-time machine does.
*/
module VtAdvance {
  import opened Utf8
  import opened Vt
  import opened VtGround

  /** Only the ground state carries bytes: one to three, the beginning of a character. */
  predicate Carries(vt: Vt) {
    vt.pending != [] ==> vt.state == Ground && DecodeOne(vt.pending).Incomplete?
  }

  /** What advance_partial_utf8 does: it looks at no more than four bytes in all. */
  function PartialPart(p: seq<byte>, bytes: seq<byte>): Part
    requires p != [] && DecodeOne(p).Incomplete?
  {
    IncompleteMeaning(p);
    var buffer := p + bytes[..Min(|bytes|, 4 - |p|)];
    PartialSize(p, buffer);
    PartialAt(p, buffer, Check(buffer), DecodeOne(buffer))
  }

  /** With the validator's answer r for the bytes looked at, and the first character d. */
  function PartialAt(p: seq<byte>, buffer: seq<byte>, r: Checked, d: Decoded): Part
    requires |p| <= |buffer|
    requires r.upTo > 0 ==> d.Good? && |p| <= d.size <= r.upTo
    requires r.fault.BadSubpart? && r.upTo == 0 ==> |p| <= r.fault.len
  {
    if r.upTo > 0 then
      Part([Print(d.code)], Grounded([]), (if r.fault.Clean? then d.size else r.upTo) - |p|)
    else match r.fault
      case BadSubpart(n) => Part([Print(Replacement)], Grounded([]), n - |p|)
      case _ => Part([], Grounded(buffer), |buffer| - |p|)
  }

  lemma PartialSize(p: seq<byte>, s: seq<byte>)
    requires p != [] && DecodeOne(p).Incomplete? && Prefix(p, s)
    ensures DecodeOne(s).Good? ==> |p| < DecodeOne(s).size <= Check(s).upTo && Check(s).chars != [] && Check(s).chars[0] == DecodeOne(s).code
    ensures DecodeOne(s).Bad? ==> |p| <= DecodeOne(s).len
    ensures Check(s).upTo > 0 <==> DecodeOne(s).Good?
  {}

  /** One call of `advance`. */
  function AdvanceOut(vt: Vt, bytes: seq<byte>): Out
    requires Carries(vt)
  {
    if vt.pending == [] then Fold(vt, bytes)
    else
      var part := PartialPart(vt.pending, bytes);
      PartialReads(vt.pending, bytes);
      After(part.events, Fold(part.vt, bytes[part.read..]))
  }

  lemma PartialReads(p: seq<byte>, bytes: seq<byte>)
    requires p != [] && DecodeOne(p).Incomplete?
    ensures var part := PartialPart(p, bytes); part.read <= |bytes| && (part.vt.pending != [] ==> part.read == |bytes|)
  {
    IncompleteMeaning(p);
    var buffer := p + bytes[..Min(|bytes|, 4 - |p|)];
    if DecodeOne(buffer).Incomplete? { IncompleteMeaning(buffer); }
    if DecodeOne(buffer).Good? { EncodeDecoded(buffer); }
    if DecodeOne(buffer).Bad? { BadMeaning(buffer); }
  }

  /**
    The calls that go wrong: a carried two-byte lead is completed, and either the character is a C1 control, which
    is printed, or an ASCII byte follows that is followed by a byte above ASCII; this ASCII byte gets lost.
   */
  predicate Glitch(vt: Vt, bytes: seq<byte>) {
    && |vt.pending| == 1 && TwoByteLead(vt.pending[0])
    && |bytes| > 0 && Continuation(bytes[0])
    && (PrintsControl(vt.pending[0], bytes[0]) || LosesByte(bytes))
  }

  predicate PrintsControl(lead: byte, b: byte) { lead == 0xC2 && b <= 0x9F }

  predicate LosesByte(bytes: seq<byte>) { |bytes| >= 3 && bytes[1] < 0x80 && bytes[2] >= 0x80 }

  // ---------------------------------------------------------------------------------------------
  // The machine with pending bytes
  // ---------------------------------------------------------------------------------------------

  /** What becomes of pending bytes depends on the first character of them and what follows. */
  lemma FoldCarried(p: seq<byte>, bytes: seq<byte>)
    requires p != [] && DecodeOne(p).Incomplete?
    ensures match DecodeOne(p + bytes)
      case Good(n, c) => |p| < n <= |p| + |bytes| && Fold(Grounded(p), bytes) == After([Dispatch(c)], Fold(Grounded([]), bytes[n - |p|..]))
      case Bad(n) => |p| <= n <= |p| + |bytes| && Fold(Grounded(p), bytes) == After([Print(Replacement)], Fold(Grounded([]), bytes[n - |p|..]))
      case Incomplete => Fold(Grounded(p), bytes) == Out(Grounded(p + bytes), [])
  {
    hide Fold;
    var s := p + bytes;
    PartialSize(p, s);
    match DecodeOne(s)
    case Good(n, c) => CarriedGood(p, bytes);
    case Bad(n) => CarriedBad(p, bytes);
    case Incomplete =>
      MultiByte(s);
      FoldPending(p, bytes, []);
      assert bytes + [] == bytes;
      assert Fold(Grounded(s), []) == Out(Grounded(s), []) by { FoldNothing(Grounded(s)); }
  }

  lemma FoldNothing(vt: Vt)
    ensures Fold(vt, []) == Out(vt, [])
  {}

  /** Characters of several bytes, and their beginnings, hold no ESC. */
  lemma MultiByte(s: seq<byte>)
    requires s != [] && Length(s[0]) > 1
    ensures DecodeOne(s).Incomplete? ==> NoEsc(s)
    ensures DecodeOne(s).Good? ==> DecodeOne(s).size <= |s| && NoEsc(s[..DecodeOne(s).size])
    ensures DecodeOne(s).Bad? ==> DecodeOne(s).len <= |s| && NoEsc(s[..DecodeOne(s).len])
  {}

  /** Byte n - 1 of p + bytes, what bytes holds before it, and what comes after it. */
  lemma SplitAt(p: seq<byte>, bytes: seq<byte>, n: nat) returns (q: seq<byte>, b: byte, rest: seq<byte>)
    requires |p| < n <= |p| + |bytes|
    ensures bytes == q + ([b] + rest) && rest == bytes[n - |p|..] && [b] + rest == bytes[n - |p| - 1..]
    ensures p + q == (p + bytes)[..n - 1] && p + q + [b] == (p + bytes)[..n]
  {
    q, b, rest := bytes[..n - |p| - 1], bytes[n - |p| - 1], bytes[n - |p|..];
  }

  lemma CarriedGood(p: seq<byte>, bytes: seq<byte>)
    requires p != [] && DecodeOne(p).Incomplete? && DecodeOne(p + bytes).Good?
    ensures var d := DecodeOne(p + bytes);
      && |p| < d.size <= |p| + |bytes|
      && Fold(Grounded(p), bytes) == After([Dispatch(d.code)], Fold(Grounded([]), bytes[d.size - |p|..]))
  {
    var s := p + bytes;
    EncodeDecoded(s);
    PartialSize(p, s);
    var n := DecodeOne(s).size;
    GoodPrefix(s, n);
    MultiByte(s);
    var q, b, rest := SplitAt(p, bytes, n);
    FoldCompleted(p, q, b, rest);
  }

  lemma FoldCompleted(p: seq<byte>, q: seq<byte>, b: byte, rest: seq<byte>)
    requires p + q != [] && DecodeOne(p + q).Incomplete? && DecodeOne(p + q + [b]).Good? && NoEsc(p + q + [b])
    ensures Fold(Grounded(p), q + ([b] + rest)) == After([Dispatch(DecodeOne(p + q + [b]).code)], Fold(Grounded([]), rest))
  {
    hide Fold, NextGround, Dispatch, DecodeOne;
    assert NoEsc(p + q) && b != Esc by {
      assert b in p + q + [b];
      assert forall x :: x in p + q ==> x in p + q + [b];
    }
    FoldPending(p, q, [b] + rest);
    Completes(p + q, b, rest);
  }

  lemma LongLead(s: seq<byte>)
    requires s != [] && DecodeOne(s).Incomplete?
    ensures Length(s[0]) > 1 && DispatchBad(s) == Print(Replacement)
  {}

  lemma CarriedBad(p: seq<byte>, bytes: seq<byte>)
    requires p != [] && DecodeOne(p).Incomplete? && DecodeOne(p + bytes).Bad?
    ensures var n := DecodeOne(p + bytes).len;
      && |p| <= n <= |p| + |bytes|
      && Fold(Grounded(p), bytes) == After([Print(Replacement)], Fold(Grounded([]), bytes[n - |p|..]))
  {
    hide DecodeOne, Fold, NoEsc;
    var s := p + bytes;
    assert s[0] == p[0];
    LongLead(p);
    BadMeaning(s);
    MultiByte(s);
    PartialSize(p, s);
    var n := DecodeOne(s).len;
    var q, b, rest := SplitAt(p, bytes, n + 1);
    assert p + q == s[..n];
    FoldStopped(p, q, b, rest);
  }

  lemma FoldStopped(p: seq<byte>, q: seq<byte>, b: byte, rest: seq<byte>)
    requires p + q != [] && NoEsc(p + q) && DecodeOne(p + q).Incomplete? && DecodeOne(p + q + [b]).Bad?
    ensures Fold(Grounded(p), q + ([b] + rest)) == After([Print(Replacement)], Fold(Grounded([]), [b] + rest))
  {
    hide Fold, NextGround, Dispatch, DecodeOne, DispatchBad, NoEsc;
    LongLead(p + q);
    if b == Esc {
      FoldPending(p, q, [b] + rest);
      FoldEsc(p + q, rest);
      FoldEsc([], rest);
      AfterAfter([Print(Replacement)], [], Fold(Plain(Escape), rest));
    } else {
      FoldBroken(p, q, b, rest);
    }
  }

  // ---------------------------------------------------------------------------------------------
  // When a call agrees with the machine
  // ---------------------------------------------------------------------------------------------

  /** What PartialPart makes of the carried bytes and all that follows. */
  lemma PartialMeaning(p: seq<byte>, bytes: seq<byte>)
    requires p != [] && DecodeOne(p).Incomplete?
    ensures var part := PartialPart(p, bytes);
      match DecodeOne(p + bytes)
      case Good(n, c) =>
        && |p| < n <= |p| + |bytes| && part.events == [Print(c)] && part.vt == Grounded([])
        && part.read == n - |p| + (if |p| == 1 && n == 2 && LosesByte(bytes) then 1 else 0)
      case Bad(n) => part == Part([Print(Replacement)], Grounded([]), n - |p|)
      case Incomplete => part == Part([], Grounded(p + bytes), |bytes|)
  {
    IncompleteMeaning(p);
    var buffer := p + bytes[..Min(|bytes|, 4 - |p|)];
    PartialSize(p, buffer);
    BufferDecides(p, bytes, buffer);
    if DecodeOne(buffer).Good? {
      BufferUpTo(p, buffer);
      assert |p| == 1 && |buffer| == 4 ==> buffer[2] == bytes[1] && buffer[3] == bytes[2];
    }
  }

  /** Four bytes are enough to tell what the first character is. */
  lemma BufferDecides(p: seq<byte>, bytes: seq<byte>, buffer: seq<byte>)
    requires p != [] && |p| <= 3 && buffer == p + bytes[..Min(|bytes|, 4 - |p|)]
    ensures DecodeOne(p + bytes) == DecodeOne(buffer)
    ensures DecodeOne(buffer).Incomplete? ==> buffer == p + bytes
  {
    if buffer != p + bytes {
      assert |buffer| == 4 && p + bytes == buffer + bytes[4 - |p|..];
      hide DecodeOne;
      if DecodeOne(buffer).Incomplete? { IncompleteMeaning(buffer); }
      DecodePrefix(buffer, bytes[4 - |p|..]);
    }
  }

  /** How much of the four-byte buffer the validator accepts. */
  lemma BufferUpTo(p: seq<byte>, s: seq<byte>)
    requires p != [] && DecodeOne(p).Incomplete? && Prefix(p, s) && |s| <= 4 && DecodeOne(s).Good?
    ensures var n, r := DecodeOne(s).size, Check(s);
      && |p| < n <= |s|
      && (!r.fault.Clean? ==> r.upTo == n + (if n == 2 && |s| == 4 && s[2] < 0x80 && s[3] >= 0x80 then 1 else 0))
      && (n == 2 && |s| == 4 && s[2] < 0x80 && s[3] >= 0x80 ==> !r.fault.Clean? && |p| == 1)
  {
    hide Encode, Check;
    EncodeDecoded(s);
    PartialSize(p, s);
    var n := DecodeOne(s).size;
    var t := s[n..];
    assert Length(s[0]) == n && n >= 2;
    assert t != [] ==> t[0] == s[n];
    assert |t| == 2 ==> n == 2 && t[1] == s[3];
    CheckStep(s);
    ShortUpTo(t);
  }

  lemma CheckStep(s: seq<byte>)
    requires s != [] && DecodeOne(s).Good? && DecodeOne(s).size <= |s|
    ensures var n := DecodeOne(s).size; Check(s).upTo == n + Check(s[n..]).upTo && Check(s).fault == Check(s[n..]).fault
  {}

  lemma ShortUpTo(t: seq<byte>)
    requires |t| <= 2
    ensures var lost := |t| == 2 && t[0] < 0x80 && t[1] >= 0x80;
      && (!Check(t).fault.Clean? ==> Check(t).upTo == if lost then 1 else 0)
      && (lost ==> !Check(t).fault.Clean?)
  {
    hide Check;
    if |t| >= 1 && t[0] < 0x80 {
      CheckStep(t);
      if |t| == 2 { assert t[1..] == [t[1]]; CheckByte(t[1]); } else { assert t[1..] == []; CheckByte(t[0]); }
    } else if t != [] {
      CheckLong(t);
    } else {
      assert Check(t).upTo == 0;
    }
  }

  lemma CheckByte(b: byte)
    ensures Check([b]).upTo == if b < 0x80 then 1 else 0
    ensures Check([]).upTo == 0
  {}

  /** With a first byte above ASCII, two bytes are one character or none. */
  lemma CheckLong(t: seq<byte>)
    requires 1 <= |t| <= 2 && t[0] >= 0x80
    ensures Check(t).upTo == 0 || Check(t).upTo == |t|
  {}

  lemma TwoByteChar(p: seq<byte>, bytes: seq<byte>)
    requires p != [] && DecodeOne(p).Incomplete? && DecodeOne(p + bytes).Good?
    ensures var d := DecodeOne(p + bytes);
      && (|p| == 1 && d.size == 2 <==> |p| == 1 && TwoByteLead(p[0]))
      && (0x80 <= d.code <= 0x9F <==> |p| == 1 && bytes != [] && PrintsControl(p[0], bytes[0]))
      && d.code >= 0x80
  {
    EncodeDecoded(p + bytes);
    assert (p + bytes)[0] == p[0] && (|p| == 1 && bytes != [] ==> (p + bytes)[1] == bytes[0]);
  }

  lemma GlitchMeaning(p: seq<byte>, bytes: seq<byte>)
    requires p != [] && DecodeOne(p).Incomplete?
    ensures Glitch(Grounded(p), bytes) <==>
      DecodeOne(p + bytes).Good? &&
        ((|p| == 1 && bytes != [] && PrintsControl(p[0], bytes[0])) || (|p| == 1 && DecodeOne(p + bytes).size == 2 && LosesByte(bytes)))
  {
    var s := p + bytes;
    assert s[0] == p[0] && (|p| == 1 && bytes != [] ==> s[1] == bytes[0]);
  }

  /** Without a glitch, one call does what the machine does byte by byte. */
  lemma AdvanceAgrees(vt: Vt, bytes: seq<byte>)
    requires Carries(vt) && vt == Vt(vt.state, vt.data, vt.pending, vt.osc) && (vt.pending != [] ==> vt == Grounded(vt.pending))
    requires !Glitch(vt, bytes)
    ensures AdvanceOut(vt, bytes) == Fold(vt, bytes)
  {
    if vt.pending != [] { PendingAgrees(vt.pending, bytes); }
  }

  lemma PendingAgrees(p: seq<byte>, bytes: seq<byte>)
    requires p != [] && DecodeOne(p).Incomplete? && !Glitch(Grounded(p), bytes)
    ensures AdvanceOut(Grounded(p), bytes) == Fold(Grounded(p), bytes)
  {
    hide Fold, Check, PartialPart, Glitch;
    PartialReads(p, bytes);
    PartialMeaning(p, bytes);
    FoldCarried(p, bytes);
    GlitchMeaning(p, bytes);
    if DecodeOne(p + bytes).Good? { TwoByteChar(p, bytes); }
    FoldNothing(Grounded(p + bytes));
    assert bytes[|bytes|..] == [];
  }
}
