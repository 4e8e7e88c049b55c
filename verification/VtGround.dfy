/**
  The fast path of `copa::Parser`: what one call of `advance` does, by bulk validation and a carry of up to three
  bytes, against the machine that takes one byte at a time.
*/
module VtGround {
  import opened Utf8
  import opened Vt

  // ---------------------------------------------------------------------------------------------
  // The ground state in bulk
  // ---------------------------------------------------------------------------------------------

  function DispatchAll(codes: seq<nat>): seq<Event> {
    if codes == [] then [] else [Dispatch(codes[0])] + DispatchAll(codes[1..])
  }

  predicate NoEsc(s: seq<byte>) { Esc !in s }

  /** Characters are dispatched one after the other. */
  lemma {:induction false} FoldChars(s: seq<byte>, rest: seq<byte>)
    requires NoEsc(s)
    ensures var r := Check(s);
      Fold(Grounded([]), s + rest) == After(DispatchAll(r.chars), Fold(Grounded([]), s[r.upTo..] + rest))
    decreases |s|
  {
    var r := Check(s);
    if s == [] || !DecodeOne(s).Good? {
      assert r.chars == [] && s[r.upTo..] == s;
    } else {
      var n, c := DecodeOne(s).size, DecodeOne(s).code;
      FoldChar(s, rest);
      FoldChars(s[n..], rest);
      var r' := Check(s[n..]);
      assert s[n..][r'.upTo..] == s[r.upTo..];
      assert r.chars[1..] == r'.chars;
      AfterAfter([Dispatch(c)], DispatchAll(r'.chars), Fold(Grounded([]), s[r.upTo..] + rest));
    }
  }

  /** The bytes of a character wait until it is complete. */
  lemma {:induction false} FoldPending(p: seq<byte>, q: seq<byte>, rest: seq<byte>)
    requires NoEsc(p + q) && (p + q == [] || DecodeOne(p + q).Incomplete?)
    ensures Fold(Grounded(p), q + rest) == Fold(Grounded(p + q), rest)
    decreases |q|
  {
    if q == [] {
      assert q + rest == rest && p + q == p;
    } else {
      var p' := p + [q[0]];
      assert (q + rest)[1..] == q[1..] + rest && (q + rest)[0] == q[0];
      assert p + q == p' + q[1..];
      PrefixIncomplete(p', q[1..]);
      assert q[0] in p + q;
      FoldPending(p', q[1..], rest);
    }
  }

  lemma PrefixIncomplete(s: seq<byte>, t: seq<byte>)
    requires s != [] && DecodeOne(s + t).Incomplete?
    ensures DecodeOne(s).Incomplete?
  {}

  lemma FoldChar(s: seq<byte>, rest: seq<byte>)
    requires s != [] && NoEsc(s) && DecodeOne(s).Good?
    ensures var d := DecodeOne(s);
      d.size <= |s| && Fold(Grounded([]), s + rest) == After([Dispatch(d.code)], Fold(Grounded([]), s[d.size..] + rest))
  {
    hide DecodeOne, NextGround, Encode;
    EncodeDecoded(s);
    var n := DecodeOne(s).size;
    var q, last := s[..n - 1], s[n - 1];
    assert s + rest == q + ([last] + (s[n..] + rest));
    assert forall i :: 0 <= i < n ==> s[i] in s;
    GoodPrefix(s, n);
    assert [] + q == q;
    FoldPending([], q, [last] + (s[n..] + rest));
    assert q + [last] == s[..n];
    Completes(q, last, s[n..] + rest);
  }

  /** The byte that completes a character. */
  lemma Completes(p: seq<byte>, b: byte, rest: seq<byte>)
    requires b != Esc && DecodeOne(p + [b]).Good?
    ensures Fold(Grounded(p), [b] + rest) == After([Dispatch(DecodeOne(p + [b]).code)], Fold(Grounded([]), rest))
  {
    assert ([b] + rest)[1..] == rest;
  }

  lemma GoodPrefix(s: seq<byte>, n: nat)
    requires s != [] && DecodeOne(s).Good? && n == DecodeOne(s).size && n <= |s|
    ensures DecodeOne(s[..n]) == DecodeOne(s)
    ensures n == 1 || DecodeOne(s[..n - 1]).Incomplete?
  {}

  /** A maximal ill-formed subpart is dispatched as one; what follows it starts afresh. */
  lemma FoldBad(p: seq<byte>, s: seq<byte>, rest: seq<byte>)
    requires s != [] && NoEsc(s) && DecodeOne(s).Bad? && Prefix(p, s) && (p == [] || DecodeOne(p).Incomplete?)
    ensures var n := DecodeOne(s).len;
      && |p| <= n <= |s|
      && Fold(Grounded(p), s[|p|..] + rest) == After([DispatchBad(s[..n])], Fold(Grounded([]), s[n..] + rest))
  {
    hide DecodeOne, Fold, DispatchBad;
    BadMeaning(s);
    PendingBeforeBad(p, s);
    var n := DecodeOne(s).len;
    if Length(s[0]) == 0 {
      assert s[|p|..] + rest == [s[0]] + (s[1..] + rest);
      assert s[..1] == [s[0]] && s[0] in s;
      FoldLone(s[0], s[1..] + rest);
    } else {
      var q, after := s[|p|..n], s[n + 1..] + rest;
      assert s[..n] + [s[n]] == s[..n + 1] && s[n] in s;
      assert s[|p|..] + rest == q + ([s[n]] + after);
      assert s[n..] + rest == [s[n]] + after;
      assert p + q == s[..n];
      FoldBroken(p, q, s[n], after);
    }
  }

  lemma FoldBroken(p: seq<byte>, q: seq<byte>, b: byte, rest: seq<byte>)
    requires p + q != [] && NoEsc(p + q) && b != Esc && DecodeOne(p + q).Incomplete? && DecodeOne(p + q + [b]).Bad?
    ensures Fold(Grounded(p), q + ([b] + rest)) == After([DispatchBad(p + q)], Fold(Grounded([]), [b] + rest))
  {
    hide DecodeOne, NextGround, DispatchBad, Fold, NoEsc;
    FoldPending(p, q, [b] + rest);
    BreaksOff(p + q, b, rest);
  }

  lemma FoldLone(b: byte, rest: seq<byte>)
    requires b != Esc && DecodeOne([b]).Bad?
    ensures Fold(Grounded([]), [b] + rest) == After([DispatchBad([b])], Fold(Grounded([]), rest))
  {
    assert ([b] + rest)[1..] == rest && [] + [b] == [b];
  }

  lemma PendingBeforeBad(p: seq<byte>, s: seq<byte>)
    requires s != [] && DecodeOne(s).Bad? && Prefix(p, s) && (p == [] || DecodeOne(p).Incomplete?)
    ensures |p| <= DecodeOne(s).len && (Length(s[0]) == 0 ==> p == [])
  {}

  /** A byte that cannot continue what is pending. */
  lemma BreaksOff(p: seq<byte>, b: byte, rest: seq<byte>)
    requires p != [] && b != Esc && DecodeOne(p + [b]).Bad?
    ensures Fold(Grounded(p), [b] + rest) == After([DispatchBad(p)], Fold(Grounded([]), [b] + rest))
  {
    var (vt, events) := NextGround([], b);
    assert ([b] + rest)[1..] == rest;
    AfterAfter([DispatchBad(p)], events, Fold(vt, rest));
  }

  lemma FoldEsc(p: seq<byte>, rest: seq<byte>)
    ensures Fold(Grounded(p), [Esc] + rest) == After(if p == [] then [] else [Print(Replacement)], Fold(Plain(Escape), rest))
  {
    assert ([Esc] + rest)[1..] == rest;
  }

  // ---------------------------------------------------------------------------------------------
  // One call of advance_ground
  // ---------------------------------------------------------------------------------------------

  /** Where the next ESC is; |s| when there is none. */
  function FindEsc(s: seq<byte>): (k: nat)
    ensures k <= |s| && (k < |s| ==> s[k] == Esc) && NoEsc(s[..k])
  {
    if s == [] || s[0] == Esc then 0
    else
      assert s[..1 + FindEsc(s[1..])] == [s[0]] + s[1..][..FindEsc(s[1..])];
      1 + FindEsc(s[1..])
  }

  /** What advance_ground does: the calls it makes, the machine it leaves, and how far it comes. */
  datatype Part = Part(events: seq<Event>, vt: Vt, read: nat)

  function GroundPart(s: seq<byte>): Part
    requires s != []
  {
    FaultFits(s, FindEsc(s));
    PartAt(s, FindEsc(s), Check(s[..FindEsc(s)]))
  }

  predicate Fits(s: seq<byte>, k: nat, r: Checked) {
    k <= |s| && r.upTo <= k && (r.fault.BadSubpart? ==> 0 < r.fault.len <= k - r.upTo)
  }

  lemma FaultFits(s: seq<byte>, k: nat)
    requires k <= |s|
    ensures var r := Check(s[..k]);
      Fits(s, k, r) && (r.fault.CutShort? ==> r.upTo < k && DecodeOne(s[r.upTo..k]).Incomplete?)
  {
    var r := Check(s[..k]);
    assert s[..k][r.upTo..] == s[r.upTo..k];
    if r.fault.BadSubpart? {
      hide DecodeOne;
      BadMeaning(s[..k][r.upTo..]);
    }
  }

  /** With the next ESC at k, and the validator's answer r for what comes before it. */
  function PartAt(s: seq<byte>, k: nat, r: Checked): Part
    requires Fits(s, k, r)
  {
    if k == 0 then Part([], Plain(Escape), 1)
    else
      var rest := FaultAt(s, k, r);
      Part(DispatchAll(r.chars) + rest.events, rest.vt, rest.read)
  }

  /** What comes after the valid characters. */
  function FaultAt(s: seq<byte>, k: nat, r: Checked): Part
    requires Fits(s, k, r)
  {
    match r.fault
    case Clean => if k < |s| then Part([], Plain(Escape), k + 1) else Part([], Grounded([]), k)
    case BadSubpart(n) => Part([DispatchBad(s[r.upTo..r.upTo + n])], Grounded([]), r.upTo + n)
    case CutShort =>
      if k < |s| then Part([Print(Replacement)], Plain(Escape), k + 1) else Part([], Grounded(s[r.upTo..]), |s|)
  }

  /** The part is what the machine does with these bytes, as far as the rest of them can tell. */
  ghost predicate Agrees(vt: Vt, s: seq<byte>, part: Part) {
    part.read <= |s| && Fold(vt, s) == After(part.events, Fold(part.vt, s[part.read..]))
  }

  lemma GroundAgrees(s: seq<byte>)
    requires s != []
    ensures GroundPart(s).read > 0 && Agrees(Grounded([]), s, GroundPart(s))
  {
    hide DecodeOne, DispatchBad, Fold, PartAt, FindEsc, Check, DispatchAll;
    var k := FindEsc(s);
    var r := Check(s[..k]);
    var tail, rest := s[r.upTo..k], s[k..];
    assert s == s[..k] + rest && s[..k][r.upTo..] == tail;
    FoldChars(s[..k], rest);
    FaultFits(s, k);
    assert NoEsc(tail) by { assert forall b :: b in tail ==> b in s[..k]; }
    if k == 0 {
      EscPart(s, r);
      assert s == [Esc] + s[1..];
      FoldEsc([], s[1..]);
    } else if r.fault.Clean? {
      assert tail + rest == rest && (k < |s| ==> rest == [Esc] + s[k + 1..]);
      CleanAgrees(s, k, r, rest);
    } else if r.fault.BadSubpart? {
      BadSlices(s, k, r);
      BadAgrees(s, k, r, tail, rest);
    } else {
      CutSlices(s, k, r);
      CutAgrees(s, k, r, tail, rest);
    }
  }

  lemma BadSlices(s: seq<byte>, k: nat, r: Checked)
    requires Fits(s, k, r) && r.fault.BadSubpart?
    ensures s[r.upTo..r.upTo + r.fault.len] == s[r.upTo..k][..r.fault.len]
    ensures s[r.upTo + r.fault.len..] == s[r.upTo..k][r.fault.len..] + s[k..]
  {}

  lemma CutSlices(s: seq<byte>, k: nat, r: Checked)
    requires Fits(s, k, r)
    ensures s[r.upTo..] == s[r.upTo..k] + s[k..]
    ensures if k < |s| then s[k] == Esc ==> s[k..] == [Esc] + s[k + 1..] else s[k..] == []
  {}

  lemma EscPart(s: seq<byte>, r: Checked)
    requires Fits(s, 0, r)
    ensures PartAt(s, 0, r) == Part([], Plain(Escape), 1)
  {}

  lemma CleanAgrees(s: seq<byte>, k: nat, r: Checked, rest: seq<byte>)
    requires 0 < k <= |s| && k == FindEsc(s) && r == Check(s[..k]) && r.fault.Clean?
    requires k < |s| ==> rest == [Esc] + s[k + 1..]
    requires k == |s| ==> rest == []
    requires Fold(Grounded([]), s) == After(DispatchAll(r.chars), Fold(Grounded([]), rest))
    ensures GroundPart(s).read > 0
    ensures Agrees(Grounded([]), s, GroundPart(s))
  {
    hide DecodeOne, Fold, Check, FindEsc, NoEsc, Dispatch, DispatchAll;
    assert s[k..] == [] || k < |s|;
    if k < |s| {
      FoldEsc([], s[k + 1..]);
      AfterAfter(DispatchAll(r.chars), [], Fold(Plain(Escape), s[k + 1..]));
    }
  }

  lemma BadAgrees(s: seq<byte>, k: nat, r: Checked, tail: seq<byte>, rest: seq<byte>)
    requires 0 < k <= |s| && k == FindEsc(s) && r == Check(s[..k]) && r.fault.BadSubpart? && NoEsc(tail)
    requires tail != [] && DecodeOne(tail) == Bad(r.fault.len) && r.fault.len <= |tail|
    requires r.upTo + r.fault.len <= |s|
    requires s[r.upTo..r.upTo + r.fault.len] == tail[..r.fault.len]
    requires s[r.upTo + r.fault.len..] == tail[r.fault.len..] + rest
    requires Fold(Grounded([]), s) == After(DispatchAll(r.chars), Fold(Grounded([]), tail + rest))
    ensures GroundPart(s).read > 0
    ensures Agrees(Grounded([]), s, GroundPart(s))
  {
    hide DecodeOne, Fold, Check, FindEsc, DispatchBad, NoEsc, Dispatch, DispatchAll;
    var bad, left := tail[..r.fault.len], tail[r.fault.len..] + rest;
    FoldBad([], tail, rest);
    assert tail[0..] == tail;
    AfterAfter(DispatchAll(r.chars), [DispatchBad(bad)], Fold(Grounded([]), left));
  }

  lemma CutAgrees(s: seq<byte>, k: nat, r: Checked, tail: seq<byte>, rest: seq<byte>)
    requires 0 < k <= |s| && k == FindEsc(s) && r == Check(s[..k]) && r.fault.CutShort? && NoEsc(tail)
    requires tail != [] && DecodeOne(tail).Incomplete? && s[r.upTo..] == tail + rest
    requires k < |s| ==> rest == [Esc] + s[k + 1..]
    requires k == |s| ==> rest == []
    requires Fold(Grounded([]), s) == After(DispatchAll(r.chars), Fold(Grounded([]), tail + rest))
    ensures GroundPart(s).read > 0
    ensures Agrees(Grounded([]), s, GroundPart(s))
  {
    hide DecodeOne, Fold, Check, FindEsc, NoEsc, Dispatch, DispatchAll;
    assert Fold(Grounded([]), tail + rest) == Fold(Grounded(tail), rest) by {
      assert [] + tail == tail;
      FoldPending([], tail, rest);
    }
    if k < |s| {
      FoldEsc(tail, s[k + 1..]);
      AfterAfter(DispatchAll(r.chars), [Print(Replacement)], Fold(Plain(Escape), s[k + 1..]));
    } else {
      assert tail + rest == tail && s[|s|..] == rest;
    }
  }
}
