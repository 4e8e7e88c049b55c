/** Where `copa::Parser` looks whether to terminate, and what it has done by then. */
module VtUntil {
  import opened Utf8
  import opened Vt
  import opened VtGround
  import opened VtAdvance

  /** Machines as they occur: nothing stale is left. */
  predicate Shaped(vt: Vt) {
    && Carries(vt)
    && (vt.state == Ground ==> vt == Grounded(vt.pending))
    && (vt.state == OscString ==> vt == InOsc(vt.osc))
    && (vt.state != Ground && vt.state != OscString ==> vt == With(vt.state, vt.data))
    && (vt.pending != [] ==> vt.state == Ground)
  }

  /** One turn of the loop: up to the next ESC or fault in the ground state, one byte elsewhere. */
  function TurnPart(vt: Vt, bytes: seq<byte>): Part
    requires bytes != []
  {
    if vt.state == Ground then GroundPart(bytes) else Part(Next(vt, bytes[0]).1, Next(vt, bytes[0]).0, 1)
  }

  lemma TurnAgrees(vt: Vt, bytes: seq<byte>)
    requires Shaped(vt) && vt.pending == [] && bytes != []
    ensures var part := TurnPart(vt, bytes);
      && part.read > 0 && Agrees(vt, bytes, part)
      && Shaped(part.vt) && (part.vt.pending != [] ==> part.read == |bytes|)
  {
    if vt.state == Ground {
      GroundAgrees(bytes);
      GroundShaped(bytes);
    } else {
      NextShaped(vt, bytes[0]);
      FoldFirst(vt, bytes);
    }
  }

  lemma FoldFirst(vt: Vt, bytes: seq<byte>)
    requires bytes != []
    ensures Fold(vt, bytes) == After(Next(vt, bytes[0]).1, Fold(Next(vt, bytes[0]).0, bytes[1..]))
  {}

  lemma GroundShaped(bytes: seq<byte>)
    requires bytes != []
    ensures var part := GroundPart(bytes); Shaped(part.vt) && (part.vt.pending != [] ==> part.read == |bytes|)
  {
    var k := FindEsc(bytes);
    FaultFits(bytes, k);
    assert bytes[Check(bytes[..k]).upTo..k] == bytes[..k][Check(bytes[..k]).upTo..];
    assert k == |bytes| ==> bytes[Check(bytes[..k]).upTo..] == bytes[Check(bytes[..k]).upTo..k];
    hide DecodeOne, Check, FindEsc;
  }

  lemma NextShaped(vt: Vt, b: byte)
    requires Shaped(vt) && vt.state != Ground
    ensures Shaped(Next(vt, b).0) && Next(vt, b).0.pending == []
  {}

  /** After how much of the input, in which state and after which calls. */
  datatype Stop = Stop(vt: Vt, log: seq<Event>, read: nat)

  function TurnFrom(s: Stop, bytes: seq<byte>): Stop
    requires s.read < |bytes|
  {
    var part := TurnPart(s.vt, bytes[s.read..]);
    Stop(part.vt, s.log + part.events, s.read + part.read)
  }

  predicate StopOk(s: Stop, bytes: seq<byte>) {
    s.read <= |bytes| && Shaped(s.vt) && (s.vt.pending != [] ==> s.read == |bytes|)
  }

  lemma TurnFits(s: Stop, bytes: seq<byte>)
    requires StopOk(s, bytes) && s.read < |bytes|
    ensures var t := TurnFrom(s, bytes);
      && StopOk(t, bytes) && s.read < t.read
      && After(s.log, Fold(s.vt, bytes[s.read..])) == After(t.log, Fold(t.vt, bytes[t.read..]))
  {
    hide TurnPart, Fold;
    var part := TurnPart(s.vt, bytes[s.read..]);
    TurnAgrees(s.vt, bytes[s.read..]);
    assert bytes[s.read..][part.read..] == bytes[s.read + part.read..];
    AfterAfter(s.log, part.events, Fold(part.vt, bytes[s.read + part.read..]));
  }

  /** The loop of advance_until_terminated. */
  function Until(s: Stop, bytes: seq<byte>, stop: seq<Event> -> bool): Stop
    requires StopOk(s, bytes)
    decreases |bytes| - s.read
  {
    if s.read == |bytes| || stop(s.log) then s
    else
      TurnFits(s, bytes);
      Until(TurnFrom(s, bytes), bytes, stop)
  }

  /** Carried bytes come first, whatever the performer says. */
  function Start(vt: Vt, log: seq<Event>, bytes: seq<byte>): (s: Stop)
    requires Shaped(vt)
    ensures StopOk(s, bytes)
  {
    if vt.pending == [] then Stop(vt, log, 0)
    else
      var part := PartialPart(vt.pending, bytes);
      PartialFits(vt.pending, bytes);
      Stop(part.vt, log + part.events, part.read)
  }

  /** The whole call. */
  function UntilCall(vt: Vt, log: seq<Event>, bytes: seq<byte>, stop: seq<Event> -> bool): Stop
    requires Shaped(vt)
  {
    Until(Start(vt, log, bytes), bytes, stop)
  }

  lemma PartialFits(p: seq<byte>, bytes: seq<byte>)
    requires p != [] && DecodeOne(p).Incomplete?
    ensures var part := PartialPart(p, bytes); StopOk(Stop(part.vt, [], part.read), bytes)
  {
    PartialReads(p, bytes);
    PartialMeaning(p, bytes);
  }

  // ---------------------------------------------------------------------------------------------
  // Where the loop looks, in bytes
  // ---------------------------------------------------------------------------------------------

  /** The next byte shows that the pending ones are no character. */
  predicate Breaks(vt: Vt, rest: seq<byte>) {
    vt.pending != [] && rest != [] && rest[0] != Esc && DecodeOne(vt.pending + [rest[0]]).Bad?
  }

  /** A maximal ill-formed subpart is dispatched as soon as it is known to be one. */
  function Settle(vt: Vt, rest: seq<byte>): Out {
    if Breaks(vt, rest) then Out(Grounded([]), [Print(Replacement)]) else Out(vt, [])
  }

  /** The calls of the byte-at-a-time machine after k bytes, and where they leave it. */
  function Seen(vt: Vt, bytes: seq<byte>, k: nat): Out
    requires k <= |bytes|
  {
    After(Fold(vt, bytes[..k]).events, Settle(Fold(vt, bytes[..k]).vt, bytes[k..]))
  }

  /**
    Byte k - 1 is the last of the input, or an ESC, or is read outside the ground state, or is the last of an
    ill-formed subpart: a byte that begins no character, or one after which the next byte shows it.
   */
  predicate TurnEnd(vt: Vt, bytes: seq<byte>, k: nat)
    requires 0 < k <= |bytes|
  {
    var before, b := Seen(vt, bytes, k - 1).vt, bytes[k - 1];
    || k == |bytes|
    || b == Esc
    || before.state != Ground
    || (before.pending == [] && Length(b) == 0)
    || Breaks(Fold(vt, bytes[..k]).vt, bytes[k..])
  }

  /** What Fold makes of the rest does not depend on whether a broken subpart was dispatched ahead. */
  lemma SettledFold(vt: Vt, rest: seq<byte>, t: seq<byte>)
    requires Carries(vt) && (vt.pending != [] ==> vt == Grounded(vt.pending)) && t != [] && rest != [] && t[0] == rest[0]
    ensures var o := Settle(vt, rest); Fold(vt, t) == After(o.events, Fold(o.vt, t))
  {
    if Breaks(vt, rest) {
      LongLead(vt.pending);
      BreaksOff(vt.pending, t[0], t[1..]);
      assert [t[0]] + t[1..] == t;
    }
  }

  /** Reading on from what was seen after i bytes. */
  lemma SeenFrom(vt: Vt, bytes: seq<byte>, i: nat, k: nat)
    requires Shaped(vt) && i <= |bytes| && k <= |bytes| - i
    ensures var o, rest := Seen(vt, bytes, i), bytes[i..];
      && Seen(vt, bytes, i + k) == After(o.events, Seen(o.vt, rest, k))
      && (k > 0 ==> Fold(vt, bytes[..i + k]).vt == Fold(o.vt, rest[..k]).vt)
  {
    hide Next, DecodeOne;
    var f, o, rest := Fold(vt, bytes[..i]), Seen(vt, bytes, i), bytes[i..];
    FoldShaped(vt, bytes[..i]);
    assert bytes[..i + k] == bytes[..i] + rest[..k] && rest[k..] == bytes[i + k..];
    FoldConcat(vt, bytes[..i], rest[..k]);
    if k > 0 {
      SettledFold(f.vt, rest, rest[..k]);
      AfterAfter(f.events, Settle(f.vt, rest).events, Fold(o.vt, rest[..k]));
      AfterAfter(o.events, Fold(o.vt, rest[..k]).events, Settle(Fold(o.vt, rest[..k]).vt, rest[k..]));
    } else {
      assert rest[..0] == [] && rest[0..] == rest;
    }
  }

  lemma {:induction false} FoldShaped(vt: Vt, bytes: seq<byte>)
    requires Shaped(vt)
    ensures Shaped(Fold(vt, bytes).vt)
    decreases |bytes|
  {
    if bytes == [] {
    } else {
      if vt.state == Ground { NextGroundShaped(vt.pending, bytes[0]); } else { NextShaped(vt, bytes[0]); }
      FoldShaped(Next(vt, bytes[0]).0, bytes[1..]);
    }
  }

  lemma NextGroundShaped(p: seq<byte>, b: byte)
    requires p == [] || DecodeOne(p).Incomplete?
    ensures Shaped(NextGround(p, b).0)
    decreases |p|
  {
    if b != Esc && p != [] && DecodeOne(p + [b]).Bad? { NextGroundShaped([], b); }
  }

  lemma TurnEndFrom(vt: Vt, bytes: seq<byte>, i: nat, k: nat)
    requires Shaped(vt) && i <= |bytes| && 0 < k <= |bytes| - i
    ensures TurnEnd(vt, bytes, i + k) <==> TurnEnd(Seen(vt, bytes, i).vt, bytes[i..], k)
  {
    hide Seen, Fold, Breaks;
    SeenFrom(vt, bytes, i, k - 1);
    SeenFrom(vt, bytes, i, k);
    assert bytes[i..][k..] == bytes[i + k..];
  }

  /** The part goes up to the first end of a turn, and makes the calls of the bytes it reads. */
  ghost predicate IsTurn(vt: Vt, bytes: seq<byte>, part: Part) {
    && 0 < part.read <= |bytes|
    && Seen(vt, bytes, part.read) == Out(part.vt, part.events)
    && TurnEnd(vt, bytes, part.read)
    && forall k {:trigger TurnEnd(vt, bytes, k)} :: 0 < k < part.read ==> !TurnEnd(vt, bytes, k)
  }

  /** While a character is incomplete nothing happens. */
  lemma PendingSeen(s: seq<byte>, m: nat, j: nat)
    requires 0 < j <= m <= |s| && DecodeOne(s[..m]).Incomplete?
    ensures Fold(Grounded([]), s[..j]) == Out(Grounded(s[..j]), []) && DecodeOne(s[..j]).Incomplete?
    ensures s[j - 1] != Esc
  {
    hide Fold, Next;
    assert s[..m] == s[..j] + s[j..m] && s[..m][..j] == s[..j];
    PrefixIncomplete(s[..j], s[j..m]);
    MultiByte(s[..j]) by { LongLead(s[..j]); }
    assert [] + s[..j] == s[..j] && s[..j] + [] == s[..j];
    FoldPending([], s[..j], []);
    FoldNothing(Grounded(s[..j]));
    assert s[j - 1] in s[..j];
  }

  /** No turn ends inside a character, or inside what could have been one. */
  lemma NoEndInside(s: seq<byte>, m: nat, j: nat)
    requires 0 < j <= m < |s| && DecodeOne(s[..m]).Incomplete? && (j == m ==> s[m] == Esc || !DecodeOne(s[..m + 1]).Bad?)
    ensures !TurnEnd(Grounded([]), s, j) && Seen(Grounded([]), s, j) == Out(Grounded(s[..j]), [])
  {
    hide Fold, Next;
    PendingSeen(s, m, j);
    assert s[..j] + [s[j]] == s[..j + 1];
    if j < m { PendingSeen(s, m, j + 1); }
    LongLead(s[..j]);
    if j == 1 {
      assert s[..0] == [] && s[0..] == s;
      FoldNothing(Grounded([]));
    } else {
      PendingSeen(s, m, j - 1);
      assert s[..j - 1] + [s[j - 1]] == s[..j];
    }
  }

  lemma EscTurn(s: seq<byte>)
    requires s != [] && s[0] == Esc
    ensures IsTurn(Grounded([]), s, Part([], Plain(Escape), 1))
  {
    assert s[..1] == [Esc];
    FoldOne(Grounded([]), Esc);
  }

  lemma LoneTurn(s: seq<byte>)
    requires s != [] && Length(s[0]) == 0
    ensures IsTurn(Grounded([]), s, Part([DispatchBad(s[..1])], Grounded([]), 1))
  {
    assert s[..1] == [s[0]] && s[..0] == [] && [] + [s[0]] == [s[0]];
    FoldOne(Grounded([]), s[0]);
    FoldNothing(Grounded([]));
  }

  lemma BrokenTurn(s: seq<byte>, n: nat)
    requires 0 < n < |s| && s[n] != Esc && DecodeOne(s[..n]).Incomplete? && DecodeOne(s[..n + 1]).Bad?
    ensures IsTurn(Grounded([]), s, Part([DispatchBad(s[..n])], Grounded([]), n))
  {
    hide Fold, Next, DecodeOne, DispatchBad;
    PendingSeen(s, n, n);
    LongLead(s[..n]);
    assert s[..n] + [s[n]] == s[..n + 1];
    forall j {:trigger TurnEnd(Grounded([]), s, j)} | 0 < j < n ensures !TurnEnd(Grounded([]), s, j) {
      InsideLonger(s, n, j);
    }
  }

  lemma InsideLonger(s: seq<byte>, n: nat, j: nat)
    requires 0 < j < n < |s| && DecodeOne(s[..n]).Incomplete?
    ensures !TurnEnd(Grounded([]), s, j)
  {
    hide TurnEnd, Seen, DecodeOne, Fold;
    PendingSeen(s, n, j);
    PendingSeen(s, n, j + 1);
    assert DecodeOne(s[..j + 1]).Incomplete?;
    NoEndInside(s, j, j);
  }

  /** What is pending when ESC comes is dispatched with it. */
  lemma CutTurn(s: seq<byte>, n: nat)
    requires 0 < n < |s| && s[n] == Esc && DecodeOne(s[..n]).Incomplete?
    ensures IsTurn(Grounded([]), s, Part([Print(Replacement)], Plain(Escape), n + 1))
  {
    hide Fold, DecodeOne;
    PendingSeen(s, n, n);
    assert s[..n + 1] == s[..n] + [Esc];
    FoldConcat(Grounded([]), s[..n], [Esc]);
    FoldOne(Grounded(s[..n]), Esc);
    forall j {:trigger TurnEnd(Grounded([]), s, j)} | 0 < j < n + 1 ensures !TurnEnd(Grounded([]), s, j) {
      NoEndInside(s, n, j);
    }
  }

  lemma WaitTurn(s: seq<byte>)
    requires s != [] && DecodeOne(s).Incomplete?
    ensures IsTurn(Grounded([]), s, Part([], Grounded(s), |s|))
  {
    hide Fold, DecodeOne;
    assert s[..|s|] == s && s[|s|..] == [];
    PendingSeen(s, |s|, |s|);
    forall j {:trigger TurnEnd(Grounded([]), s, j)} | 0 < j < |s| ensures !TurnEnd(Grounded([]), s, j) {
      InsideWhole(s, j);
    }
  }

  lemma InsideWhole(s: seq<byte>, j: nat)
    requires 0 < j < |s| && DecodeOne(s).Incomplete?
    ensures !TurnEnd(Grounded([]), s, j)
  {
    hide TurnEnd, Seen, DecodeOne, Fold;
    assert s[..|s|] == s;
    PendingSeen(s, |s|, j);
    PendingSeen(s, |s|, j + 1);
    NoEndInside(s, j, j);
  }

  /** A whole character is dispatched, and the turn goes on behind it. */
  lemma CharSeen(s: seq<byte>, n: nat)
    requires s != [] && s[0] != Esc && DecodeOne(s).Good? && DecodeOne(s).size == n <= |s|
    ensures 0 < n && Seen(Grounded([]), s, n) == Out(Grounded([]), [Dispatch(DecodeOne(s).code)])
    ensures n < |s| ==> !TurnEnd(Grounded([]), s, n)
    ensures forall j {:trigger TurnEnd(Grounded([]), s, j)} :: 0 < j < n ==> !TurnEnd(Grounded([]), s, j)
  {
    hide Fold, DecodeOne, Dispatch;
    GoodPrefix(s, n) by { EncodeDecoded(s); }
    CharFold(s, n);
    if n > 1 {
      assert s[..n - 1] + [s[n - 1]] == s[..n];
      PendingSeen(s, n - 1, n - 1);
      forall j {:trigger TurnEnd(Grounded([]), s, j)} | 0 < j < n ensures !TurnEnd(Grounded([]), s, j) { NoEndInside(s, n - 1, j); }
      NoEndInside(s, n - 1, n - 1);
    } else {
      OneByte(s);
      assert s[..0] == [] && s[0..] == s;
      FoldNothing(Grounded([]));
    }
  }

  lemma OneByte(s: seq<byte>)
    requires s != [] && DecodeOne(s).Good? && DecodeOne(s).size == 1
    ensures Length(s[0]) == 1
  {}

  lemma CharFold(s: seq<byte>, n: nat)
    requires s != [] && s[0] != Esc && DecodeOne(s).Good? && DecodeOne(s).size == n <= |s|
    ensures n > 0 && s[n - 1] != Esc
    ensures Fold(Grounded([]), s[..n]) == Out(Grounded([]), [Dispatch(DecodeOne(s).code)])
  {
    EncodeDecoded(s);
    GoodPrefix(s, n);
    if n > 1 { MultiByte(s); } else { assert NoEsc(s[..n]); }
    assert s[n - 1] in s[..n];
    hide Fold, DecodeOne, Dispatch, Encode;
    FoldChar(s[..n], []);
    assert s[..n] + [] == s[..n] && s[..n][n..] + [] == [];
    FoldNothing(Grounded([]));
  }

  /** A turn behind a character makes one turn with it. */
  lemma CharTurn(s: seq<byte>, n: nat, part: Part)
    requires 0 < n < |s| && Seen(Grounded([]), s, n).vt == Grounded([]) && !TurnEnd(Grounded([]), s, n)
    requires forall j {:trigger TurnEnd(Grounded([]), s, j)} :: 0 < j < n ==> !TurnEnd(Grounded([]), s, j)
    requires IsTurn(Grounded([]), s[n..], part)
    ensures IsTurn(Grounded([]), s, Part(Seen(Grounded([]), s, n).events + part.events, part.vt, n + part.read))
  {
    hide Seen, TurnEnd;
    SeenFrom(Grounded([]), s, n, part.read);
    TurnEndFrom(Grounded([]), s, n, part.read);
    forall j {:trigger TurnEnd(Grounded([]), s, j)} | 0 < j < n + part.read ensures !TurnEnd(Grounded([]), s, j) {
      if j > n {
        TurnEndFrom(Grounded([]), s, n, j - n);
        assert !TurnEnd(Grounded([]), s[n..], j - n);
      }
    }
  }

  lemma {:induction false} FindEscFrom(s: seq<byte>, n: nat)
    requires n <= |s| && NoEsc(s[..n])
    ensures FindEsc(s) == n + FindEsc(s[n..])
    decreases n
  {
    if n == 0 {
      assert s[0..] == s;
    } else {
      assert s[0] in s[..n] && s[..n][1..] == s[1..][..n - 1] && s[1..][n - 1..] == s[n..];
      assert forall b :: b in s[..n][1..] ==> b in s[..n];
      FindEscFrom(s[1..], n - 1);
    }
  }

  lemma GroundCons(s: seq<byte>, n: nat, k: nat)
    requires s != [] && k == FindEsc(s) && k > 0 && DecodeOne(s[..k]).Good? && DecodeOne(s[..k]).size == n && 0 < n <= k
    ensures var e := [Dispatch(DecodeOne(s[..k]).code)];
      GroundPart(s) == if n == |s| then Part(e, Grounded([]), n)
                       else Part(e + GroundPart(s[n..]).events, GroundPart(s[n..]).vt, n + GroundPart(s[n..]).read)
  {
    hide DecodeOne, FindEsc, Dispatch, PartAt, NoEsc, Check, GroundPart;
    NoEscPrefix(s, n, k);
    FindEscFrom(s, n);
    assert s[..k][n..] == s[n..][..k - n];
    CheckCons(s[..k]);
    CheckNone();
    FaultFits(s, k);
    FaultFits(s[n..], k - n);
    var r := Check(s[n..][..k - n]);
    PartCons(s, n, k, r, DecodeOne(s[..k]).code);
    GroundIs(s, k);
    if n < |s| { GroundIs(s[n..], k - n); }
  }

  lemma GroundIs(s: seq<byte>, k: nat)
    requires s != [] && k == FindEsc(s)
    ensures Fits(s, k, Check(s[..k])) && GroundPart(s) == PartAt(s, k, Check(s[..k]))
  {
    FaultFits(s, k);
  }

  lemma NoEscPrefix(s: seq<byte>, n: nat, k: nat)
    requires n <= k <= |s| && NoEsc(s[..k])
    ensures NoEsc(s[..n])
  {
    assert forall b :: b in s[..n] ==> b in s[..k];
  }

  lemma CheckNone()
    ensures Check([]) == Checked([], 0, Clean)
  {}

  lemma PartCons(s: seq<byte>, n: nat, k: nat, r: Checked, c: nat)
    requires 0 < n <= k <= |s| && Fits(s[n..], k - n, r) && (r.fault.CutShort? ==> r.upTo < k - n)
    requires n == k ==> r == Checked([], 0, Clean)
    ensures Fits(s, k, Checked([c] + r.chars, n + r.upTo, r.fault))
    ensures var a, b := PartAt(s, k, Checked([c] + r.chars, n + r.upTo, r.fault)), PartAt(s[n..], k - n, r);
      a == if n == |s| then Part([Dispatch(c)], Grounded([]), n) else Part([Dispatch(c)] + b.events, b.vt, n + b.read)
  {
    hide FaultAt, Dispatch, DispatchAll;
    FaultCons(s, n, k, r, c);
    if n == k {
      FaultNone(s, n, k, r);
      NoMore([Dispatch(c)]);
    }
    CharFirst(c, r.chars);
    if n < k { SeqAssoc([Dispatch(c)], DispatchAll(r.chars), FaultAt(s[n..], k - n, r).events); }
  }

  lemma CharFirst(c: nat, chars: seq<nat>)
    ensures DispatchAll([c] + chars) == [Dispatch(c)] + DispatchAll(chars) && DispatchAll([]) == []
  {
    assert ([c] + chars)[1..] == chars;
  }

  lemma NoMore(a: seq<Event>)
    ensures a + [] == a && [] + a == a
  {}

  lemma SeqAssoc(a: seq<Event>, b: seq<Event>, c: seq<Event>)
    ensures a + b + c == a + (b + c)
  {}

  lemma FaultNone(s: seq<byte>, n: nat, k: nat, r: Checked)
    requires 0 < n <= k <= |s| && Fits(s[n..], k - n, r) && n == k && r == Checked([], 0, Clean)
    ensures FaultAt(s[n..], 0, r) == if n < |s| then Part([], Plain(Escape), 1) else Part([], Grounded([]), 0)
  {}

  lemma FaultCons(s: seq<byte>, n: nat, k: nat, r: Checked, c: nat)
    requires 0 < n <= k <= |s| && Fits(s[n..], k - n, r) && (r.fault.CutShort? ==> r.upTo < k - n)
    ensures Fits(s, k, Checked([c] + r.chars, n + r.upTo, r.fault))
    ensures var a, b := FaultAt(s, k, Checked([c] + r.chars, n + r.upTo, r.fault)), FaultAt(s[n..], k - n, r); a == b.(read := n + b.read)
  {
    assert s[n..][r.upTo..] == s[n + r.upTo..];
    if r.fault.BadSubpart? { assert s[n..][r.upTo..r.upTo + r.fault.len] == s[n + r.upTo..n + r.upTo + r.fault.len]; }
  }

  lemma CheckCons(s: seq<byte>)
    requires s != [] && DecodeOne(s).Good? && DecodeOne(s).size <= |s|
    ensures var n, r := DecodeOne(s).size, Check(s[DecodeOne(s).size..]);
      Check(s) == Checked([DecodeOne(s).code] + r.chars, n + r.upTo, r.fault)
  {}

  lemma {:induction false} GroundIsTurn(s: seq<byte>)
    requires s != []
    ensures IsTurn(Grounded([]), s, GroundPart(s))
    decreases |s|
  {
    hide DecodeOne, IsTurn, Seen, TurnEnd, GroundPart, DispatchBad, Dispatch;
    var k := FindEsc(s);
    var t := s[..k];
    if k == 0 {
      EscTurn(s);
      PartEsc(s);
    } else {
      assert t[0] == s[0] && t[0] in t;
      match DecodeOne(t)
      case Good(n, c) =>
        EncodeDecoded(t);
        assert s == t + s[k..];
        DecodePrefix(t, s[k..]);
        CharSeen(s, n);
        GroundCons(s, n, k);
        if n < |s| {
          GroundIsTurn(s[n..]);
          CharTurn(s, n, GroundPart(s[n..]));
        } else {
          WholeTurn(s);
        }
      case Bad(n) => BadTurn(s, k);
      case Incomplete => ShortTurn(s, k);
    }
  }

  lemma PartEsc(s: seq<byte>)
    requires s != [] && FindEsc(s) == 0
    ensures GroundPart(s) == Part([], Plain(Escape), 1)
  {}

  lemma WholeTurn(s: seq<byte>)
    requires s != [] && forall j {:trigger TurnEnd(Grounded([]), s, j)} :: 0 < j < |s| ==> !TurnEnd(Grounded([]), s, j)
    ensures var o := Seen(Grounded([]), s, |s|); IsTurn(Grounded([]), s, Part(o.events, o.vt, |s|))
  {
    hide Seen;
  }

  lemma BadTurn(s: seq<byte>, k: nat)
    requires s != [] && 0 < k == FindEsc(s) && DecodeOne(s[..k]).Bad?
    ensures IsTurn(Grounded([]), s, GroundPart(s))
  {
    var t := s[..k];
    BadMeaning(t);
    hide DecodeOne, IsTurn, FindEsc, DispatchBad;
    var n := DecodeOne(t).len;
    assert t[..n] == s[..n] && s[0] == t[0] && s[0..n] == s[..n];
    if Length(s[0]) == 0 {
      LoneTurn(s);
    } else {
      assert t[..n + 1] == s[..n + 1] && s[n] == t[n] && t[n] in t;
      BrokenTurn(s, n);
    }
  }

  lemma ShortTurn(s: seq<byte>, k: nat)
    requires s != [] && 0 < k == FindEsc(s) && DecodeOne(s[..k]).Incomplete?
    ensures IsTurn(Grounded([]), s, GroundPart(s))
  {
    hide DecodeOne, IsTurn;
    assert Check(s[..k]) == Checked([], 0, CutShort);
    NoMore([Print(Replacement)]);
    NoMore([]);
    if k < |s| {
      CutTurn(s, k);
    } else {
      assert s[0..] == s && s[..k] == s;
      WaitTurn(s);
    }
  }

  lemma TurnIsTurn(vt: Vt, bytes: seq<byte>)
    requires Shaped(vt) && vt.pending == [] && bytes != []
    ensures IsTurn(vt, bytes, TurnPart(vt, bytes))
  {
    hide DecodeOne;
    if vt.state == Ground {
      hide IsTurn;
      GroundIsTurn(bytes);
    } else {
      NextShaped(vt, bytes[0]);
      hide Next, Settle;
      assert bytes[..1] == [bytes[0]] && bytes[..0] == [] && bytes[0..] == bytes;
      FoldOne(vt, bytes[0]);
      FoldNothing(vt);
      SettleQuiet(vt, bytes);
      SettleQuiet(Next(vt, bytes[0]).0, bytes[1..]);
    }
  }

  lemma SettleQuiet(vt: Vt, rest: seq<byte>)
    requires vt.pending == []
    ensures Settle(vt, rest) == Out(vt, [])
  {}

  // ---------------------------------------------------------------------------------------------
  // Where the loop stops
  // ---------------------------------------------------------------------------------------------

  /** The loop looks before the first byte and at the end of every turn. */
  predicate Looks(vt: Vt, bytes: seq<byte>, k: nat)
    requires k <= |bytes|
  {
    k == 0 || TurnEnd(vt, bytes, k)
  }

  /** The loop stops where it looks first and the performer has had enough, or at the end of the input. */
  ghost predicate StopsAt(s: Stop, bytes: seq<byte>, stop: seq<Event> -> bool, r: Stop)
    requires s.read <= |bytes|
  {
    var rest := bytes[s.read..];
    && s.read <= r.read <= |bytes|
    && Looks(s.vt, rest, r.read - s.read)
    && Out(r.vt, r.log) == After(s.log, Seen(s.vt, rest, r.read - s.read))
    && (forall k {:trigger Looks(s.vt, rest, k)} :: 0 <= k < r.read - s.read && Looks(s.vt, rest, k) ==> !stop(s.log + Seen(s.vt, rest, k).events))
    && (stop(r.log) || r.read == |bytes|)
  }

  lemma {:induction false} UntilStopsAt(s: Stop, bytes: seq<byte>, stop: seq<Event> -> bool)
    requires StopOk(s, bytes)
    ensures StopsAt(s, bytes, stop, Until(s, bytes, stop))
    decreases |bytes| - s.read
  {
    hide TurnPart, Fold, Next, DecodeOne, TurnEnd;
    var rest := bytes[s.read..];
    SeenNothing(s.vt, rest);
    assert s.log + [] == s.log;
    if s.read == |bytes| || stop(s.log) {
    } else {
      TurnFits(s, bytes);
      var t := TurnFrom(s, bytes);
      UntilStopsAt(t, bytes, stop);
      TurnIsTurn(s.vt, rest);
      assert rest[t.read - s.read..] == bytes[t.read..];
      hide Seen, Until, StopOk;
      TurnThenStops(s, t, bytes, stop, Until(t, bytes, stop));
    }
  }

  lemma SeenNothing(vt: Vt, rest: seq<byte>)
    requires vt.pending == [] || rest == []
    ensures Seen(vt, rest, 0) == Out(vt, [])
  {
    assert rest[..0] == [] && rest[0..] == rest;
  }

  /** One turn and then the rest of the loop. */
  lemma TurnThenStops(s: Stop, t: Stop, bytes: seq<byte>, stop: seq<Event> -> bool, r: Stop)
    requires s.read < t.read <= |bytes| && Shaped(s.vt) && !stop(s.log) && StopsAt(t, bytes, stop, r)
    requires Seen(s.vt, bytes[s.read..], 0) == Out(s.vt, [])
    requires var part := TurnPart(s.vt, bytes[s.read..]);
      IsTurn(s.vt, bytes[s.read..], part) && t == Stop(part.vt, s.log + part.events, s.read + part.read)
    ensures StopsAt(s, bytes, stop, r)
  {
    hide TurnPart, Fold, Next, Seen, TurnEnd;
    var rest, i := bytes[s.read..], t.read - s.read;
    var events := Seen(s.vt, rest, i).events;
    assert rest[i..] == bytes[t.read..] && s.log + [] == s.log;
    SeenFrom(s.vt, rest, i, r.read - t.read);
    AfterAfter(s.log, events, Seen(t.vt, rest[i..], r.read - t.read));
    if r.read > t.read { TurnEndFrom(s.vt, rest, i, r.read - t.read); }
    forall k {:trigger Looks(s.vt, rest, k)} | 0 <= k < r.read - s.read && Looks(s.vt, rest, k)
      ensures !stop(s.log + Seen(s.vt, rest, k).events)
    {
      if k >= i {
        SeenFrom(s.vt, rest, i, k - i);
        AfterAfter(s.log, events, Seen(t.vt, rest[i..], k - i));
        if k > i { TurnEndFrom(s.vt, rest, i, k - i); }
        assert Looks(t.vt, rest[i..], k - i);
      }
    }
  }

  /** The call looks at the performer after m bytes: carried bytes are done with, and a turn ends. */
  predicate EndsTurn(vt: Vt, bytes: seq<byte>, m: nat)
    requires Shaped(vt) && m <= |bytes|
  {
    var s := Start(vt, [], bytes);
    m >= s.read && Looks(s.vt, bytes[s.read..], m - s.read)
  }

  /** The calls of the first m bytes, byte after byte; of carried bytes, when it is known what they are. */
  function CallsAfter(vt: Vt, bytes: seq<byte>, m: nat): seq<Event>
    requires Shaped(vt) && m <= |bytes|
  {
    var s := Start(vt, [], bytes);
    if m < s.read then [] else s.log + Seen(s.vt, bytes[s.read..], m - s.read).events
  }

  lemma StartLog(vt: Vt, log: seq<Event>, bytes: seq<byte>)
    requires Shaped(vt)
    ensures var s, s0 := Start(vt, log, bytes), Start(vt, [], bytes); s == s0.(log := log + s0.log)
  {
    hide PartialPart, DecodeOne;
    assert log + [] == log;
    if vt.pending != [] { assert [] + PartialPart(vt.pending, bytes).events == PartialPart(vt.pending, bytes).events; }
  }

  /** Early termination stops at the first end of a turn after which the performer has had enough, or at the end. */
  lemma UntilReadsLeast(vt: Vt, log: seq<Event>, bytes: seq<byte>, stop: seq<Event> -> bool)
    requires Shaped(vt)
    ensures var r := UntilCall(vt, log, bytes, stop);
      && r.read <= |bytes| && EndsTurn(vt, bytes, r.read) && r.log == log + CallsAfter(vt, bytes, r.read)
      && (stop(r.log) || r.read == |bytes|)
      && forall k: nat {:trigger EndsTurn(vt, bytes, k)} :: k < r.read && EndsTurn(vt, bytes, k) ==> !stop(log + CallsAfter(vt, bytes, k))
  {
    hide Seen, TurnEnd, Start, Looks, Until;
    var s, s0 := Start(vt, log, bytes), Start(vt, [], bytes);
    StartLog(vt, log, bytes);
    UntilStopsAt(s, bytes, stop);
    var r, rest := UntilCall(vt, log, bytes, stop), bytes[s.read..];
    assert r.log == log + CallsAfter(vt, bytes, r.read) by {
      LogAssoc(log, s0.log, Seen(s.vt, rest, r.read - s.read).events);
    }
    forall k: nat {:trigger EndsTurn(vt, bytes, k)} | k < r.read && EndsTurn(vt, bytes, k) ensures !stop(log + CallsAfter(vt, bytes, k)) {
      LogAssoc(log, s0.log, Seen(s.vt, rest, k - s.read).events);
      assert Looks(s.vt, rest, k - s.read);
    }
  }

  lemma LogAssoc(a: seq<Event>, b: seq<Event>, c: seq<Event>)
    ensures a + b + c == a + (b + c)
  {}

  /**
    When the performer has had enough after m bytes and not before, the call reads exactly m bytes if and only if a
    turn ends there.  If not, it reads on, at least to the end of that turn, and stops there if the performer still
    has had enough.
   */
  lemma StopsOnTime(vt: Vt, log: seq<Event>, bytes: seq<byte>, stop: seq<Event> -> bool, m: nat)
    requires Shaped(vt) && m <= |bytes| && stop(log + CallsAfter(vt, bytes, m))
    requires forall k: nat {:trigger CallsAfter(vt, bytes, k)} :: k < m ==> !stop(log + CallsAfter(vt, bytes, k))
    ensures UntilCall(vt, log, bytes, stop).read == m <==> EndsTurn(vt, bytes, m)
    ensures forall e: nat {:trigger EndsTurn(vt, bytes, e)} ::
      m <= e <= |bytes| && EndsTurn(vt, bytes, e) && (forall k: nat {:trigger EndsTurn(vt, bytes, k)} :: m <= k < e ==> !EndsTurn(vt, bytes, k)) ==>
        UntilCall(vt, log, bytes, stop).read >= e && (stop(log + CallsAfter(vt, bytes, e)) ==> UntilCall(vt, log, bytes, stop).read == e)
  {
    hide EndsTurn, CallsAfter, UntilCall;
    UntilReadsLeast(vt, log, bytes, stop);
  }

  /** Two letters in the ground state are one turn: a performer that has had enough after the first gets both. */
  lemma LettersTogether()
    ensures var stop := (log: seq<Event>) => log != [];
      && stop(Fold(Grounded([]), [0x41]).events)
      && UntilCall(Grounded([]), [], [0x41, 0x42], stop).read == 2
  {
    var a: seq<byte>, ab: seq<byte> := [0x41], [0x41, 0x42];
    var stop := (log: seq<Event>) => log != [];
    FoldOne(Grounded([]), 0x41);
    CharSeen(ab, 1);
    hide Until, TurnEnd, Seen, Fold;
    assert ab[0..] == ab;
    SeenNothing(Grounded([]), ab);
    UntilReadsLeast(Grounded([]), [], ab, stop);
  }

  /** From where the loop stops, the machine does with the rest of the input what is left to do. */
  lemma {:induction false} UntilResumes(s: Stop, bytes: seq<byte>, stop: seq<Event> -> bool)
    requires StopOk(s, bytes)
    ensures var r := Until(s, bytes, stop);
      StopOk(r, bytes) && After(s.log, Fold(s.vt, bytes[s.read..])) == After(r.log, Fold(r.vt, bytes[r.read..]))
    decreases |bytes| - s.read
  {
    if s.read == |bytes| || stop(s.log) {
    } else {
      TurnFits(s, bytes);
      UntilResumes(TurnFrom(s, bytes), bytes, stop);
    }
  }

  /** Stopping and then giving the rest to `advance` is one `advance`, also when carried bytes go wrong. */
  lemma UntilThenAdvance(vt: Vt, log: seq<Event>, bytes: seq<byte>, stop: seq<Event> -> bool)
    requires Shaped(vt)
    ensures var r := UntilCall(vt, log, bytes, stop);
      && StopOk(r, bytes)
      && After(r.log, AdvanceOut(r.vt, bytes[r.read..])) == After(log, AdvanceOut(vt, bytes))
  {
    hide Fold, PartialPart;
    if vt.pending == [] {
      assert bytes[0..] == bytes;
      UntilResumes(Stop(vt, log, 0), bytes, stop);
    } else {
      var part := PartialPart(vt.pending, bytes);
      PartialFits(vt.pending, bytes);
      UntilResumes(Stop(part.vt, log + part.events, part.read), bytes, stop);
      AfterAfter(log, part.events, Fold(part.vt, bytes[part.read..]));
    }
    var r := UntilCall(vt, log, bytes, stop);
    assert r.read == |bytes| ==> bytes[r.read..] == [];
    RestIsFold(r.vt, bytes[r.read..]);
  }

  lemma RestIsFold(vt: Vt, bytes: seq<byte>)
    requires Shaped(vt) && (vt.pending == [] || bytes == [])
    ensures AdvanceOut(vt, bytes) == Fold(vt, bytes)
  {
    if vt.pending != [] { PendingAgrees(vt.pending, bytes); }
  }
}
