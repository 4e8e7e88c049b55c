/** Text outside all sequences: what the performer is told of well-formed characters and of ill-formed bytes. */
module VtText {
  import opened Utf8
  import opened Vt
  import opened VtGround

  /** The bytes begin, or are, the encoding of some scalar value. */
  ghost predicate Begins(s: seq<byte>) { exists c: nat :: Scalar(c) && Prefix(s, Encode(c)) }

  /** They begin one and are shorter. */
  ghost predicate Unfinished(s: seq<byte>) { exists c: nat :: Scalar(c) && |s| < |Encode(c)| && Prefix(s, Encode(c)) }

  lemma UnfinishedMeaning(s: seq<byte>)
    requires s != []
    ensures Unfinished(s) <==> DecodeOne(s).Incomplete?
  {
    IncompleteMeaning(s);
  }

  lemma BeginsMeaning(s: seq<byte>)
    requires s != [] && (|s| == 1 || DecodeOne(s[..|s| - 1]).Incomplete?)
    ensures Begins(s) <==> !DecodeOne(s).Bad?
  {
    if DecodeOne(s).Good? {
      EncodeDecoded(s);
      assert s[..|s|] == s;
      assert Prefix(s, Encode(DecodeOne(s).code));
    } else if DecodeOne(s).Incomplete? {
      IncompleteMeaning(s);
    }
    forall c: nat | Scalar(c) && Prefix(s, Encode(c)) ensures !DecodeOne(s).Bad? { DecodeEncoded(c, []); }
  }

  /** Well-formed text without ESC: C0 and C1 controls are executed and all else is printed, in order. */
  lemma {:induction false} TextIsShown(cs: seq<nat>)
    requires AllScalar(cs) && Esc !in cs
    ensures var o := Fold(Grounded([]), EncodeAll(cs));
      && o.vt == Grounded([]) && |o.events| == |cs|
      && forall i :: 0 <= i < |cs| ==>
           o.events[i] == if cs[i] <= 0x1F || 0x80 <= cs[i] <= 0x9F then Execute(cs[i]) else Print(cs[i])
  {
    if cs == [] {
    } else {
      var c, rest := cs[0], EncodeAll(cs[1..]);
      assert forall i :: 0 <= i < |cs| - 1 ==> cs[1..][i] == cs[i + 1];
      TextIsShown(cs[1..]);
      EncodedHasNoEsc(c);
      DecodeEncoded(c, []);
      assert Encode(c) + [] == Encode(c) && Encode(c)[|Encode(c)|..] + rest == rest;
      FoldChar(Encode(c), rest);
      assert Fold(Grounded([]), EncodeAll(cs)) == After([Dispatch(c)], Fold(Grounded([]), rest));
    }
  }

  lemma EncodedHasNoEsc(c: nat)
    requires Scalar(c) && c != Esc
    ensures NoEsc(Encode(c))
  {}

  /** A byte that begins no character is executed as a C1 control, or replaced, and the text goes on after it. */
  lemma LoneIsShown(b: byte, rest: seq<byte>)
    requires !Begins([b])
    ensures b >= 0x80
    ensures Fold(Grounded([]), [b] + rest) == After([if b <= 0x9F then Execute(b) else Print(Replacement)], Fold(Grounded([]), rest))
  {
    BeginsMeaning([b]);
    FoldLone(b, rest);
  }

  /** The beginning of a character that breaks off is replaced once, and the byte that breaks it starts afresh. */
  lemma BrokenIsShown(p: seq<byte>, b: byte, rest: seq<byte>)
    requires p != [] && Unfinished(p) && !Begins(p + [b]) && b != Esc
    ensures Fold(Grounded([]), p + ([b] + rest)) == After([Print(Replacement)], Fold(Grounded([]), [b] + rest))
  {
    UnfinishedMeaning(p);
    assert (p + [b])[..|p|] == p;
    BeginsMeaning(p + [b]);
    UnfinishedHasNoEsc(p);
    assert [] + p == p && [] + p + [b] == p + [b];
    FoldBroken([], p, b, rest);
    UnfinishedIsHigh(p);
  }

  lemma UnfinishedHasNoEsc(p: seq<byte>)
    requires p != [] && DecodeOne(p).Incomplete?
    ensures NoEsc(p)
  {}

  lemma UnfinishedIsHigh(p: seq<byte>)
    requires p != [] && DecodeOne(p).Incomplete?
    ensures DispatchBad(p) == Print(Replacement)
  {}

  /** So is one that ESC breaks off, and the text of a sequence begins; without one ESC makes no call. */
  lemma EscIsShown(p: seq<byte>, rest: seq<byte>)
    requires p == [] || Unfinished(p)
    ensures Fold(Grounded([]), p + ([Esc] + rest)) == After(if p == [] then [] else [Print(Replacement)], Fold(Plain(Escape), rest))
  {
    if p != [] {
      UnfinishedMeaning(p);
      UnfinishedHasNoEsc(p);
    } else {
      assert p + ([Esc] + rest) == [Esc] + rest;
    }
    assert [] + p == p;
    FoldPending([], p, [Esc] + rest);
    FoldEsc(p, rest);
  }
}
