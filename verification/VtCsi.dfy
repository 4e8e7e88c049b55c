/** CSI sequences: what the machine dispatches for a parameter text, and that it reads back what is printed. */
module VtCsi {
  import opened Utf8
  import opened Vt
  import opened VtChunks

  const Colon: byte := 0x3A

  predicate Digit(b: byte) { 0x30 <= b <= 0x39 }

  predicate Digits(s: seq<byte>) { forall i :: 0 <= i < |s| ==> Digit(s[i]) }

  /** The number a string of digits denotes; none denotes 0. */
  function Decimal(s: seq<byte>): nat {
    if s == [] then 0 else Decimal(s[..|s| - 1]) * 10 + DigitValue(s[|s| - 1])
  }

  function DigitValue(b: byte): nat { if b < 0x30 then 0 else b as int - 0x30 }

  function Value(s: seq<byte>): nat {
    Min(Decimal(s), U16Max)
  }

  /** A group of values, as texts. */
  predicate GroupText(g: seq<seq<byte>>) { g != [] && forall i :: 0 <= i < |g| ==> Digits(g[i]) }

  predicate Texts(gs: seq<seq<seq<byte>>>) { forall i :: 0 <= i < |gs| ==> GroupText(gs[i]) }

  function Values(g: seq<seq<byte>>): seq<nat> {
    if g == [] then [] else [Value(g[0])] + Values(g[1..])
  }

  function AllValues(gs: seq<seq<seq<byte>>>): seq<seq<nat>> {
    if gs == [] then [] else [Values(gs[0])] + AllValues(gs[1..])
  }

  /** Values separated by ':', ... */
  function Colons(g: seq<seq<byte>>): seq<byte> {
    if g == [] then [] else if |g| == 1 then g[0] else g[0] + [Colon] + Colons(g[1..])
  }

  /** ... and groups by ';'. */
  function Text(gs: seq<seq<seq<byte>>>): seq<byte> {
    if gs == [] then [] else if |gs| == 1 then Colons(gs[0]) else Colons(gs[0]) + [Semicolon] + Text(gs[1..])
  }

  function Total(gs: seq<seq<nat>>): nat {
    if gs == [] then 0 else |gs[0]| + Total(gs[1..])
  }

  /** The first n values, in their groups. */
  function Cut(gs: seq<seq<nat>>, n: nat): seq<seq<nat>> {
    if gs == [] || n == 0 then []
    else if |gs[0]| >= n then [gs[0][..n]]
    else [gs[0]] + Cut(gs[1..], n - |gs[0]|)
  }

  // ---------------------------------------------------------------------------------------------
  // The parameters alone
  // ---------------------------------------------------------------------------------------------

  predicate ParamByte(b: byte) { 0x30 <= b <= 0x3B }

  function ParamAll(d: Data, s: seq<byte>): Data
    decreases |s|
  {
    if s == [] then d else ParamAll(Param(d, s[0]), s[1..])
  }

  lemma {:induction false} ParamConcat(d: Data, a: seq<byte>, b: seq<byte>)
    ensures ParamAll(d, a + b) == ParamAll(ParamAll(d, a), b)
    decreases |a|
  {
    hide Param;
    if a == [] {
      assert a + b == b;
    } else {
      ParamConcat(Param(d, a[0]), a[1..], b);
      assert (a + b)[1..] == a[1..] + b;
    }
  }

  /** What the final byte dispatches after some parameter text. */
  lemma {:induction false} FoldParams(state: State, d: Data, s: seq<byte>, final: byte)
    requires state == CsiEntry || state == CsiParam
    requires forall i :: 0 <= i < |s| ==> ParamByte(s[i])
    requires 0x40 <= final <= 0x7E
    ensures var c := Close(ParamAll(d, s));
      Fold(With(state, d), s + [final]) == Out(Grounded([]), [CsiDispatch(Groups(c), c.inter, c.ignoring, final)])
    decreases |s|
  {
    hide Next, Param, Close, Groups;
    if s == [] {
      assert s + [final] == [final];
      FinalNext(state, d, final);
    } else {
      FoldParams(CsiParam, Param(d, s[0]), s[1..], final);
      assert (s + [final])[1..] == s[1..] + [final];
      ParamByteNext(state, d, s[0]);
    }
  }

  lemma ParamByteNext(state: State, d: Data, b: byte)
    requires (state == CsiEntry || state == CsiParam) && ParamByte(b)
    ensures Next(With(state, d), b) == (With(CsiParam, Param(d, b)), [])
  {
    hide Param, Collect, Close, Groups;
  }

  lemma FinalNext(state: State, d: Data, final: byte)
    requires (state == CsiEntry || state == CsiParam) && 0x40 <= final <= 0x7E
    ensures var c := Close(d);
      Fold(With(state, d), [final]) == Out(Grounded([]), [CsiDispatch(Groups(c), c.inter, c.ignoring, final)])
  {
    FoldOne(With(state, d), final);
    hide Param, Collect, Groups, Count;
  }

  lemma {:induction false} DigitsRead(d: Data, s: seq<byte>)
    requires !Full(d) && d.param == 0 && Digits(s)
    ensures ParamAll(d, s) == d.(param := Value(s))
  {
    if s == [] {
    } else {
      var before := s[..|s| - 1];
      DigitsRead(d, before);
      assert s == before + [s[|s| - 1]];
      ParamConcat(d, before, [s[|s| - 1]]);
      assert ParamAll(Param(ParamAll(d, before), s[|s| - 1]), []) == Param(ParamAll(d, before), s[|s| - 1]);
    }
  }

  /** Once all places are taken, only the flag changes. */
  lemma {:induction false} FullIgnores(d: Data, s: seq<byte>)
    requires Full(d)
    ensures ParamAll(d, s) == if s == [] then d else d.(ignoring := true)
    decreases |s|
  {
    if s == [] {
    } else {
      FullIgnores(Param(d, s[0]), s[1..]);
    }
  }

  /** From `last` is dispatched what d has collected, with values g added to its open group, and then groups gs. */
  ghost predicate Dispatches(d: Data, last: Data, g: seq<nat>, gs: seq<seq<nat>>) {
    var c := Close(last);
    && c.inter == d.inter
    && Count(d.params) <= MaxParams
    && Groups(c) == d.params + Cut([d.open + g] + gs, MaxParams - Count(d.params))
    && c.ignoring == (d.ignoring || Count(d.params) + |d.open| + |g| + Total(gs) > MaxParams)
  }

  lemma FullDispatches(d: Data, s: seq<byte>, g: seq<nat>, gs: seq<seq<nat>>)
    requires Count(d.params) + |d.open| == MaxParams && g != []
    ensures Dispatches(d, ParamAll(d, s), g, gs)
  {
    FullIgnores(d, s);
    assert (d.open + g)[..|d.open|] == d.open;
  }

  function TextFrom(g: seq<seq<byte>>, gs: seq<seq<seq<byte>>>): seq<byte> {
    if gs == [] then Colons(g) else Colons(g) + [Semicolon] + Text(gs)
  }

  /** The data after one more value of the open group, and after the last one of it. */
  function NextValue(d: Data, v: nat): Data { d.(open := d.open + [v]) }
  function NextGroup(d: Data, v: nat): Data { d.(params := d.params + [d.open + [v]], open := []) }

  /** The values g of the open group, and then the groups gs, are read as such. */
  lemma {:induction false} TextDispatches(d: Data, g: seq<seq<byte>>, gs: seq<seq<seq<byte>>>)
    requires GroupText(g) && Texts(gs) && d.param == 0 && Count(d.params) + |d.open| <= MaxParams
    ensures Dispatches(d, ParamAll(d, TextFrom(g, gs)), Values(g), AllValues(gs))
    decreases |gs|, |g|
  {
    if Count(d.params) + |d.open| == MaxParams {
      FullDispatches(d, TextFrom(g, gs), Values(g), AllValues(gs));
    } else {
      var v := Value(g[0]);
      assert GroupText(g[1..]) || |g| == 1;
      assert gs == [] || Texts(gs[1..]);
      CountPush(d.params, d.open + [v]);
      hide Dispatches, ParamAll, TextFrom, Value, Full;
      if |g| > 1 {
        ValueText(d, g, gs);
        TextDispatches(NextValue(d, v), g[1..], gs);
        ValueDispatches(d, ParamAll(d, TextFrom(g, gs)), v, Values(g[1..]), AllValues(gs));
      } else if gs != [] {
        GroupEndText(d, g, gs);
        TextDispatches(NextGroup(d, v), gs[0], gs[1..]);
        GroupDispatches(d, ParamAll(d, TextFrom(g, gs)), v, Values(gs[0]), AllValues(gs[1..]));
        assert Values(g) == [v];
      } else {
        LastText(d, g);
        LastDispatches(d, v);
        assert Values(g) == [v];
      }
    }
  }

  lemma ValueText(d: Data, g: seq<seq<byte>>, gs: seq<seq<seq<byte>>>)
    requires d.param == 0 && !Full(d) && |g| > 1 && Digits(g[0])
    ensures ParamAll(d, TextFrom(g, gs)) == ParamAll(NextValue(d, Value(g[0])), TextFrom(g[1..], gs))
  {
    hide ParamAll, Value;
    DigitsRead(d, g[0]);
    assert TextFrom(g, gs) == g[0] + ([Colon] + TextFrom(g[1..], gs));
    Separator(d, g[0], Colon, TextFrom(g[1..], gs));
  }

  lemma GroupEndText(d: Data, g: seq<seq<byte>>, gs: seq<seq<seq<byte>>>)
    requires d.param == 0 && !Full(d) && |g| == 1 && Digits(g[0]) && gs != []
    ensures ParamAll(d, TextFrom(g, gs)) == ParamAll(NextGroup(d, Value(g[0])), TextFrom(gs[0], gs[1..]))
  {
    hide ParamAll, Value;
    DigitsRead(d, g[0]);
    assert Text(gs) == TextFrom(gs[0], gs[1..]);
    assert TextFrom(g, gs) == g[0] + ([Semicolon] + TextFrom(gs[0], gs[1..]));
    Separator(d, g[0], Semicolon, TextFrom(gs[0], gs[1..]));
  }

  lemma LastText(d: Data, g: seq<seq<byte>>)
    requires d.param == 0 && !Full(d) && |g| == 1 && Digits(g[0])
    ensures ParamAll(d, TextFrom(g, [])) == d.(param := Value(g[0]))
  {
    DigitsRead(d, g[0]);
  }

  lemma ValueDispatches(d: Data, last: Data, v: nat, g: seq<nat>, gs: seq<seq<nat>>)
    requires Dispatches(NextValue(d, v), last, g, gs)
    ensures Dispatches(d, last, [v] + g, gs)
  {
    assert d.open + [v] + g == d.open + ([v] + g);
  }

  lemma GroupDispatches(d: Data, last: Data, v: nat, g: seq<nat>, gs: seq<seq<nat>>)
    requires Count(d.params) + |d.open| < MaxParams
    requires Dispatches(NextGroup(d, v), last, g, gs)
    ensures Dispatches(d, last, [v], [g] + gs)
  {
    hide Close, Groups;
    var group := d.open + [v];
    var n := MaxParams - Count(d.params);
    CountPush(d.params, group);
    assert NextGroup(d, v).open + g == g;
    var all, rest: seq<seq<nat>> := [group] + ([g] + gs), [g] + gs;
    assert all[1..] == rest && rest[1..] == gs;
    assert Cut(all, n) == [group] + Cut(rest, n - |group|) by {
      assert group[..|group|] == group;
    }
    assert d.params + [group] + Cut(rest, n - |group|) == d.params + ([group] + Cut(rest, n - |group|));
  }

  lemma LastDispatches(d: Data, v: nat)
    requires Count(d.params) + |d.open| < MaxParams
    ensures Dispatches(d, d.(param := v), [v], [])
  {
    var group := d.open + [v];
    var groups: seq<seq<nat>> := [group];
    assert groups[1..] == [] && group[..|group|] == group && groups + [] == groups;
  }

  lemma Separator(d: Data, digits: seq<byte>, sep: byte, rest: seq<byte>)
    ensures ParamAll(d, digits + ([sep] + rest)) == ParamAll(Param(ParamAll(d, digits), sep), rest)
  {
    ParamConcat(d, digits, [sep] + rest);
    hide Param;
    assert ([sep] + rest)[1..] == rest;
  }

  lemma {:induction false} TextIsParams(gs: seq<seq<seq<byte>>>)
    requires gs != [] && Texts(gs)
    ensures forall i :: 0 <= i < |Text(gs)| ==> ParamByte(Text(gs)[i])
  {
    ColonsAreParams(gs[0]);
    if |gs| <= 1 {
    } else {
      TextIsParams(gs[1..]);
    }
  }

  lemma {:induction false} ColonsAreParams(g: seq<seq<byte>>)
    requires GroupText(g)
    ensures forall i :: 0 <= i < |Colons(g)| ==> ParamByte(Colons(g)[i])
  {
    assert Digits(g[0]);
    if |g| <= 1 {
    } else {
      ColonsAreParams(g[1..]);
    }
  }

  /** What a final byte hands over after the text of some groups. */
  lemma TextGroups(d: Data, gs: seq<seq<seq<byte>>>)
    requires gs != [] && Texts(gs) && d == NoData.(inter := d.inter)
    ensures var last := ParamAll(d, Text(gs)); var c := Close(last);
      && Groups(c) == Cut(AllValues(gs), MaxParams) && c.inter == d.inter && last.inter == d.inter
      && (c.ignoring <==> Total(AllValues(gs)) > MaxParams)
  {
    hide ParamAll, Close, Groups;
    TextDispatches(d, gs[0], gs[1..]);
    var vs := AllValues(gs);
    assert d.open + vs[0] == vs[0] && [vs[0]] + vs[1..] == vs;
    assert d.params + Cut(vs, MaxParams) == Cut(vs, MaxParams);
    assert TextFrom(gs[0], gs[1..]) == Text(gs);
    CloseInter(ParamAll(d, Text(gs)));
  }

  lemma CloseInter(d: Data)
    ensures Close(d).inter == d.inter
  {}

  /**
    ESC [ and any list of groups of numbers, however long and with or without digits: one dispatch of the same
    grouping, cut to the first 32 values, each at most 65535; `ignore` is set if and only if there were more.
   */
  lemma CsiDispatches(gs: seq<seq<seq<byte>>>, final: byte)
    requires gs != [] && Texts(gs) && 0x40 <= final <= 0x7E
    ensures Fold(Grounded([]), [Esc, 0x5B] + (Text(gs) + [final])) ==
      Out(Grounded([]), [CsiDispatch(Cut(AllValues(gs), MaxParams), [], Total(AllValues(gs)) > MaxParams, final)])
  {
    Enter();
    FoldConcat(Grounded([]), [Esc, 0x5B], Text(gs) + [final]);
    TextIsParams(gs);
    FoldParams(CsiEntry, NoData, Text(gs), final);
    hide ParamAll, Close, Groups, Text, Texts;
    TextGroups(NoData, gs);
  }

  lemma Enter()
    ensures Fold(Grounded([]), [Esc, 0x5B]) == Out(Plain(CsiEntry), [])
  {
    assert [Esc, 0x5B][1..] == [0x5B] && [0x5B][1..] == [];
    assert Fold(Plain(Escape), [0x5B]) == Out(Plain(CsiEntry), []);
  }

  // ---------------------------------------------------------------------------------------------
  // Printing
  // ---------------------------------------------------------------------------------------------

  function DigitsOf(n: nat): seq<byte> {
    (if n < 10 then [] else DigitsOf(n / 10)) + [0x30 + n % 10]
  }

  lemma {:induction false} DecimalOfDigits(n: nat)
    ensures Digits(DigitsOf(n)) && Decimal(DigitsOf(n)) == n
  {
    assert Decimal([]) == 0;
    var digit := 0x30 + n % 10;
    var front := if n < 10 then [] else DigitsOf(n / 10);
    assert DigitsOf(n) == front + [digit] && n == n / 10 * 10 + (digit - 0x30);
    hide Decimal, DigitValue, DigitsOf;
    if n >= 10 { DecimalOfDigits(n / 10); }
    DecimalPush(front, digit);
  }

  lemma DecimalPush(s: seq<byte>, b: byte)
    requires Digits(s) && Digit(b)
    ensures Digits(s + [b]) && Decimal(s + [b]) == Decimal(s) * 10 + (b as int - 0x30)
  {
    assert (s + [b])[..|s|] == s;
  }

  function PrintedGroup(g: seq<nat>): seq<seq<byte>> {
    if g == [] then [] else [DigitsOf(g[0])] + PrintedGroup(g[1..])
  }

  function Printed(gs: seq<seq<nat>>): seq<seq<seq<byte>>> {
    if gs == [] then [] else [PrintedGroup(gs[0])] + Printed(gs[1..])
  }

  lemma {:induction false} PrintedGroupValues(g: seq<nat>)
    requires forall j :: 0 <= j < |g| ==> g[j] <= U16Max
    ensures |PrintedGroup(g)| == |g| && (forall i :: 0 <= i < |g| ==> Digits(PrintedGroup(g)[i])) && Values(PrintedGroup(g)) == g
  {
    hide Digits, Value, DigitsOf;
    if g == [] {
    } else {
      ValueOfDigits(g[0]);
      PrintedGroupValues(g[1..]);
      assert PrintedGroup(g)[1..] == PrintedGroup(g[1..]);
    }
  }

  lemma ValueOfDigits(n: nat)
    requires n <= U16Max
    ensures Digits(DigitsOf(n)) && Value(DigitsOf(n)) == n
  {
    DecimalOfDigits(n);
  }

  lemma {:induction false} PrintedValues(gs: seq<seq<nat>>)
    requires GroupsOk(gs)
    ensures Texts(Printed(gs)) && |Printed(gs)| == |gs| && AllValues(Printed(gs)) == gs
  {
    if gs == [] {
    } else {
      assert gs[0] != [];
      PrintedGroupValues(gs[0]);
      PrintedValues(gs[1..]);
      assert Printed(gs)[1..] == Printed(gs[1..]);
    }
  }

  lemma {:induction false} CutAll(gs: seq<seq<nat>>, n: nat)
    requires Total(gs) <= n && GroupsOk(gs)
    ensures Cut(gs, n) == gs
  {
    if gs == [] {
    } else {
      assert gs[0] != [];
      if |gs[0]| >= n {
        NoneLeft(gs[1..]);
        assert gs == [gs[0]] && gs[0][..n] == gs[0];
      } else {
        CutAll(gs[1..], n - |gs[0]|);
      }
    }
  }

  lemma NoneLeft(gs: seq<seq<nat>>)
    requires GroupsOk(gs)
    ensures Total(gs) == 0 ==> gs == []
  {
    assert gs != [] ==> gs[0] != [];
  }

  lemma {:induction false} CountIsTotal(gs: seq<seq<nat>>)
    ensures Count(gs) == Total(gs)
  {
    if gs == [] {
    } else {
      CountIsTotal(gs[1..]);
      CountFront(gs);
    }
  }

  lemma {:induction false} CountFront(gs: seq<seq<nat>>)
    requires gs != []
    ensures Count(gs) == |gs[0]| + Count(gs[1..])
  {
    if |gs| <= 1 {
    } else {
      CountFront(gs[..|gs| - 1]);
      assert gs[1..][..|gs| - 2] == gs[..|gs| - 1][1..];
    }
  }

  /** Reading back: the printed groups of any dispatch, as the body of a CSI sequence, are dispatched again. */
  lemma PrintedIsRead(gs: seq<seq<nat>>, final: byte)
    requires gs != [] && GroupsOk(gs) && Count(gs) <= MaxParams && 0x40 <= final <= 0x7E
    ensures Texts(Printed(gs)) && Printed(gs) != []
    ensures Fold(Grounded([]), [Esc, 0x5B] + (Text(Printed(gs)) + [final])) == Out(Grounded([]), [CsiDispatch(gs, [], false, final)])
  {
    PrintedValues(gs);
    CsiDispatches(Printed(gs), final);
    CountIsTotal(gs);
    CutAll(gs, MaxParams);
  }
}
