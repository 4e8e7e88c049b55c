/** The parameter list of `copa::params`, in its two fixed arrays. */
module VtParams {
  import opened Wrappers
  import opened Utf8
  import opened Vt
  import opened VtChunks
  import opened VtCsi

  function Flat(gs: seq<seq<nat>>): seq<nat> {
    if gs == [] then [] else Flat(gs[..|gs| - 1]) + gs[|gs| - 1]
  }

  /** At the place where group i begins, `subparams` has its length. */
  ghost predicate LengthAt(sub: seq<nat>, gs: seq<seq<nat>>, i: nat) {
    i < |gs| ==> gs[i] != [] && Count(gs[..i]) < |sub| && sub[Count(gs[..i])] == |gs[i]|
  }

  ghost predicate Lengths(sub: seq<nat>, gs: seq<seq<nat>>) {
    forall i: nat {:trigger LengthAt(sub, gs, i)} :: LengthAt(sub, gs, i)
  }

  lemma {:induction false} CountPrefix(gs: seq<seq<nat>>, i: nat)
    requires i <= |gs|
    ensures Count(gs[..i]) <= Count(gs)
    ensures i < |gs| ==> Count(gs[..i]) + |gs[i]| == Count(gs[..i + 1])
  {
    if i == |gs| {
      assert gs[..i] == gs;
    } else {
      CountPrefix(gs[..|gs| - 1], i);
      assert gs[..|gs| - 1][..i] == gs[..i];
      assert gs[..i + 1][..i] == gs[..i];
    }
  }

  lemma {:induction false} FlatSlice(gs: seq<seq<nat>>, i: nat)
    requires i < |gs|
    ensures |Flat(gs)| == Count(gs)
    ensures Count(gs[..i]) + |gs[i]| <= Count(gs)
    ensures Flat(gs)[Count(gs[..i])..Count(gs[..i]) + |gs[i]|] == gs[i]
  {
    var front := gs[..|gs| - 1];
    FlatSize(front);
    if i == |gs| - 1 {
      assert gs[..i] == front;
    } else {
      FlatSlice(front, i);
      assert front[..i] == gs[..i] && front[i] == gs[i];
      var a, b := Count(gs[..i]), Count(gs[..i]) + |gs[i]|;
      assert Flat(gs)[a..b] == Flat(front)[a..b];
    }
  }

  lemma {:induction false} FlatSize(gs: seq<seq<nat>>)
    ensures |Flat(gs)| == Count(gs)
  {
    if gs == [] {
    } else {
      FlatSize(gs[..|gs| - 1]);
    }
  }

  lemma FlatPush(gs: seq<seq<nat>>, g: seq<nat>)
    ensures Flat(gs + [g]) == Flat(gs) + g
  {
    assert (gs + [g])[..|gs|] == gs;
  }

  /** What a new or a longer last group does to the lengths. */
  lemma LengthsPush(sub: seq<nat>, sub': seq<nat>, gs: seq<seq<nat>>, g: seq<nat>)
    requires Lengths(sub, gs) && g != [] && |sub'| == |sub| && Count(gs) < |sub|
    requires sub' == sub[Count(gs) := |g|]
    ensures Lengths(sub', gs + [g])
  {
    forall i: nat ensures LengthAt(sub', gs + [g], i) {
      if i < |gs| {
        assert LengthAt(sub, gs, i);
        assert (gs + [g])[..i] == gs[..i];
        CountPrefix(gs, i);
        CountPrefix(gs, i + 1);
      } else if i == |gs| {
        assert (gs + [g])[..i] == gs;
      }
    }
  }

  lemma LengthsFront(sub: seq<nat>, gs: seq<seq<nat>>, g: seq<nat>)
    requires Lengths(sub, gs + [g])
    ensures Lengths(sub, gs)
  {
    forall i: nat ensures LengthAt(sub, gs, i) {
      assert LengthAt(sub, gs + [g], i);
      if i < |gs| { assert (gs + [g])[..i] == gs[..i]; }
    }
  }

  class Params {
    const subparams: array<nat>
    const params: array<nat>
    var currentSubparams: nat
    var len: nat
    ghost var groups: seq<seq<nat>>  // the closed groups
    ghost var open: seq<nat>         // the group that is not closed yet

    ghost predicate Valid() reads this, subparams, params {
      && subparams.Length == MaxParams && params.Length == MaxParams && subparams != params
      && len == Count(groups) + |open| <= MaxParams
      && currentSubparams == |open|
      && params[..len] == Flat(groups) + open
      && Lengths(subparams[..], groups) && Lengths(subparams[..], All())
    }

    /** All groups, as the iterator shows them. */
    ghost function All(): (r: seq<seq<nat>>) reads this {
      groups + if open == [] then [] else [open]
    }

    constructor ()
      ensures Valid() && groups == [] && open == [] && fresh(subparams) && fresh(params)
    {
      subparams, params := new nat[MaxParams], new nat[MaxParams];
      currentSubparams, len, groups, open := 0, 0, [], [];
    }

    method Clear()
      requires Valid()
      modifies this
      ensures Valid() && groups == [] && open == []
    {
      currentSubparams, len := 0, 0;
      groups, open := [], [];
    }

    predicate IsFull() reads this { len == MaxParams }

    /** The item closes the open group. */
    method Push(item: nat)
      requires Valid() && !IsFull()
      modifies this, subparams, params
      ensures Valid() && groups == old(groups) + [old(open) + [item]] && open == []
    {
      ghost var group := open + [item];
      LengthsPush(subparams[..], subparams[..][Count(groups) := |group|], groups, group);
      FlatPush(groups, group);
      CountPush(groups, group);
      assert len - currentSubparams == Count(groups);
      subparams[len - currentSubparams] := currentSubparams + 1;
      params[len] := item;
      currentSubparams := 0;
      len := len + 1;
      groups, open := groups + [group], [];
      assert subparams[..] == old(subparams[..])[Count(old(groups)) := |group|];
      assert params[..len] == old(params[..len]) + [item];
      assert groups + [] == groups;
    }

    /** The item joins the open group. */
    method Extend(item: nat)
      requires Valid() && !IsFull()
      modifies this, subparams, params
      ensures Valid() && groups == old(groups) && open == old(open) + [item]
    {
      ghost var group := open + [item];
      LengthsPush(subparams[..], subparams[..][Count(groups) := |group|], groups, group);
      assert len - currentSubparams == Count(groups);
      subparams[len - currentSubparams] := currentSubparams + 1;
      params[len] := item;
      currentSubparams := currentSubparams + 1;
      len := len + 1;
      open := group;
      assert subparams[..] == old(subparams[..])[Count(old(groups)) := |group|];
      assert params[..len] == old(params[..len]) + [item];
      LengthsFront(subparams[..], groups, group);
    }

    /** What a performer finds by iterating over the parameters it was handed. */
    method Iterated() returns (gs: seq<seq<nat>>)
      requires Valid()
      ensures gs == All()
    {
      gs := [];
      var it := new ParamsIter(this);
      while true
        invariant it.params == this && it.Valid() && it.at == |gs| <= |All()| && gs == All()[..|gs|] && fresh(it)
        decreases |All()| - |gs|
      {
        var param := it.Next();
        if param.None? { return; }
        gs := gs + [param.value];
      }
    }

    /** `Debug`: the groups in brackets. */
    method Fmt() returns (text: seq<byte>)
      requires Valid()
      ensures text == [0x5B] + Text(Printed(All())) + [0x5D]
    {
      text := [];
      var it := new ParamsIter(this);
      var i := 0;
      while true
        invariant it.params == this && it.Valid() && it.at == i <= |All()|
        invariant text == Text(Printed(All()[..i]))
        invariant fresh(it)
        decreases |All()| - i
      {
        var param := it.Next();
        if param.None? { break; }
        if i != 0 { text := text + [Semicolon]; }
        var group := FmtGroup(param.value);
        assert param.value == All()[i];
        TextPush(Printed(All()[..i]), PrintedGroup(All()[i]));
        PrintedPush(All()[..i], All()[i]);
        assert All()[..i + 1] == All()[..i] + [All()[i]];
        text := text + group;
        i := i + 1;
      }
      assert All()[..i] == All();
      text := [0x5B] + text + [0x5D];
    }
  }

  method FmtGroup(param: seq<nat>) returns (text: seq<byte>)
    ensures text == Colons(PrintedGroup(param))
  {
    text := [];
    for i := 0 to |param|
      invariant text == Colons(PrintedGroup(param[..i]))
    {
      ColonsPush(PrintedGroup(param[..i]), DigitsOf(param[i]));
      PrintedGroupPush(param[..i], param[i]);
      assert param[..i + 1] == param[..i] + [param[i]];
      if i != 0 { text := text + [Colon]; }
      text := text + DigitsOf(param[i]);
    }
    assert param[..|param|] == param;
  }

  lemma {:induction false} ColonsPush(g: seq<seq<byte>>, s: seq<byte>)
    ensures Colons(g + [s]) == Colons(g) + (if g == [] then [] else [Colon]) + s
  {
    if g == [] {
      assert g + [s] == [s];
    } else {
      ColonsPush(g[1..], s);
      assert (g + [s])[1..] == g[1..] + [s];
    }
  }

  lemma {:induction false} TextPush(gs: seq<seq<seq<byte>>>, g: seq<seq<byte>>)
    ensures Text(gs + [g]) == Text(gs) + (if gs == [] then [] else [Semicolon]) + Colons(g)
  {
    hide Colons;
    if gs == [] {
      assert gs + [g] == [g];
    } else {
      TextPush(gs[1..], g);
      assert (gs + [g])[1..] == gs[1..] + [g];
    }
  }

  lemma {:induction false} PrintedGroupPush(g: seq<nat>, v: nat)
    ensures PrintedGroup(g + [v]) == PrintedGroup(g) + [DigitsOf(v)] && |PrintedGroup(g)| == |g|
  {
    if g == [] {
      assert g + [v] == [v];
    } else {
      PrintedGroupPush(g[1..], v);
      assert (g + [v])[1..] == g[1..] + [v];
    }
  }

  lemma {:induction false} PrintedPush(gs: seq<seq<nat>>, g: seq<nat>)
    ensures Printed(gs + [g]) == Printed(gs) + [PrintedGroup(g)] && |Printed(gs)| == |gs|
  {
    if gs == [] {
      assert gs + [g] == [g];
    } else {
      PrintedPush(gs[1..], g);
      assert (gs + [g])[1..] == gs[1..] + [g];
    }
  }

  class ParamsIter {
    const params: Params
    var index: nat
    ghost var at: nat  // how many groups were handed out

    ghost predicate Valid() reads this, params, params.subparams, params.params {
      params.Valid() && at <= |params.All()| && index == Count(params.All()[..at])
    }

    constructor (params: Params)
      requires params.Valid()
      ensures this.params == params && Valid() && at == 0
    {
      this.params, index, at := params, 0, 0;
    }

    /** The groups, one after the other. */
    method Next() returns (r: Option<seq<nat>>)
      requires Valid()
      modifies this
      ensures Valid()
      ensures r == if old(at) < |params.All()| then Some(params.All()[old(at)]) else None
      ensures at == if r.Some? then old(at) + 1 else old(at)
    {
      AllCounted();
      CountPrefix(params.All(), at);
      assert at == |params.All()| ==> params.All()[..at] == params.All();
      assert LengthAt(params.subparams[..], params.All(), at);
      if index >= params.len { return None; }
      FlatSlice(params.All(), at);
      var num := params.subparams[index];
      var param := params.params[index..index + num];
      assert param == params.params[..params.len][index..index + num];
      index := index + num;
      at := at + 1;
      CountPrefix(params.All(), at);
      r := Some(param);
    }

    /**
      How many values are left.  It is how many groups are left, which is what `Iterator::size_hint` is to bound, if
      and only if each of them is a single value; else it is too much.
     */
    method SizeHint() returns (n: nat)
      requires Valid()
      ensures var left := params.All()[at..];
        && n == Count(left) && n >= |left|
        && (n == |left| <==> forall i :: 0 <= i < |left| ==> |left[i]| == 1)
    {
      AllCounted();
      CountSplit(params.All(), at);
      ghost var left := params.All()[at..];
      forall i: nat | i < |left| ensures left[i] != [] {
        assert LengthAt(params.subparams[..], params.All(), at + i);
      }
      CountMeaning(left);
      n := params.len - index;
    }

    lemma AllCounted()
      requires params.Valid()
      ensures Count(params.All()) == params.len && Flat(params.All()) == params.params[..params.len]
      ensures forall i :: 0 <= i < |params.All()| ==> Count(params.All()[..i]) < params.len
    {
      if params.open == [] {
        assert params.All() == params.groups;
      } else {
        CountPush(params.groups, params.open);
        FlatPush(params.groups, params.open);
      }
      forall i: nat | i < |params.All()| ensures Count(params.All()[..i]) < params.len {
        CountPrefix(params.All(), i);
        CountPrefix(params.All(), i + 1);
        assert LengthAt(params.subparams[..], params.All(), i);
      }
    }
  }

  /** Groups hold as many values as there are groups if and only if each of them is a single value. */
  lemma {:induction false} CountMeaning(gs: seq<seq<nat>>)
    requires [] !in gs
    ensures Count(gs) >= |gs|
    ensures Count(gs) == |gs| <==> forall i :: 0 <= i < |gs| ==> |gs[i]| == 1
  {
    if gs == [] {
    } else {
      var front := gs[..|gs| - 1];
      assert forall i :: 0 <= i < |front| ==> front[i] == gs[i];
      CountMeaning(front);
      assert gs[|gs| - 1] in gs;
    }
  }

  lemma {:induction false} CountSplit(gs: seq<seq<nat>>, i: nat)
    requires i <= |gs|
    ensures Count(gs) == Count(gs[..i]) + Count(gs[i..])
  {
    if i == |gs| {
      assert gs[..i] == gs;
    } else {
      CountSplit(gs[..|gs| - 1], i);
      assert gs[..|gs| - 1][..i] == gs[..i] && gs[i..][..|gs| - i - 1] == gs[..|gs| - 1][i..];
    }
  }

  /** One group of two values is left, and two are promised. */
  method HintTooLarge() returns (hint: nat, left: seq<seq<nat>>)
    ensures hint == 2 && left == [[1, 2]]
  {
    var params := new Params();
    params.Extend(1);
    params.Push(2);
    assert params.groups == [[] + [1] + [2]] && [] + [1] + [2] == [1, 2];
    assert params.All() == [[1, 2]];
    var it := new ParamsIter(params);
    assert params.All()[0..] == params.All() && params.All()[..1] == params.All();
    hint := it.SizeHint();
    left := params.Iterated();
  }
}
