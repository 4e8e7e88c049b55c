/** `rio_backend::BatchedParser`: the parser behind a buffer for large inputs. */
module VtBatched {
  import opened Utf8
  import opened Vt
  import opened VtAdvance
  import opened VtChunks
  import opened VtUntil
  import opened VtParser

  const Threshold: nat := 1024

  class BatchedParser {
    const parser: Parser
    var inputBuffer: seq<byte>

    /** Nothing stays in the buffer between calls. */
    ghost predicate Valid()
      reads this, parser, parser.intermediates, parser.params, parser.params.subparams, parser.params.params
      reads parser.oscParams, parser.partialUtf8
    {
      parser.Valid() && inputBuffer == []
    }

    constructor ()
      ensures Valid() && parser.View() == Grounded([]) && fresh(parser) && fresh(parser.Parts())
    {
      hide Parser.Valid, Parser.View;
      parser := new Parser();
      inputBuffer := [];
    }

    method Advance(p: Performer, bytes: seq<byte>)
      requires Valid()
      modifies this, parser.Parts(), p
      ensures Valid() && Out(parser.View(), p.log) == After(old(p.log), AdvanceOut(old(parser.View()), bytes))
    {
      hide Parser.Valid, Parser.View, AdvanceOut;
      if |bytes| < Threshold {
        parser.Advance(p, bytes);
        return;
      }
      inputBuffer := inputBuffer + bytes;
      assert inputBuffer == bytes;
      if |inputBuffer| >= Threshold {
        FlushBatch(p);
      }
    }

    /** What is in the buffer goes to the parser; with nothing in it, nothing happens. */
    method Flush(p: Performer)
      requires parser.Valid()
      modifies this, parser.Parts(), p
      ensures Valid() && Out(parser.View(), p.log) == After(old(p.log), AdvanceOut(old(parser.View()), old(inputBuffer)))
    {
      hide Parser.Valid, Parser.View, AdvanceOut;
      if inputBuffer != [] {
        FlushBatch(p);
      } else {
        AdvanceNothing(parser.View());
        assert p.log + [] == p.log;
      }
    }

    method FlushBatch(p: Performer)
      requires parser.Valid() && inputBuffer != []
      modifies this, parser.Parts(), p
      ensures Valid() && Out(parser.View(), p.log) == After(old(p.log), AdvanceOut(old(parser.View()), old(inputBuffer)))
    {
      hide Parser.Valid, Parser.View, AdvanceOut;
      parser.Advance(p, inputBuffer);
      inputBuffer := [];
    }

    /** Any sequence of calls makes the calls on the performer that the bare parser makes. */
    method AdvanceAll(p: Performer, chunks: seq<seq<byte>>)
      requires Valid()
      modifies this, parser.Parts(), p
      ensures Valid() && WellFormed(old(parser.View())) && Out(parser.View(), p.log) == After(old(p.log), Feed(old(parser.View()), chunks))
    {
      hide Parser.Valid, Parser.View, AdvanceOut, WellFormed;
      parser.ViewWellFormed();
      assert chunks[0..] == chunks;
      for i := 0 to |chunks|
        invariant Valid() && WellFormed(parser.View())
        invariant After(old(p.log), Feed(old(parser.View()), chunks)) == After(p.log, Feed(parser.View(), chunks[i..]))
      {
        ghost var log, vt := p.log, parser.View();
        Advance(p, chunks[i]);
        parser.ViewWellFormed();
        FeedFirst(log, vt, chunks[i..]);
        assert chunks[i..][1..] == chunks[i + 1..];
      }
      assert chunks[|chunks|..] == [];
      assert p.log + [] == p.log;
    }
  }

  lemma AdvanceNothing(vt: Vt)
    requires Shaped(vt)
    ensures AdvanceOut(vt, []) == Out(vt, [])
  {
    RestIsFold(vt, []);
  }

  lemma FeedFirst(log: seq<Event>, vt: Vt, chunks: seq<seq<byte>>)
    requires WellFormed(vt) && chunks != []
    ensures var o := AdvanceOut(vt, chunks[0]);
      WellFormed(o.vt) && After(log, Feed(vt, chunks)) == After(log + o.events, Feed(o.vt, chunks[1..]))
  {
    var o := AdvanceOut(vt, chunks[0]);
    AdvanceWellFormed(vt, chunks[0]);
    AfterAfter(log, o.events, Feed(o.vt, chunks[1..]));
  }

  /** The same calls on the bare parser. */
  method BareAdvanceAll(parser: Parser, p: Performer, chunks: seq<seq<byte>>)
    requires parser.Valid()
    modifies parser.Parts(), p
    ensures parser.Valid() && WellFormed(old(parser.View()))
    ensures Out(parser.View(), p.log) == After(old(p.log), Feed(old(parser.View()), chunks))
  {
    hide Parser.Valid, Parser.View, AdvanceOut, WellFormed;
    parser.ViewWellFormed();
    assert chunks[0..] == chunks;
    for i := 0 to |chunks|
      invariant parser.Valid() && WellFormed(parser.View())
      invariant After(old(p.log), Feed(old(parser.View()), chunks)) == After(p.log, Feed(parser.View(), chunks[i..]))
    {
      ghost var log, vt := p.log, parser.View();
      parser.Advance(p, chunks[i]);
      parser.ViewWellFormed();
      FeedFirst(log, vt, chunks[i..]);
      assert chunks[i..][1..] == chunks[i + 1..];
    }
    assert chunks[|chunks|..] == [];
    assert p.log + [] == p.log;
  }

  /** advance_until_terminated, and advance on what it left: one advance. */
  method AdvanceInTwo(parser: Parser, p: Performer, bytes: seq<byte>)
    requires parser.Valid()
    modifies parser.Parts(), p
    ensures parser.Valid() && Out(parser.View(), p.log) == After(old(p.log), AdvanceOut(old(parser.View()), bytes))
  {
    ghost var vt, log := parser.View(), p.log;
    hide Parser.Valid, Parser.View, AdvanceOut, UntilCall;
    var read := parser.AdvanceUntilTerminated(p, bytes);
    UntilThenAdvance(vt, log, bytes, p.stop);
    parser.Advance(p, bytes[read..]);
  }
}
