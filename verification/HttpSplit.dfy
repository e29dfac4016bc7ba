/** http_parser: the parser object, and that it does not matter how its input was
    cut into buffers. */
module HttpSplit {
  import opened Wrappers
  import opened HttpStep
  import opened HttpRun
  import opened HttpInv
  import opened HttpExecute

  function Concat(pieces: seq<seq<byte>>): seq<byte> {
    if pieces == [] then [] else Concat(pieces[..|pieces| - 1]) + pieces[|pieces| - 1]
  }

  /** The bytes one at a time, piece by piece. */
  function RunPieces(cfg: Config, r: Run, pieces: seq<seq<byte>>): Run {
    if pieces == [] then r
    else RunBytes(cfg, RunPieces(cfg, r, pieces[..|pieces| - 1]), pieces[|pieces| - 1])
  }

  lemma {:induction false} PiecesAreWhole(cfg: Config, r: Run, pieces: seq<seq<byte>>)
    ensures RunPieces(cfg, r, pieces) == RunBytes(cfg, r, Concat(pieces))
  {
    hide RunBytes;
    if pieces == [] {
      RunNone(cfg, r);
    } else {
      var init := pieces[..|pieces| - 1];
      PiecesAreWhole(cfg, r, init);
      RunConcat(cfg, r, Concat(init), pieces[|pieces| - 1]);
    }
  }

  /** Two ways to cut the same input come to the same parser and callbacks. */
  lemma AnyPartition(cfg: Config, r: Run, pieces: seq<seq<byte>>, others: seq<seq<byte>>)
    requires Concat(pieces) == Concat(others)
    ensures RunPieces(cfg, r, pieces) == RunPieces(cfg, r, others)
  {
    hide RunBytes, RunPieces, Concat;
    PiecesAreWhole(cfg, r, pieces);
    PiecesAreWhole(cfg, r, others);
  }

  predicate BetweenMessages(s: State) {
    s.Dead? || s.StartReqOrRes? || s.StartRes? || s.StartReq?
  }

  class HttpParser {
    var parser: Parser
    var errno: Option<Errno>
    /** Every callback made, in order. */
    var calls: seq<Event>

    ghost predicate Valid()
      reads this
    {
      errno.None? ==> Ready(parser, Merge([], calls))
    }

    /** The parser and its callbacks, adjacent data of one field concatenated. */
    ghost function State(): Run
      reads this
    {
      Run(parser, Merge([], calls), Go)
    }

    /** http_parser_init */
    constructor (kind: Kind)
      ensures Valid() && parser == Init(kind) && errno == None && calls == []
    {
      parser, errno, calls := Init(kind), None, [];
      InitIsSane(kind);
    }

    /** http_parser_execute */
    method Execute(cfg: Config, data: seq<byte>) returns (n: nat)
      requires Valid()
      modifies this
      ensures Valid()
      ensures old(errno).Some? ==> n == 0 && errno == old(errno) && parser == old(parser) && calls == old(calls)
      ensures old(errno).None? && data == [] ==> parser == old(parser) && AtEnd(old(parser), old(calls), n)
      ensures old(errno).None? && data != [] ==>
                var r := RunBytes(cfg, old(State()), data);
                (errno.Some? <==> r.halt.Fail?)
                && (errno.None? ==> parser == r.p && Merge([], calls) == r.out)
                && (r.halt.Go? ==> n == |data|)
                && (r.halt.Exit? ==> 0 < n <= |data| && RunBytes(cfg, old(State()), data[..n]) == r)
      ensures old(calls) <= calls
    {
      hide RunBytes, Ready;
      if errno.Some? {
        return 0;
      }
      if data == [] {
        n := Finish();
        return;
      }
      ghost var before := Merge([], calls);
      var q, events, m, halt := ExecuteBuffer(cfg, parser, data, before);
      MergeConcat([], calls, events);
      parser, calls, n := q, calls + events, m;
      if halt.Fail? {
        errno := Some(halt.e);
      } else if halt.Exit? {
        RunConcat(cfg, old(State()), data[..n], data[n..]);
        assert data[..n] + data[n..] == data;
        HaltSticks(cfg, RunBytes(cfg, old(State()), data[..n]), data[n..]);
      }
    }

    /** What an empty buffer, the end of the input, does. */
    ghost predicate AtEnd(p: Parser, before: seq<Event>, n: nat)
      reads this
    {
      if p.state.BodyIdentityEof? then n == 0 && errno == None && calls == before + [Happened(MessageComplete)]
      else if BetweenMessages(p.state) then n == 0 && errno == None && calls == before
      else n == 1 && errno == Some(INVALID_EOF_STATE) && calls == before
    }

    method Finish() returns (n: nat)
      requires Valid() && errno.None?
      modifies this
      ensures Valid() && parser == old(parser) && AtEnd(old(parser), old(calls), n)
      ensures old(calls) <= calls
    {
      hide Sane, Merge;
      if parser.state.BodyIdentityEof? {
        calls := calls + [Happened(MessageComplete)];
        n := 0;
      } else if BetweenMessages(parser.state) {
        n := 0;
      } else {
        errno := Some(INVALID_EOF_STATE);
        n := 1;
      }
    }

    /** A connection's input, in whatever buffers it came. When the whole of it is
        free of errors and upgrades, the parser and its callbacks end up as if it had
        come in one buffer. Unless another protocol takes over on the way, some call
        reports an error exactly when the whole is in error. */
    method ExecuteAll(cfg: Config, pieces: seq<seq<byte>>)
      requires Valid() && errno.None? && forall k :: 0 <= k < |pieces| ==> pieces[k] != []
      modifies this
      ensures Valid()
      ensures var r := RunBytes(cfg, old(State()), Concat(pieces));
              && (r.halt.Go? ==> errno.None? && parser == r.p && Merge([], calls) == r.out)
              && (!r.halt.Exit? ==> (errno.Some? <==> r.halt.Fail?))
    {
      hide RunBytes, Ready, Merge;
      ghost var r0 := State();
      RunNone(cfg, r0);
      for k := 0 to |pieces|
        invariant Valid()
        invariant var r := RunBytes(cfg, r0, Concat(pieces[..k]));
                  (r.halt.Go? ==> errno.None? && State() == r) && (r.halt.Fail? ==> errno.Some?)
      {
        ghost var r := RunBytes(cfg, r0, Concat(pieces[..k]));
        assert pieces[..k + 1][..k] == pieces[..k];
        RunConcat(cfg, r0, Concat(pieces[..k]), pieces[k]);
        if !r.halt.Go? {
          HaltSticks(cfg, r, pieces[k]);
        }
        var n := Execute(cfg, pieces[k]);
      }
      assert pieces[..|pieces|] == pieces;
    }
  }
}
