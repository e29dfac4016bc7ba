/** http_parser_execute: the loop over a buffer, with its inner loops over header
    names, header values and bodies. */
module HttpExecute {
  import opened Helpers
  import opened Wrappers
  import opened HttpStep
  import opened HttpRun
  import opened HttpTidy
  import opened HttpSync
  import opened HttpInv

  /** From `from` on the buffer was read up to `next`, and so it is when the bytes
      come one at a time; r is where they had led before. */
  ghost predicate Reached(cfg: Config, before: seq<Event>, data: seq<byte>, from: nat, next: nat,
                          r: Run, q: Parser, x: Marked, halt: Halt)
  {
    from <= |data| && next <= |data| && (halt.Fail? || from < next)
    && match halt
       case Go =>
         InSync(before, x, data, next, RunBytes(cfg, r, data[from..next]))
         && RunBytes(cfg, r, data[from..next]).p == q
       case Exit =>
         RunBytes(cfg, r, data[from..next]) == Run(q, Merge(before, x.events), Exit)
         && RunBytes(cfg, r, data[from..next - 1]).halt.Go?
       case Fail(_) => RunBytes(cfg, r, data[from..]).halt.Fail?
  }

  lemma FailsAt(cfg: Config, data: seq<byte>, from: nat, i: nat, r: Run)
    requires from <= i <= |data| && RunBytes(cfg, r, data[from..i]).halt.Fail?
    ensures RunBytes(cfg, r, data[from..]).halt.Fail?
  {
    hide RunBytes;
    assert data[from..] == data[from..i] + data[i..];
    RunConcat(cfg, r, data[from..i], data[i..]);
    HaltSticks(cfg, RunBytes(cfg, r, data[from..i]), data[i..]);
  }

  /** One byte after part of the buffer. */
  lemma ByteReached(cfg: Config, before: seq<Event>, x: Marked, data: seq<byte>, from: nat, i: nat, r: Run, t: Run)
    requires from <= i < |data| && t == RunBytes(cfg, r, data[from..i]) && InSync(before, x, data, i, t)
    ensures InRange(x, i)
    ensures var res := Feed(cfg, t.p, data[i]);
            if res.halt.Fail? then RunBytes(cfg, r, data[from..]).halt.Fail?
            else Reached(cfg, before, data, from, i + 1, r, res.p, Do(x, data, i, res.acts), res.halt)
  {
    hide RunBytes, Feed, InRange, Do, Merge, Flushed, Single, Total;
    SingleInRange(x, OpenNow(x, t.p.state), i);
    RunOneMore(cfg, r, data, from, i);
    if Feed(cfg, t.p, data[i]).halt.Fail? {
      FailsAt(cfg, data, from, i + 1, r);
    } else {
      ByteInStep(cfg, before, x, data, i, t);
    }
  }

  // ----- inside a header name or value, where bytes are counted afterwards

  /** The bytes from `from` to i are read and all but the first not yet counted. */
  ghost predicate Lags(
    cfg: Config, before: seq<Event>, x: Marked, data: seq<byte>, from: nat, i: nat, r: Run, q: Parser)
  {
    from <= i <= |data| && q.nread == r.p.nread + 1
    && var t, n := RunBytes(cfg, r, data[from..i]), r.p.nread + (i - from);
       if n <= cfg.maxHeader then InSync(before, x, data, i, t) && t.p == q.(nread := n) else t.halt.Fail?
  }

  lemma LagStart(cfg: Config, before: seq<Event>, x: Marked, data: seq<byte>, from: nat, r: Run, q: Parser)
    requires from < |data| && InSync(before, x, data, from, r)
    requires q == r.p.(nread := r.p.nread + 1) && q.nread <= cfg.maxHeader
    ensures Lags(cfg, before, x, data, from, from, r, q)
  {
    hide InSync;
    assert data[from..from] == [];
  }

  /** A byte that stays in the same field. */
  lemma LagStep(
    cfg: Config, before: seq<Event>, x: Marked, data: seq<byte>, from: nat, i: nat, r: Run, q: Parser, h: Headers)
    requires Lags(cfg, before, x, data, from, i, r, q) && i < |data| && ParsingHeader(q.state)
    requires forall n: nat :: OnByte(cfg, q.(nread := n), data[i]) == Ok(q.(nread := n, h := h), [])
    ensures Lags(cfg, before, x, data, from, i + 1, r, q.(h := h))
  {
    hide RunBytes, OnByte, InSync, Do, ParsingHeader, One;
    var t, n := RunBytes(cfg, r, data[from..i]), r.p.nread + (i - from);
    RunOneMore(cfg, r, data, from, i);
    if n < cfg.maxHeader {
      var res := Feed(cfg, t.p, data[i]);
      assert res == OnByte(cfg, q.(nread := n + 1), data[i]);
      ByteReached(cfg, before, x, data, from, i, r, t);
      DoNothing(x, data, i);
    } else {
      if n == cfg.maxHeader {
        SyncGoes(before, x, data, i, t);
      }
      Overflows(cfg, t, data[i]);
    }
  }

  lemma SyncGoes(before: seq<Event>, x: Marked, data: seq<byte>, i: nat, t: Run)
    requires InSync(before, x, data, i, t)
    ensures t.halt.Go?
  {}

  lemma DoNothing(x: Marked, data: seq<byte>, i: nat)
    requires i < |data| && InRange(x, i)
    ensures Do(x, data, i, []) == x
  {}

  /** A header byte too many, or one after an error. */
  lemma Overflows(cfg: Config, t: Run, ch: byte)
    requires t.halt.Fail? || (t.halt.Go? && ParsingHeader(t.p.state) && t.p.nread >= cfg.maxHeader)
    ensures One(cfg, t, ch).halt.Fail?
  {
    hide OnByte, Merge, Flushed, Do;
  }

  /** The last byte of a header name or value was counted. */
  lemma LagLast(cfg: Config, before: seq<Event>, x: Marked, data: seq<byte>, from: nat, i: nat, r: Run, q: Parser)
    requires Lags(cfg, before, x, data, from, i, r, q) && i < |data| && ParsingHeader(q.state)
    ensures var n := r.p.nread + (i - from) + 1;
            if n > cfg.maxHeader then RunBytes(cfg, r, data[from..]).halt.Fail?
            else
              var res := OnByte(cfg, q.(nread := n), data[i]);
              InRange(x, i)
              && if res.halt.Fail? then RunBytes(cfg, r, data[from..]).halt.Fail?
                 else Reached(cfg, before, data, from, i + 1, r, res.p, Do(x, data, i, res.acts), res.halt)
  {
    hide RunBytes, OnByte, InSync, Do, ParsingHeader, One, Reached;
    var t, n := RunBytes(cfg, r, data[from..i]), r.p.nread + (i - from);
    if n < cfg.maxHeader {
      ByteReached(cfg, before, x, data, from, i, r, t);
      assert Feed(cfg, t.p, data[i]) == OnByte(cfg, q.(nread := n + 1), data[i]);
    } else {
      RunOneMore(cfg, r, data, from, i);
      if n == cfg.maxHeader {
        SyncGoes(before, x, data, i, t);
      }
      Overflows(cfg, t, data[i]);
      FailsAt(cfg, data, from, i + 1, r);
    }
  }

  /** The buffer ended inside a header name or value. */
  lemma LagEnd(cfg: Config, before: seq<Event>, x: Marked, data: seq<byte>, from: nat, r: Run, q: Parser)
    requires from < |data| && Lags(cfg, before, x, data, from, |data|, r, q)
    ensures var n := r.p.nread + (|data| - from);
            if n > cfg.maxHeader then RunBytes(cfg, r, data[from..]).halt.Fail?
            else Reached(cfg, before, data, from, |data|, r, q.(nread := n), x, Go)
  {
    hide RunBytes, InSync;
    assert data[from..|data|] == data[from..];
  }

  lemma NameByte(cfg: Config, q: Parser, ch: byte)
    requires q.state.HeaderField? && Token(ch) != '\0'
    ensures forall n: nat :: OnByte(cfg, q.(nread := n), ch) == Ok(q.(nread := n, h := NameChar(q.h, ch)), [])
    ensures ParsingHeader(q.state)
  {
    hide NameChar, Token;
  }

  lemma NameEnd(cfg: Config, q: Parser, ch: byte)
    requires q.state.HeaderField? && Token(ch) == '\0'
    ensures OnByte(cfg, q, ch) == if ch == ':' then Ok(q.(state := HeaderValueDiscardWs), [Flush(HField)])
                                  else Err(q, INVALID_HEADER_TOKEN)
  {
    hide NameChar, Token;
  }

  lemma DoOne(x: Marked, data: seq<byte>, i: nat, a: Act)
    requires i < |data| && InRange(x, i)
    ensures Do(x, data, i, [a]) == Do1(x, data, i, a)
  {
    assert [a][1..] == [];
  }

  /** The names of the header state General need no matching. */
  method SkipName(cfg: Config, q: Parser, x: Marked, data: seq<byte>, from: nat, i0: nat,
                  ghost before: seq<Event>, ghost r: Run) returns (i: nat)
    requires Lags(cfg, before, x, data, from, i0, r, q) && i0 < |data| && Token(data[i0]) != '\0'
    requires q.state.HeaderField? && q.h.hstate.General?
    ensures i0 <= i < |data| && Token(data[i]) != '\0'
    ensures Lags(cfg, before, x, data, from, i, r, q)
  {
    hide Lags, Token, OnByte;
    i := i0;
    var end := i + Min(|data| - i, cfg.maxHeader);
    while i + 1 < end && Token(data[i + 1]) != '\0'
      invariant i0 <= i < |data| && Token(data[i]) != '\0'
      invariant Lags(cfg, before, x, data, from, i, r, q)
    {
      NameByte(cfg, q, data[i]);
      LagStep(cfg, before, x, data, from, i, r, q, NameChar(q.h, data[i]));
      i := i + 1;
    }
  }

  method HeaderFieldLoop(cfg: Config, q0: Parser, x0: Marked, data: seq<byte>, from: nat,
                         ghost before: seq<Event>, ghost r: Run)
    returns (q: Parser, x: Marked, next: nat, halt: Halt)
    requires from < |data| && Lags(cfg, before, x0, data, from, from, r, q0) && q0.state.HeaderField?
    ensures Reached(cfg, before, data, from, next, r, q, x, halt)
  {
    hide Lags, Token, OnByte, NameChar, Reached, InRange, Do, Callback;
    q, x := q0, x0;
    var i := from;
    while i < |data| && Token(data[i]) != '\0'
      invariant from <= i <= |data| && q.state.HeaderField? && q.nread == q0.nread
      invariant Lags(cfg, before, x, data, from, i, r, q)
    {
      if q.h.hstate.General? {
        i := SkipName(cfg, q, x, data, from, i, before, r);
      }
      NameByte(cfg, q, data[i]);
      LagStep(cfg, before, x, data, from, i, r, q, NameChar(q.h, data[i]));
      q := q.(h := NameChar(q.h, data[i]));
      i := i + 1;
    }
    LagRead(cfg, before, x, data, from, i, r, q);
    if i == |data| {
      LagEnd(cfg, before, x, data, from, r, q);
      q := q.(nread := q.nread + (i - 1 - from));
      next := if q.nread > cfg.maxHeader then i - 1 else i;
      halt := if q.nread > cfg.maxHeader then Fail(HEADER_OVERFLOW) else Go;
    } else {
      LagLast(cfg, before, x, data, from, i, r, q);
      q := q.(nread := q.nread + (i - from));
      NameEnd(cfg, q, data[i]);
      if q.nread > cfg.maxHeader {
        next, halt := i, Fail(HEADER_OVERFLOW);
      } else if data[i] == ':' {
        DoOne(x, data, i, Flush(HField));
        q := q.(state := HeaderValueDiscardWs);
        x, next, halt := Callback(x, data, HField, i), i + 1, Go;
      } else {
        next, halt := i, Fail(INVALID_HEADER_TOKEN);
      }
    }
    ReachedFail(cfg, before, data, from, next, r, q, x, halt);
  }

  lemma LagRead(cfg: Config, before: seq<Event>, x: Marked, data: seq<byte>, from: nat, i: nat, r: Run, q: Parser)
    requires Lags(cfg, before, x, data, from, i, r, q)
    ensures q.nread == r.p.nread + 1
  {
    hide RunBytes, InSync;
  }

  lemma ReachedFail(cfg: Config, before: seq<Event>, data: seq<byte>, from: nat, next: nat,
                    r: Run, q: Parser, x: Marked, halt: Halt)
    requires from <= |data| && next <= |data|
    requires halt.Fail? ==> RunBytes(cfg, r, data[from..]).halt.Fail?
    requires !halt.Fail? ==> Reached(cfg, before, data, from, next, r, q, x, halt)
    ensures Reached(cfg, before, data, from, next, r, q, x, halt)
  {
    hide RunBytes, InSync;
  }

  // ----- header values

  lemma ValueByte(cfg: Config, q: Parser, ch: byte, h: Headers)
    requires q.state.HeaderValue? && ch != CR && ch != LF && (q.lenient || IsHeaderChar(ch))
    requires ValueChar(q.h, ch) == Some(h)
    ensures forall n: nat :: OnByte(cfg, q.(nread := n), ch) == Ok(q.(nread := n, h := h), [])
    ensures ParsingHeader(q.state)
  {
    hide ValueChar, IsHeaderChar;
  }

  lemma ValueBad(cfg: Config, q: Parser, ch: byte)
    requires q.state.HeaderValue? && ch != CR && ch != LF
    requires (!q.lenient && !IsHeaderChar(ch)) || ValueChar(q.h, ch).None?
    ensures forall n: nat :: OnByte(cfg, q.(nread := n), ch).halt.Fail?
    ensures ParsingHeader(q.state)
  {
    hide ValueChar, IsHeaderChar;
  }

  lemma ValueEnd(cfg: Config, q: Parser)
    requires q.state.HeaderValue?
    ensures OnByte(cfg, q, CR) == Ok(q.(state := HeaderAlmostDone), [Flush(HValue)])
    ensures OnByte(cfg, q, LF) == Ok(q.(state := HeaderValueLws), [Flush(HValue)])
    ensures ParsingHeader(q.state)
  {
    assert [Flush(HValue)] + [] == [Flush(HValue)];
  }

  /** A byte past the header limit. */
  lemma LagPast(cfg: Config, before: seq<Event>, x: Marked, data: seq<byte>, from: nat, i: nat, r: Run, q: Parser)
    requires Lags(cfg, before, x, data, from, i, r, q) && i < |data| && ParsingHeader(q.state)
    requires r.p.nread + (i - from) >= cfg.maxHeader
    ensures Lags(cfg, before, x, data, from, i + 1, r, q)
  {
    hide RunBytes, InSync, ParsingHeader, One;
    var t, n := RunBytes(cfg, r, data[from..i]), r.p.nread + (i - from);
    RunOneMore(cfg, r, data, from, i);
    if n == cfg.maxHeader {
      SyncGoes(before, x, data, i, t);
    }
    Overflows(cfg, t, data[i]);
  }

  /** The inner loop over the value of a header of no interest. It stops before CR
      and LF, on an invalid byte, and after as many bytes as a header may have; then
      the byte it stands on is passed over unseen, and the count is over the limit. */
  method SkipValue(cfg: Config, q: Parser, x: Marked, data: seq<byte>, from: nat, i0: nat,
                   ghost before: seq<Event>, ghost r: Run) returns (i: nat, bad: bool)
    requires Lags(cfg, before, x, data, from, i0, r, q) && i0 < |data| && data[i0] != CR && data[i0] != LF
    requires q.state.HeaderValue? && q.h.hstate.General? && from <= i0 && cfg.maxHeader > 0
    ensures bad ==> i < |data| && RunBytes(cfg, r, data[from..]).halt.Fail?
    ensures !bad ==> i0 <= i < |data| && Lags(cfg, before, x, data, from, i + 1, r, q)
  {
    hide Lags, OnByte, RunBytes, IsHeaderChar, Reached, InRange, Do;
    i, bad := i0, false;
    var end := i + Min(|data| - i, cfg.maxHeader);
    while i != end && data[i] != CR && data[i] != LF
      invariant i0 <= i <= end
      invariant Lags(cfg, before, x, data, from, i, r, q)
      decreases end - i
    {
      if !q.lenient && !IsHeaderChar(data[i]) {
        ValueBad(cfg, q, data[i]);
        LagLast(cfg, before, x, data, from, i, r, q);
        return i, true;
      }
      ValueByte(cfg, q, data[i], q.h);
      LagStep(cfg, before, x, data, from, i, r, q, q.h);
      i := i + 1;
    }
    if i != end {
      i := i - 1;
    } else if i == |data| {
      i := i - 1;
    } else {
      LagPast(cfg, before, x, data, from, i, r, q);
    }
  }

  method HeaderValueLoop(cfg: Config, q0: Parser, x0: Marked, data: seq<byte>, from: nat,
                         ghost before: seq<Event>, ghost r: Run)
    returns (q: Parser, x: Marked, next: nat, halt: Halt)
    requires from < |data| && Lags(cfg, before, x0, data, from, from, r, q0) && q0.state.HeaderValue?
    requires q0.nread <= cfg.maxHeader && InRange(x0, from)
    ensures Reached(cfg, before, data, from, next, r, q, x, halt)
  {
    hide Lags, OnByte, ValueChar, Reached, InRange, Do, Callback, IsHeaderChar;
    q, x := q0, x0;
    var i := from;
    LagRead(cfg, before, x, data, from, i, r, q);
    while i < |data| && data[i] != CR && data[i] != LF
      invariant from <= i <= |data| && q.state.HeaderValue? && q.nread == q0.nread && x == x0
      invariant Lags(cfg, before, x, data, from, i, r, q)
    {
      if (!q.lenient && !IsHeaderChar(data[i])) || ValueChar(q.h, data[i]).None? {
        ValueBad(cfg, q, data[i]);
        LagLast(cfg, before, x, data, from, i, r, q);
        next := i;
        halt := Fail(if !q.lenient && !IsHeaderChar(data[i]) then INVALID_HEADER_TOKEN else INVALID_CONTENT_LENGTH);
        ReachedFail(cfg, before, data, from, next, r, q, x, halt);
        return;
      }
      if q.h.hstate.General? {
        var bad;
        i, bad := SkipValue(cfg, q, x, data, from, i, before, r);
        if bad {
          next, halt := i, Fail(INVALID_HEADER_TOKEN);
          ReachedFail(cfg, before, data, from, next, r, q, x, halt);
          return;
        }
      } else {
        var h := ValueChar(q.h, data[i]).value;
        ValueByte(cfg, q, data[i], h);
        LagStep(cfg, before, x, data, from, i, r, q, h);
        q := q.(h := h);
      }
      i := i + 1;
    }
    LagRead(cfg, before, x, data, from, i, r, q);
    StillInRange(x, from, i);
    q, x, next, halt := EndValue(cfg, q, x, data, from, i, before, r);
  }

  lemma StillInRange(x: Marked, from: nat, i: nat)
    requires InRange(x, from) && from <= i
    ensures InRange(x, i)
  {}

  method EndValue(cfg: Config, q0: Parser, x0: Marked, data: seq<byte>, from: nat, i: nat,
                  ghost before: seq<Event>, ghost r: Run)
    returns (q: Parser, x: Marked, next: nat, halt: Halt)
    requires Lags(cfg, before, x0, data, from, i, r, q0) && q0.state.HeaderValue? && q0.nread == r.p.nread + 1
    requires from <= i <= |data| && from < |data| && (i < |data| ==> data[i] == CR || data[i] == LF) && InRange(x0, i)
    ensures Reached(cfg, before, data, from, next, r, q, x, halt)
  {
    hide Lags, OnByte, Reached, InRange, Do, Callback;
    q, x := q0, x0;
    if i == |data| {
      LagEnd(cfg, before, x, data, from, r, q);
      q := q.(nread := q.nread + (i - 1 - from));
      next := if q.nread > cfg.maxHeader then i - 1 else i;
      halt := if q.nread > cfg.maxHeader then Fail(HEADER_OVERFLOW) else Go;
    } else {
      ValueEnd(cfg, q.(nread := q.nread + (i - from)));
      LagLast(cfg, before, x, data, from, i, r, q);
      DoOne(x, data, i, Flush(HValue));
      if data[i] == CR {
        x := Callback(x, data, HValue, i);
        q := q.(state := HeaderAlmostDone, nread := q.nread + (i - from));
        next := if q.nread > cfg.maxHeader then i else i + 1;
        halt := if q.nread > cfg.maxHeader then Fail(HEADER_OVERFLOW) else Go;
      } else {
        q := q.(nread := q.nread + (i - from));
        if q.nread > cfg.maxHeader {
          next, halt := i, Fail(HEADER_OVERFLOW);
        } else {
          q, x := q.(state := HeaderValueLws), Callback(x, data, HValue, i);
          next, halt := i + 1, Go;
        }
      }
    }
    ReachedFail(cfg, before, data, from, next, r, q, x, halt);
  }

  // ----- bodies

  predicate Reading(s: State) {
    s.BodyIdentity? || s.ChunkData? || s.BodyIdentityEof?
  }

  /** k bytes of the body were read. */
  function Eaten(p: Parser, k: nat): Parser
    requires p.state.BodyIdentityEof? || k <= p.h.contentLength
  {
    if p.state.BodyIdentityEof? then p else p.(h := p.h.(contentLength := p.h.contentLength - k))
  }

  lemma BodyByte(cfg: Config, p: Parser, ch: byte)
    requires Reading(p.state) && (p.state.BodyIdentityEof? || p.h.contentLength > 1)
    ensures Feed(cfg, p, ch) == Ok(Eaten(p, 1), [Mark(Body)])
  {
    hide OnMessageDone;
  }

  lemma LastBodyByte(cfg: Config, p: Parser, ch: byte)
    requires p.h.contentLength == 1
    ensures p.state.ChunkData? ==> Feed(cfg, p, ch) == Ok(Eaten(p, 1).(state := ChunkDataAlmostDone), [Mark(Body)])
    ensures p.state.BodyIdentity? ==>
              Feed(cfg, p, ch)
              == After([Mark(Body), FlushIncl(Body)], OnMessageDone(Eaten(p, 1).(state := MessageDone)))
  {
    hide OnMessageDone;
  }

  function MarkBody(x: Marked, pos: nat): Marked {
    if Body in x.marks then x else x.(marks := x.marks[Body := pos])
  }

  /** The first k bytes of a body, short of its last one. */
  lemma {:induction false} BodyBytes(
    cfg: Config, before: seq<Event>, x: Marked, data: seq<byte>, from: nat, k: nat, r: Run)
    requires Reading(r.p.state) && InSync(before, x, data, from, r) && from + k <= |data|
    requires r.p.state.BodyIdentityEof? || k < r.p.h.contentLength
    ensures var t := RunBytes(cfg, r, data[from..from + k]);
            t.p == Eaten(r.p, k) && InSync(before, if k == 0 then x else MarkBody(x, from), data, from + k, t)
  {
    hide InSync, Feed, InRange, Do1, Reading;
    if k == 0 {
      assert data[from..from] == [];
    } else {
      BodyBytes(cfg, before, x, data, from, k - 1, r);
      var i := from + k - 1;
      var t, y := RunBytes(cfg, r, data[from..i]), if k == 1 then x else MarkBody(x, from);
      BodyByte(cfg, t.p, data[i]);
      NextBodyByte(cfg, before, y, data, from, i, r, t);
      MarkedOnce(x, from, i);
    }
  }

  lemma MarkedOnce(x: Marked, from: nat, i: nat)
    ensures MarkBody(MarkBody(x, from), i) == MarkBody(x, from)
  {}

  lemma NextBodyByte(cfg: Config, before: seq<Event>, x: Marked, data: seq<byte>, from: nat, i: nat, r: Run, t: Run)
    requires from <= i < |data| && t == RunBytes(cfg, r, data[from..i]) && InSync(before, x, data, i, t)
    requires Feed(cfg, t.p, data[i]).halt.Go? && Feed(cfg, t.p, data[i]).acts == [Mark(Body)]
    ensures InSync(before, MarkBody(x, i), data, i + 1, RunBytes(cfg, r, data[from..i + 1]))
    ensures RunBytes(cfg, r, data[from..i + 1]).p == Feed(cfg, t.p, data[i]).p
  {
    hide InSync, Feed, RunBytes, InRange, Callback;
    ByteReached(cfg, before, x, data, from, i, r, t);
    DoOne(x, data, i, Mark(Body));
  }

  lemma {:induction false} DoConcat(x: Marked, data: seq<byte>, i: nat, a: seq<Act>, b: seq<Act>)
    requires i < |data| && InRange(x, i)
    ensures Do(x, data, i, a + b) == Do(Do(x, data, i, a), data, i, b)
    decreases |a|
  {
    hide Do1, InRange;
    if a == [] {
      assert a + b == b;
    } else {
      assert (a + b)[1..] == a[1..] + b;
      DoConcat(Do1(x, data, i, a[0]), data, i, a[1..], b);
    }
  }

  lemma DoBody(x: Marked, data: seq<byte>, i: nat, rest: seq<Act>)
    requires i < |data| && InRange(x, i)
    ensures InRange(MarkBody(x, i), i + 1) && InRange(Callback(MarkBody(x, i), data, Body, i + 1), i)
    ensures Do(x, data, i, [Mark(Body), FlushIncl(Body)] + rest)
            == Do(Callback(MarkBody(x, i), data, Body, i + 1), data, i, rest)
  {
    hide InRange, Callback;
    var acts := [Mark(Body), FlushIncl(Body)];
    DoConcat(x, data, i, acts, rest);
    assert acts[1..] == [FlushIncl(Body)];
    DoOne(Do1(x, data, i, Mark(Body)), data, i, FlushIncl(Body));
    assert InRange(MarkBody(x, i), i + 1) by {
      MarkInRange(x, i);
    }
  }

  lemma MarkInRange(x: Marked, i: nat)
    requires InRange(x, i)
    ensures InRange(MarkBody(x, i), i) && InRange(MarkBody(x, i), i + 1)
  {}

  /** s_body_identity, s_chunk_data and s_body_identity_eof: as much of the body as
      the buffer holds at once. */
  method BodyLoop(
    cfg: Config, q0: Parser, x0: Marked, data: seq<byte>, from: nat, ghost before: seq<Event>, ghost r: Run)
    returns (q: Parser, x: Marked, next: nat, halt: Halt)
    requires from < |data| && InSync(before, x0, data, from, r) && q0 == r.p && Reading(q0.state)
    requires q0.state.BodyIdentityEof? || q0.h.contentLength > 0
    ensures Reached(cfg, before, data, from, next, r, q, x, halt)
  {
    hide InSync, Feed, RunBytes, InRange, Do, Callback, Reached, OnMessageDone;
    q := q0;
    var toRead := if q.state.BodyIdentityEof? then |data| - from else Min(q.h.contentLength, |data| - from);
    var i := from + toRead - 1;
    BodyBytes(cfg, before, x0, data, from, toRead - 1, r);
    ghost var t := RunBytes(cfg, r, data[from..i]);
    ghost var y := if toRead == 1 then x0 else MarkBody(x0, from);
    ByteReached(cfg, before, y, data, from, i, r, t);
    MarkedOnce(x0, from, i);
    x := MarkBody(x0, from);
    next, halt := i + 1, Go;
    if q.state.BodyIdentityEof? {
      BodyByte(cfg, t.p, data[i]);
      DoOne(y, data, i, Mark(Body));
      return;
    }
    q := q.(h := q.h.(contentLength := q.h.contentLength - toRead));
    if q.h.contentLength > 0 {
      BodyByte(cfg, t.p, data[i]);
      DoOne(y, data, i, Mark(Body));
    } else {
      LastBodyByte(cfg, t.p, data[i]);
      if q.state.ChunkData? {
        q := q.(state := ChunkDataAlmostDone);
        DoOne(y, data, i, Mark(Body));
      } else {
        var res := OnMessageDone(q.(state := MessageDone));
        DoBody(y, data, i, res.acts);
        x := Do(Callback(x, data, Body, i + 1), data, i, res.acts);
        q, halt := res.p, res.halt;
        ReachedFail(cfg, before, data, from, next, r, q, x, halt);
      }
    }
  }

  // ----- the loop over the buffer

  /** One round of the outer loop. */
  method Iterate(
    cfg: Config, q0: Parser, x0: Marked, data: seq<byte>, from: nat, ghost before: seq<Event>, ghost r: Run)
    returns (q: Parser, x: Marked, next: nat, halt: Halt)
    requires from < |data| && InSync(before, x0, data, from, r) && q0 == r.p && Asserted(q0)
    ensures Reached(cfg, before, data, from, next, r, q, x, halt)
  {
    hide InSync, RunBytes, InRange, Do, Reached, OnByte, Lags, Asserted;
    assert data[from..from] == [];
    RunNone(cfg, r);
    ByteReached(cfg, before, x0, data, from, from, r, r);
    q, x := q0, x0;
    if ParsingHeader(q.state) {
      q := q.(nread := q.nread + 1);
      if q.nread > cfg.maxHeader {
        next, halt := from, Fail(HEADER_OVERFLOW);
        ReachedFail(cfg, before, data, from, next, r, q, x, halt);
        return;
      }
      LagStart(cfg, before, x, data, from, r, q);
    }
    if q.state.HeaderField? {
      q, x, next, halt := HeaderFieldLoop(cfg, q, x, data, from, before, r);
    } else if q.state.HeaderValue? {
      q, x, next, halt := HeaderValueLoop(cfg, q, x, data, from, before, r);
    } else if Reading(q.state) {
      AssertedBody(q);
      q, x, next, halt := BodyLoop(cfg, q, x, data, from, before, r);
    } else {
      var res := OnByte(cfg, q, data[from]);
      q, halt := res.p, res.halt;
      if halt.Fail? {
        next := from;
      } else {
        x, next := Do(x, data, from, res.acts), from + 1;
      }
      ReachedFail(cfg, before, data, from, next, r, q, x, halt);
    }
  }

  lemma AssertedBody(p: Parser)
    requires Asserted(p) && Reading(p.state)
    ensures !ParsingHeader(p.state) && (p.state.BodyIdentityEof? || p.h.contentLength > 0)
  {}

  lemma RunNone(cfg: Config, r: Run)
    ensures RunBytes(cfg, r, []) == r
  {}

  /** What holds between two calls: a field that goes on was begun. */
  ghost predicate Ready(p: Parser, out: seq<Event>) {
    Sane(p) && (OpenOf(p.state).Some? ==> EndsIn(out, OpenOf(p.state).value))
  }

  lemma StartsInSync(p: Parser, before: seq<Event>, data: seq<byte>)
    requires Ready(p, before)
    ensures InSync(before, Marked([], StartMarks(p.state)), data, 0, Run(p, before, Go))
  {
    hide Sane;
    match OpenOf(p.state)
    case None =>
    case Some(f) => PushNothing(before, f);
  }

  lemma EndsReady(before: seq<Event>, x: Marked, data: seq<byte>, pos: nat, r: Run)
    requires InSync(before, x, data, pos, r) && Sane(r.p)
    ensures Ready(r.p, r.out) && InRange(x, pos) && Merge(before, Flushed(x, data, pos)) == r.out && |x.marks| <= 1
  {
    hide Sane, Total, Merge, Flushed;
    var open := OpenNow(x, r.p.state);
    TotalIsFlushed(before, x, open, data, pos);
    match open
    case None =>
    case Some(f) =>
      EndsOpen(before, x, f, data, pos);
      assert |map[f := x.marks[f]]| == 1;
  }

  /** The loop so far. */
  ghost predicate Looped(
    cfg: Config, before: seq<Event>, data: seq<byte>, pos: nat, r0: Run, q: Parser, x: Marked, halt: Halt)
  {
    if pos == 0 && halt.Go? then InSync(before, x, data, 0, r0) && r0.p == q
    else Reached(cfg, before, data, 0, pos, r0, q, x, halt)
  }

  lemma LoopGoes(cfg: Config, before: seq<Event>, data: seq<byte>, pos: nat, r0: Run, q: Parser, x: Marked)
    requires Looped(cfg, before, data, pos, r0, q, x, Go) && Sane(r0.p)
    ensures pos <= |data|
    ensures var r := RunBytes(cfg, r0, data[..pos]);
            InSync(before, x, data, pos, r) && q == r.p && Asserted(q) && Sane(q)
  {
    hide InSync, RunBytes, Sane, Asserted;
    assert data[0..pos] == data[..pos];
    var r := RunBytes(cfg, r0, data[..pos]);
    if pos == 0 {
      RunNone(cfg, r0);
    }
    SyncGoes(before, x, data, pos, r);
    EveryRunIsSane(cfg, r0, data[..pos]);
    SaneIsAsserted(q);
  }

  lemma LoopNext(
    cfg: Config, before: seq<Event>, data: seq<byte>, pos: nat, next: nat, r0: Run, q: Parser, x: Marked, halt: Halt)
    requires pos <= |data| && Reached(cfg, before, data, pos, next, RunBytes(cfg, r0, data[..pos]), q, x, halt)
    ensures Looped(cfg, before, data, next, r0, q, x, halt)
  {
    hide InSync, RunBytes, Merge;
    RunConcat(cfg, r0, data[..pos], data[pos..]);
    assert data[..pos] + data[pos..] == data == data[0..];
    if !halt.Fail? {
      RunConcat(cfg, r0, data[..pos], data[pos..next]);
      assert data[..pos] + data[pos..next] == data[0..next];
      RunConcat(cfg, r0, data[..pos], data[pos..next - 1]);
      assert data[..pos] + data[pos..next - 1] == data[0..next - 1];
    }
  }

  /** http_parser_execute on a buffer with bytes in it. */
  method ExecuteBuffer(cfg: Config, p: Parser, data: seq<byte>, ghost before: seq<Event>)
    returns (q: Parser, events: seq<Event>, n: nat, halt: Halt)
    requires |data| > 0 && Ready(p, before)
    ensures var r := RunBytes(cfg, Run(p, before, Go), data);
            (halt.Fail? <==> r.halt.Fail?)
            && (!halt.Fail? ==> halt == r.halt && q == r.p && Merge(before, events) == r.out && Ready(q, r.out))
    ensures n <= |data|
    ensures halt.Go? ==> n == |data|
    ensures halt.Exit? ==> 0 < n && RunBytes(cfg, Run(p, before, Go), data[..n]).halt.Exit?
                           && RunBytes(cfg, Run(p, before, Go), data[..n - 1]).halt.Go?
  {
    hide InSync, RunBytes, Sane, Merge, Reached, Looped, StartMarks, Asserted;
    var x, pos: nat := Marked([], StartMarks(p.state)), 0;
    q, halt := p, Go;
    ghost var r0 := Run(p, before, Go);
    StartsInSync(p, before, data);
    LoopStarts(cfg, before, data, r0, q, x);
    while pos < |data| && halt.Go?
      invariant pos <= |data|
      invariant Looped(cfg, before, data, pos, r0, q, x, halt)
      decreases if halt.Go? then |data| - pos + 1 else 0
    {
      LoopGoes(cfg, before, data, pos, r0, q, x);
      ghost var was := pos;
      q, x, pos, halt := Iterate(cfg, q, x, data, pos, before, RunBytes(cfg, r0, data[..pos]));
      ReachedFurther(cfg, before, data, was, pos, RunBytes(cfg, r0, data[..was]), q, x, halt);
      LoopNext(cfg, before, data, was, pos, r0, q, x, halt);
    }
    LoopEnds(cfg, before, data, pos, r0, q, x, halt);
    n, events := pos, if halt.Go? then Flushed(x, data, pos) else x.events;
  }

  lemma LoopStarts(cfg: Config, before: seq<Event>, data: seq<byte>, r0: Run, q: Parser, x: Marked)
    requires InSync(before, x, data, 0, r0) && r0.p == q
    ensures Looped(cfg, before, data, 0, r0, q, x, Go)
  {
    hide InSync, Reached;
  }

  lemma ReachedFurther(cfg: Config, before: seq<Event>, data: seq<byte>, from: nat, next: nat,
                       r: Run, q: Parser, x: Marked, halt: Halt)
    requires Reached(cfg, before, data, from, next, r, q, x, halt)
    ensures next <= |data| && (halt.Fail? || from < next)
  {
    hide InSync, RunBytes, Merge;
  }

  /** Where another protocol follows, no field is open. */
  lemma ExitReady(cfg: Config, r0: Run, data: seq<byte>, pos: nat)
    requires 0 < pos <= |data| && Sane(r0.p) && RunBytes(cfg, r0, data[..pos]).halt.Exit?
    requires RunBytes(cfg, r0, data[..pos - 1]).halt.Go?
    ensures Ready(RunBytes(cfg, r0, data[..pos]).p, RunBytes(cfg, r0, data[..pos]).out)
  {
    hide RunBytes, Feed, Sane, Merge, Flushed, Do, OpenOf, Clean, Opens, BodyState;
    var t := RunBytes(cfg, r0, data[..pos - 1]);
    assert data[0..pos] == data[..pos] && data[0..pos - 1] == data[..pos - 1];
    RunOneMore(cfg, r0, data, 0, pos - 1);
    FeedTidy(cfg, t.p, data[pos - 1]);
    EveryRunIsSane(cfg, r0, data[..pos]);
  }

  lemma LoopEnds(cfg: Config, before: seq<Event>, data: seq<byte>, pos: nat, r0: Run, q: Parser, x: Marked, halt: Halt)
    requires Looped(cfg, before, data, pos, r0, q, x, halt) && pos <= |data| && (halt.Go? ==> pos == |data| > 0)
    requires Sane(r0.p)
    ensures var r := RunBytes(cfg, r0, data);
            match halt
            case Go =>
              InRange(x, pos) && r == Run(q, Merge(before, Flushed(x, data, pos)), Go) && Ready(q, r.out)
            case Exit =>
              0 < pos && r == Run(q, Merge(before, x.events), Exit) && Ready(q, r.out)
              && RunBytes(cfg, r0, data[..pos]).halt.Exit? && RunBytes(cfg, r0, data[..pos - 1]).halt.Go?
            case Fail(_) => r.halt.Fail?
  {
    hide InSync, RunBytes, Sane, Merge, Flushed, Ready;
    match halt
    case Go =>
      LoopGoes(cfg, before, data, pos, r0, q, x);
      assert data[..pos] == data;
      SyncGoes(before, x, data, pos, RunBytes(cfg, r0, data));
      EndsReady(before, x, data, pos, RunBytes(cfg, r0, data));
    case Exit =>
      assert data[0..pos] == data[..pos] && data[0..pos - 1] == data[..pos - 1];
      assert data == data[..pos] + data[pos..];
      RunConcat(cfg, r0, data[..pos], data[pos..]);
      HaltSticks(cfg, RunBytes(cfg, r0, data[..pos]), data[pos..]);
      ExitReady(cfg, r0, data, pos);
    case Fail(_) => assert data[0..] == data;
  }
}
