/** http_parser: reading a buffer with marks keeps step with reading it one byte
    at a time. */
module HttpSync {
  import opened Wrappers
  import opened HttpStep
  import opened HttpRun
  import opened HttpTidy

  /** At most one mark is set: the one named. */
  predicate Single(x: Marked, open: Option<Field>, pos: nat) {
    match open
    case None => x.marks == map[]
    case Some(f) => f in x.marks && x.marks == map[f := x.marks[f]] && x.marks[f] <= pos
  }

  lemma SingleInRange(x: Marked, open: Option<Field>, pos: nat)
    requires Single(x, open, pos)
    ensures InRange(x, pos)
  {}

  /** The bytes of the open field that no callback has had yet. */
  function Pending(x: Marked, open: Option<Field>, data: seq<byte>, pos: nat): seq<Event>
    requires Single(x, open, pos) && pos <= |data|
  {
    match open
    case None => []
    case Some(f) => [Data(f, data[x.marks[f]..pos])]
  }

  lemma FlushedSingle(x: Marked, open: Option<Field>, data: seq<byte>, pos: nat)
    requires Single(x, open, pos) && pos <= |data|
    ensures InRange(x, pos) && Flushed(x, data, pos) == x.events + Pending(x, open, data, pos)
  {
    hide Flushed;
    match open
    case None => FlushedNone(x, data, pos);
    case Some(f) => FlushedOne(x, f, x.marks[f], data, pos);
  }

  /** What the callbacks so far and the pending bytes come to. */
  function Total(before: seq<Event>, x: Marked, open: Option<Field>, data: seq<byte>, pos: nat): seq<Event>
    requires Single(x, open, pos) && pos <= |data|
  {
    match open
    case None => Merge(before, x.events)
    case Some(f) => Push(Merge(before, x.events), Data(f, data[x.marks[f]..pos]))
  }

  lemma TotalIsFlushed(before: seq<Event>, x: Marked, open: Option<Field>, data: seq<byte>, pos: nat)
    requires Single(x, open, pos) && pos <= |data|
    ensures InRange(x, pos) && Merge(before, Flushed(x, data, pos)) == Total(before, x, open, data, pos)
  {
    hide Flushed;
    FlushedSingle(x, open, data, pos);
    match open
    case None => assert x.events + [] == x.events;
    case Some(f) => MergeOne(before, x.events, Data(f, data[x.marks[f]..pos]));
  }

  /** One byte further, an open field has that byte more. */
  lemma TotalGrows(before: seq<Event>, x: Marked, open: Option<Field>, data: seq<byte>, pos: nat)
    requires Single(x, open, pos) && pos < |data|
    ensures Single(x, open, pos + 1)
    ensures Total(before, x, open, data, pos + 1) ==
            match open
            case None => Total(before, x, open, data, pos)
            case Some(f) => Push(Total(before, x, open, data, pos), Data(f, [data[pos]]))
  {
    hide Push, Merge;
    match open
    case None =>
    case Some(f) =>
      var m := x.marks[f];
      PushTwice(Merge(before, x.events), f, data[m..pos], [data[pos]]);
      assert data[m..pos] + [data[pos]] == data[m..pos + 1];
  }

  /** An action does to the whole buffer what it does to the single byte. */
  lemma ActInStep(before: seq<Event>, x: Marked, data: seq<byte>, pos: nat,
                  out: seq<Event>, y: Marked, open: Option<Field>, a: Act)
    requires pos < |data| && Single(x, open, pos) && Single(y, open, 0) && Clean1(open, a)
    requires Total(before, x, open, data, pos) == Total(out, y, open, [data[pos]], 0)
    ensures InRange(x, pos) && InRange(y, 0)
    ensures Single(Do1(x, data, pos, a), Opens1(open, a), pos)
    ensures Single(Do1(y, [data[pos]], 0, a), Opens1(open, a), 0)
    ensures Total(before, Do1(x, data, pos, a), Opens1(open, a), data, pos)
            == Total(out, Do1(y, [data[pos]], 0, a), Opens1(open, a), [data[pos]], 0)
  {
    hide Push, Merge, Total;
    var one := [data[pos]];
    match a
    case Mark(f) =>
      if open == None {
        MarkTotal(before, x, data, pos, f);
        MarkTotal(out, y, one, 0, f);
      }
    case Flush(f) =>
      if open != None {
        FlushTotal(before, x, f, data, pos, pos);
        FlushTotal(out, y, f, one, 0, 0);
      }
    case FlushIncl(f) =>
      if open != None {
        FlushTotal(before, x, f, data, pos, pos + 1);
        FlushTotal(out, y, f, one, 0, 1);
        TotalGrows(before, x, open, data, pos);
        TotalGrows(out, y, open, one, 0);
      }
    case Note(n) =>
      NoteTotal(before, x, data, pos, n);
      NoteTotal(out, y, one, 0, n);
  }

  lemma MarkTotal(before: seq<Event>, x: Marked, data: seq<byte>, pos: nat, f: Field)
    requires pos < |data| && Single(x, None, pos)
    ensures Single(Do1(x, data, pos, Mark(f)), Some(f), pos)
    ensures Total(before, Do1(x, data, pos, Mark(f)), Some(f), data, pos)
            == Push(Total(before, x, None, data, pos), Data(f, []))
  {
    hide Push, Merge;
    assert data[pos..pos] == [];
  }

  lemma FlushTotal(before: seq<Event>, x: Marked, f: Field, data: seq<byte>, pos: nat, end: nat)
    requires Single(x, Some(f), pos) && pos <= end <= |data|
    ensures InRange(x, end)
    ensures Single(Callback(x, data, f, end), None, pos)
    ensures Single(x, Some(f), end)
    ensures Total(before, Callback(x, data, f, end), None, data, pos) == Total(before, x, Some(f), data, end)
  {
    hide Push;
    var none: map<Field, nat> := map[];
    assert x.marks - {f} == none;
    MergeOne(before, x.events, Data(f, data[x.marks[f]..end]));
  }

  lemma NoteTotal(before: seq<Event>, x: Marked, data: seq<byte>, pos: nat, n: Notice)
    requires pos < |data| && Single(x, None, pos)
    ensures Single(Do1(x, data, pos, Note(n)), None, pos)
    ensures Total(before, Do1(x, data, pos, Note(n)), None, data, pos)
            == Push(Total(before, x, None, data, pos), Happened(n))
  {
    hide Push;
    MergeOne(before, x.events, Happened(n));
  }

  lemma {:induction false} ActsInStep(before: seq<Event>, x: Marked, data: seq<byte>, pos: nat,
                                      out: seq<Event>, y: Marked, open: Option<Field>, acts: seq<Act>)
    requires pos < |data| && Single(x, open, pos) && Single(y, open, 0) && Clean(open, acts)
    requires Total(before, x, open, data, pos) == Total(out, y, open, [data[pos]], 0)
    ensures InRange(x, pos) && InRange(y, 0)
    ensures Single(Do(x, data, pos, acts), Opens(open, acts), pos)
    ensures Single(Do(y, [data[pos]], 0, acts), Opens(open, acts), 0)
    ensures Total(before, Do(x, data, pos, acts), Opens(open, acts), data, pos)
            == Total(out, Do(y, [data[pos]], 0, acts), Opens(open, acts), [data[pos]], 0)
    decreases |acts|
  {
    hide Total, Do1, Single, Clean1, Opens1, InRange;
    SingleInRange(x, open, pos);
    SingleInRange(y, open, 0);
    if acts != [] {
      ActInStep(before, x, data, pos, out, y, open, acts[0]);
      ActsInStep(before, Do1(x, data, pos, acts[0]), data, pos, out, Do1(y, [data[pos]], 0, acts[0]),
                 Opens1(open, acts[0]), acts[1..]);
    }
  }

  // ----- a byte at a time

  /** The mark that is set in a state. */
  function OpenNow(x: Marked, s: State): Option<Field> {
    if OpenOf(s) == None && BodyState(s) && Body in x.marks then Some(Body) else OpenOf(s)
  }

  /** The buffer was read up to pos with marks x, and r is where the bytes one at a
      time lead. */
  ghost predicate InSync(before: seq<Event>, x: Marked, data: seq<byte>, pos: nat, r: Run) {
    pos <= |data| && r.halt == Go
    && Single(x, OpenNow(x, r.p.state), pos)
    && Total(before, x, OpenNow(x, r.p.state), data, pos) == r.out
  }

  lemma EndsOpen(before: seq<Event>, x: Marked, f: Field, data: seq<byte>, pos: nat)
    requires Single(x, Some(f), pos) && pos <= |data|
    ensures EndsIn(Total(before, x, Some(f), data, pos), f)
  {}

  /** Before the byte: a new buffer of one byte would start like this. */
  lemma StartInStep(before: seq<Event>, x: Marked, data: seq<byte>, pos: nat, r: Run)
    requires pos < |data| && InSync(before, x, data, pos, r)
    ensures var y := Marked([], StartMarks(r.p.state));
            Single(y, OpenOf(r.p.state), 0) && Total(r.out, y, OpenOf(r.p.state), [data[pos]], 0) == r.out
  {
    hide Push, BodyState;
    var y := Marked([], StartMarks(r.p.state));
    match OpenOf(r.p.state)
    case None =>
    case Some(f) =>
      EndsOpen(before, x, f, data, pos);
      PushNothing(r.out, f);
      assert [data[pos]][0..0] == [];
  }

  /** The actions of one byte, on the buffer and on the byte alone. */
  lemma DoInStep(before: seq<Event>, x: Marked, data: seq<byte>, pos: nat, r: Run, acts: seq<Act>)
    requires pos < |data| && InSync(before, x, data, pos, r)
    requires Clean(OpenOf(r.p.state), acts)
    requires BodyState(r.p.state) ==> |acts| > 0 && (acts[0] == Mark(Body) || acts[0] == Flush(Body))
    ensures var y := Marked([], StartMarks(r.p.state));
            InRange(x, pos) && InRange(y, 0)
            && Single(Do(x, data, pos, acts), Opens(OpenOf(r.p.state), acts), pos)
            && Single(Do(y, [data[pos]], 0, acts), Opens(OpenOf(r.p.state), acts), 0)
            && Total(before, Do(x, data, pos, acts), Opens(OpenOf(r.p.state), acts), data, pos)
               == Total(r.out, Do(y, [data[pos]], 0, acts), Opens(OpenOf(r.p.state), acts), [data[pos]], 0)
  {
    hide Total, Push, StartMarks, OpenOf, Single, Do1, InRange, Callback;
    var y, open := Marked([], StartMarks(r.p.state)), OpenOf(r.p.state);
    StartInStep(before, x, data, pos, r);
    SingleInRange(x, OpenNow(x, r.p.state), pos);
    SingleInRange(y, open, 0);
    if OpenNow(x, r.p.state) == open {
      ActsInStep(before, x, data, pos, r.out, y, open, acts);
    } else {
      LateBody(before, x, data, pos, r.out, y, acts[0]);
      ActsInStep(before, Do1(x, data, pos, acts[0]), data, pos, r.out, Do1(y, [data[pos]], 0, acts[0]),
                 Opens1(open, acts[0]), acts[1..]);
    }
  }

  /** The body's mark is set in the buffer and not for the byte alone; after the
      first action both agree. */
  lemma LateBody(before: seq<Event>, x: Marked, data: seq<byte>, pos: nat, out: seq<Event>, y: Marked, a: Act)
    requires pos < |data| && Single(x, Some(Body), pos) && Single(y, None, 0)
    requires Total(before, x, Some(Body), data, pos) == out == Total(out, y, None, [data[pos]], 0)
    requires a == Mark(Body) || a == Flush(Body)
    ensures InRange(x, pos) && InRange(y, 0)
    ensures Single(Do1(x, data, pos, a), Opens1(None, a), pos)
    ensures Single(Do1(y, [data[pos]], 0, a), Opens1(None, a), 0)
    ensures Total(before, Do1(x, data, pos, a), Opens1(None, a), data, pos)
            == Total(out, Do1(y, [data[pos]], 0, a), Opens1(None, a), [data[pos]], 0)
  {
    hide Push, Merge, Total;
    EndsOpen(before, x, Body, data, pos);
    PushNothing(out, Body);
    if a == Mark(Body) {
      MarkTotal(out, y, [data[pos]], 0, Body);
    } else {
      FlushTotal(before, x, Body, data, pos, pos);
    }
  }

  /** After the byte: the marks agree with the next state, and both readings come
      to the same callbacks. */
  lemma ByteInStep(cfg: Config, before: seq<Event>, x: Marked, data: seq<byte>, pos: nat, r: Run)
    requires pos < |data| && InSync(before, x, data, pos, r)
    requires !Feed(cfg, r.p, data[pos]).halt.Fail?
    ensures InRange(x, pos)
    ensures var res, y := Feed(cfg, r.p, data[pos]), Do(x, data, pos, Feed(cfg, r.p, data[pos]).acts);
            One(cfg, r, data[pos]).p == res.p && One(cfg, r, data[pos]).halt == res.halt
            && (res.halt == Go ==> InSync(before, y, data, pos + 1, One(cfg, r, data[pos])))
            && (res.halt == Exit ==> y.marks == map[] && Merge(before, y.events) == One(cfg, r, data[pos]).out)
  {
    hide Feed, Total, Single, Do, Push, Merge, OpenOf, StartMarks, Flushed, InRange, Clean, Opens, BodyState, Agrees;
    var res := Feed(cfg, r.p, data[pos]);
    FeedTidy(cfg, r.p, data[pos]);
    if BodyState(r.p.state) {
      BodyActs(cfg, r.p, data[pos]);
    }
    SingleInRange(x, OpenNow(x, r.p.state), pos);
    DoInStep(before, x, data, pos, r, res.acts);
    AfterByte(before, x, data, pos, r, res);
  }

  lemma AfterByte(before: seq<Event>, x: Marked, data: seq<byte>, pos: nat, r: Run, res: Res)
    requires pos < |data| && InRange(x, pos) && Tidy(OpenOf(r.p.state), res) && !res.halt.Fail?
    requires InRange(Marked([], StartMarks(r.p.state)), 0)
    requires var y := Do(Marked([], StartMarks(r.p.state)), [data[pos]], 0, res.acts);
             var z, open := Do(x, data, pos, res.acts), Opens(OpenOf(r.p.state), res.acts);
             Single(z, open, pos) && Single(y, open, 0)
             && Total(before, z, open, data, pos) == Total(r.out, y, open, [data[pos]], 0)
    ensures var y := Do(Marked([], StartMarks(r.p.state)), [data[pos]], 0, res.acts);
            var z := Do(x, data, pos, res.acts);
            InRange(y, 1) && var out := Merge(r.out, Flushed(y, [data[pos]], 1));
            (res.halt == Go ==> InSync(before, z, data, pos + 1, Run(res.p, out, Go)))
            && (res.halt == Exit ==> z.marks == map[] && Merge(before, z.events) == out)
  {
    hide Total, Do, Push, Merge, OpenOf, StartMarks, Flushed, InRange, Clean, Opens;
    var y := Do(Marked([], StartMarks(r.p.state)), [data[pos]], 0, res.acts);
    var z, open := Do(x, data, pos, res.acts), Opens(OpenOf(r.p.state), res.acts);
    TotalGrows(before, z, open, data, pos);
    TotalGrows(r.out, y, open, [data[pos]], 0);
    TotalIsFlushed(r.out, y, open, [data[pos]], 1);
    if res.halt == Go {
      assert OpenNow(z, res.p.state) == open;
    } else {
      TotalOfNone(before, z, data, pos);
    }
  }

  lemma TotalOfNone(before: seq<Event>, x: Marked, data: seq<byte>, pos: nat)
    requires Single(x, None, pos) && pos <= |data|
    ensures Total(before, x, None, data, pos) == Merge(before, x.events)
  {}
}
