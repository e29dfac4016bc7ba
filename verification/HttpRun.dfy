/** http_parser: marks, data callbacks and the reference semantics, in which the
    bytes arrive one at a time. */
module HttpRun {
  import opened Wrappers
  import opened HttpStep

  datatype Event = Data(f: Field, bytes: seq<byte>) | Happened(n: Notice)

  predicate EndsIn(out: seq<Event>, f: Field) {
    |out| > 0 && out[|out| - 1].Data? && out[|out| - 1].f == f
  }

  /** One more callback, adjacent data callbacks of one field concatenated. */
  function Push(out: seq<Event>, e: Event): seq<Event> {
    if e.Data? && EndsIn(out, e.f) then out[..|out| - 1] + [Data(e.f, out[|out| - 1].bytes + e.bytes)]
    else out + [e]
  }

  function Merge(out: seq<Event>, events: seq<Event>): seq<Event> {
    if events == [] then out else Push(Merge(out, events[..|events| - 1]), events[|events| - 1])
  }

  lemma {:induction false} MergeConcat(out: seq<Event>, a: seq<Event>, b: seq<Event>)
    ensures Merge(out, a + b) == Merge(Merge(out, a), b)
  {
    if b == [] {
      assert a + b == a;
    } else {
      assert (a + b)[..|a + b| - 1] == a + b[..|b| - 1];
      MergeConcat(out, a, b[..|b| - 1]);
    }
  }

  lemma MergeOne(out: seq<Event>, a: seq<Event>, e: Event)
    ensures Merge(out, a + [e]) == Push(Merge(out, a), e)
  {
    assert (a + [e])[..|a|] == a;
  }

  lemma PushTwice(out: seq<Event>, f: Field, a: seq<byte>, b: seq<byte>)
    ensures Push(Push(out, Data(f, a)), Data(f, b)) == Push(out, Data(f, a + b))
  {
    if EndsIn(out, f) {
      assert out[|out| - 1].bytes + (a + b) == (out[|out| - 1].bytes + a) + b;
    }
  }

  lemma PushNothing(out: seq<Event>, f: Field)
    requires EndsIn(out, f)
    ensures Push(out, Data(f, [])) == out
  {
    assert out[|out| - 1].bytes + [] == out[|out| - 1].bytes;
  }

  // ----- marks into the current buffer

  /** The callbacks made during a call, and the marks that are set. */
  datatype Marked = Marked(events: seq<Event>, marks: map<Field, nat>)

  predicate InRange(x: Marked, pos: nat) {
    forall f :: f in x.marks ==> x.marks[f] <= pos
  }

  /** CALLBACK_DATA_ */
  function Callback(x: Marked, data: seq<byte>, f: Field, end: nat): (y: Marked)
    requires InRange(x, end) && end <= |data|
    ensures InRange(y, end) && y.marks == x.marks - {f}
  {
    if f in x.marks then Marked(x.events + [Data(f, data[x.marks[f]..end])], x.marks - {f}) else x
  }

  function Do1(x: Marked, data: seq<byte>, pos: nat, a: Act): (y: Marked)
    requires InRange(x, pos) && pos < |data|
    ensures InRange(y, pos)
  {
    match a
    case Mark(f) => if f in x.marks then x else x.(marks := x.marks[f := pos])
    case Flush(f) => Callback(x, data, f, pos)
    case FlushIncl(f) => Callback(x, data, f, pos + 1)
    case Note(n) => x.(events := x.events + [Happened(n)])
  }

  function Do(x: Marked, data: seq<byte>, pos: nat, acts: seq<Act>): (y: Marked)
    requires InRange(x, pos) && pos < |data|
    ensures InRange(y, pos)
    decreases |acts|
  {
    if acts == [] then x else Do(Do1(x, data, pos, acts[0]), data, pos, acts[1..])
  }

  /** The callbacks for the marks left over at the end of the buffer. */
  function Flushed(x: Marked, data: seq<byte>, end: nat): seq<Event>
    requires InRange(x, end) && end <= |data|
  {
    var a := Callback(x, data, HField, end);
    var b := Callback(a, data, HValue, end);
    var c := Callback(b, data, Url, end);
    var d := Callback(c, data, Body, end);
    Callback(d, data, Status, end).events
  }

  lemma FlushedNone(x: Marked, data: seq<byte>, end: nat)
    requires x.marks == map[] && end <= |data|
    ensures Flushed(x, data, end) == x.events
  {}

  lemma FlushedOne(x: Marked, f: Field, m: nat, data: seq<byte>, end: nat)
    requires x.marks == map[f := m] && m <= end <= |data|
    ensures Flushed(x, data, end) == x.events + [Data(f, data[m..end])]
  {
    var none: map<Field, nat> := map[];
    assert x.marks - {f} == none;
    assert forall g :: g != f ==> x.marks - {g} == x.marks;
    assert forall g :: none - {g} == none;
  }

  // ----- which field the bytes of a state belong to

  /** The mark that a call sets at its start. */
  function OpenOf(s: State): Option<Field> {
    match s
    case HeaderField => Some(HField)
    case HeaderValue => Some(HValue)
    case ReqPath | ReqSchema | ReqSchemaSlash | ReqSchemaSlashSlash | ReqServerStart | ReqServer | ReqServerWithAt
      | ReqQueryStringStart | ReqQueryString | ReqFragmentStart | ReqFragment => Some(Url)
    case ResStatus => Some(Status)
    case _ => None
  }

  function StartMarks(s: State): map<Field, nat> {
    match OpenOf(s)
    case None => map[]
    case Some(f) => map[f := 0]
  }

  predicate BodyState(s: State) {
    s.ChunkData? || s.ChunkDataAlmostDone? || s.BodyIdentity? || s.BodyIdentityEof?
  }

  /** The mark that actions leave set. */
  function Opens(open: Option<Field>, acts: seq<Act>): Option<Field>
    decreases |acts|
  {
    if acts == [] then open else Opens(Opens1(open, acts[0]), acts[1..])
  }

  function Opens1(open: Option<Field>, a: Act): Option<Field> {
    match a
    case Mark(f) => Some(f)
    case Flush(f) => if open == Some(f) then None else open
    case FlushIncl(f) => if open == Some(f) then None else open
    case Note(_) => open
  }

  /** No action meets the mark of another field. */
  predicate Clean1(open: Option<Field>, a: Act) {
    match a
    case Mark(f) => open == None || open == Some(f)
    case Flush(f) => open == None || open == Some(f)
    case FlushIncl(f) => open == None || open == Some(f)
    case Note(_) => open == None
  }

  predicate Clean(open: Option<Field>, acts: seq<Act>)
    decreases |acts|
  {
    acts == [] || (Clean1(open, acts[0]) && Clean(Opens1(open, acts[0]), acts[1..]))
  }

  /** A mark that may be set in a state: its own field's, or, once a byte of the
      body was read, the body's. */
  predicate Agrees(open: Option<Field>, s: State) {
    match OpenOf(s)
    case Some(f) => open == Some(f)
    case None => open == None || (open == Some(Body) && BodyState(s))
  }

  predicate Tidy(open: Option<Field>, r: Res) {
    r.halt.Fail?
    || (Clean(open, r.acts)
        && Agrees(Opens(open, r.acts), r.p.state) && (r.halt.Exit? ==> Opens(open, r.acts) == None))
  }

  // ----- bytes one at a time

  datatype Run = Run(p: Parser, out: seq<Event>, halt: Halt)

  /** A call with a buffer of one byte. */
  function One(cfg: Config, r: Run, ch: byte): Run {
    if r.halt != Go then r
    else
      var res := Feed(cfg, r.p, ch);
      if res.halt.Fail? then Run(res.p, r.out, res.halt)
      else
        var x := Do(Marked([], StartMarks(r.p.state)), [ch], 0, res.acts);
        Run(res.p, Merge(r.out, Flushed(x, [ch], 1)), res.halt)
  }

  function RunBytes(cfg: Config, r: Run, bytes: seq<byte>): Run {
    if bytes == [] then r else One(cfg, RunBytes(cfg, r, bytes[..|bytes| - 1]), bytes[|bytes| - 1])
  }

  lemma {:induction false} RunConcat(cfg: Config, r: Run, a: seq<byte>, b: seq<byte>)
    ensures RunBytes(cfg, r, a + b) == RunBytes(cfg, RunBytes(cfg, r, a), b)
  {
    hide One;
    if b == [] {
      assert a + b == a;
    } else {
      assert (a + b)[..|a + b| - 1] == a + b[..|b| - 1];
      RunConcat(cfg, r, a, b[..|b| - 1]);
    }
  }

  lemma {:induction false} HaltSticks(cfg: Config, r: Run, a: seq<byte>)
    requires r.halt != Go
    ensures RunBytes(cfg, r, a) == r
  {
    hide Feed;
    if a != [] {
      HaltSticks(cfg, r, a[..|a| - 1]);
    }
  }

  lemma RunOneMore(cfg: Config, r: Run, data: seq<byte>, from: nat, i: nat)
    requires from <= i < |data|
    ensures RunBytes(cfg, r, data[from..i + 1]) == One(cfg, RunBytes(cfg, r, data[from..i]), data[i])
  {
    hide One;
    assert data[from..i + 1][..i - from] == data[from..i];
  }
}
