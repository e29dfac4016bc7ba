/** The two ends of the transfer as the programs run them: the server's request
    handler with its jumps, and the client's receive loop. */
module RudpEndpoints {
  import opened RudpProtocol
  import opened RudpSafety
  import opened RudpSeals
  import opened RudpDamage

  // ----- what each end may rely on

  /** The server has sent what the file asks for, its client has accepted `acc` of
      these packets, and p is one of that client's. */
  ghost predicate Expected(x: Session, s: Server, acc: nat, p: Packet) {
    && NumChunks(x.file) <= MAX_CHUNKS
    && ServerOk(x, s) && acc <= |s.mys| <= acc + 1 && acc <= NumChunks(x.file) + 1
    && IsClientPacket(x, acc, p)
  }

  /** What the client has accepted, the number it waits for and the packet it
      sends next fit together. */
  ghost predicate InOrder(x: Session, c: Client) {
    && GotInOrder(x, c.got)
    && c.track == (|c.got| + 1) % U16
    && IsClientPacket(x, |c.got|, c.mine)
  }

  ghost predicate FromServer(x: Session, p: Packet) {
    exists j :: 0 <= j <= NumChunks(x.file) + 1 && IsServerPacket(x, j, p)
  }

  /** The confirmation of the end does not come before everything is accepted. */
  ghost predicate NotEarly(x: Session, c: Client, p: Packet) {
    HasFlags(p, ACK_FIN) ==> |c.got| == NumChunks(x.file) + 1
  }

  /** What has been written out is the file, as far as it goes. */
  ghost predicate WritesPrefix(file: seq<byte>, got: seq<Packet>) {
    && |Written(got)| == |got| * MSG_SIZ
    && forall i :: 0 <= i < |file| && i < |Written(got)| ==> Written(got)[i] == file[i]
  }

  ghost predicate WritesWhole(file: seq<byte>, got: seq<Packet>) {
    |file| <= |Written(got)| && Written(got)[..|file|] == file
  }

  lemma InOrderWrites(x: Session, got: seq<Packet>)
    requires GotInOrder(x, got)
    ensures WritesPrefix(x.file, got)
    ensures |got| >= NumChunks(x.file) ==> WritesWhole(x.file, got)
  {
    hide GotInOrder;
    WrittenIsFile(x, got, |got|);
    assert got[..|got|] == got;
  }

  /** RState_t of one port, without the client's packets. */
  class RState {
    var mys: seq<Packet>
    var ack: nat
    var seq_: nat
    var chksum: bool
    var active: bool

    ghost function View(): Server
      reads this
    {
      Server(mys, ack, seq_, chksum, active)
    }

    constructor ()
      ensures View() == Server([], 0, 1, false, true)
    {
      mys, ack, seq_, chksum, active := [], 0, 1, false, true;
    }

    /** rhead_append, then the flags and the message of the new packet. */
    method Push(flags: Flags, ackn: nat, msg: seq<byte>)
      modifies this`mys, this`ack, this`seq_
      ensures View() == Pushed(old(View()), Fresh(old(mys)).(flags := flags, ackn := ackn, msg := msg))
    {
      mys := mys + [Fresh(mys).(flags := flags, ackn := ackn, msg := msg)];
      ack := Inc(ack);
      seq_ := Inc(seq_);
    }

    /** Label SND_PKT. */
    method SndPkt(chk: seq<byte> -> nat) returns (v: Verdict)
      modifies this`mys
      ensures (View(), v) == SndReply(chk, old(View()))
    {
      if mys == [] {
        return Worse;
      }
      var curr := mys[|mys| - 1];
      if chksum && !(curr.flags.chk && Versioned(curr)) {
        mys := mys[..|mys| - 1] + [Sealed(chk, curr)];
      }
      return Reply;
    }

    /** Label INVALID_NAK. */
    method OnInvalid(chk: seq<byte> -> nat, hdr: Packet) returns (v: Verdict)
      modifies this`mys
      ensures (View(), v) == InvalidNak(chk, old(View()), hdr)
    {
      if hdr.flags.nak && Versioned(hdr) {
        v := SndPkt(chk);
      } else if mys == [] {
        v := Worse;
      } else {
        v := Bad;
      }
    }

    /** rprocess_request. The server stays the one the file asks for, moves on only
        when the client has accepted all it sent, seals what it sends, and never
        changes a packet it has sent. */
    method ProcessRequest(file: seq<byte>, chk: seq<byte> -> nat, found: bool, request: Packet) returns (v: Verdict)
      modifies this
      ensures (View(), v) == Process(file, chk, found, old(View()), request)
      ensures forall acc :: Expected(Session(file, chk), old(View()), acc, request) ==>
                ServerMoved(Session(file, chk), old(View()), acc, View())
      ensures AllSealed(chk, old(View())) ==> AllSealed(chk, View()) && old(mys) <= mys
      ensures v.Reply? ==> mys != []
      ensures v.Bad? ==> View() == old(View())
      ensures old(mys) != [] && old(chksum) && AllSealed(chk, old(View())) && Damaged(chk, request) ==>
                View() == old(View())
    {
      v := Decide(file, chk, found, request);
      hide *;
      forall acc | Expected(Session(file, chk), old(View()), acc, request)
        ensures ServerMoved(Session(file, chk), old(View()), acc, View())
      {
        RequestMoves(Session(file, chk), old(View()), acc, request, found);
      }
      if old(AllSealed(chk, View())) {
        ProcessSeals(file, chk, found, old(View()), request);
        assert View().mys == mys && old(View().mys) == old(mys);
      }
      ReplyHasPacket(file, chk, found, old(View()), request);
      BadChangesNothing(file, chk, found, old(View()), request);
      if old(mys) != [] && old(chksum) && old(AllSealed(chk, View())) && Damaged(chk, request) {
        assert old(View().mys) == old(mys) && old(View().chksum) == old(chksum);
        ServerIgnores(file, chk, found, old(View()), request);
      }
    }

    /** The checks of a request, up to the dispatch on the kind of packet. */
    method Decide(file: seq<byte>, chk: seq<byte> -> nat, found: bool, request: Packet) returns (v: Verdict)
      modifies this
      ensures (View(), v) == Process(file, chk, found, old(View()), request)
    {
      hide Dispatch, InvalidNak;
      var hdr := request;
      if !Confirmed(hdr) {
        v := OnInvalid(chk, hdr);
        return;
      }
      if mys != [] && hdr.msg != EMPTY {
        return Bad;
      }
      if hdr.flags.chk || chksum {
        if mys == [] {
          chksum := true;
          if !ValidChksum(chk, hdr) {
            return Worse;
          }
        } else if !hdr.flags.chk || !ClientChksum(chk, hdr) {
          return Bad;
        }
        hdr := hdr.(flags := hdr.flags.(chk := false));
      }
      if mys != [] {
        if !hdr.flags.nak && !(hdr.seqn == seq_ && hdr.ackn == ack) {
          return Reply;
        }
      } else if !(hdr.seqn == 1 && hdr.ackn == 0) {
        return Refuse;
      }
      if hdr.flags.nak && mys != [] {
        if ack == hdr.ackn {
          seq_ := Inc(seq_);
          return Reply;
        }
        v := OnInvalid(chk, hdr);
        return;
      }
      v := Handle(file, chk, found, hdr);
    }

    /** The three kinds of packet that move the transfer on. */
    method Handle(file: seq<byte>, chk: seq<byte> -> nat, found: bool, hdr: Packet) returns (v: Verdict)
      modifies this
      ensures (View(), v) == Dispatch(file, chk, found, old(View()), hdr)
    {
      if hdr.flags == GET && mys == [] {
        if !found {
          return Refuse;
        }
        Push(DAT, 0, Payload(file, 0));
        v := SndPkt(chk);
      } else if hdr.flags == ACK_DAT && mys != [] {
        if !found {
          return Refuse;
        }
        if Chunk(file, ack) == [] {
          Push(FIN, 0, EMPTY);
        } else {
          Push(DAT, 0, Payload(file, ack));
        }
        v := SndPkt(chk);
      } else if hdr.flags == ACK_FIN && mys != []
             && (mys[|mys| - 1].flags == FIN || mys[|mys| - 1].flags == FIN.(chk := true)) {
        Push(ACK_FIN, seq_, EMPTY);
        v := SndPkt(chk);
        v := Refuse;
      } else {
        v := OnInvalid(chk, hdr);
      }
    }
  }

  lemma RequestMoves(x: Session, s: Server, acc: nat, p: Packet, found: bool)
    requires Expected(x, s, acc, p)
    ensures ServerMoved(x, s, acc, Process(x.file, x.chk, found, s, p).0)
  {
    hide ServerOk, IsClientPacket, Process, NumChunks;
    ProcessKeeps(x, s, acc, p, found);
  }

  lemma ReplyHasPacket(file: seq<byte>, chk: seq<byte> -> nat, found: bool, s: Server, p: Packet)
    ensures var (r, v) := Process(file, chk, found, s, p);
            v.Reply? ==> r.mys != []
  {
    hide Payload, Chunk, Fresh, ValidChksum;
  }

  // ----- the client's loop

  /** The client after a whole input: rounds until it stops. */
  function ReceiveAll(chk: seq<byte> -> nat, c: Client, input: seq<(Packet, bool)>): Client {
    if input == [] then c
    else
      var c' := ReceiveAll(chk, c, input[..|input| - 1]);
      var (p, coin) := input[|input| - 1];
      if c'.stopped then c' else Receive(chk, coin, c', p)
  }

  /** Any packet of the server, whenever it comes, extends what was accepted by the
      next packet or not at all; the client stops only on the confirmation. */
  lemma ReceiveInOrder(x: Session, m: bool, c: Client, r: Packet)
    requires NumChunks(x.file) <= MAX_CHUNKS && InOrder(x, c) && FromServer(x, r) && !c.stopped
    ensures var d := Receive(x.chk, m, c, r);
            && InOrder(x, d)
            && c.got <= d.got && |d.got| <= |c.got| + 1
            && (d.stopped && NotEarly(x, c, r) ==> |d.got| == NumChunks(x.file) + 1)
  {
    hide NumChunks, Payload, GotInOrder, IsServerPacket, IsClientPacket, ValidChksum;
    var p := r.(flags := r.flags.(chk := false));
    var j :| 0 <= j <= NumChunks(x.file) + 1 && IsServerPacket(x, j, r);
    NakAllowed(x, c, c.misbehaved);
    NakAllowed(x, c, true);
    assert c.(misbehaved := c.misbehaved) == c;
    if p.seqn == c.track && (p.flags == FIN || p.flags == DAT) {
      AcceptInOrder(x, c, r, j);
    }
  }

  lemma NakAllowed(x: Session, c: Client, m: bool)
    requires InOrder(x, c)
    ensures InOrder(x, Nak(x.chk, c.(misbehaved := m)))
  {
    hide NumChunks, GotInOrder;
  }

  lemma AcceptInOrder(x: Session, c: Client, r: Packet, j: nat)
    requires NumChunks(x.file) <= MAX_CHUNKS && InOrder(x, c) && IsServerPacket(x, j, r)
    requires r.seqn == c.track && (HasFlags(r, DAT) || HasFlags(r, FIN))
    ensures var p := r.(flags := r.flags.(chk := false));
            InOrder(x, Accept(x.chk, c, p, if p.flags == FIN then ACK_FIN else ACK_DAT))
  {
    hide NumChunks, Payload;
    assert j <= NumChunks(x.file);
    assert j == |c.got|;
  }

  /** Every packet of the input is the server's. */
  ghost predicate AllFromServer(x: Session, input: seq<(Packet, bool)>) {
    forall i :: 0 <= i < |input| ==> FromServer(x, input[i].0)
  }

  /** No confirmation of the end arrives too early for the client as it then is. */
  ghost predicate EndsLast(x: Session, c: Client, input: seq<(Packet, bool)>) {
    forall i :: 0 <= i < |input| ==> NotEarly(x, ReceiveAll(x.chk, c, input[..i]), input[i].0)
  }

  ghost predicate StopsWhole(x: Session, c: Client) {
    c.stopped ==> |c.got| == NumChunks(x.file) + 1
  }

  /** Whatever packets of the server arrive, lost, repeated and in any order, the
      client accepts the first packets of the file in order. If none confirms the
      end too early, it stops only with all of them. */
  lemma {:induction false} ReceiveAllInOrder(x: Session, c: Client, input: seq<(Packet, bool)>)
    requires NumChunks(x.file) <= MAX_CHUNKS && InOrder(x, c) && AllFromServer(x, input)
    ensures var d := ReceiveAll(x.chk, c, input);
            && InOrder(x, d) && c.got <= d.got
            && (StopsWhole(x, c) && EndsLast(x, c, input) ==> StopsWhole(x, d))
  {
    hide NumChunks, InOrder, FromServer, NotEarly, Receive;
    if input != [] {
      var k := |input| - 1;
      var d := ReceiveAll(x.chk, c, input[..k]);
      ReceiveAllInOrder(x, c, input[..k]);
      assert EndsLast(x, c, input) ==> EndsLast(x, c, input[..k]) && NotEarly(x, d, input[k].0) by {
        EndsLastPart(x, c, input);
      }
      if !d.stopped {
        ReceiveInOrder(x, input[k].1, d, input[k].0);
      }
    }
  }

  lemma EndsLastPart(x: Session, c: Client, input: seq<(Packet, bool)>)
    requires input != []
    ensures var k := |input| - 1;
            EndsLast(x, c, input) ==>
              EndsLast(x, c, input[..k]) && NotEarly(x, ReceiveAll(x.chk, c, input[..k]), input[k].0)
  {
    hide NotEarly, ReceiveAll;
    var k := |input| - 1;
    assert forall i :: 0 <= i < k ==> input[..k][..i] == input[..i];
  }

  /** Without that condition the client can stop with nothing: the confirmation
      arrives first and names the client's current packet. */
  lemma EarlyConfirmationStops(x: Session, c: Client)
    requires !c.stopped && !c.chksum && c.track <= 1
    ensures var p := Packet((NumChunks(x.file) + 2) % U16, c.mine.seqn, 0, ACK_FIN, EMPTY);
            FromServer(x, p) && Receive(x.chk, false, c, p) == c.(stopped := true)
  {
    var n := NumChunks(x.file);
    var p := Packet((n + 2) % U16, c.mine.seqn, 0, ACK_FIN, EMPTY);
    assert IsServerPacket(x, n + 1, p);
  }

  /** In every run of both ends, the packets on their way meet the conditions. */
  lemma RunsAreTimely(x: Session, ys: seq<System>, acts: seq<Action>, i: nat, p: Packet)
    requires NumChunks(x.file) <= MAX_CHUNKS && IsRun(x, ys, acts) && i < |ys| && p in ys[i].toClient
    ensures InOrder(x, ys[i].client) && FromServer(x, p) && NotEarly(x, ys[i].client, p)
  {
    EveryRunKeepsInv(x, ys, acts, i);
    hide NumChunks, Payload, IsClientPacket;
  }

  ghost predicate Handles(x: Session, c: Client, p: Packet) {
    NumChunks(x.file) <= MAX_CHUNKS && InOrder(x, c) && FromServer(x, p) && !c.stopped
  }

  /** What a packet of the server does to the client. */
  ghost predicate Handled(x: Session, c: Client, p: Packet, d: Client) {
    && InOrder(x, d)
    && c.got <= d.got && |d.got| <= |c.got| + 1
    && (d.stopped && NotEarly(x, c, p) ==> WritesWhole(x.file, d.got))
  }

  lemma HandlesMeans(x: Session, m: bool, c: Client, p: Packet)
    requires Handles(x, c, p)
    ensures Handled(x, c, p, Receive(x.chk, m, c, p))
  {
    hide FromServer, NotEarly, Receive, WritesWhole, WritesPrefix;
    ReceiveInOrder(x, m, c, p);
    InOrderWrites(x, Receive(x.chk, m, c, p).got);
  }

  ghost predicate Fed(x: Session, c: Client, input: seq<(Packet, bool)>) {
    NumChunks(x.file) <= MAX_CHUNKS && InOrder(x, c) && AllFromServer(x, input)
  }

  lemma FedMeans(x: Session, c: Client, input: seq<(Packet, bool)>)
    requires Fed(x, c, input)
    ensures var d := ReceiveAll(x.chk, c, input);
            && InOrder(x, d) && c.got <= d.got && WritesPrefix(x.file, d.got)
            && (EndsLast(x, c, input) && !c.stopped && d.stopped ==> WritesWhole(x.file, d.got))
  {
    hide AllFromServer, EndsLast, ReceiveAll, WritesWhole, WritesPrefix;
    ReceiveAllInOrder(x, c, input);
    InOrderWrites(x, ReceiveAll(x.chk, c, input).got);
  }

  /** The variables of the client's main loop. */
  class RClient {
    var mine: Packet
    var track: nat
    var got: seq<Packet>
    var chksum: bool
    var misbehaved: bool
    var stopped: bool

    ghost function View(): Client
      reads this
    {
      Client(mine, track, got, chksum, misbehaved, stopped)
    }

    constructor (chk: seq<byte> -> nat, name: seq<byte>, useChksum: bool)
      ensures track == 1 && got == [] && chksum == useChksum && !misbehaved && !stopped
      ensures mine.seqn == 1 && mine.ackn == 0 && mine.msg == name
      ensures mine.flags == if useChksum then GET.(chk := true) else GET
      ensures forall file :: InOrder(Session(file, chk), View())
    {
      var e := Packet(1, 0, 0, GET, name);
      mine := if useChksum then Sealed(chk, e) else e;
      track, got, chksum, misbehaved, stopped := 1, [], useChksum, false, false;
    }

    /** rhead_append, the flags, and the checksum that the loop adds on sending. */
    method NewMine(chk: seq<byte> -> nat, flags: Flags)
      modifies this`mine
      ensures mine == Answer(chk, old(View()), flags)
    {
      mine := Packet(Inc(mine.seqn), track, 0, flags, EMPTY);
      if chksum {
        mine := Sealed(chk, mine);
      }
    }

    /** One round of the loop. For any packet of the server of any file, the client
        accepts the file's next packet or none, and its answer is one that the
        server expects. */
    method Round(chk: seq<byte> -> nat, misbehave: bool, received: Packet)
      modifies this
      ensures View() == Receive(chk, misbehave, old(View()), received)
      ensures forall file :: Handles(Session(file, chk), old(View()), received) ==>
                Handled(Session(file, chk), old(View()), received, View())
      ensures old(chksum) && Damaged(chk, received) ==>
                got == old(got) && track == old(track) && stopped == old(stopped)
                && mine.flags.nak && mine.ackn == track
    {
      Take(chk, misbehave, received);
      hide *;
      if old(chksum) && Damaged(chk, received) {
        assert old(View().chksum) == old(chksum) && View().got == got && old(View().got) == old(got);
        assert View().track == track && old(View().track) == old(track);
        assert View().stopped == stopped && old(View().stopped) == old(stopped) && View().mine == mine;
        ClientIgnores(chk, misbehave, old(View()), received);
      }
      forall file | Handles(Session(file, chk), old(View()), received)
        ensures Handled(Session(file, chk), old(View()), received, View())
      {
        HandlesMeans(Session(file, chk), misbehave, old(View()), received);
      }
    }

    /** What the loop does with a received packet. */
    method Take(chk: seq<byte> -> nat, misbehave: bool, received: Packet)
      modifies this
      ensures View() == Receive(chk, misbehave, old(View()), received)
    {
      var nak := false;
      var his := received;
      if chksum && !ValidChksum(chk, his) {
        nak := true;
      } else {
        his := his.(flags := his.flags.(chk := false));
        if !(his.flags.fin && Versioned(his)) && misbehave && track > 1 {
          misbehaved := true;
          nak := true;
        }
      }
      if !nak && his.flags == ACK_FIN && his.ackn == mine.seqn {
        stopped := true;
        return;
      }
      var append := true;
      if !nak && his.flags == FIN && his.seqn == track {
        NewMine(chk, ACK_FIN);
      } else if !nak && his.flags == DAT && his.seqn == track {
        NewMine(chk, ACK_DAT);
      } else {
        NewMine(chk, if misbehaved then DAT_NAK else NONE.(nak := true));
        append := false;
      }
      if append {
        got := got + [his];
        track := Inc(track);
      }
    }

    /** The loop, on the packets that arrive and the coins that fall: what is
        written out is the file as far as it goes, and all of it once the loop has
        ended. */
    method Run(ghost file: seq<byte>, chk: seq<byte> -> nat, input: seq<(Packet, bool)>)
      modifies this
      ensures View() == ReceiveAll(chk, old(View()), input)
      ensures Fed(Session(file, chk), old(View()), input) ==>
                && InOrder(Session(file, chk), View()) && old(got) <= got
                && WritesPrefix(file, got)
      ensures Fed(Session(file, chk), old(View()), input) && EndsLast(Session(file, chk), old(View()), input) ==>
                !old(stopped) && stopped ==> WritesWhole(file, got)
    {
      Loop(chk, input);
      hide *;
      if Fed(Session(file, chk), old(View()), input) {
        FedMeans(Session(file, chk), old(View()), input);
        assert View().got == got && View().stopped == stopped;
      }
    }

    method Loop(chk: seq<byte> -> nat, input: seq<(Packet, bool)>)
      modifies this
      ensures View() == ReceiveAll(chk, old(View()), input)
    {
      hide Receive, Handles, Handled;
      var i := 0;
      while i < |input|
        invariant i <= |input|
        invariant View() == ReceiveAll(chk, old(View()), input[..i])
      {
        assert input[..i + 1][..i] == input[..i];
        if !stopped {
          Round(chk, input[i].1, input[i].0);
        }
        i := i + 1;
      }
      assert input[..|input|] == input;
    }
  }
}
