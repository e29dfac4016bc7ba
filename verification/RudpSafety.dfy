/** Runs of the file transfer over a network that loses, duplicates, delays and
    reorders packets, for one session. */
module RudpSafety {
  import opened RudpProtocol

  /** Everything the client and the server ever sent stays available for
      delivery: a packet may arrive any number of times, late, or never. */
  datatype System = System(server: Server, client: Client, toServer: set<Packet>, toClient: set<Packet>)

  /** What stays fixed in a session. */
  datatype Session = Session(file: seq<byte>, chk: seq<byte> -> nat)

  datatype Action =
    | ClientSends
    | ServerGets(p: Packet, found: bool)
    | Retransmit
    | ClientGets(p: Packet, misbehave: bool)

  ghost predicate Start(x: Session, y: System) {
    && y.server == Server([], 0, 1, false, true)
    && y.client.got == [] && y.client.track == 1 && !y.client.stopped && !y.client.misbehaved
    && y.client.mine.seqn == 1 && y.client.mine.ackn == 0
    && y.client.mine.flags == (if y.client.chksum then GET.(chk := true) else GET)
    && y.toServer == {} && y.toClient == {}
  }

  ghost predicate Enabled(y: System, a: Action) {
    match a
    case ClientSends => !y.client.stopped
    case ServerGets(p, _) => p in y.toServer
    case Retransmit => y.server.mys != [] && y.server.active
    case ClientGets(p, _) => p in y.toClient && !y.client.stopped
  }

  /** csock_send: the current packet goes out; FIN|ACK ends the session. */
  function Send(y: System): System
    requires y.server.mys != []
  {
    var p := y.server.mys[|y.server.mys| - 1];
    if !y.server.active then y
    else y.(toClient := y.toClient + {p},
            server := y.server.(active := !(p.flags == ACK_FIN || p.flags == ACK_FIN.(chk := true))))
  }

  /** rhandle_port for one packet. */
  function Serve(x: Session, y: System, p: Packet, found: bool): System {
    var (s, v) := Process(x.file, x.chk, found, y.server, p);
    match v
    case Bad => y.(server := s)
    case Worse => y.(server := s.(active := false))
    case _ => if s.mys == [] then y.(server := s.(active := false)) else Send(y.(server := s))
  }

  function Next(x: Session, y: System, a: Action): System
    requires Enabled(y, a)
  {
    match a
    case ClientSends => y.(toServer := y.toServer + {y.client.mine})
    case ServerGets(p, found) => Serve(x, y, p, found)
    case Retransmit => Send(y)
    case ClientGets(p, m) => y.(client := Receive(x.chk, m, y.client, p))
  }

  ghost predicate IsRun(x: Session, ys: seq<System>, acts: seq<Action>) {
    && |ys| == |acts| + 1
    && Start(x, ys[0])
    && forall i :: 0 <= i < |acts| ==> Enabled(ys[i], acts[i]) && ys[i + 1] == Next(x, ys[i], acts[i])
  }

  // ----- what the packets mean

  predicate HasFlags(p: Packet, f: Flags) {
    p.flags == f || p.flags == f.(chk := true)
  }

  /** p is the j-th packet of the server: chunk j of the file, then the end mark,
      then its confirmation. */
  predicate IsServerPacket(x: Session, j: nat, p: Packet) {
    var n := NumChunks(x.file);
    && p.seqn == (j + 1) % U16
    && j <= n + 1
    && (j < n ==> HasFlags(p, DAT) && p.msg == Payload(x.file, j))
    && (j == n ==> HasFlags(p, FIN) && p.msg == EMPTY)
    && (j == n + 1 ==> HasFlags(p, ACK_FIN))
  }

  /** What a packet of the client promises once the client has accepted `acc`. */
  predicate IsClientPacket(x: Session, acc: nat, p: Packet) {
    var n := NumChunks(x.file);
    || HasFlags(p, GET)
    || (HasFlags(p, ACK_DAT) && 1 <= p.ackn <= acc && p.ackn <= n)
    || (HasFlags(p, ACK_FIN) && acc == n + 1 && p.ackn == n + 1)
    || (p.flags.nak && !p.flags.ack && !p.flags.get && !p.flags.fin)
  }

  /** The packets accepted so far are the first ones of the file, in order. */
  ghost predicate GotInOrder(x: Session, got: seq<Packet>) {
    && |got| <= NumChunks(x.file) + 1
    && forall j :: 0 <= j < |got| ==> IsServerPacket(x, j, got[j])
  }

  ghost predicate ServerOk(x: Session, s: Server) {
    && |s.mys| <= NumChunks(x.file) + 2
    && (forall j :: 0 <= j < |s.mys| ==> IsServerPacket(x, j, s.mys[j]))
    && s.ack == |s.mys| % U16
  }

  ghost predicate NetworkOk(x: Session, y: System) {
    && (forall p :: p in y.toClient ==> exists j :: 0 <= j < |y.server.mys| && IsServerPacket(x, j, p))
    && (forall p :: p in y.toServer ==> IsClientPacket(x, |y.client.got|, p))
    && IsClientPacket(x, |y.client.got|, y.client.mine)
  }

  /** The counters run in step: in unbounded numbers, ack <= track <= ack + 1. */
  ghost predicate InStep(y: System) {
    && |y.client.got| <= |y.server.mys| <= |y.client.got| + 1
    && y.client.track == (|y.client.got| + 1) % U16
  }

  ghost predicate Inv(x: Session, y: System) {
    && ServerOk(x, y.server)
    && GotInOrder(x, y.client.got)
    && InStep(y)
    && NetworkOk(x, y)
    && (y.client.stopped ==> |y.client.got| == NumChunks(x.file) + 1)
  }

  /** The most chunks for which no two sequence numbers of a session collide. */
  const MAX_CHUNKS: nat := 65534

  // ----- the server's step

  lemma ChunkEmptyIff(file: seq<byte>, i: nat)
    requires i >= 1
    ensures Chunk(file, i) == [] <==> i >= NumChunks(file)
  {}

  lemma PushKeeps(x: Session, s: Server, p: Packet)
    requires ServerOk(x, s) && |s.mys| <= NumChunks(x.file) + 1
    requires IsServerPacket(x, |s.mys|, p)
    ensures ServerOk(x, Pushed(s, p))
  {}

  lemma SealedSame(x: Session, j: nat, p: Packet)
    requires IsServerPacket(x, j, p)
    ensures IsServerPacket(x, j, Sealed(x.chk, p))
  {
    hide NumChunks, Payload;
  }

  lemma SndKeeps(x: Session, s: Server)
    requires ServerOk(x, s)
    ensures ServerOk(x, Snd(x.chk, s)) && |Snd(x.chk, s).mys| == |s.mys|
  {
    hide NumChunks, Payload, IsServerPacket;
    if s.mys != [] {
      SealedSame(x, |s.mys| - 1, s.mys[|s.mys| - 1]);
    }
  }

  lemma FreshNumber(x: Session, s: Server)
    requires ServerOk(x, s)
    ensures Fresh(s.mys).seqn == (|s.mys| + 1) % U16
  {
    hide NumChunks, Payload;
    if s.mys != [] {
      assert IsServerPacket(x, |s.mys| - 1, s.mys[|s.mys| - 1]);
    }
  }

  /** The server moves on only when the client has accepted all it sent. */
  lemma DispatchKeeps(x: Session, s: Server, acc: nat, p: Packet, found: bool)
    requires NumChunks(x.file) <= MAX_CHUNKS
    requires ServerOk(x, s) && acc <= |s.mys| <= acc + 1 && acc <= NumChunks(x.file) + 1
    requires IsClientPacket(x, acc, p)
    requires s.mys != [] ==> p.ackn == s.ack
    ensures var r := Dispatch(x.file, x.chk, found, s, p).0;
            ServerOk(x, r) && acc <= |r.mys| <= acc + 1 && |s.mys| <= |r.mys|
  {
    hide Payload, Chunk, Snd;
    var n := NumChunks(x.file);
    FreshNumber(x, s);
    SndKeeps(x, s);
    if p.flags == GET && s.mys == [] {
      var q := Fresh(s.mys).(flags := DAT, msg := Payload(x.file, 0));
      PushKeeps(x, s, q);
      SndKeeps(x, Pushed(s, q));
    } else if p.flags == ACK_DAT && s.mys != [] {
      assert p.ackn == |s.mys|;
      ChunkEmptyIff(x.file, |s.mys|);
      var q := if Chunk(x.file, s.ack) == [] then Fresh(s.mys).(flags := FIN)
               else Fresh(s.mys).(flags := DAT, msg := Payload(x.file, s.ack));
      PushKeeps(x, s, q);
      SndKeeps(x, Pushed(s, q));
    } else if p.flags == ACK_FIN && s.mys != [] {
      assert |s.mys| == n + 1;
      var q := Fresh(s.mys).(flags := ACK_FIN, ackn := s.seq_);
      PushKeeps(x, s, q);
      SndKeeps(x, Pushed(s, q));
    }
  }

  /** What one request may do to the server. */
  ghost predicate ServerMoved(x: Session, s: Server, acc: nat, r: Server) {
    ServerOk(x, r) && acc <= |r.mys| <= acc + 1 && |s.mys| <= |r.mys|
  }

  lemma NumberedKeeps(x: Session, s: Server, acc: nat, p: Packet, found: bool)
    requires NumChunks(x.file) <= MAX_CHUNKS
    requires ServerOk(x, s) && acc <= |s.mys| <= acc + 1 && acc <= NumChunks(x.file) + 1
    requires IsClientPacket(x, acc, p)
    ensures ServerMoved(x, s, acc, Numbered(x.file, x.chk, found, s, p).0)
  {
    hide ServerOk, IsClientPacket, Dispatch, Snd;
    SndKeeps(x, s);
    if s.mys == [] || (!p.flags.nak && p.ackn == s.ack) {
      DispatchKeeps(x, s, acc, p, found);
    } else {
      SeqKeeps(x, s);
    }
  }

  lemma SeqKeeps(x: Session, s: Server)
    requires ServerOk(x, s)
    ensures ServerOk(x, s.(seq_ := Inc(s.seq_)))
  {}

  lemma ProcessKeeps(x: Session, s: Server, acc: nat, p: Packet, found: bool)
    requires NumChunks(x.file) <= MAX_CHUNKS
    requires ServerOk(x, s) && acc <= |s.mys| <= acc + 1 && acc <= NumChunks(x.file) + 1
    requires IsClientPacket(x, acc, p)
    ensures ServerMoved(x, s, acc, Process(x.file, x.chk, found, s, p).0)
  {
    hide Numbered, Snd;
    SndKeeps(x, s);
    var q := p.(flags := p.flags.(chk := false));
    NumberedKeeps(x, s, acc, p, found);
    NumberedKeeps(x, s, acc, q, found);
    NumberedKeeps(x, s.(chksum := true), acc, q, found);
  }

  lemma ServerGrows(x: Session, y: System, r: Server)
    requires Inv(x, y) && ServerMoved(x, y.server, |y.client.got|, r)
    ensures Inv(x, y.(server := r)) && Inv(x, y.(server := r.(active := false)))
  {}

  lemma SendKeeps(x: Session, y: System)
    requires Inv(x, y) && y.server.mys != []
    ensures Inv(x, Send(y))
  {
    hide NumChunks, Payload, IsClientPacket;
    var j := |y.server.mys| - 1;
    assert IsServerPacket(x, j, y.server.mys[j]);
  }

  lemma ServeKeeps(x: Session, y: System, p: Packet, found: bool)
    requires NumChunks(x.file) <= MAX_CHUNKS && Inv(x, y) && p in y.toServer
    ensures Inv(x, Serve(x, y, p, found))
  {
    assert IsClientPacket(x, |y.client.got|, p);
    hide Process, ServerMoved, Inv;
    assert ServerOk(x, y.server) && InStep(y) && GotInOrder(x, y.client.got) by { InvParts(x, y); }
    var (r, v) := Process(x.file, x.chk, found, y.server, p);
    ProcessKeeps(x, y.server, |y.client.got|, p, found);
    ServerGrows(x, y, r);
    if r.mys != [] {
      SendKeeps(x, y.(server := r));
    }
  }

  lemma InvParts(x: Session, y: System)
    requires Inv(x, y)
    ensures ServerOk(x, y.server) && InStep(y) && GotInOrder(x, y.client.got) && NetworkOk(x, y)
  {}

  // ----- the client's step

  /** A packet with the number the client waits for is the next one, because no
      two numbers in use coincide. */
  lemma NextPacket(x: Session, y: System, p: Packet, j: nat)
    requires NumChunks(x.file) <= MAX_CHUNKS && Inv(x, y)
    requires j < |y.server.mys| && IsServerPacket(x, j, p) && p.seqn == y.client.track
    requires HasFlags(p, DAT) || HasFlags(p, FIN)
    ensures j == |y.client.got| && j <= NumChunks(x.file)
  {}

  lemma PacketsStay(x: Session, y: System, c: Client)
    requires Inv(x, y) && |y.client.got| <= |c.got|
    requires |c.got| == NumChunks(x.file) + 1 || |y.client.got| <= NumChunks(x.file)
    ensures forall p :: p in y.toServer ==> IsClientPacket(x, |c.got|, p)
  {}

  lemma AcceptKeeps(x: Session, y: System, p: Packet, j: nat, flags: Flags)
    requires NumChunks(x.file) <= MAX_CHUNKS && Inv(x, y) && !y.client.stopped
    requires j < |y.server.mys| && IsServerPacket(x, j, p) && p.seqn == y.client.track
    requires (p.flags == DAT && flags == ACK_DAT) || (p.flags == FIN && flags == ACK_FIN)
    ensures Inv(x, y.(client := Accept(x.chk, y.client, p, flags)))
  {
    hide NumChunks, Payload;
    NextPacket(x, y, p, j);
    PacketsStay(x, y, Accept(x.chk, y.client, p, flags));
  }

  lemma NakKeeps(x: Session, y: System, m: bool)
    requires Inv(x, y)
    ensures Inv(x, y.(client := Nak(x.chk, y.client.(misbehaved := m))))
  {}

  lemma SentAs(x: Session, y: System, r: Packet) returns (j: nat)
    requires Inv(x, y) && r in y.toClient
    ensures j < |y.server.mys|
    ensures IsServerPacket(x, j, r) && IsServerPacket(x, j, r.(flags := r.flags.(chk := false)))
  {
    hide NumChunks, Payload;
    j :| 0 <= j < |y.server.mys| && IsServerPacket(x, j, r);
  }

  lemma ReceiveKeeps(x: Session, y: System, r: Packet, m: bool)
    requires NumChunks(x.file) <= MAX_CHUNKS && Inv(x, y) && r in y.toClient && !y.client.stopped
    ensures Inv(x, y.(client := Receive(x.chk, m, y.client, r)))
  {
    hide Inv, IsServerPacket, NetworkOk, NumChunks;
    var j := SentAs(x, y, r);
    var p := r.(flags := r.flags.(chk := false));
    NakKeeps(x, y, true);
    NakKeeps(x, y, y.client.misbehaved);
    assert y.client.(misbehaved := y.client.misbehaved) == y.client;
    if p.flags == ACK_FIN {
      StopKeeps(x, y, p, j);
    } else if p.flags == FIN && p.seqn == y.client.track {
      AcceptKeeps(x, y, p, j, ACK_FIN);
    } else if p.flags == DAT && p.seqn == y.client.track {
      AcceptKeeps(x, y, p, j, ACK_DAT);
    }
  }

  /** FIN|ACK exists only after the client accepted everything. */
  lemma StopKeeps(x: Session, y: System, p: Packet, j: nat)
    requires Inv(x, y) && j < |y.server.mys| && IsServerPacket(x, j, p) && p.flags == ACK_FIN
    ensures |y.client.got| == NumChunks(x.file) + 1
    ensures Inv(x, y.(client := y.client.(stopped := true)))
  {}

  // ----- runs

  lemma StepKeepsInv(x: Session, y: System, a: Action)
    requires NumChunks(x.file) <= MAX_CHUNKS && Inv(x, y) && Enabled(y, a)
    ensures Inv(x, Next(x, y, a))
  {
    match a
    case ClientSends =>
    case ServerGets(p, found) => ServeKeeps(x, y, p, found);
    case Retransmit => SendKeeps(x, y);
    case ClientGets(p, m) => ReceiveKeeps(x, y, p, m);
  }

  lemma {:induction false} EveryRunKeepsInv(x: Session, ys: seq<System>, acts: seq<Action>, i: nat)
    requires NumChunks(x.file) <= MAX_CHUNKS && IsRun(x, ys, acts) && i < |ys|
    ensures Inv(x, ys[i])
  {
    if i > 0 {
      EveryRunKeepsInv(x, ys, acts, i - 1);
      StepKeepsInv(x, ys[i - 1], acts[i - 1]);
    }
  }

  // ----- the delivered bytes

  /** The message buffers of the accepted packets, one after the other. */
  function Written(got: seq<Packet>): seq<byte> {
    if got == [] then [] else Written(got[..|got| - 1]) + got[|got| - 1].msg
  }

  lemma {:induction false} WrittenIsFile(x: Session, got: seq<Packet>, k: nat)
    requires GotInOrder(x, got) && k <= |got|
    ensures |Written(got[..k])| == k * MSG_SIZ
    ensures forall i :: 0 <= i < k * MSG_SIZ && i < |x.file| ==> Written(got[..k])[i] == x.file[i]
  {
    if k > 0 {
      WrittenIsFile(x, got, k - 1);
      assert got[..k][..k - 1] == got[..k - 1];
      assert IsServerPacket(x, k - 1, got[k - 1]);
    }
  }

  /** Whenever the client stops, the file is what it wrote, up to the zeros that
      fill the last buffer. */
  lemma StoppedMeansDelivered(x: Session, ys: seq<System>, acts: seq<Action>, i: nat)
    requires NumChunks(x.file) <= MAX_CHUNKS && IsRun(x, ys, acts) && i < |ys| && ys[i].client.stopped
    ensures |Written(ys[i].client.got)| >= |x.file|
    ensures Written(ys[i].client.got)[..|x.file|] == x.file
  {
    EveryRunKeepsInv(x, ys, acts, i);
    AllWritten(x, ys[i].client.got);
  }

  lemma AllWritten(x: Session, got: seq<Packet>)
    requires GotInOrder(x, got) && |got| == NumChunks(x.file) + 1
    ensures |Written(got)| >= |x.file| && Written(got)[..|x.file|] == x.file
  {
    hide GotInOrder;
    var n := NumChunks(x.file);
    WrittenIsFile(x, got, n);
    assert Written(got) == Written(got[..n]) + got[n].msg;
  }

  // ----- a loss-free run, to show where the promise ends

  /** The client has accepted j packets, the server has sent no more, and the
      client's current packet acknowledges the last one. No checksums. */
  ghost predicate Synced(x: Session, y: System, j: nat, flags: Flags) {
    && j >= 1 && |y.server.mys| == j && |y.client.got| == j
    && y.server.active && !y.server.chksum && !y.client.chksum && !y.client.stopped
    && y.server.ack == j % U16 && y.client.track == (j + 1) % U16
    && y.server.mys[j - 1].seqn == j % U16
    && y.client.mine == Packet(y.server.seq_, j % U16, 0, flags, EMPTY)
    && y.server.mys[0] == Packet(1, 0, 0, DAT, Payload(x.file, 0)) && y.server.mys[0] in y.toClient
  }

  lemma Extend(x: Session, ys: seq<System>, acts: seq<Action>, a: Action)
    requires IsRun(x, ys, acts) && Enabled(ys[|ys| - 1], a)
    ensures IsRun(x, ys + [Next(x, ys[|ys| - 1], a)], acts + [a])
  {}

  /** One loss-free round: the client's packet, the server's reply, and its
      delivery. */
  function Round(x: Session, y: System): System
    requires !y.client.stopped
  {
    var y2 := Serve(x, Next(x, y, ClientSends), y.client.mine, true);
    if y2.server.mys == [] then y2
    else y2.(client := Receive(x.chk, false, y2.client, y2.server.mys[|y2.server.mys| - 1]))
  }

  lemma ExtendRound(x: Session, ys: seq<System>, acts: seq<Action>) returns (ys': seq<System>, acts': seq<Action>)
    requires IsRun(x, ys, acts) && !ys[|ys| - 1].client.stopped
    requires Serve(x, Next(x, ys[|ys| - 1], ClientSends), ys[|ys| - 1].client.mine, true).server.mys != []
    requires var y2 := Serve(x, Next(x, ys[|ys| - 1], ClientSends), ys[|ys| - 1].client.mine, true);
             y2.server.mys[|y2.server.mys| - 1] in y2.toClient && !y2.client.stopped
    ensures IsRun(x, ys', acts') && ys'[|ys'| - 1] == Round(x, ys[|ys| - 1])
  {
    hide Serve, Receive;
    var y := ys[|ys| - 1];
    var y1 := Next(x, y, ClientSends);
    Extend(x, ys, acts, ClientSends);
    var ys1, acts1 := ys + [y1], acts + [ClientSends];
    var a2 := ServerGets(y.client.mine, true);
    var y2 := Next(x, y1, a2);
    Extend(x, ys1, acts1, a2);
    var ys2, acts2 := ys1 + [y2], acts1 + [a2];
    var a3 := ClientGets(y2.server.mys[|y2.server.mys| - 1], false);
    Extend(x, ys2, acts2, a3);
    ys', acts' := ys2 + [Next(x, y2, a3)], acts2 + [a3];
  }

  lemma FirstRound(x: Session) returns (ys: seq<System>, acts: seq<Action>)
    ensures IsRun(x, ys, acts) && Synced(x, ys[|ys| - 1], 1, ACK_DAT)
  {
    var c := Client(Packet(1, 0, 0, GET, EMPTY), 1, [], false, false, false);
    var y := System(Server([], 0, 1, false, true), c, {}, {});
    assert IsRun(x, [y], []);
    ys, acts := ExtendRound(x, [y], []);
  }

  /** What the server appends for an acknowledgement that fits. */
  function Reaction(x: Session, s: Server, flags: Flags): Packet {
    if flags == ACK_FIN then Fresh(s.mys).(flags := ACK_FIN, ackn := s.seq_)
    else if Chunk(x.file, s.ack) == [] then Fresh(s.mys).(flags := FIN)
    else Fresh(s.mys).(flags := DAT, msg := Payload(x.file, s.ack))
  }

  lemma ServerReacts(x: Session, s: Server, flags: Flags)
    requires s.mys != [] && !s.chksum
    requires flags == ACK_DAT || (flags == ACK_FIN && HasFlags(s.mys[|s.mys| - 1], FIN))
    ensures Process(x.file, x.chk, true, s, Packet(s.seq_, s.ack, 0, flags, EMPTY)).0 ==
            Pushed(s, Reaction(x, s, flags))
    ensures !Process(x.file, x.chk, true, s, Packet(s.seq_, s.ack, 0, flags, EMPTY)).1.Bad?
    ensures !Process(x.file, x.chk, true, s, Packet(s.seq_, s.ack, 0, flags, EMPTY)).1.Worse?
  {
    hide Payload, Chunk;
  }

  /** The server's half of a round. */
  lemma ServerHalf(x: Session, y: System, j: nat, flags: Flags)
    requires Synced(x, y, j, flags)
    requires flags == ACK_DAT || (flags == ACK_FIN && HasFlags(y.server.mys[j - 1], FIN))
    ensures var y2 := Serve(x, Next(x, y, ClientSends), y.client.mine, true);
            var p := Reaction(x, y.server, flags);
            && y2.server == Pushed(y.server, p).(active := flags != ACK_FIN)
            && y2.toClient == y.toClient + {p}
            && y2.client == y.client
  {
    hide Payload, Chunk, Process;
    ServerReacts(x, y.server, flags);
  }

  /** A whole round: the reply is delivered at once. */
  lemma RoundRuns(x: Session, y: System, j: nat, flags: Flags)
    requires Synced(x, y, j, flags)
    requires flags == ACK_DAT || (flags == ACK_FIN && HasFlags(y.server.mys[j - 1], FIN))
    ensures var y2 := Serve(x, Next(x, y, ClientSends), y.client.mine, true);
            y2.server.mys != [] && y2.server.mys[|y2.server.mys| - 1] in y2.toClient && !y2.client.stopped
    ensures Round(x, y).client == Receive(x.chk, false, y.client, Reaction(x, y.server, flags))
    ensures Round(x, y).server == Pushed(y.server, Reaction(x, y.server, flags)).(active := flags != ACK_FIN)
    ensures Round(x, y).toClient == y.toClient + {Reaction(x, y.server, flags)}
  {
    hide Receive, Reaction, Serve;
    ServerHalf(x, y, j, flags);
  }

  lemma DataRound(x: Session, y: System, j: nat)
    requires Synced(x, y, j, ACK_DAT)
    ensures Synced(x, Round(x, y), j + 1, if Chunk(x.file, j % U16) == [] then ACK_FIN else ACK_DAT)
    ensures Chunk(x.file, j % U16) == [] ==> HasFlags(Round(x, y).server.mys[j], FIN)
  {
    hide Payload, Chunk, Round;
    RoundRuns(x, y, j, ACK_DAT);
  }

  lemma StopRound(x: Session, y: System, j: nat)
    requires Synced(x, y, j, ACK_FIN) && HasFlags(y.server.mys[j - 1], FIN)
    ensures Round(x, y).client.stopped
  {
    hide Payload, Chunk, Round;
    RoundRuns(x, y, j, ACK_FIN);
  }

  /** Round after round, as long as the file has data at the 16-bit position. */
  lemma {:induction false} LossFree(x: Session, j: nat) returns (ys: seq<System>, acts: seq<Action>)
    requires 1 <= j && forall i :: 1 <= i < j ==> i % U16 < NumChunks(x.file)
    ensures IsRun(x, ys, acts) && Synced(x, ys[|ys| - 1], j, ACK_DAT)
  {
    hide Synced, Serve, Round;
    if j == 1 {
      ys, acts := FirstRound(x);
    } else {
      ys, acts := LossFree(x, j - 1);
      assert (U16 - 1) % U16 == U16 - 1;
      NonEmptyAt(x, j - 1);
      RoundRuns(x, ys[|ys| - 1], j - 1, ACK_DAT);
      DataRound(x, ys[|ys| - 1], j - 1);
      SyncedRuns(x, ys[|ys| - 1], j - 1, ACK_DAT);
      ys, acts := ExtendRound(x, ys, acts);
    }
  }

  lemma NonEmptyAt(x: Session, j: nat)
    requires j >= 1 && j % U16 < NumChunks(x.file) && (j < U16 || NumChunks(x.file) > 1)
    ensures Chunk(x.file, j % U16) != []
  {
    if j % U16 >= 1 {
      ChunkEmptyIff(x.file, j % U16);
    }
  }

  lemma SyncedRuns(x: Session, y: System, j: nat, flags: Flags)
    requires Synced(x, y, j, flags)
    ensures !y.client.stopped
  {}

  /** All data accepted, then the end mark. */
  lemma LossFreeToEnd(x: Session) returns (ys: seq<System>, acts: seq<Action>)
    requires NumChunks(x.file) < U16
    ensures IsRun(x, ys, acts) && Synced(x, ys[|ys| - 1], NumChunks(x.file) + 1, ACK_FIN)
    ensures HasFlags(ys[|ys| - 1].server.mys[NumChunks(x.file)], FIN)
  {
    hide Synced, Serve, Round;
    var n := NumChunks(x.file);
    ys, acts := LossFree(x, n);
    ChunkEmptyIff(x.file, n);
    assert n % U16 == n;
    var y := ys[|ys| - 1];
    RoundRuns(x, y, n, ACK_DAT);
    DataRound(x, y, n);
    SyncedRuns(x, y, n, ACK_DAT);
    ys, acts := ExtendRound(x, ys, acts);
  }

  /** With one chunk too many, the number after the end mark is that of the first
      chunk again, and a late copy of it is accepted once more. */
  lemma LateCopyAccepted(x: Session) returns (ys: seq<System>, acts: seq<Action>)
    requires NumChunks(x.file) == U16 - 1
    ensures IsRun(x, ys, acts) && |ys[|ys| - 1].client.got| == NumChunks(x.file) + 2
  {
    ys, acts := LossFreeToEnd(x);
    var y := ys[|ys| - 1];
    var a := ClientGets(y.server.mys[0], false);
    Extend(x, ys, acts, a);
    ys, acts := ys + [Next(x, y, a)], acts + [a];
  }

  /** The promise holds in every run exactly for files of at most 65534 chunks. */
  lemma InOrderExactlyUpToLimit(x: Session)
    ensures (forall ys: seq<System>, acts :: IsRun(x, ys, acts) ==> GotInOrder(x, ys[|ys| - 1].client.got)) <==>
            NumChunks(x.file) <= MAX_CHUNKS
  {
    var n := NumChunks(x.file);
    if n <= MAX_CHUNKS {
      forall ys: seq<System>, acts | IsRun(x, ys, acts)
        ensures GotInOrder(x, ys[|ys| - 1].client.got)
      {
        EveryRunKeepsInv(x, ys, acts, |ys| - 1);
      }
    } else if n == U16 - 1 {
      var ys, acts := LateCopyAccepted(x);
      assert !GotInOrder(x, ys[|ys| - 1].client.got);
    } else {
      var ys, acts := LossFree(x, n + 2);
      assert !GotInOrder(x, ys[|ys| - 1].client.got);
    }
  }

  // ----- when the transfer can end at all

  /** No end mark has been sent. */
  ghost predicate NoEnd(y: System) {
    && SendsData(y.server)
    && (forall p :: p in y.toClient ==> HasFlags(p, DAT))
    && !y.client.stopped
  }

  ghost predicate SendsData(s: Server) {
    s.ack < U16 && forall i :: 0 <= i < |s.mys| ==> HasFlags(s.mys[i], DAT)
  }

  lemma DataEverywhere(file: seq<byte>, i: nat)
    requires i < U16 <= NumChunks(file)
    ensures Chunk(file, i) != []
  {
    if i > 0 {
      ChunkEmptyIff(file, i);
    }
  }

  lemma SndSendsData(x: Session, s: Server)
    requires SendsData(s)
    ensures SendsData(Snd(x.chk, s))
  {}

  lemma DispatchNeverEnds(x: Session, s: Server, p: Packet, found: bool)
    requires NumChunks(x.file) >= U16 && SendsData(s)
    ensures SendsData(Dispatch(x.file, x.chk, found, s, p).0)
  {
    hide Payload, Chunk, Snd, InvalidNak;
    NakSendsData(x, s, p);
    if s.mys == [] || p.flags == ACK_DAT {
      var q := Fresh(s.mys).(flags := DAT, msg := Payload(x.file, if s.mys == [] then 0 else s.ack));
      SndSendsData(x, Pushed(s, q));
    }
    DataEverywhere(x.file, s.ack);
  }

  lemma NakSendsData(x: Session, s: Server, p: Packet)
    requires SendsData(s)
    ensures SendsData(InvalidNak(x.chk, s, p).0)
  {}

  lemma ServerNeverEnds(x: Session, s: Server, p: Packet, found: bool)
    requires NumChunks(x.file) >= U16 && SendsData(s)
    ensures SendsData(Process(x.file, x.chk, found, s, p).0)
  {
    hide Dispatch, InvalidNak;
    var q := p.(flags := p.flags.(chk := false));
    NakSendsData(x, s, p);
    NakSendsData(x, s, q);
    NakSendsData(x, s.(chksum := true), q);
    DispatchNeverEnds(x, s, p, found);
    DispatchNeverEnds(x, s, q, found);
    DispatchNeverEnds(x, s.(chksum := true), q, found);
  }

  lemma StepNeverEnds(x: Session, y: System, a: Action)
    requires NumChunks(x.file) >= U16 && NoEnd(y) && Enabled(y, a)
    ensures NoEnd(Next(x, y, a))
  {
    hide Process;
    if a.ServerGets? {
      ServerNeverEnds(x, y.server, a.p, a.found);
    }
  }

  lemma {:induction false} NeverEnds(x: Session, ys: seq<System>, acts: seq<Action>, i: nat)
    requires NumChunks(x.file) >= U16 && IsRun(x, ys, acts) && i < |ys|
    ensures NoEnd(ys[i])
  {
    if i > 0 {
      NeverEnds(x, ys, acts, i - 1);
      StepNeverEnds(x, ys[i - 1], acts[i - 1]);
    }
  }

  /** Some run ends exactly when the file has at most 65535 chunks; a larger one
      is sent over and over from its start. */
  lemma EndsExactlyUpToLimit(x: Session)
    ensures (exists ys: seq<System>, acts :: IsRun(x, ys, acts) && ys[|ys| - 1].client.stopped) <==>
            NumChunks(x.file) < U16
  {
    if NumChunks(x.file) < U16 {
      var ys, acts := LossFreeToEnd(x);
      var y := ys[|ys| - 1];
      RoundRuns(x, y, NumChunks(x.file) + 1, ACK_FIN);
      StopRound(x, y, NumChunks(x.file) + 1);
      SyncedRuns(x, y, NumChunks(x.file) + 1, ACK_FIN);
      var ys', acts' := ExtendRound(x, ys, acts);
      assert IsRun(x, ys', acts') && ys'[|ys'| - 1].client.stopped;
    } else {
      forall ys: seq<System>, acts | IsRun(x, ys, acts)
        ensures !ys[|ys| - 1].client.stopped
      {
        NeverEnds(x, ys, acts, |ys| - 1);
      }
    }
  }
}
