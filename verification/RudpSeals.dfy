/** Checksums over a whole session: a network that alters nothing never makes
    either end reject a packet for its checksum. */
module RudpSeals {
  import opened RudpProtocol
  import opened RudpSafety

  /** A packet carries a checksum exactly if the session uses them, and then the
      right one. */
  predicate IsSealed(chk: seq<byte> -> nat, chksum: bool, p: Packet) {
    p.flags.chk == chksum && (chksum ==> ValidChksum(chk, p))
  }

  ghost predicate AllSealed(chk: seq<byte> -> nat, s: Server) {
    forall p :: p in s.mys ==> IsSealed(chk, s.chksum, p)
  }

  /** What Push leaves and SND_PKT repairs: only the last packet lacks its seal. */
  lemma SndSeals(chk: seq<byte> -> nat, s: Server, p: Packet)
    requires AllSealed(chk, s) && !p.flags.chk && p.flags.version == R_VERSION
    ensures AllSealed(chk, Snd(chk, Pushed(s, p)))
    ensures Snd(chk, Pushed(s, p)).chksum == s.chksum && s.mys <= Snd(chk, Pushed(s, p)).mys
  {
    var t := Pushed(s, p);
    assert t.mys[..|t.mys| - 1] == s.mys;
    assert IsSealed(chk, s.chksum, if s.chksum then Sealed(chk, p) else p);
  }

  lemma SndIdle(chk: seq<byte> -> nat, s: Server)
    requires AllSealed(chk, s)
    ensures Snd(chk, s) == s
  {
    if s.mys != [] {
      assert s.mys[|s.mys| - 1] in s.mys;
    }
  }

  lemma DispatchSeals(file: seq<byte>, chk: seq<byte> -> nat, found: bool, s: Server, p: Packet)
    requires AllSealed(chk, s)
    ensures var r := Dispatch(file, chk, found, s, p).0;
            AllSealed(chk, r) && r.chksum == s.chksum && s.mys <= r.mys
  {
    hide AllSealed, Snd, Payload, Chunk;
    SndIdle(chk, s);
    SndSeals(chk, s, Fresh(s.mys).(flags := DAT, msg := Payload(file, 0)));
    SndSeals(chk, s, Fresh(s.mys).(flags := DAT, msg := Payload(file, s.ack)));
    SndSeals(chk, s, Fresh(s.mys).(flags := FIN));
    SndSeals(chk, s, Fresh(s.mys).(flags := ACK_FIN, ackn := s.seq_));
  }

  lemma NumberedSeals(file: seq<byte>, chk: seq<byte> -> nat, found: bool, s: Server, p: Packet)
    requires AllSealed(chk, s)
    ensures var r := Numbered(file, chk, found, s, p).0;
            AllSealed(chk, r) && r.chksum == s.chksum && s.mys <= r.mys
  {
    hide Dispatch, Snd;
    SndIdle(chk, s);
    DispatchSeals(file, chk, found, s, p);
  }

  /** Whatever the request, every packet of the server stays sealed and none of
      those sent changes; the first answered request decides whether the session
      uses checksums. */
  lemma ProcessSeals(file: seq<byte>, chk: seq<byte> -> nat, found: bool, s: Server, p: Packet)
    requires AllSealed(chk, s)
    ensures var r := Process(file, chk, found, s, p).0;
            && AllSealed(chk, r) && s.mys <= r.mys
            && (r.mys != [] ==> r.chksum == if s.mys == [] then p.flags.chk else s.chksum)
  {
    hide Numbered, Snd;
    SndIdle(chk, s);
    var q := p.(flags := p.flags.(chk := false));
    NumberedSeals(file, chk, found, s, p);
    NumberedSeals(file, chk, found, s, q);
    if s.mys == [] {
      NumberedSeals(file, chk, found, s.(chksum := true), q);
    }
  }

  // ----- runs

  /** What the client sends: the name of the file, or an empty message with its
      checksum. */
  predicate ClientSealed(chk: seq<byte> -> nat, chksum: bool, p: Packet) {
    && p.flags.chk == chksum && p.flags.version == R_VERSION
    && (HasFlags(p, GET) || (p.msg == EMPTY && (chksum ==> p.chks == chk(EMPTY))))
  }

  ghost predicate SealInv(x: Session, y: System) {
    && AllSealed(x.chk, y.server)
    && (y.server.mys != [] ==> y.server.chksum == y.client.chksum)
    && ClientSealed(x.chk, y.client.chksum, y.client.mine)
    && (forall p :: p in y.toServer ==> ClientSealed(x.chk, y.client.chksum, p))
    && (forall p :: p in y.toClient ==> IsSealed(x.chk, y.client.chksum, p))
  }

  lemma SendSeals(x: Session, y: System)
    requires SealInv(x, y) && y.server.mys != []
    ensures SealInv(x, Send(y))
  {
    hide ClientSealed, IsSealed;
    assert y.server.mys[|y.server.mys| - 1] in y.server.mys;
  }

  lemma ServeSeals(x: Session, y: System, p: Packet, found: bool)
    requires SealInv(x, y) && p in y.toServer
    ensures SealInv(x, Serve(x, y, p, found))
  {
    hide Process, IsSealed, Send;
    var r := Process(x.file, x.chk, found, y.server, p).0;
    ProcessSeals(x.file, x.chk, found, y.server, p);
    assert ClientSealed(x.chk, y.client.chksum, p);
    hide ClientSealed;
    if r.mys != [] {
      SendSeals(x, y.(server := r));
    }
  }

  lemma AnswerSealed(chk: seq<byte> -> nat, c: Client, flags: Flags)
    requires !flags.chk && flags.version == R_VERSION
    ensures ClientSealed(chk, c.chksum, Answer(chk, c, flags))
  {}

  lemma ReceiveSeals(chk: seq<byte> -> nat, m: bool, c: Client, p: Packet)
    requires ClientSealed(chk, c.chksum, c.mine)
    ensures var d := Receive(chk, m, c, p);
            d.chksum == c.chksum && ClientSealed(chk, d.chksum, d.mine)
  {
    hide Answer, ClientSealed, ValidChksum;
    AnswerSealed(chk, c, ACK_DAT);
    AnswerSealed(chk, c, ACK_FIN);
    AnswerSealed(chk, c, DAT_NAK);
    AnswerSealed(chk, c, NONE.(nak := true));
    AnswerSealed(chk, c.(misbehaved := true), DAT_NAK);
  }

  lemma {:induction false} EveryRunSealed(x: Session, ys: seq<System>, acts: seq<Action>, i: nat)
    requires IsRun(x, ys, acts) && i < |ys|
    ensures SealInv(x, ys[i])
  {
    hide Serve, Receive, Send;
    if i > 0 {
      var y := ys[i - 1];
      EveryRunSealed(x, ys, acts, i - 1);
      match acts[i - 1]
      case ClientSends =>
      case ServerGets(p, found) => ServeSeals(x, y, p, found);
      case Retransmit => SendSeals(x, y);
      case ClientGets(p, m) => ReceiveSeals(x.chk, m, y.client, p);
    }
  }

  /** In every run, no packet on its way fails the client's check, and none but
      the request for the file fails the server's if and only if the checksum of
      the empty message is the constant the server compares with. */
  lemma ChecksumsPass(x: Session, ys: seq<System>, acts: seq<Action>, i: nat, p: Packet)
    requires IsRun(x, ys, acts) && i < |ys| && ys[i].client.chksum
    ensures p in ys[i].toClient ==> ValidChksum(x.chk, p)
    ensures p in ys[i].toServer && !HasFlags(p, GET) ==>
              (ClientChksum(x.chk, p) <==> x.chk(EMPTY) == EMPTY_CHECKSUM)
  {
    EveryRunSealed(x, ys, acts, i);
  }
}
