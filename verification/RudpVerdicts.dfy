/** Which requests the server answers with a packet, which end the session, and what goes
    out on the network for them. */
module RudpVerdicts {
  import opened RudpProtocol
  import opened RudpSafety

  /** The packet has the right version, and the right checksum if there must be one. */
  predicate Sound(chk: seq<byte> -> nat, s: Server, p: Packet) {
    Confirmed(p) && (p.flags.chk || s.chksum ==> p.flags.chk && chk(p.msg) == p.chks)
  }

  /** Before anything was sent: a file is sent for a first GET, and only for that; packets
      that do not carry the first numbers, and files that are not there, end the session,
      and so does all else. */
  lemma FirstVerdict(file: seq<byte>, chk: seq<byte> -> nat, found: bool, s: Server, p: Packet)
    requires s.mys == []
    ensures var (r, v) := Process(file, chk, found, s, p);
            var first := p.seqn == 1 && p.ackn == 0;
            && (v.Reply? <==> Sound(chk, s, p) && first && HasFlags(p, GET) && found)
            && (v.Refuse? <==> Sound(chk, s, p) && (!first || (HasFlags(p, GET) && !found)))
            && !v.Bad?
            && (v.Reply? ==> |r.mys| == 1 && r.mys[0].msg == Payload(file, 0))
            && (!v.Reply? ==> r.mys == [])
  {
    hide Payload, Chunk;
  }

  /** In a session, requests have no message, and a checksum is that of the empty one. */
  predicate InSession(chk: seq<byte> -> nat, s: Server, p: Packet) {
    && Sound(chk, s, p) && p.msg == EMPTY
    && (p.flags.chk ==> HasFlags(p, GET) || p.chks == EMPTY_CHECKSUM)
  }

  predicate RightNumbers(s: Server, p: Packet) {
    p.seqn == s.seq_ && p.ackn == s.ack
  }

  /** The client confirms the end, which was the last packet sent. */
  predicate EndConfirmed(s: Server, p: Packet)
    requires s.mys != []
  {
    HasFlags(p, ACK_FIN) && HasFlags(s.mys[|s.mys| - 1], FIN)
  }

  /** In a session: the next packet is made exactly for an acknowledgement with the right
      numbers. The last packet is sent again for every NAK and for everything with other
      numbers. The session ends with the confirmation of the end, or if the file is gone.
      Nothing else has any effect. */
  lemma LaterVerdict(file: seq<byte>, chk: seq<byte> -> nat, found: bool, s: Server, p: Packet)
    requires s.mys != []
    ensures var (r, v) := Process(file, chk, found, s, p);
            var now := InSession(chk, s, p) && !p.flags.nak && RightNumbers(s, p);
            && (|r.mys| == |s.mys| + 1 <==> now && ((HasFlags(p, ACK_DAT) && found) || EndConfirmed(s, p)))
            && (|r.mys| == |s.mys| || |r.mys| == |s.mys| + 1)
            && (v.Refuse? <==> now && ((HasFlags(p, ACK_DAT) && !found) || EndConfirmed(s, p)))
            && (v.Reply? <==> || (p.flags.nak && Versioned(p) && !Confirmed(p))
                              || (InSession(chk, s, p) && (p.flags.nak || !RightNumbers(s, p)))
                              || (now && HasFlags(p, ACK_DAT) && found))
            && !v.Worse? && (v.Bad? ==> r == s)
  {
    hide Payload, Chunk, NumChunks;
  }

  // ----- on the network

  /** A lost packet is made good: whatever the client sends again, and whatever it says NAK
      to, brings the server's last packet onto the network once more, and changes nothing
      that was sent. */
  lemma SentAgain(x: Session, y: System, p: Packet, found: bool)
    requires y.server.mys != [] && y.server.active && (y.server.chksum ==> y.server.mys[|y.server.mys| - 1].flags.chk)
    requires InSession(x.chk, y.server, p) && (p.flags.nak || !RightNumbers(y.server, p))
    requires Versioned(y.server.mys[|y.server.mys| - 1])
    ensures var z := Serve(x, y, p, found);
            && z.server.mys == y.server.mys && z.client == y.client && z.toServer == y.toServer
            && z.toClient == y.toClient + {y.server.mys[|y.server.mys| - 1]}
  {
    hide Dispatch;
  }

  predicate ConfirmsEnd(p: Packet) {
    HasFlags(p, ACK_FIN)
  }

  /** Once the confirmation of the end is out, or the session was refused, the server is
      silent. */
  ghost predicate SilentOnceEnded(y: System) {
    forall p :: p in y.toClient && ConfirmsEnd(p) ==> !y.server.active
  }

  lemma ProcessActive(file: seq<byte>, chk: seq<byte> -> nat, found: bool, s: Server, p: Packet)
    ensures Process(file, chk, found, s, p).0.active == s.active
  {
    hide Payload, Chunk, Fresh, ValidChksum;
  }

  /** A server that is not active sends nothing and stays so. */
  lemma StaysSilent(x: Session, y: System, a: Action)
    requires Enabled(y, a) && !y.server.active
    ensures Next(x, y, a).toClient == y.toClient && !Next(x, y, a).server.active
  {
    hide Process, Receive;
    if a.ServerGets? {
      ProcessActive(x.file, x.chk, a.found, y.server, a.p);
    }
  }

  lemma StepSilent(x: Session, y: System, a: Action)
    requires Enabled(y, a) && SilentOnceEnded(y)
    ensures SilentOnceEnded(Next(x, y, a))
  {
    hide Process, Receive;
    if !y.server.active {
      StaysSilent(x, y, a);
    } else if a.ServerGets? {
      ProcessActive(x.file, x.chk, a.found, y.server, a.p);
    }
  }

  /** In every run, from the moment the confirmation of the end is sent the server sends
      nothing more. */
  lemma {:induction false} NothingAfterEnd(x: Session, ys: seq<System>, acts: seq<Action>, i: nat, j: nat, p: Packet)
    requires IsRun(x, ys, acts) && i <= j < |ys|
    requires p in ys[i].toClient && ConfirmsEnd(p)
    ensures ys[j].toClient == ys[i].toClient && !ys[j].server.active
  {
    hide Next, Enabled, ConfirmsEnd;
    if i == j {
      RunSilent(x, ys, acts, i);
    } else {
      NothingAfterEnd(x, ys, acts, i, j - 1, p);
      StaysSilent(x, ys[j - 1], acts[j - 1]);
    }
  }

  lemma {:induction false} RunSilent(x: Session, ys: seq<System>, acts: seq<Action>, i: nat)
    requires IsRun(x, ys, acts) && i < |ys|
    ensures SilentOnceEnded(ys[i])
  {
    hide Next, Enabled, ConfirmsEnd;
    if i > 0 {
      RunSilent(x, ys, acts, i - 1);
      StepSilent(x, ys[i - 1], acts[i - 1]);
    }
  }
}
