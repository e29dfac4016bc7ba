/** The stop-and-wait file transfer over UDP: headers, the server's and the
    client's reaction to one packet, and the file as the sequence of payloads
    that the server cuts it into. All header fields are 16 bits wide. */
module RudpProtocol {

  type byte = b: int | 0 <= b < 256

  const MSG_SIZ: nat := 1464
  const U16: nat := 65536
  const R_VERSION: nat := 2

  /** The flag word: one bit per flag and the version bits below them. */
  datatype Flags = Flags(ack: bool, nak: bool, get: bool, dat: bool, fin: bool, chk: bool, enc: bool, version: nat)

  const NONE := Flags(false, false, false, false, false, false, false, R_VERSION)
  const GET := NONE.(get := true)
  const DAT := NONE.(dat := true)
  const FIN := NONE.(fin := true)
  const ACK_DAT := NONE.(ack := true, dat := true)
  const ACK_FIN := NONE.(ack := true, fin := true)
  const DAT_NAK := NONE.(dat := true, nak := true)

  datatype Packet = Packet(seqn: nat, ackn: nat, chks: nat, flags: Flags, msg: seq<byte>)

  function Zeros(n: nat): (s: seq<byte>)
    ensures |s| == n
  {
    seq(n, _ => 0)
  }

  const EMPTY: seq<byte> := Zeros(MSG_SIZ)

  /** FLAG_VALIDATE tests one flag and the version bit with it. */
  predicate Versioned(p: Packet) {
    p.flags.version / 2 % 2 == 1
  }

  /** FLAG_CONFIRM: the low ten bits, which include ENC, are exactly the version. */
  predicate Confirmed(p: Packet) {
    !p.flags.enc && p.flags.version == R_VERSION
  }

  // ----- the file

  function Chunk(file: seq<byte>, i: nat): seq<byte> {
    if i * MSG_SIZ >= |file| then []
    else if (i + 1) * MSG_SIZ >= |file| then file[i * MSG_SIZ..]
    else file[i * MSG_SIZ..(i + 1) * MSG_SIZ]
  }

  /** The message buffer after fread, zero-filled behind the data. */
  function Payload(file: seq<byte>, i: nat): (m: seq<byte>)
    ensures |m| == MSG_SIZ
    ensures forall k :: 0 <= k < MSG_SIZ ==>
              m[k] == if i * MSG_SIZ + k < |file| then file[i * MSG_SIZ + k] else 0
  {
    Chunk(file, i) + Zeros(MSG_SIZ - |Chunk(file, i)|)
  }

  /** The number of data packets: an empty file still takes one. */
  function NumChunks(file: seq<byte>): (n: nat)
    ensures n >= 1
    ensures n > 1 ==> (n - 1) * MSG_SIZ < |file|
    ensures |file| <= n * MSG_SIZ
  {
    if |file| == 0 then 1 else (|file| + MSG_SIZ - 1) / MSG_SIZ
  }

  // ----- the server

  /** rstate: the packets sent (the last one is `curr`) and the counters. `active`
      is the port's ONA flag. */
  datatype Server = Server(mys: seq<Packet>, ack: nat, seq_: nat, chksum: bool, active: bool)

  /** What rprocess_request returns. */
  datatype Verdict = Bad | Worse | Refuse | Reply

  function Inc(x: nat): nat {
    (x + 1) % U16
  }

  /** rhead_append: an empty packet, numbered after the last one. */
  function Fresh(mys: seq<Packet>): Packet {
    Packet(if mys == [] then 1 else Inc(mys[|mys| - 1].seqn), 0, 0, NONE, EMPTY)
  }

  /** FLAG_SET(CHK) with the checksum of the message. */
  function Sealed(chk: seq<byte> -> nat, p: Packet): Packet {
    p.(flags := p.flags.(chk := true), chks := chk(p.msg))
  }

  /** Label SND_PKT: make sure the current packet carries a checksum if the
      session uses them. */
  function Snd(chk: seq<byte> -> nat, s: Server): Server {
    if s.mys != [] && s.chksum && !(s.mys[|s.mys| - 1].flags.chk && Versioned(s.mys[|s.mys| - 1])) then
      s.(mys := s.mys[..|s.mys| - 1] + [Sealed(chk, s.mys[|s.mys| - 1])])
    else
      s
  }

  /** Label SND_PKT and what follows it. */
  function SndReply(chk: seq<byte> -> nat, s: Server): (Server, Verdict) {
    if s.mys == [] then (s, Worse) else (Snd(chk, s), Reply)
  }

  /** Label INVALID_NAK. */
  function InvalidNak(chk: seq<byte> -> nat, s: Server, p: Packet): (Server, Verdict) {
    if p.flags.nak && Versioned(p) then SndReply(chk, s)
    else if s.mys == [] then (s, Worse)
    else (s, Bad)
  }

  predicate ValidChksum(chk: seq<byte> -> nat, p: Packet) {
    p.flags.chk && Versioned(p) && chk(p.msg) == p.chks
  }

  const EMPTY_CHECKSUM: nat := 65535

  predicate ClientChksum(chk: seq<byte> -> nat, p: Packet) {
    && p.flags.chk && Versioned(p)
    && (p.flags == GET || p.flags == GET.(chk := true) || p.chks == EMPTY_CHECKSUM)
    && ValidChksum(chk, p)
  }

  /** rprocess_request on packet p. `found` says whether the file can be opened. */
  function Process(file: seq<byte>, chk: seq<byte> -> nat, found: bool, s: Server, p: Packet): (Server, Verdict) {
    if !Confirmed(p) then
      InvalidNak(chk, s, p)
    else if s.mys != [] && p.msg != EMPTY then
      (s, Bad)
    else if p.flags.chk || s.chksum then
      if s.mys == [] then
        if !ValidChksum(chk, p) then (s.(chksum := true), Worse)
        else Numbered(file, chk, found, s.(chksum := true), p.(flags := p.flags.(chk := false)))
      else if !p.flags.chk || !ClientChksum(chk, p) then
        (s, Bad)
      else
        Numbered(file, chk, found, s, p.(flags := p.flags.(chk := false)))
    else
      Numbered(file, chk, found, s, p)
  }

  /** From the check of the sequence numbers on. */
  function Numbered(file: seq<byte>, chk: seq<byte> -> nat, found: bool, s: Server, p: Packet): (Server, Verdict) {
    if s.mys == [] then
      if p.seqn == 1 && p.ackn == 0 then Dispatch(file, chk, found, s, p) else (s, Refuse)
    else if !p.flags.nak && !(p.seqn == s.seq_ && p.ackn == s.ack) then
      (s, Reply)
    else if p.flags.nak then
      if s.ack == p.ackn then (s.(seq_ := Inc(s.seq_)), Reply) else InvalidNak(chk, s, p)
    else
      Dispatch(file, chk, found, s, p)
  }

  /** GET, ACK of data, ACK of the end, or none of these. */
  function Dispatch(file: seq<byte>, chk: seq<byte> -> nat, found: bool, s: Server, p: Packet): (Server, Verdict) {
    if p.flags == GET && s.mys == [] then
      if !found then (s, Refuse)
      else SndReply(chk, Pushed(s, Fresh(s.mys).(flags := DAT, msg := Payload(file, 0))))
    else if p.flags == ACK_DAT && s.mys != [] then
      if !found then (s, Refuse)
      else if Chunk(file, s.ack) == [] then SndReply(chk, Pushed(s, Fresh(s.mys).(flags := FIN)))
      else SndReply(chk, Pushed(s, Fresh(s.mys).(flags := DAT, msg := Payload(file, s.ack))))
    else if p.flags == ACK_FIN && s.mys != []
            && (s.mys[|s.mys| - 1].flags == FIN || s.mys[|s.mys| - 1].flags == FIN.(chk := true)) then
      (Snd(chk, Pushed(s, Fresh(s.mys).(flags := ACK_FIN, ackn := s.seq_))), Refuse)
    else
      InvalidNak(chk, s, p)
  }

  /** A packet appended, and both counters advanced. */
  function Pushed(s: Server, p: Packet): Server {
    s.(mys := s.mys + [p], ack := Inc(s.ack), seq_ := Inc(s.seq_))
  }

  // ----- the client

  /** The client's current packet (numbered by its own queue), the sequence number
      it waits for, and the packets it has accepted and written out. */
  datatype Client = Client(
    mine: Packet, track: nat, got: seq<Packet>, chksum: bool, misbehaved: bool, stopped: bool)

  /** The packet that the loop sends next: numbered after the last, with a
      checksum if the client uses them. */
  function Answer(chk: seq<byte> -> nat, c: Client, flags: Flags): Packet {
    var p := Packet(Inc(c.mine.seqn), c.track, 0, flags, EMPTY);
    if c.chksum then Sealed(chk, p) else p
  }

  /** Label INVALID_NAK of the client. */
  function Nak(chk: seq<byte> -> nat, c: Client): Client {
    c.(mine := Answer(chk, c, if c.misbehaved then DAT_NAK else NONE.(nak := true)))
  }

  function Accept(chk: seq<byte> -> nat, c: Client, p: Packet, flags: Flags): Client {
    c.(mine := Answer(chk, c, flags), track := Inc(c.track), got := c.got + [p])
  }

  /** One round of the client's loop, for a received packet. `misbehave` is the
      coin that the -m option throws. */
  function Receive(chk: seq<byte> -> nat, misbehave: bool, c: Client, r: Packet): Client {
    if c.chksum && !ValidChksum(chk, r) then
      Nak(chk, c)
    else
      var p := r.(flags := r.flags.(chk := false));
      if !(p.flags.fin && Versioned(p)) && misbehave && c.track > 1 then
        Nak(chk, c.(misbehaved := true))
      else if p.flags == ACK_FIN && p.ackn == c.mine.seqn then
        c.(stopped := true)
      else if p.flags == FIN && p.seqn == c.track then
        Accept(chk, c, p, ACK_FIN)
      else if p.flags == DAT && p.seqn == c.track then
        Accept(chk, c, p, ACK_DAT)
      else
        Nak(chk, c)
  }
}
