/** Packets that arrive damaged: with checksums on, neither end takes anything from one,
    and a NAK brings both back in step. */
module RudpDamage {
  import opened RudpProtocol
  import opened RudpSafety
  import opened RudpSeals

  /** The checksum of p is not that of its message, or it has none. */
  predicate Damaged(chk: seq<byte> -> nat, p: Packet) {
    !p.flags.chk || chk(p.msg) != p.chks
  }

  /** A client that uses checksums accepts nothing from a damaged packet, does not stop,
      and asks for the packet it waits for. */
  lemma ClientIgnores(chk: seq<byte> -> nat, m: bool, c: Client, r: Packet)
    requires c.chksum && Damaged(chk, r)
    ensures var d := Receive(chk, m, c, r);
            && d.got == c.got && d.track == c.track && d.stopped == c.stopped && d.chksum == c.chksum
            && d.mine.flags.nak && !d.mine.flags.ack && d.mine.ackn == c.track && d.mine.seqn == Inc(c.mine.seqn)
  {}

  /** What the server finds bad leaves it as it was. */
  lemma BadChangesNothing(file: seq<byte>, chk: seq<byte> -> nat, found: bool, s: Server, p: Packet)
    ensures var (r, v) := Process(file, chk, found, s, p);
            v.Bad? ==> r == s
  {
    hide Payload, Chunk, Fresh, ValidChksum;
  }

  /** A session that uses checksums does not move on a damaged packet. */
  lemma ServerIgnores(file: seq<byte>, chk: seq<byte> -> nat, found: bool, s: Server, p: Packet)
    requires s.mys != [] && s.chksum && AllSealed(chk, s) && Damaged(chk, p)
    ensures var (r, v) := Process(file, chk, found, s, p);
            r == s && (v.Bad? || v.Reply?)
  {
    hide Payload, Chunk, Fresh;
    SndIdle(chk, s);
  }

  /** The server has sent one packet that the client has not accepted, and the client's
      next number is the one the server expects. */
  predicate Ahead(chk: seq<byte> -> nat, s: Server, c: Client) {
    && s.mys != [] && s.chksum == c.chksum && s.ack == c.track && s.seq_ == Inc(c.mine.seqn)
    && (s.chksum ==> chk(EMPTY) == EMPTY_CHECKSUM)
  }

  /** One damaged packet costs one round: the server answers the NAK with the same queue,
      and both are where they were. */
  lemma NakRound(file: seq<byte>, chk: seq<byte> -> nat, found: bool, s: Server, c: Client, damaged: Packet)
    requires Ahead(chk, s, c) && c.chksum && Damaged(chk, damaged)
    ensures var d := Receive(chk, false, c, damaged);
            var (r, v) := Process(file, chk, found, s, d.mine);
            && v.Reply? && r.mys == s.mys && Ahead(chk, r, d)
            && d.got == c.got && d.track == c.track
  {
    hide Payload, Chunk, Fresh;
    var d := Receive(chk, false, c, damaged);
    ClientIgnores(chk, false, c, damaged);
    assert d.mine.msg == EMPTY && d.mine.flags.chk && d.mine.chks == chk(EMPTY);
  }

  /** The packet that comes next is then accepted as if nothing had happened. */
  lemma AcceptedAfterDamage(chk: seq<byte> -> nat, c: Client, damaged: Packet, good: Packet)
    requires c.chksum && Damaged(chk, damaged) && ValidChksum(chk, good) && good.seqn == c.track
    requires HasFlags(good, DAT) || HasFlags(good, FIN)
    ensures var d := Receive(chk, false, Receive(chk, false, c, damaged), good);
            var e := Receive(chk, false, c, good);
            d.got == e.got == c.got + [good.(flags := good.flags.(chk := false))] && d.track == e.track
  {
    ClientIgnores(chk, false, c, damaged);
  }
}
