/**
 From flag bytes on the wire to connection states: which bits of a frame reach its session, and
 that a handshake and two FINs, written with the numbers of the TCP header (section 3.1 of
 RFC 9293), make a connection established and closed, whatever else is on the wire.
 */
module TcpWire {
  import opened Common
  import opened SeqNum
  import opened TcpModel
  import opened TcpLifecycle
  import opened TcpTable

  predicate Bit(flags: bv8, bit: bv8) {
    flags & bit != 0
  }

  /** SYN, ACK and FIN as said, no RST; the other bits are anything. */
  predicate Control(f: Frame, syn: bool, ack: bool, fin: bool) {
    && Bit(f.seg.flags, 0x02) == syn && Bit(f.seg.flags, 0x10) == ack && Bit(f.seg.flags, 0x01) == fin
    && !Bit(f.seg.flags, 0x04)
  }

  lemma MaskedBits(seg: Segment)
    ensures var r := Masked(seg);
            && r.seqNo == seg.seqNo && r.data == seg.data
            && (forall bit :: bit in {0x01, 0x02, 0x04, 0x10} ==> (Bit(r.flags, bit) <==> Bit(seg.flags, bit)))
            && (forall bit :: bit in {0x08, 0x20, 0x40, 0x80} ==> !Bit(r.flags, bit))
  {
  }

  /**
   The packets a session is made of are its frames: number and payload as sent, FIN, SYN, RST and ACK
   set exactly if they are in the frame, and the other bits clear.
   */
  lemma {:induction false} FlagsPassed(xs: seq<Input>, key: Key, i: nat)
    requires i < |Own(xs, key)|
    ensures key in HandleAll(xs)
    ensures var packets := Directed(Own(xs, key));
            var sent, got := Own(xs, key)[i].seg, packets[i].seg;
            && HandleAll(xs)[key].state == Run(NEW_STATE, packets)
            && got.seqNo == sent.seqNo && got.data == sent.data
            && (forall bit :: bit in {0x01, 0x02, 0x04, 0x10} ==> (Bit(got.flags, bit) <==> Bit(sent.flags, bit)))
            && (forall bit :: bit in {0x08, 0x20, 0x40, 0x80} ==> !Bit(got.flags, bit))
  {
    hide Run, Masked, Bit;
    Demultiplexes(xs, key);
    MaskedBits(Own(xs, key)[i].seg);
  }

  lemma ControlFlags(f: Frame, syn: bool, ack: bool, fin: bool)
    requires Control(f, syn, ack, fin)
    ensures var flags := Masked(f.seg).flags;
            && (syn && !ack && !fin ==> flags == SYN)
            && (syn && ack && !fin ==> flags == SYN | ACK)
            && (!syn && ack && !fin ==> flags == ACK)
            && (HasFin(flags) <==> fin)
  {
  }

  // ---------------------------------------------------------------- a connection

  /** SYN from one end, SYN and ACK from the other, ACK from the first behind its SYN. */
  predicate Handshake(own: seq<Frame>) {
    && |own| >= 3 && own[0].src != own[0].dst
    && Control(own[0], true, false, false)
    && own[1].src == own[0].dst && Control(own[1], true, true, false)
    && own[2].src == own[0].src && Control(own[2], false, true, false)
    && own[2].seg.seqNo == Add(own[0].seg.seqNo, 1 + |own[0].seg.data|)
  }

  /** Then a FIN from either end and one from the other, each next in its stream. */
  predicate Farewell(own: seq<Frame>) {
    && Handshake(own) && |own| == 5
    && Bit(own[3].seg.flags, 0x01) && Bit(own[4].seg.flags, 0x01)
    && own[3].src in {own[0].src, own[0].dst} && own[4].src in {own[0].src, own[0].dst} && own[3].src != own[4].src
    && forall i :: 3 <= i < 5 ==>
         own[i].seg.seqNo == if own[i].src == own[0].src
                             then Add(own[2].seg.seqNo, |own[2].seg.data|)
                             else Add(own[1].seg.seqNo, 1 + |own[1].seg.data|)
  }

  /** A packet in order with nothing waiting just moves the tracker. */
  lemma InOrder(s: State, p: Packet)
    requires s.stash == map[] && s.Accepts(p.side, p.seg)
    ensures var r := Decode(s, p.side, p.seg); r.stash == map[] && r.trk == s.trk.Take(p.side, p.seg)
  {
  }

  /** The next packet of a run, if it is in order and nothing waits. */
  lemma Moves(packets: seq<Packet>, n: nat, t: Tracker)
    requires n < |packets| && t.Of(packets[n].side).Accepts(packets[n].seg.seqNo)
    requires var s := Run(NEW_STATE, packets[..n]); s.stash == map[] && s.trk == t
    ensures var r := Run(NEW_STATE, packets[..n + 1]);
            r.stash == map[] && r.trk == t.Take(packets[n].side, packets[n].seg)
  {
    hide Decode, Tracker.Take;
    assert packets[..n + 1][..n] == packets[..n];
    InOrder(Run(NEW_STATE, packets[..n]), packets[n]);
  }

  /** The tracker after the handshake. */
  function Shaken(own: seq<Frame>): Tracker
    requires |own| >= 3
  {
    var a, b, c := own[0].seg, own[1].seg, own[2].seg;
    Tracker(Stream(true, a.seqNo, Add(Add(1, |a.data|), |c.data|)), Stream(true, b.seqNo, Add(1, |b.data|)),
            None, Established, [EvEstablished])
  }

  lemma RelativeTo(base: u32, n: nat)
    ensures Sub(Add(base, n), base) == Add(0, n)
  {
  }

  /** The tracker after the first two. */
  function HalfOpen(own: seq<Frame>): Tracker
    requires |own| >= 3
  {
    var a, b := own[0].seg, own[1].seg;
    Tracker(Stream(true, a.seqNo, Add(1, |a.data|)), Stream(true, b.seqNo, Add(1, |b.data|)), None, SynAckSent, [])
  }

  lemma HandshakeTwo(own: seq<Frame>)
    requires Handshake(own)
    ensures var ps := Directed(own);
            var t := NEW_STATE.trk.Take(ps[0].side, ps[0].seg);
            && !t.Of(ps[1].side).hasBase && t.Take(ps[1].side, ps[1].seg) == HalfOpen(own)
  {
    hide Bit;
    ControlFlags(own[0], true, false, false);
    ControlFlags(own[1], true, true, false);
  }

  lemma HandshakeThird(own: seq<Frame>)
    requires Handshake(own)
    ensures var p := Directed(own)[2];
            && HalfOpen(own).Of(p.side).Accepts(p.seg.seqNo)
            && HalfOpen(own).Take(p.side, p.seg) == Shaken(own)
  {
    RelativeTo(own[0].seg.seqNo, 1 + |own[0].seg.data|);
    hide Bit;
    ControlFlags(own[2], false, true, false);
  }

  lemma HandshakeRun(own: seq<Frame>)
    requires Handshake(own)
    ensures var s := Run(NEW_STATE, Directed(own)[..3]); s.stash == map[] && s.trk == Shaken(own)
  {
    HandshakeLong(own);
    hide Run, Handshake, Tracker.Take, Shaken, HalfOpen, Masked;
    var ps := Directed(own);
    HandshakeTwo(own);
    HandshakeThird(own);
    EmptyRun(ps);
    Moves(ps, 0, NEW_STATE.trk);
    Moves(ps, 1, NEW_STATE.trk.Take(ps[0].side, ps[0].seg));
    Moves(ps, 2, HalfOpen(own));
  }

  lemma EmptyRun(packets: seq<Packet>)
    ensures Run(NEW_STATE, packets[..0]) == NEW_STATE
  {
  }

  /** A handshake establishes the connection, and nothing that follows takes it back. */
  lemma {:induction false} HandshakeEstablishes(xs: seq<Input>, key: Key)
    requires Handshake(Own(xs, key))
    ensures key in HandleAll(xs)
    ensures var e := HandleAll(xs)[key];
            && e.client == Own(xs, key)[0].src && e.server == Own(xs, key)[0].dst
            && e.state.trk.status.Rank() >= 3 && [EvEstablished] <= e.state.trk.events
            && (|Own(xs, key)| == 3 ==> e.state.trk.status == Established && e.state.trk.events == [EvEstablished])
  {
    hide Run, Handshake;
    var own := Own(xs, key);
    Demultiplexes(xs, key);
    HandshakeLong(own);
    HandshakeRun(own);
    SessionLifecycle(Directed(own), 3);
    if |own| == 3 {
      assert Directed(own)[..3] == Directed(own);
    }
  }

  lemma HandshakeLong(own: seq<Frame>)
    requires Handshake(own)
    ensures |own| >= 3
  {
  }

  lemma TakeFins(t: Tracker, first: Packet, second: Packet)
    requires t.status == Established && t.events == [EvEstablished]
    requires first.side != second.side && HasFin(first.seg.flags) && HasFin(second.seg.flags)
    ensures var t1 := t.Take(first.side, first.seg);
            var t2 := t1.Take(second.side, second.seg);
            && t1.Of(second.side) == t.Of(second.side)
            && t2.status == Closed && t2.events == [EvEstablished, EvClosed]
  {
    hide Add, HasFin;
  }

  lemma FarewellFins(own: seq<Frame>)
    requires Farewell(own)
    ensures var ps := Directed(own);
            && |ps| == 5 && ps[..5] == ps && ps[3].side != ps[4].side
            && HasFin(ps[3].seg.flags) && HasFin(ps[4].seg.flags)
            && Shaken(own).Of(ps[3].side).Accepts(ps[3].seg.seqNo)
            && Shaken(own).Of(ps[4].side).Accepts(ps[4].seg.seqNo)
  {
    FinFlags(own[3]);
    FinFlags(own[4]);
    NextOf(own, 3);
    NextOf(own, 4);
    hide Shaken, Bit, HasFin, Stream.Accepts, Control;
  }

  lemma FarewellRun(own: seq<Frame>)
    requires Farewell(own)
    ensures var t := Run(NEW_STATE, Directed(own)).trk; t.status == Closed && t.events == [EvEstablished, EvClosed]
  {
    FarewellLong(own);
    assert Shaken(own).status == Established && Shaken(own).events == [EvEstablished];
    hide Run, Tracker.Take, Farewell, Handshake, HasFin, Masked, Shaken, Stream.Accepts;
    var ps := Directed(own);
    HandshakeRun(own);
    FarewellFins(own);
    TakeFins(Shaken(own), ps[3], ps[4]);
    Moves(ps, 3, Shaken(own));
    Moves(ps, 4, Shaken(own).Take(ps[3].side, ps[3].seg));
  }

  lemma FinFlags(f: Frame)
    requires Bit(f.seg.flags, 0x01)
    ensures HasFin(Masked(f.seg).flags)
  {
  }

  /** Each FIN is next in its stream. */
  lemma NextOf(own: seq<Frame>, i: nat)
    requires Farewell(own) && 3 <= i < 5
    ensures Shaken(own).Of(Directed(own)[i].side).Accepts(own[i].seg.seqNo)
  {
    var a, b, c := own[0].seg, own[1].seg, own[2].seg;
    if own[i].src == own[0].src {
      AddTwice(a.seqNo, 1 + |a.data|, |c.data|);
      RelativeTo(a.seqNo, 1 + |a.data| + |c.data|);
      AddTwice(1, |a.data|, |c.data|);
    } else {
      RelativeTo(b.seqNo, 1 + |b.data|);
    }
  }

  /** Two FINs in order, from either end first, close it. */
  lemma {:induction false} FarewellCloses(xs: seq<Input>, key: Key)
    requires Farewell(Own(xs, key))
    ensures key in HandleAll(xs)
    ensures var t := HandleAll(xs)[key].state.trk; t.status == Closed && t.events == [EvEstablished, EvClosed]
  {
    hide Run, Farewell;
    Demultiplexes(xs, key);
    FarewellRun(Own(xs, key));
    FarewellLong(Own(xs, key));
  }

  lemma FarewellLong(own: seq<Frame>)
    requires Farewell(own)
    ensures |own| == 5 && Handshake(own)
  {
  }
}
