/**
 The TCP session tracker and reassembler of src/modules/tcp.cc on values.

 A session holds two streams, a six-state connection tracker and a stash of
 out-of-order segments keyed by relative sequence number.  The two histories
 `log` (segments accepted, in order) and `data` (values stored under TCP.data,
 in order) are observations the original hands to its Property object.
 */
module TcpModel {
  import opened Common
  import opened SeqNum

  datatype Side = Client | Server {
    function Peer(): Side {
      if this == Client then Server else Client
    }
  }

  datatype Status = Fresh | SynSent | SynAckSent | Established | Closing | Closed {
    function Rank(): nat {
      match this
      case Fresh => 0
      case SynSent => 1
      case SynAckSent => 2
      case Established => 3
      case Closing => 4
      case Closed => 5
    }
  }

  datatype Event = EvEstablished | EvClosed

  const FIN: bv8 := 0x01
  const SYN: bv8 := 0x02
  const ACK: bv8 := 0x10

  predicate HasFin(flags: bv8) {
    flags & FIN > 0
  }

  datatype Segment = Segment(seqNo: u32, flags: bv8, data: seq<byte>)

  datatype Packet = Packet(side: Side, seg: Segment)

  /** One direction of a connection; `next` is relative to `base`. */
  datatype Stream = Stream(hasBase: bool, base: u32, next: u32) {
    /** Stream::send answers true: no base yet, or the segment starts at `next`. */
    predicate Accepts(seqNo: u32) {
      hasBase ==> Sub(seqNo, base) == next
    }

    function Send(len: nat): Stream {
      if hasBase then this.(next := Add(next, len)) else this
    }

    function SetBase(seqNo: u32, len: nat): Stream {
      Stream(true, seqNo, Add(1, len))
    }

    function IncSeq(): Stream {
      this.(next := Add(next, 1))
    }
  }

  /** The part of a session that only accepted segments change. */
  datatype Tracker =
    Tracker(client: Stream, server: Stream, closing: Option<Side>, status: Status, events: seq<Event>)
  {
    function Of(side: Side): Stream {
      if side == Client then client else server
    }

    function Put(side: Side, x: Stream): Tracker {
      if side == Client then this.(client := x) else this.(server := x)
    }

    /** Session::trans_state. */
    function Transition(side: Side, seg: Segment): Tracker {
      match status
      case Fresh =>
        if seg.flags == SYN && side == Client then
          Put(side, Of(side).SetBase(seg.seqNo, |seg.data|)).(status := SynSent)
        else this
      case SynSent =>
        if seg.flags == SYN | ACK && side == Server then
          Put(side, Of(side).SetBase(seg.seqNo, |seg.data|)).(status := SynAckSent)
        else this
      case SynAckSent =>
        if seg.flags == ACK && side == Client then
          this.(status := Established, events := events + [EvEstablished])
        else this
      case Established =>
        if HasFin(seg.flags) then
          Put(side, Of(side).IncSeq()).(status := Closing, closing := Some(side))
        else this
      case Closing =>
        if HasFin(seg.flags) && closing != Some(side) then
          Put(side, Of(side).IncSeq()).(status := Closed, events := events + [EvClosed])
        else this
      case Closed => this
    }

    /** The effect of an accepted segment: Stream::send followed by trans_state. */
    function Take(side: Side, seg: Segment): Tracker {
      Put(side, Of(side).Send(|seg.data|)).Transition(side, seg)
    }
  }

  type Stash = map<u32, seq<Segment>>

  datatype State = State(trk: Tracker, stash: Stash, buf: Option<seq<byte>>, data: seq<seq<byte>>, log: seq<Packet>) {
    function Of(side: Side): Stream {
      trk.Of(side)
    }

    /** Whether `seg` would be taken now rather than stashed. */
    predicate Accepts(side: Side, seg: Segment) {
      Of(side).Accepts(seg.seqNo)
    }

    /** Keep a segment for later, behind those already waiting under its key. */
    function Keep(side: Side, seg: Segment): State {
      var key := Sub(seg.seqNo, Of(side).base);
      this.(stash := Stashed(stash, key, seg))
    }

    /** Take a segment: move the tracker, record it, store its data. */
    function Accept(side: Side, seg: Segment): State {
      var buf' := if buf.Some? then Some(buf.value + seg.data) else None;
      State(trk.Take(side, seg), stash, buf',
            data + [if buf.Some? then buf.value + seg.data else seg.data],
            log + [Packet(side, seg)])
    }

    /** Start the replay of the chain under `key`: it leaves the stash and `buf` exists. */
    function Open(key: u32, seg: Segment): State {
      this.(stash := stash - {key}, buf := if buf.Some? then buf else Some(seg.data))
    }
  }

  function Stashed(stash: Stash, key: u32, seg: Segment): Stash {
    stash[key := (if key in stash then stash[key] else []) + [seg]]
  }

  const NEW_STREAM := Stream(false, 0, 0)

  const NEW_STATE := State(Tracker(NEW_STREAM, NEW_STREAM, None, Fresh, []), map[], None, [], [])

  // ---------------------------------------------------------------- the stash as a bag

  ghost function StashBag(stash: Stash): multiset<Segment> {
    if stash == map[] then multiset{}
    else
      var key :| key in stash;
      multiset(stash[key]) + StashBag(stash - {key})
  }

  ghost function StashSize(stash: Stash): nat {
    |StashBag(stash)|
  }

  /** The bag does not depend on the order in which keys are visited. */
  lemma {:induction false} StashBagRemove(stash: Stash, key: u32)
    requires key in stash
    ensures StashBag(stash) == multiset(stash[key]) + StashBag(stash - {key})
    decreases |stash|
  {
    var k :| k in stash && StashBag(stash) == multiset(stash[k]) + StashBag(stash - {k});
    if k != key {
      StashBagRemove(stash - {k}, key);
      StashBagRemove(stash - {key}, k);
      assert stash - {k} - {key} == stash - {key} - {k};
    }
  }

  lemma StashBagAdd(stash: Stash, key: u32, seg: Segment)
    ensures StashBag(Stashed(stash, key, seg)) == StashBag(stash) + multiset{seg}
  {
    hide StashBag;
    var after := Stashed(stash, key, seg);
    StashBagRemove(after, key);
    assert after - {key} == stash - {key};
    if key in stash {
      StashBagRemove(stash, key);
    } else {
      assert stash - {key} == stash;
    }
  }

  // ---------------------------------------------------------------- decoding

  /** Session::decode_stream: stash the segment, or accept it and replay what it releases. */
  function DecodeStream(s: State, side: Side, seg: Segment): (r: State)
    ensures StashSize(r.stash) <= StashSize(s.stash) + 1
    decreases StashSize(s.stash) + 1, 0, 0
  {
    if !s.Accepts(side, seg) then
      StashBagAdd(s.stash, Sub(seg.seqNo, s.Of(side).base), seg);
      s.Keep(side, seg)
    else
      var a := s.Accept(side, seg);
      var key := a.Of(side).next;
      if key in a.stash then
        StashBagRemove(a.stash, key);
        Replay(a.Open(key, seg), side, a.stash[key])
      else
        a
  }

  /** The loop over a detached chain; a replayed segment may be stashed again. */
  function Replay(s: State, side: Side, chain: seq<Segment>): (r: State)
    ensures StashSize(r.stash) <= StashSize(s.stash) + |chain|
    decreases StashSize(s.stash) + |chain|, 1, |chain|
  {
    if chain == [] then s else Replay(DecodeStream(s, side, chain[0]), side, chain[1..])
  }

  /** Session::decode: a new packet starts without a reassembly buffer. */
  function Decode(s: State, side: Side, seg: Segment): State {
    DecodeStream(s.(buf := None), side, seg)
  }

  /** All packets of a session, oldest first. */
  function Run(s: State, packets: seq<Packet>): State {
    if packets == [] then s
    else
      var last := packets[|packets| - 1];
      Decode(Run(s, packets[..|packets| - 1]), last.side, last.seg)
  }
}
