/**
 What packets store under TCP.data: every segment accepted stores one value, which is all payload
 its packet has released so far.
 */
module TcpBuffer {
  import opened Common
  import opened SeqNum
  import opened TcpModel
  import opened TcpConservation

  function Payload(log: seq<Packet>): seq<byte> {
    if log == [] then [] else Payload(log[..|log| - 1]) + log[|log| - 1].seg.data
  }

  /** One value per segment: the payload up to and including it. */
  function Growing(log: seq<Packet>): (values: seq<seq<byte>>)
    ensures |values| == |log|
  {
    seq(|log|, k requires 0 <= k < |log| => Payload(log[..k + 1]))
  }

  lemma GrowingSnoc(log: seq<Packet>, p: Packet)
    ensures Payload(log + [p]) == Payload(log) + p.seg.data
    ensures Growing(log + [p]) == Growing(log) + [Payload(log) + p.seg.data]
  {
    var more := log + [p];
    assert more[..|log|] == log && more[..|more|] == more;
    forall k | 0 <= k < |log|
      ensures Growing(more)[k] == Growing(log)[k]
    {
      assert more[..k + 1] == log[..k + 1];
    }
  }

  /** From segment `from` on the packet has stored growing values behind `before`, and its buffer holds all of it. */
  ghost predicate Filling(s: State, before: seq<seq<byte>>, from: nat) {
    && from <= |s.log|
    && s.buf == Some(Payload(s.log[from..]))
    && s.data == before + Growing(s.log[from..])
  }

  lemma AcceptFills(s: State, side: Side, seg: Segment, before: seq<seq<byte>>, from: nat)
    requires Filling(s, before, from)
    ensures Filling(s.Accept(side, seg), before, from)
  {
    hide Growing, Payload, Tracker.Take;
    var p := Packet(side, seg);
    assert (s.log + [p])[from..] == s.log[from..] + [p];
    GrowingSnoc(s.log[from..], p);
  }

  lemma {:induction false} DecodeFills(s: State, side: Side, seg: Segment, before: seq<seq<byte>>, from: nat)
    requires Filling(s, before, from)
    ensures Filling(DecodeStream(s, side, seg), before, from)
    decreases StashSize(s.stash) + 1, 0, 0
  {
    hide Growing, Payload, Tracker.Take;
    if s.Accepts(side, seg) {
      var a := s.Accept(side, seg);
      var key := a.Of(side).next;
      AcceptFills(s, side, seg, before, from);
      if key in a.stash {
        StashBagRemove(a.stash, key);
        ReplayFills(a.Open(key, seg), side, a.stash[key], before, from);
      }
    }
  }

  lemma {:induction false} ReplayFills(s: State, side: Side, chain: seq<Segment>, before: seq<seq<byte>>, from: nat)
    requires Filling(s, before, from)
    ensures Filling(Replay(s, side, chain), before, from)
    decreases StashSize(s.stash) + |chain|, 1, |chain|
  {
    hide Filling, DecodeStream;
    if chain != [] {
      DecodeFills(s, side, chain[0], before, from);
      ReplayFills(DecodeStream(s, side, chain[0]), side, chain[1..], before, from);
    }
  }

  /**
   Every packet adds one value per segment it makes acceptable, its own first and then the stashed
   ones in order; each value is the payload of the packet up to and including that segment.
   */
  lemma {:induction false} PacketDelivers(s: State, side: Side, seg: Segment)
    ensures var r := Decode(s, side, seg);
            && s.log <= r.log && r.data == s.data + Growing(r.log[|s.log|..])
            && (s.Accepts(side, seg) <==> |s.log| < |r.log|)
            && (s.Accepts(side, seg) ==> r.log[|s.log|] == Packet(side, seg))
  {
    var s1 := s.(buf := None);
    DecodeExtends(s1, side, seg);
    if s.Accepts(side, seg) {
      var a := s1.Accept(side, seg);
      FirstFills(s1, side, seg);
      var key := a.Of(side).next;
      if key in a.stash {
        ReplayFills(a.Open(key, seg), side, a.stash[key], s.data, |s.log|);
        ReplayExtends(a.Open(key, seg), side, a.stash[key]);
      }
    }
  }

  lemma FirstFills(s: State, side: Side, seg: Segment)
    requires s.buf == None
    ensures var a := s.Accept(side, seg);
            && a.data == s.data + Growing(a.log[|s.log|..])
            && forall key :: Filling(a.Open(key, seg), s.data, |s.log|)
  {
    var p := Packet(side, seg);
    assert (s.log + [p])[|s.log|..] == [] + [p];
    GrowingSnoc([], p);
    assert Payload([]) + seg.data == seg.data;
    assert Growing([]) == [] && [] + [seg.data] == [seg.data];
  }

  /** A packet out of order delivers nothing. */
  lemma {:induction false} PacketWaits(s: State, side: Side, seg: Segment)
    requires !s.Accepts(side, seg)
    ensures var r := Decode(s, side, seg);
            && r.data == s.data && r.log == s.log && r.trk == s.trk
            && StashBag(r.stash) == StashBag(s.stash) + multiset{seg}
  {
    StashBagAdd(s.stash, Sub(seg.seqNo, s.Of(side).base), seg);
  }

  // ---------------------------------------------------------------- whole runs

  /** How many segments the first `i` packets released. */
  function Released(packets: seq<Packet>, i: nat): nat
    requires i <= |packets|
  {
    |Run(NEW_STATE, packets[..i]).log|
  }

  /**
   Over a whole session the values are, packet by packet, the growing payloads of the segments that
   packet released; there is one value per accepted segment.
   */
  lemma {:induction false} RunDelivers(packets: seq<Packet>, i: nat)
    requires i < |packets|
    ensures var r, from, to := Run(NEW_STATE, packets), Released(packets, i), Released(packets, i + 1);
            && |r.data| == |r.log| && from <= to <= |r.log|
            && r.data[from..to] == Growing(r.log[from..to])
    decreases |packets|
  {
    hide Decode, Growing;
    var n := |packets| - 1;
    var s, p := Run(NEW_STATE, packets[..n]), packets[n];
    PacketDelivers(s, p.side, p.seg);
    OneValueEach(packets[..n]);
    assert packets[..n + 1] == packets;
    var r, from, to := Run(NEW_STATE, packets), Released(packets, i), Released(packets, i + 1);
    if i < n {
      assert packets[..n][..i] == packets[..i] && packets[..n][..i + 1] == packets[..i + 1];
      RunDelivers(packets[..n], i);
      assert r.data[from..to] == s.data[from..to] && r.log[from..to] == s.log[from..to];
    } else {
      assert r.log[from..to] == r.log[from..];
      assert r.data[from..to] == Growing(r.log[from..]);
    }
  }

  lemma {:induction false} OneValueEach(packets: seq<Packet>)
    ensures var r := Run(NEW_STATE, packets); |r.data| == |r.log|
  {
    if packets != [] {
      hide Decode, Growing;
      var n := |packets| - 1;
      OneValueEach(packets[..n]);
      PacketDelivers(Run(NEW_STATE, packets[..n]), packets[n].side, packets[n].seg);
    }
  }
}
