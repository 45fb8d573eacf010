/**
 Sequence shift invariance, a property of two runs: adding one constant modulo
 2^32 to every sequence number of both directions changes nothing but those numbers.
 */
module TcpShift {
  import opened Common
  import opened SeqNum
  import opened TcpModel

  function Shift(seg: Segment, c: u32): Segment {
    seg.(seqNo := Add(seg.seqNo, c))
  }

  function ShiftChain(chain: seq<Segment>, c: u32): (r: seq<Segment>)
    ensures |r| == |chain|
    ensures forall i :: 0 <= i < |chain| ==> r[i] == Shift(chain[i], c)
  {
    seq(|chain|, i requires 0 <= i < |chain| => Shift(chain[i], c))
  }

  function ShiftPackets(packets: seq<Packet>, c: u32): (r: seq<Packet>)
    ensures |r| == |packets|
    ensures forall i :: 0 <= i < |packets| ==> r[i] == Packet(packets[i].side, Shift(packets[i].seg, c))
  {
    seq(|packets|, i requires 0 <= i < |packets| => Packet(packets[i].side, Shift(packets[i].seg, c)))
  }

  function ShiftStream(x: Stream, c: u32): Stream {
    if x.hasBase then x.(base := Add(x.base, c)) else x
  }

  function ShiftTracker(t: Tracker, c: u32): Tracker {
    t.(client := ShiftStream(t.client, c), server := ShiftStream(t.server, c))
  }

  function ShiftStash(stash: Stash, c: u32): Stash {
    map key | key in stash :: ShiftChain(stash[key], c)
  }

  /** Only bases and the numbers inside segments move; keys, status, events and bytes do not. */
  function ShiftState(s: State, c: u32): State {
    s.(trk := ShiftTracker(s.trk, c), stash := ShiftStash(s.stash, c), log := ShiftPackets(s.log, c))
  }

  lemma ShiftTake(t: Tracker, side: Side, seg: Segment, c: u32)
    ensures ShiftTracker(t, c).Take(side, Shift(seg, c)) == ShiftTracker(t.Take(side, seg), c)
  {
    hide Add, HasFin;
  }

  lemma ShiftAccept(s: State, side: Side, seg: Segment, c: u32)
    ensures ShiftState(s, c).Accepts(side, Shift(seg, c)) == s.Accepts(side, seg)
    ensures ShiftState(s, c).Accept(side, Shift(seg, c)) == ShiftState(s.Accept(side, seg), c)
  {
    ShiftTake(s.trk, side, seg, c);
    SubShift(seg.seqNo, s.Of(side).base, c);
    assert ShiftPackets(s.log + [Packet(side, seg)], c) == ShiftPackets(s.log, c) + [Packet(side, Shift(seg, c))];
  }

  lemma ShiftKeep(s: State, side: Side, seg: Segment, c: u32)
    requires !s.Accepts(side, seg)
    ensures ShiftState(s, c).Keep(side, Shift(seg, c)) == ShiftState(s.Keep(side, seg), c)
  {
    var key := Sub(seg.seqNo, s.Of(side).base);
    SubShift(seg.seqNo, s.Of(side).base, c);
    var chain := if key in s.stash then s.stash[key] else [];
    assert ShiftChain(chain + [seg], c) == ShiftChain(chain, c) + [Shift(seg, c)];
    assert ShiftStash(Stashed(s.stash, key, seg), c) == Stashed(ShiftStash(s.stash, c), key, Shift(seg, c));
  }

  lemma ShiftOpen(s: State, key: u32, seg: Segment, c: u32)
    ensures ShiftState(s, c).Open(key, Shift(seg, c)) == ShiftState(s.Open(key, seg), c)
  {
    assert ShiftStash(s.stash, c) - {key} == ShiftStash(s.stash - {key}, c);
  }

  lemma {:induction false} ShiftDecode(s: State, side: Side, seg: Segment, c: u32)
    ensures DecodeStream(ShiftState(s, c), side, Shift(seg, c)) == ShiftState(DecodeStream(s, side, seg), c)
    decreases StashSize(s.stash) + 1, 0, 0
  {
    ShiftAccept(s, side, seg, c);
    if !s.Accepts(side, seg) {
      ShiftKeep(s, side, seg, c);
    } else {
      var a := s.Accept(side, seg);
      var key := a.Of(side).next;
      if key in a.stash {
        StashBagRemove(a.stash, key);
        ShiftOpen(a, key, seg, c);
        ShiftReplay(a.Open(key, seg), side, a.stash[key], c);
      }
    }
  }

  lemma {:induction false} ShiftReplay(s: State, side: Side, chain: seq<Segment>, c: u32)
    ensures Replay(ShiftState(s, c), side, ShiftChain(chain, c)) == ShiftState(Replay(s, side, chain), c)
    decreases StashSize(s.stash) + |chain|, 1, |chain|
  {
    hide DecodeStream, ShiftState;
    if chain != [] {
      ShiftDecode(s, side, chain[0], c);
      ShiftReplay(DecodeStream(s, side, chain[0]), side, chain[1..], c);
      assert ShiftChain(chain, c)[1..] == ShiftChain(chain[1..], c);
    }
  }

  /** The two runs stay the same up to the constant, from the first packet to the last. */
  lemma {:induction false} ShiftRun(packets: seq<Packet>, c: u32)
    ensures Run(NEW_STATE, ShiftPackets(packets, c)) == ShiftState(Run(NEW_STATE, packets), c)
  {
    if packets == [] {
      assert ShiftStash(map[], c) == map[];
      assert ShiftPackets([], c) == [];
    } else {
      var n := |packets| - 1;
      ShiftRun(packets[..n], c);
      assert ShiftPackets(packets, c)[..n] == ShiftPackets(packets[..n], c);
      ShiftDecode(Run(NEW_STATE, packets[..n]).(buf := None), packets[n].side, packets[n].seg, c);
    }
  }

  /** What a user can observe is the same: status, events, stash keys, relative positions and delivered bytes. */
  lemma {:induction false} ShiftInvisible(packets: seq<Packet>, c: u32)
    ensures var r, r' := Run(NEW_STATE, packets), Run(NEW_STATE, ShiftPackets(packets, c));
            && r'.trk.status == r.trk.status && r'.trk.events == r.trk.events && r'.trk.closing == r.trk.closing
            && r'.trk.client.next == r.trk.client.next && r'.trk.server.next == r.trk.server.next
            && r'.stash.Keys == r.stash.Keys && r'.data == r.data && r'.buf == r.buf
            && |r'.log| == |r.log|
            && forall i :: 0 <= i < |r.log| ==>
                 r'.log[i].side == r.log[i].side && r'.log[i].seg.data == r.log[i].seg.data
  {
    hide Run;
    ShiftRun(packets, c);
  }
}
