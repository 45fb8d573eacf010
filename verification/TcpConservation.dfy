/** What the stash and the replay keep, for every packet, flag byte and direction. */
module TcpConservation {
  import opened Common
  import opened SeqNum
  import opened TcpModel

  ghost function Bag(packets: seq<Packet>): multiset<Segment> {
    if packets == [] then multiset{}
    else Bag(packets[..|packets| - 1]) + multiset{packets[|packets| - 1].seg}
  }

  /** Every segment the session has ever taken or still keeps. */
  ghost function Held(s: State): multiset<Segment> {
    Bag(s.log) + StashBag(s.stash)
  }

  /** Nothing is lost or duplicated: what was accepted plus what waits is what was there plus the arrival. */
  lemma {:induction false} DecodeConserves(s: State, side: Side, seg: Segment)
    ensures Held(DecodeStream(s, side, seg)) == Held(s) + multiset{seg}
    decreases StashSize(s.stash) + 1, 0, 0
  {
    if !s.Accepts(side, seg) {
      StashBagAdd(s.stash, Sub(seg.seqNo, s.Of(side).base), seg);
    } else {
      var a := s.Accept(side, seg);
      var key := a.Of(side).next;
      assert a.log[..|a.log| - 1] == s.log;
      if key in a.stash {
        StashBagRemove(a.stash, key);
        ReplayConserves(a.Open(key, seg), side, a.stash[key]);
      }
    }
  }

  lemma ChainBag(chain: seq<Segment>)
    requires chain != []
    ensures multiset(chain) == multiset{chain[0]} + multiset(chain[1..])
  {
    assert chain == [chain[0]] + chain[1..];
  }

  lemma {:induction false} ReplayConserves(s: State, side: Side, chain: seq<Segment>)
    ensures Held(Replay(s, side, chain)) == Held(s) + multiset(chain)
    decreases StashSize(s.stash) + |chain|, 1, |chain|
  {
    hide DecodeStream;
    if chain != [] {
      ChainBag(chain);
      DecodeConserves(s, side, chain[0]);
      ReplayConserves(DecodeStream(s, side, chain[0]), side, chain[1..]);
    }
  }

  /** Over a whole session, every segment that arrived was accepted once or still waits once. */
  lemma {:induction false} RunConserves(packets: seq<Packet>)
    ensures Held(Run(NEW_STATE, packets)) == Bag(packets)
  {
    if packets != [] {
      var n := |packets| - 1;
      RunConserves(packets[..n]);
      var s := Run(NEW_STATE, packets[..n]).(buf := None);
      DecodeConserves(s, packets[n].side, packets[n].seg);
    }
  }

  /** The stash never holds the very segment its sender is waiting for. */
  lemma {:induction false} NextNeverStashed(s: State, side: Side, seg: Segment)
    ensures var r := DecodeStream(s, side, seg);
            s.Accepts(side, seg) || s.Of(side).next !in s.stash ==> r.Of(side).next !in r.stash
    decreases StashSize(s.stash) + 1, 0, 0
  {
    if s.Accepts(side, seg) {
      var a := s.Accept(side, seg);
      var key := a.Of(side).next;
      if key in a.stash {
        StashBagRemove(a.stash, key);
        NextNeverStashedReplay(a.Open(key, seg), side, a.stash[key]);
      }
    }
  }

  lemma {:induction false} NextNeverStashedReplay(s: State, side: Side, chain: seq<Segment>)
    requires s.Of(side).next !in s.stash
    ensures var r := Replay(s, side, chain); r.Of(side).next !in r.stash
    decreases StashSize(s.stash) + |chain|, 1, |chain|
  {
    if chain != [] {
      NextNeverStashed(s, side, chain[0]);
      NextNeverStashedReplay(DecodeStream(s, side, chain[0]), side, chain[1..]);
    }
  }

  lemma TakeLeavesPeer(t: Tracker, side: Side, seg: Segment)
    ensures t.Take(side, seg).Of(side.Peer()) == t.Of(side.Peer())
  {
  }

  /** A decode call only extends the log, with segments taken for its own sender, and leaves the peer alone. */
  lemma {:induction false} DecodeExtends(s: State, side: Side, seg: Segment)
    ensures var r := DecodeStream(s, side, seg);
            && s.log <= r.log
            && (forall i :: |s.log| <= i < |r.log| ==> r.log[i].side == side)
            && (s.Accepts(side, seg) ==> |s.log| < |r.log|)
            && r.Of(side.Peer()) == s.Of(side.Peer())
    decreases StashSize(s.stash) + 1, 0, 0
  {
    if s.Accepts(side, seg) {
      var a := s.Accept(side, seg);
      var key := a.Of(side).next;
      TakeLeavesPeer(s.trk, side, seg);
      if key in a.stash {
        StashBagRemove(a.stash, key);
        ReplayExtends(a.Open(key, seg), side, a.stash[key]);
      }
    }
  }

  lemma {:induction false} ReplayExtends(s: State, side: Side, chain: seq<Segment>)
    ensures var r := Replay(s, side, chain);
            && s.log <= r.log
            && (forall i :: |s.log| <= i < |r.log| ==> r.log[i].side == side)
            && r.Of(side.Peer()) == s.Of(side.Peer())
    decreases StashSize(s.stash) + |chain|, 1, |chain|
  {
    if chain != [] {
      DecodeExtends(s, side, chain[0]);
      ReplayExtends(DecodeStream(s, side, chain[0]), side, chain[1..]);
    }
  }

  lemma {:induction false} BagSize(log: seq<Packet>)
    ensures |Bag(log)| == |log|
  {
    if log != [] {
      BagSize(log[..|log| - 1]);
    }
  }

  /**
   An accepted packet leaves the stash as it was exactly when the sender's new
   `next` is not a key of it: any chain it touches is moved, whoever stashed it.
   */
  lemma {:induction false} StashUntouchedIff(s: State, side: Side, seg: Segment)
    requires s.Accepts(side, seg)
    ensures DecodeStream(s, side, seg).stash == s.stash
            <==> s.Accept(side, seg).Of(side).next !in s.stash
  {
    var r := DecodeStream(s, side, seg);
    var key := s.Accept(side, seg).Of(side).next;
    if key in s.stash && r.stash == s.stash {
      NextNeverStashed(s, side, seg);
      DecodeConserves(s, side, seg);
      DecodeExtends(s, side, seg);
      BagSize(s.log);
      BagSize(r.log);
      assert |Held(r)| == |Held(s)| + 1;
      OneAcceptKeepsNext(s, side, seg);
    }
  }

  /** A call that accepted nothing but the arriving segment ends with the `next` that segment gave. */
  lemma OneAcceptKeepsNext(s: State, side: Side, seg: Segment)
    requires s.Accepts(side, seg)
    requires |DecodeStream(s, side, seg).log| == |s.log| + 1
    ensures DecodeStream(s, side, seg).Of(side) == s.Accept(side, seg).Of(side)
  {
    var a := s.Accept(side, seg);
    var key := a.Of(side).next;
    if key in a.stash {
      NoAcceptKeepsStreams(a.Open(key, seg), side, a.stash[key]);
    }
  }

  lemma {:induction false} NoAcceptKeepsStreams(s: State, side: Side, chain: seq<Segment>)
    requires |Replay(s, side, chain).log| == |s.log|
    ensures Replay(s, side, chain).Of(side) == s.Of(side)
    decreases |chain|
  {
    if chain != [] {
      DecodeExtends(s, side, chain[0]);
      ReplayExtends(DecodeStream(s, side, chain[0]), side, chain[1..]);
      NoAcceptKeepsStreams(DecodeStream(s, side, chain[0]), side, chain[1..]);
    }
  }
}
