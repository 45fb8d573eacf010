/**
 What a packet of the other side does to segments that wait.  The stash is shared by both
 directions, so an accepted packet whose sender then waits for a key of the stash opens a chain
 that is not its own.  A peer with the same base reads on over the waiting slices and takes one
 copy of each.  A peer with another base refuses the chain, which goes to another key, where a
 later packet of the peer may yet take it.  It is said here exactly which slices one packet
 costs the sender.
 */
module TcpPeer {
  import opened Common
  import opened SeqNum
  import opened TcpModel
  import opened TcpConservation
  import opened TcpReassembly

  // ---------------------------------------------------------------- open streams

  /** True of every tracker a session can reach: a stream is open as soon as it has a base. */
  predicate Consistent(t: Tracker) {
    && (t.client.hasBase <==> t.status.Rank() >= 1)
    && (t.server.hasBase <==> t.status.Rank() >= 2)
    && (t.client.hasBase || t.client.next == 0)
    && (t.server.hasBase || t.server.next == 0)
  }

  lemma TakeConsistent(t: Tracker, side: Side, seg: Segment)
    requires Consistent(t)
    ensures Consistent(t.Take(side, seg))
  {
    hide Add;
  }

  lemma {:induction false} DecodeConsistent(s: State, side: Side, seg: Segment)
    requires Consistent(s.trk)
    ensures Consistent(DecodeStream(s, side, seg).trk)
    decreases StashSize(s.stash) + 1, 0, 0
  {
    hide Tracker.Take, Consistent;
    if s.Accepts(side, seg) {
      TakeConsistent(s.trk, side, seg);
      var a := s.Accept(side, seg);
      var key := a.Of(side).next;
      if key in a.stash {
        StashBagRemove(a.stash, key);
        ReplayConsistent(a.Open(key, seg), side, a.stash[key]);
      }
    }
  }

  lemma {:induction false} ReplayConsistent(s: State, side: Side, chain: seq<Segment>)
    requires Consistent(s.trk)
    ensures Consistent(Replay(s, side, chain).trk)
    decreases StashSize(s.stash) + |chain|, 1, |chain|
  {
    hide DecodeStream, Consistent;
    if chain != [] {
      DecodeConsistent(s, side, chain[0]);
      ReplayConsistent(DecodeStream(s, side, chain[0]), side, chain[1..]);
    }
  }

  lemma {:induction false} ReachableConsistent(packets: seq<Packet>)
    ensures var t := Run(NEW_STATE, packets).trk;
            Consistent(t) && forall side :: Opened(t, side) <==> t.Of(side).hasBase
  {
    if packets != [] {
      hide DecodeStream;
      var n := |packets| - 1;
      ReachableConsistent(packets[..n]);
      DecodeConsistent(Run(NEW_STATE, packets[..n]).(buf := None), packets[n].side, packets[n].seg);
    }
  }

  lemma TakeStaysOpen(t: Tracker, who: Side, seg: Segment, side: Side)
    requires Opened(t, side)
    ensures Opened(t.Take(who, seg), side) && t.Take(who, seg).Of(side).base == t.Of(side).base
  {
    hide Add;
  }

  /** An open stream stays open and keeps its base. */
  lemma {:induction false} DecodeStaysOpen(s: State, who: Side, seg: Segment, side: Side)
    requires Opened(s.trk, side)
    ensures var r := DecodeStream(s, who, seg); Opened(r.trk, side) && r.Of(side).base == s.Of(side).base
    decreases StashSize(s.stash) + 1, 0, 0
  {
    hide Tracker.Take, Opened;
    if s.Accepts(who, seg) {
      TakeStaysOpen(s.trk, who, seg, side);
      var a := s.Accept(who, seg);
      var key := a.Of(who).next;
      if key in a.stash {
        StashBagRemove(a.stash, key);
        ReplayStaysOpen(a.Open(key, seg), who, a.stash[key], side);
      }
    }
  }

  lemma {:induction false} ReplayStaysOpen(s: State, who: Side, chain: seq<Segment>, side: Side)
    requires Opened(s.trk, side)
    ensures var r := Replay(s, who, chain); Opened(r.trk, side) && r.Of(side).base == s.Of(side).base
    decreases StashSize(s.stash) + |chain|, 1, |chain|
  {
    hide DecodeStream, Opened;
    if chain != [] {
      DecodeStaysOpen(s, who, chain[0], side);
      ReplayStaysOpen(DecodeStream(s, who, chain[0]), who, chain[1..], side);
    }
  }

  // ---------------------------------------------------------------- a chain refused

  /** The stash with a whole chain put under one key. */
  function Restashed(stash: Stash, key: u32, chain: seq<Segment>): Stash {
    if chain == [] then stash else stash[key := (if key in stash then stash[key] else []) + chain]
  }

  lemma RestashOne(stash: Stash, key: u32, chain: seq<Segment>)
    requires chain != []
    ensures Restashed(Stashed(stash, key, chain[0]), key, chain[1..]) == Restashed(stash, key, chain)
  {
    var kept := if key in stash then stash[key] else [];
    assert kept + [chain[0]] + chain[1..] == kept + chain;
    if chain[1..] == [] {
      assert chain == [chain[0]];
    } else {
      assert Stashed(stash, key, chain[0])[key] == kept + [chain[0]];
    }
  }

  /** Copies of one segment number that a stream does not wait for all go back, under one key. */
  lemma {:induction false} RefusedAll(s: State, side: Side, chain: seq<Segment>, seqNo: u32)
    requires s.Of(side).hasBase && Sub(seqNo, s.Of(side).base) != s.Of(side).next
    requires forall i :: 0 <= i < |chain| ==> chain[i].seqNo == seqNo
    ensures Replay(s, side, chain) == s.(stash := Restashed(s.stash, Sub(seqNo, s.Of(side).base), chain))
    decreases |chain|
  {
    hide Sub, DecodeStream, Stashed;
    if chain != [] {
      hide Restashed;
      OneCall(s, side, chain[0]);
      RefusedAll(DecodeStream(s, side, chain[0]), side, chain[1..], seqNo);
      RestashOne(s.stash, Sub(seqNo, s.Of(side).base), chain);
    }
  }

  /** A peer with another base moves the chain at a border, whole, to another key. */
  lemma OtherBase(a: State, peer: Side, base: u32, seg: Segment, slices: Slices, j: nat)
    requires Cut(slices) && j <= |slices| && a.Of(peer).hasBase && a.Of(peer).base != base
    requires a.Of(peer).next == Key(slices, j) && Key(slices, j) in a.stash
    requires ChainOf(a.stash[Key(slices, j)], base, slices, j)
    ensures var key, n := Key(slices, j), Add(base, Key(slices, j));
            Sub(n, a.Of(peer).base) != key
            && Replay(a.Open(key, seg), peer, a.stash[key]).stash
               == Restashed(a.stash - {key}, Sub(n, a.Of(peer).base), a.stash[key])
  {
    var key, n := Key(slices, j), Add(base, Key(slices, j));
    SubAdd(base, key);
    SubApart(n, a.Of(peer).base, base);
    assert forall h :: 0 <= h < |a.stash[key]| ==> IsPiece(a.stash[key][h], base, slices, j);
    hide Key, Cut, Sub, Replay, Restashed;
    RefusedAll(a.Open(key, seg), peer, a.stash[key], n);
  }

  lemma {:induction false} CarryingNone(chain: seq<Segment>, seqNo: u32, other: u32)
    requires other != seqNo && forall i :: 0 <= i < |chain| ==> chain[i].seqNo == seqNo
    ensures Carrying(chain, other) == 0
  {
    if chain != [] {
      CarryingNone(chain[1..], seqNo, other);
    }
  }

  /** Wherever the chain goes, the moved slice is all that is lost. */
  lemma MovedCopies(stash: Stash, base: u32, slices: Slices, j: nat, key': u32, h: nat)
    requires Cut(slices) && j <= |slices| && h < |slices| && Key(slices, j) in stash && key' != Key(slices, j)
    requires ChainOf(stash[Key(slices, j)], base, slices, j)
    ensures Copies(Restashed(stash - {Key(slices, j)}, key', stash[Key(slices, j)]), base, slices, h)
            == if h == j then 0 else Copies(stash, base, slices, h)
  {
    var key := Key(slices, j);
    var chain, rest := stash[key], stash - {key};
    KeyOrdered(slices, h, j);
    if h != j {
      SubAdd(base, key);
      SubAdd(base, Key(slices, h));
      assert forall i :: 0 <= i < |chain| ==> IsPiece(chain[i], base, slices, j);
      CarryingNone(chain, Add(base, key), Add(base, Key(slices, h)));
      CarryingAppend(if key' in rest then rest[key'] else [], chain, Add(base, Key(slices, h)));
    }
  }

  // ---------------------------------------------------------------- a peer far apart

  /** Border `j` as a peer with base `base'` counts. */
  function Shifted(base: u32, base': u32, slices: Slices, j: nat): u32
    requires Cut(slices) && j <= |slices|
  {
    Sub(Add(base, Key(slices, j)), base')
  }

  /** No border of the stream is one as the peer counts. */
  ghost predicate Apart(base: u32, base': u32, slices: Slices)
    requires Cut(slices)
  {
    forall i: nat, j: nat :: i <= |slices| && j <= |slices| ==> Shifted(base, base', slices, j) != Key(slices, i)
  }

  /** The chains at borders are the same. */
  ghost predicate SameBorders(stash: Stash, stash': Stash, slices: Slices)
    requires Cut(slices)
  {
    forall i: nat :: i <= |slices| ==>
      var key := Key(slices, i);
      (key in stash <==> key in stash') && (key in stash ==> stash[key] == stash'[key])
  }

  ghost predicate Far(s: State, peer: Side, base: u32, slices: Slices)
    requires Cut(slices)
  {
    Opened(s.trk, peer) && Apart(base, s.Of(peer).base, slices) && Placed(s.stash, base, slices)
  }

  lemma ShiftedOn(base: u32, base': u32, n: u32, len: nat)
    requires n + len < 0x1_0000_0000
    ensures Add(Sub(Add(base, n), base'), len) == Sub(Add(base, n + len), base')
  {
    hide Add, Sub;
    AddAfterSub(Add(base, n), base', len);
    AddTwice(base, n, len);
  }

  /** A peer far apart that takes a piece goes on to a key that is no border. */
  lemma TakeForeign(t: Tracker, peer: Side, base: u32, seg: Segment, slices: Slices, j: nat)
    requires Cut(slices) && Opened(t, peer) && IsPiece(seg, base, slices, j) && t.Of(peer).Accepts(seg.seqNo)
    ensures Behind(seg, j) <= |slices|
    ensures var t' := t.Take(peer, seg);
            t'.Of(peer).next == Shifted(base, t.Of(peer).base, slices, Behind(seg, j))
  {
    OffOrdered(slices, Behind(seg, j), |slices|);
    ShiftedOn(base, t.Of(peer).base, Key(slices, j), |seg.data|);
    assert Key(slices, Behind(seg, j)) == Key(slices, j) + |seg.data|;
    hide Key, Sub, Cut, Off;
    assert t.Take(peer, seg).Of(peer).next == Add(t.Of(peer).next, |seg.data|);
  }

  lemma KeepForeign(s: State, peer: Side, base: u32, seg: Segment, slices: Slices)
    requires Cut(slices) && Far(s, peer, base, slices) && SomePiece(seg, base, slices)
    ensures Far(s.Keep(peer, seg), peer, base, slices) && SameBorders(s.stash, s.Keep(peer, seg).stash, slices)
  {
    var j: nat :| IsPiece(seg, base, slices, j);
    var key := Shifted(base, s.Of(peer).base, slices, j);
    assert key == Sub(seg.seqNo, s.Of(peer).base);
    hide Sub, Key, Cut, Placed, IsPiece, SomePiece;
    assert forall i: nat :: i <= |slices| ==> key != Key(slices, i);
    StashedPlaced(s.stash, base, slices, key, seg);
  }

  lemma AcceptForeign(s: State, peer: Side, base: u32, seg: Segment, slices: Slices)
    requires Cut(slices) && Far(s, peer, base, slices) && SomePiece(seg, base, slices) && s.Accepts(peer, seg)
    ensures var a := s.Accept(peer, seg);
            && Far(a, peer, base, slices)
            && forall i: nat :: i <= |slices| ==> a.Of(peer).next != Key(slices, i)
  {
    var j: nat :| IsPiece(seg, base, slices, j);
    hide Key, Cut, Placed, IsPiece, Tracker.Take, Opened, Shifted;
    TakeStaysOpen(s.trk, peer, seg, peer);
    TakeForeign(s.trk, peer, base, seg, slices, j);
  }

  lemma OpenForeign(s: State, peer: Side, base: u32, seg: Segment, slices: Slices, key: u32)
    requires Cut(slices) && Far(s, peer, base, slices) && key in s.stash
    ensures Far(s.Open(key, seg), peer, base, slices)
    ensures forall i :: 0 <= i < |s.stash[key]| ==> SomePiece(s.stash[key][i], base, slices)
    ensures (forall i: nat :: i <= |slices| ==> key != Key(slices, i)) ==>
              SameBorders(s.stash, s.Open(key, seg).stash, slices)
  {
    OpenPlaced(s.stash, base, slices, key);
  }

  /** Whatever a peer far apart does with pieces, it does not touch the chains at borders. */
  lemma {:induction false} DecodeForeign(s: State, peer: Side, base: u32, seg: Segment, slices: Slices)
    requires Cut(slices) && Far(s, peer, base, slices) && SomePiece(seg, base, slices)
    ensures var r := DecodeStream(s, peer, seg);
            Far(r, peer, base, slices) && SameBorders(s.stash, r.stash, slices)
    decreases StashSize(s.stash) + 1, 0, 0
  {
    hide Far, Cut, Key, SomePiece, DecodeStream, Replay, StashBag, Tracker.Take, Stream.Accepts;
    OneCall(s, peer, seg);
    if !s.Accepts(peer, seg) {
      KeepForeign(s, peer, base, seg, slices);
    } else {
      AcceptForeign(s, peer, base, seg, slices);
      var a := s.Accept(peer, seg);
      var key := a.Of(peer).next;
      if key in a.stash {
        StashBagRemove(a.stash, key);
        OpenForeign(a, peer, base, seg, slices, key);
        ReplayForeign(a.Open(key, seg), peer, base, a.stash[key], slices);
      }
    }
  }

  lemma {:induction false} ReplayForeign(s: State, peer: Side, base: u32, chain: seq<Segment>, slices: Slices)
    requires Cut(slices) && Far(s, peer, base, slices)
    requires forall i :: 0 <= i < |chain| ==> SomePiece(chain[i], base, slices)
    ensures var r := Replay(s, peer, chain);
            Far(r, peer, base, slices) && SameBorders(s.stash, r.stash, slices)
    decreases StashSize(s.stash) + |chain|, 1, |chain|
  {
    hide Far, Cut, Key, SomePiece, DecodeStream, StashBag;
    if chain != [] {
      DecodeForeign(s, peer, base, chain[0], slices);
      ReplayForeign(DecodeStream(s, peer, chain[0]), peer, base, chain[1..], slices);
    }
  }

  // ---------------------------------------------------------------- what one packet costs

  /** A packet of the other side that is taken at once and does not reach into the stash. */
  predicate Quiet(s: State, p: Packet) {
    s.Accepts(p.side, p.seg) && s.Accept(p.side, p.seg).Of(p.side).next !in s.stash
  }

  /** The stream a packet belongs to, once it has been taken. */
  function Taker(s: State, p: Packet): Stream {
    s.Accept(p.side, p.seg).Of(p.side)
  }

  /**
   The packet costs the sender slice `h`, which waits undelivered.  A peer with the same base must
   reach it over waiting slices and take the only copy; one with another base must go on to wait
   for its key.
   */
  ghost predicate Loses(s: State, p: Packet, side: Side, slices: Slices, h: nat)
    requires Cut(slices) && h < |slices|
  {
    var base, x := s.Of(side).base, Taker(s, p);
    && p.side != side && s.Of(side).next <= Key(slices, h)
    && if x.base == base then
         && Copies(s.stash, base, slices, h) == 1
         && exists i: nat :: i <= h && x.next == Key(slices, i) && RunOf(s.stash, base, slices, i, h)
       else Copies(s.stash, base, slices, h) >= 1 && x.next == Key(slices, h)
  }

  /** Copies of all the slices `i` to `h` wait. */
  ghost predicate RunOf(stash: Stash, base: u32, slices: Slices, i: nat, h: nat)
    requires Cut(slices) && h < |slices|
  {
    forall g: nat :: i <= g <= h ==> Copies(stash, base, slices, g) >= 1
  }

  /** The peer is open, and what it goes on to wait for is a border, or it is far apart. */
  ghost predicate Legible(s: State, p: Packet, base: u32, slices: Slices)
    requires Cut(slices)
  {
    && s.Accepts(p.side, p.seg)
    && (Quiet(s, p)
        || (Opened(s.Accept(p.side, p.seg).trk, p.side)
            && (AtBorder(Taker(s, p).next, slices) || Apart(base, Taker(s, p).base, slices))))
  }

  lemma QuietLosesNone(s: State, p: Packet, side: Side, slices: Slices, h: nat)
    requires Cut(slices) && h < |slices| && Quiet(s, p)
    ensures !Loses(s, p, side, slices, h)
  {
    hide Key, Cut, Tracker.Take, Carrying;
    forall i: nat | i <= h && RunOf(s.stash, s.Of(side).base, slices, i, h)
      ensures Key(slices, i) in s.stash
    {
      assert Copies(s.stash, s.Of(side).base, slices, i) >= 1;
    }
  }

  /** What a peer with the same base does to the copies at borders. */
  lemma SameBase(a: State, peer: Side, base: u32, seg: Segment, slices: Slices, i: nat) returns (m: nat)
    requires Cut(slices) && Reads(a, peer, base, slices, i) && Key(slices, i) in a.stash
    ensures var key := Key(slices, i);
            var r := Replay(a.Open(key, seg), peer, a.stash[key]);
            && Reads(r, peer, base, slices, m) && i <= m && r.stash.Keys <= a.stash.Keys
            && (m < |slices| ==> Copies(a.stash, base, slices, m) == 0)
            && forall h: nat :: h < |slices| ==>
                 Copies(r.stash, base, slices, h) + (if i <= h < m then 1 else 0) == Copies(a.stash, base, slices, h)
  {
    hide Key, Cut, Replay, Carrying, Placed, Opened, Delivered, Joined;
    var key := Key(slices, i);
    m := ReleaseChain(a, peer, base, seg, slices, i, i);
    NextNeverStashedReplay(a.Open(key, seg), peer, a.stash[key]);
  }

  lemma LosesSame(s: State, p: Packet, side: Side, slices: Slices, k: nat, i: nat, m: nat, h: nat)
    requires Cut(slices) && k <= |slices| && i <= m <= |slices| && i <= |slices| && h < |slices| && p.side != side
    requires s.Of(side).next == Key(slices, k)
    requires Taker(s, p).base == s.Of(side).base && Taker(s, p).next == Key(slices, i)
    requires i < m ==> RunOf(s.stash, s.Of(side).base, slices, i, m - 1)
    requires m < |slices| ==> Copies(s.stash, s.Of(side).base, slices, m) == 0
    ensures Loses(s, p, side, slices, h)
            <==> k <= h && i <= h < m && Copies(s.stash, s.Of(side).base, slices, h) == 1
  {
    hide Key, Cut, Copies, Tracker.Take;
    KeyOrdered(slices, k, h);
    forall g: nat | g <= |slices|
      ensures Key(slices, g) == Key(slices, i) <==> g == i
    {
      KeyOrdered(slices, g, i);
    }
  }

  lemma LosesOther(s: State, p: Packet, side: Side, slices: Slices, k: nat, h: nat)
    requires Cut(slices) && k <= |slices| && h < |slices| && p.side != side
    requires s.Of(side).next == Key(slices, k) && Taker(s, p).base != s.Of(side).base
    ensures Loses(s, p, side, slices, h)
            <==> k <= h && Copies(s.stash, s.Of(side).base, slices, h) >= 1 && Taker(s, p).next == Key(slices, h)
  {
    KeyOrdered(slices, k, h);
  }

  /** After the packet `p` the slices at hand are those before, without the ones it costs. */
  ghost predicate CostsLosses(s: State, p: Packet, side: Side, base: u32, slices: Slices, k: nat)
    requires Cut(slices)
  {
    forall h: nat :: h < |slices| ==>
      (Have(Decode(s, p.side, p.seg), base, slices, k, h)
       <==> Have(s, base, slices, k, h) && !Loses(s, p, side, slices, h))
  }

  lemma QuietStash(s: State, p: Packet)
    requires Quiet(s, p)
    ensures Decode(s, p.side, p.seg).stash == s.stash
  {
    OneCall(s.(buf := None), p.side, p.seg);
  }

  lemma CostQuiet(s: State, p: Packet, side: Side, base: u32, slices: Slices, k: nat)
    requires Cut(slices) && Quiet(s, p)
    ensures CostsLosses(s, p, side, base, slices, k)
  {
    hide Decode, Quiet, Loses, Copies, Cut;
    QuietStash(s, p);
    forall h: nat | h < |slices|
      ensures !Loses(s, p, side, slices, h)
    {
      QuietLosesNone(s, p, side, slices, h);
    }
  }

  /** The state in which an accepted packet that is not quiet has been taken. */
  function Taken(s: State, p: Packet): State {
    s.(buf := None).Accept(p.side, p.seg)
  }

  lemma NotQuiet(s: State, p: Packet)
    requires s.Accepts(p.side, p.seg) && !Quiet(s, p)
    ensures var a, key := Taken(s, p), Taker(s, p).next;
            && key in s.stash && a.stash == s.stash && a.Of(p.side) == Taker(s, p)
            && a.trk == s.Accept(p.side, p.seg).trk
            && Decode(s, p.side, p.seg) == Replay(a.Open(key, p.seg), p.side, a.stash[key])
  {
    hide DecodeStream, Replay, Tracker.Take;
    OneCall(s.(buf := None), p.side, p.seg);
  }

  lemma CostSame(s: State, p: Packet, side: Side, base: u32, slices: Slices, k: nat)
    requires Cut(slices) && Reads(s, side, base, slices, k) && p.side != side && Legible(s, p, base, slices)
    requires !Quiet(s, p) && Taker(s, p).base == base && AtBorder(Taker(s, p).next, slices)
    ensures CostsLosses(s, p, side, base, slices, k)
    ensures var r := Decode(s, p.side, p.seg); Placed(r.stash, base, slices) && r.stash.Keys <= s.stash.Keys
  {
    var i: nat :| i <= |slices| && Taker(s, p).next == Key(slices, i);
    NotFar(base, slices);
    hide Cut, Key, Decode, Placed, Copies, Loses, Opened, Tracker.Take, Quiet, Taker, Apart, AtBorder;
    NotQuiet(s, p);
    var a := Taken(s, p);
    var m := SameBase(a, p.side, base, p.seg, slices, i);
    forall h: nat | h < |slices|
      ensures Loses(s, p, side, slices, h) <==> k <= h && i <= h < m && Copies(s.stash, base, slices, h) == 1
    {
      LosesSame(s, p, side, slices, k, i, m, h);
    }
  }

  lemma NotFar(base: u32, slices: Slices)
    requires Cut(slices)
    ensures !Apart(base, base, slices)
  {
    SubAdd(base, Key(slices, 0));
    assert Shifted(base, base, slices, 0) == Key(slices, 0);
  }

  lemma CostMoved(s: State, p: Packet, side: Side, base: u32, slices: Slices, k: nat)
    requires Cut(slices) && Reads(s, side, base, slices, k) && p.side != side && Legible(s, p, base, slices)
    requires !Quiet(s, p) && Taker(s, p).base != base && AtBorder(Taker(s, p).next, slices)
    ensures CostsLosses(s, p, side, base, slices, k)
  {
    var i: nat :| i <= |slices| && Taker(s, p).next == Key(slices, i);
    NotQuiet(s, p);
    var a, key := Taken(s, p), Key(slices, i);
    var key' := Sub(Add(base, key), a.Of(p.side).base);
    assert a.Of(p.side).hasBase && ChainOf(s.stash[key], base, slices, i);
    hide Cut, Key, Decode, Replay, Placed, Copies, Loses, Opened, Tracker.Take, Quiet, Taker, Apart, Restashed, ChainOf;
    OtherBase(a, p.side, base, p.seg, slices, i);
    forall h: nat | h < |slices|
      ensures Have(Decode(s, p.side, p.seg), base, slices, k, h)
              <==> Have(s, base, slices, k, h) && !Loses(s, p, side, slices, h)
    {
      MovedCopies(s.stash, base, slices, i, key', h);
      LosesOther(s, p, side, slices, k, h);
      KeyOrdered(slices, h, i);
    }
  }

  lemma CostFar(s: State, p: Packet, side: Side, base: u32, slices: Slices, k: nat)
    requires Cut(slices) && Reads(s, side, base, slices, k) && p.side != side && Legible(s, p, base, slices)
    requires !Quiet(s, p) && Apart(base, Taker(s, p).base, slices)
    ensures CostsLosses(s, p, side, base, slices, k) && Placed(Decode(s, p.side, p.seg).stash, base, slices)
  {
    NotFar(base, slices);
    NotQuiet(s, p);
    var a, key := Taken(s, p), Taker(s, p).next;
    assert Far(a, p.side, base, slices);
    hide Cut, Key, Replay, Placed, Loses, Opened, Tracker.Take, Quiet, Taker, Apart, SomePiece, Carrying;
    OpenForeign(a, p.side, base, p.seg, slices, key);
    ReplayForeign(a.Open(key, p.seg), p.side, base, a.stash[key], slices);
    hide Decode;
    forall h: nat | h < |slices|
      ensures Have(Decode(s, p.side, p.seg), base, slices, k, h)
              <==> Have(s, base, slices, k, h) && !Loses(s, p, side, slices, h)
    {
      LosesOther(s, p, side, slices, k, h);
    }
  }

  /** What an accepted packet of the other side costs the sender, exactly. */
  lemma {:induction false} ForgottenExactly(s: State, p: Packet, side: Side, base: u32, slices: Slices, k: nat)
    requires Cut(slices) && Reads(s, side, base, slices, k) && p.side != side && Legible(s, p, base, slices)
    ensures CostsLosses(s, p, side, base, slices, k)
  {
    hide CostsLosses, Cut, Reads, Quiet, Apart, AtBorder, Taker;
    if Quiet(s, p) {
      CostQuiet(s, p, side, base, slices, k);
    } else if Apart(base, Taker(s, p).base, slices) {
      CostFar(s, p, side, base, slices, k);
    } else if Taker(s, p).base == base {
      CostSame(s, p, side, base, slices, k);
    } else {
      CostMoved(s, p, side, base, slices, k);
    }
  }
}
