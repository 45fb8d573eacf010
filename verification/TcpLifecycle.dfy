/**
 Connection tracking over whole sessions (sections 3.5 and 3.6 of RFC 9293,
 observed passively): what status, events, bases and `next` say about the
 segments accepted so far, replayed ones included.
 */
module TcpLifecycle {
  import opened Common
  import opened TcpModel

  /** The tracker after a list of accepted segments. */
  function Tracked(log: seq<Packet>): Tracker {
    if log == [] then NEW_STATE.trk
    else
      var last := log[|log| - 1];
      Tracked(log[..|log| - 1]).Take(last.side, last.seg)
  }

  // ---------------------------------------------------------------- reduction to the log

  lemma {:induction false} DecodeTracks(s: State, side: Side, seg: Segment)
    requires s.trk == Tracked(s.log)
    ensures var r := DecodeStream(s, side, seg); s.log <= r.log && r.trk == Tracked(r.log)
    decreases StashSize(s.stash) + 1, 0, 0
  {
    if s.Accepts(side, seg) {
      var a := s.Accept(side, seg);
      var key := a.Of(side).next;
      assert a.log[..|s.log|] == s.log;
      if key in a.stash {
        StashBagRemove(a.stash, key);
        ReplayTracks(a.Open(key, seg), side, a.stash[key]);
      }
    }
  }

  lemma {:induction false} ReplayTracks(s: State, side: Side, chain: seq<Segment>)
    requires s.trk == Tracked(s.log)
    ensures var r := Replay(s, side, chain); s.log <= r.log && r.trk == Tracked(r.log)
    decreases StashSize(s.stash) + |chain|, 1, |chain|
  {
    if chain != [] {
      DecodeTracks(s, side, chain[0]);
      ReplayTracks(DecodeStream(s, side, chain[0]), side, chain[1..]);
    }
  }

  /** After any run the tracker is a function of the accepted segments alone. */
  lemma {:induction false} RunTracks(packets: seq<Packet>)
    ensures var r := Run(NEW_STATE, packets); r.trk == Tracked(r.log)
  {
    if packets != [] {
      var n := |packets| - 1;
      RunTracks(packets[..n]);
      DecodeTracks(Run(NEW_STATE, packets[..n]).(buf := None), packets[n].side, packets[n].seg);
    }
  }

  lemma StepExtendsLog(packets: seq<Packet>)
    requires packets != []
    ensures Run(NEW_STATE, packets[..|packets| - 1]).log <= Run(NEW_STATE, packets).log
  {
    var m := |packets| - 1;
    RunTracks(packets[..m]);
    DecodeTracks(Run(NEW_STATE, packets[..m]).(buf := None), packets[m].side, packets[m].seg);
  }

  /** A longer run has a longer log. */
  lemma {:induction false} RunExtendsLog(packets: seq<Packet>, n: nat)
    requires n <= |packets|
    ensures Run(NEW_STATE, packets[..n]).log <= Run(NEW_STATE, packets).log
    decreases |packets|
  {
    if n < |packets| {
      var shorter := packets[..|packets| - 1];
      StepExtendsLog(packets);
      RunExtendsLog(shorter, n);
      assert shorter[..n] == packets[..n];
    } else {
      assert packets[..n] == packets;
    }
  }

  // ---------------------------------------------------------------- the handshake, read off the log

  predicate ClientSyn(p: Packet) { p.side == Client && p.seg.flags == SYN }
  predicate ServerSynAck(p: Packet) { p.side == Server && p.seg.flags == SYN | ACK }
  predicate ClientAck(p: Packet) { p.side == Client && p.seg.flags == ACK }
  predicate FinFrom(p: Packet, side: Side) { p.side == side && HasFin(p.seg.flags) }

  ghost predicate SawSyn(log: seq<Packet>) {
    exists i :: 0 <= i < |log| && ClientSyn(log[i])
  }

  ghost predicate SawSynAck(log: seq<Packet>) {
    exists i :: 0 <= i < |log| && ServerSynAck(log[i]) && SawSyn(log[..i])
  }

  ghost predicate SawHandshake(log: seq<Packet>) {
    exists i :: 0 <= i < |log| && ClientAck(log[i]) && SawSynAck(log[..i])
  }

  /** `side` sent a FIN after the three-way handshake. */
  ghost predicate SawFin(log: seq<Packet>, side: Side) {
    exists i :: 0 <= i < |log| && FinFrom(log[i], side) && SawHandshake(log[..i])
  }

  /** One side sent a FIN after the handshake, then the other did. */
  ghost predicate SawBothFins(log: seq<Packet>) {
    exists i, side :: 0 <= i < |log| && FinFrom(log[i], side) && SawFin(log[..i], side.Peer())
  }

  function EventsOf(status: Status): seq<Event> {
    if status.Rank() < 3 then [] else if status.Rank() < 5 then [EvEstablished] else [EvEstablished, EvClosed]
  }

  /** The six facts above as one value. */
  datatype Seen = Seen(syn: bool, synAck: bool, handshake: bool, finC: bool, finS: bool, bothFins: bool) {
    predicate Fin(side: Side) {
      if side == Client then finC else finS
    }

    predicate Step(p: Packet, after: Seen) {
      && (after.syn <==> syn || ClientSyn(p))
      && (after.synAck <==> synAck || (ServerSynAck(p) && syn))
      && (after.handshake <==> handshake || (ClientAck(p) && synAck))
      && (after.finC <==> finC || (FinFrom(p, Client) && handshake))
      && (after.finS <==> finS || (FinFrom(p, Server) && handshake))
      && (after.bothFins <==> bothFins || (HasFin(p.seg.flags) && Fin(p.side.Peer())))
    }

    /** What a status means, and who closed first. */
    predicate Means(t: Tracker) {
      && (t.status.Rank() >= 1 <==> syn)
      && (t.status.Rank() >= 2 <==> synAck)
      && (t.status.Rank() >= 3 <==> handshake)
      && (t.status.Rank() >= 4 <==> finC || finS)
      && (t.status == Closed <==> bothFins)
      && (t.status == Closing ==> t.closing.Some? && Fin(t.closing.value) && !Fin(t.closing.value.Peer()))
      && (t.status == Closed ==> finC && finS)
    }
  }

  ghost function SeenIn(log: seq<Packet>): Seen {
    Seen(SawSyn(log), SawSynAck(log), SawHandshake(log), SawFin(log, Client), SawFin(log, Server), SawBothFins(log))
  }

  lemma Prefixes(log: seq<Packet>, p: Packet)
    ensures forall i :: 0 <= i < |log| ==> (log + [p])[i] == log[i]
    ensures forall i :: 0 <= i <= |log| ==> (log + [p])[..i] == log[..i]
    ensures (log + [p])[|log|] == p && log[..|log|] == log
  {
  }

  lemma OpeningStep(log: seq<Packet>, p: Packet)
    ensures SawSyn(log + [p]) <==> SawSyn(log) || ClientSyn(p)
    ensures SawSynAck(log + [p]) <==> SawSynAck(log) || (ServerSynAck(p) && SawSyn(log))
  {
    Prefixes(log, p);
  }

  lemma HandshakeStep(log: seq<Packet>, p: Packet)
    ensures SawHandshake(log + [p]) <==> SawHandshake(log) || (ClientAck(p) && SawSynAck(log))
  {
    Prefixes(log, p);
  }

  lemma FinStep(log: seq<Packet>, p: Packet, side: Side)
    ensures SawFin(log + [p], side) <==> SawFin(log, side) || (FinFrom(p, side) && SawHandshake(log))
  {
    Prefixes(log, p);
  }

  lemma BothFinsStep(log: seq<Packet>, p: Packet)
    ensures SawBothFins(log + [p]) <==> SawBothFins(log) || (HasFin(p.seg.flags) && SawFin(log, p.side.Peer()))
  {
    Prefixes(log, p);
  }

  /** Each fact about a log with one more entry comes from the shorter log or from that entry. */
  lemma SawStep(log: seq<Packet>, p: Packet)
    ensures SeenIn(log).Step(p, SeenIn(log + [p]))
  {
    OpeningStep(log, p);
    HandshakeStep(log, p);
    FinStep(log, p, Client);
    FinStep(log, p, Server);
    BothFinsStep(log, p);
  }

  lemma MeansStep(t: Tracker, seen: Seen, p: Packet, after: Seen)
    requires seen.Means(t) && seen.Step(p, after)
    requires t.events == EventsOf(t.status)
    ensures after.Means(t.Take(p.side, p.seg))
    ensures t.Take(p.side, p.seg).events == EventsOf(t.Take(p.side, p.seg).status)
    ensures forall side :: CountsFin(t, p, side) <==> after.Fin(side) && !seen.Fin(side)
  {
  }

  /** The FIN of `side` that moves its `next`. */
  predicate CountsFin(t: Tracker, p: Packet, side: Side) {
    FinFrom(p, side) && (t.status == Established || (t.status == Closing && t.closing != Some(side)))
  }

  lemma {:induction false} StatusLaw(log: seq<Packet>)
    ensures SeenIn(log).Means(Tracked(log))
    ensures Tracked(log).events == EventsOf(Tracked(log).status)
  {
    if log != [] {
      var n := |log| - 1;
      StatusLaw(log[..n]);
      assert log == log[..n] + [log[n]];
      SawStep(log[..n], log[n]);
      MeansStep(Tracked(log[..n]), SeenIn(log[..n]), log[n], SeenIn(log));
    }
  }

  // ---------------------------------------------------------------- monotonicity

  lemma TakeForward(t: Tracker, side: Side, seg: Segment)
    ensures t.status.Rank() <= t.Take(side, seg).status.Rank() <= t.status.Rank() + 1
  {
  }

  lemma {:induction false} StatusForward(log: seq<Packet>, n: nat)
    requires n <= |log|
    ensures Tracked(log[..n]).status.Rank() <= Tracked(log).status.Rank()
    ensures forall x :: Tracked(log[..n]).Of(x).hasBase
                        ==> Tracked(log).Of(x).hasBase && Tracked(log).Of(x).base == Tracked(log[..n]).Of(x).base
    decreases |log|
  {
    if n < |log| {
      var m := |log| - 1;
      StatusForward(log[..m], n);
      assert log[..m][..n] == log[..n];
      BaseLaw(log[..m]);
    } else {
      assert log[..n] == log;
    }
  }

  /** A stream has a base exactly when its opening segment was accepted. */
  lemma {:induction false} BaseLaw(log: seq<Packet>)
    ensures var t := Tracked(log);
            && (t.client.hasBase <==> t.status.Rank() >= 1)
            && (t.server.hasBase <==> t.status.Rank() >= 2)
  {
    if log != [] {
      BaseLaw(log[..|log| - 1]);
    }
  }

  // ---------------------------------------------------------------- sequence accounting

  /** Payload bytes accepted from `side`. */
  function BytesFrom(log: seq<Packet>, side: Side): nat {
    if log == [] then 0
    else
      var n := |log| - 1;
      BytesFrom(log[..n], side) + (if log[n].side == side then |log[n].seg.data| else 0)
  }

  /** Entry `b` of the log is the segment that opened the stream of `side`. */
  ghost predicate OpenedAt(log: seq<Packet>, side: Side, b: nat) {
    && b < |log|
    && if side == Client then ClientSyn(log[b]) && !SawSyn(log[..b])
       else ServerSynAck(log[b]) && SawSyn(log[..b]) && !SawSynAck(log[..b])
  }

  lemma {:induction false} OpenedSomewhere(log: seq<Packet>, side: Side)
    requires Tracked(log).Of(side).hasBase
    ensures exists b: nat :: OpenedAt(log, side, b)
  {
    var n := |log| - 1;
    StatusLaw(log[..n]);
    StatusLaw(log);
    BaseLaw(log[..n]);
    BaseLaw(log);
    if Tracked(log[..n]).Of(side).hasBase {
      OpenedSomewhere(log[..n], side);
      var b: nat :| OpenedAt(log[..n], side, b);
      assert log[..n][..b] == log[..b];
      assert OpenedAt(log, side, b);
    } else {
      assert OpenedAt(log, side, n);
    }
  }

  lemma TakeNext(t: Tracker, p: Packet, side: Side)
    requires t.Of(side).hasBase && t.status.Rank() >= (if side == Client then 1 else 2)
    ensures var x, y := t.Of(side), t.Take(p.side, p.seg).Of(side);
            && y.hasBase && y.base == x.base
            && y.next == (x.next + (if p.side == side then |p.seg.data| else 0)
                                 + (if CountsFin(t, p, side) then 1 else 0)) % 0x1_0000_0000
  {
  }

  /** A FIN moves `next` exactly when it is the first of its side after the handshake. */
  lemma CountedOnce(log: seq<Packet>, p: Packet, side: Side)
    ensures FinCount(log + [p], side) == FinCount(log, side) + (if CountsFin(Tracked(log), p, side) then 1 else 0)
  {
    StatusLaw(log);
    SawStep(log, p);
    MeansStep(Tracked(log), SeenIn(log), p, SeenIn(log + [p]));
  }

  ghost function FinCount(log: seq<Packet>, side: Side): nat {
    if SeenIn(log).Fin(side) then 1 else 0
  }

  /**
   The stream opened at entry `b`: its base is that segment's number, and `next`
   is 1 plus the payload accepted from there on plus one for a FIN sent after the
   handshake, modulo 2^32.
   */
  ghost predicate Accounted(x: Stream, log: seq<Packet>, side: Side, b: nat)
    requires b < |log|
  {
    && x.hasBase && x.base == log[b].seg.seqNo
    && x.next == (1 + BytesFrom(log[b..], side) + FinCount(log, side)) % 0x1_0000_0000
  }

  lemma AccountingStart(log: seq<Packet>, side: Side, b: nat)
    requires OpenedAt(log, side, b) && |log| == b + 1
    ensures Accounted(Tracked(log).Of(side), log, side, b)
  {
    StatusLaw(log[..b]);
    StatusLaw(log);
    assert log[b..][..0] == [];
    assert BytesFrom(log[b..], side) == |log[b].seg.data|;
  }

  lemma Snoc(log: seq<Packet>, p: Packet, side: Side, b: nat)
    requires b <= |log|
    ensures Tracked(log + [p]) == Tracked(log).Take(p.side, p.seg)
    ensures BytesFrom((log + [p])[b..], side)
            == BytesFrom(log[b..], side) + (if p.side == side then |p.seg.data| else 0)
  {
    var more := log + [p];
    assert more[..|log|] == log;
    assert more[b..][..|log| - b] == log[b..];
  }

  /** One accepted segment moves an opened stream by its payload and by a counted FIN. */
  lemma StreamStep(log: seq<Packet>, p: Packet, side: Side)
    requires Tracked(log).Of(side).hasBase
    ensures var x, y := Tracked(log).Of(side), Tracked(log + [p]).Of(side);
            && y.hasBase && y.base == x.base
            && y.next == (x.next + ((if p.side == side then |p.seg.data| else 0)
                                    + FinCount(log + [p], side) - FinCount(log, side))) % 0x1_0000_0000
  {
    BaseLaw(log);
    Snoc(log, p, side, |log|);
    TakeNext(Tracked(log), p, side);
    CountedOnce(log, p, side);
  }

  lemma WrapOnce(a: int, d: int)
    ensures (a % 0x1_0000_0000 + d) % 0x1_0000_0000 == (a + d) % 0x1_0000_0000
  {
    var q := (a % 0x1_0000_0000 + d) / 0x1_0000_0000;
    assert a + d == (a / 0x1_0000_0000 + q) * 0x1_0000_0000 + (a % 0x1_0000_0000 + d) % 0x1_0000_0000;
  }

  lemma AccountingStep(log: seq<Packet>, p: Packet, side: Side, b: nat, x: Stream, y: Stream)
    requires b < |log| && Accounted(x, log, side, b)
    requires y.hasBase && y.base == x.base
    requires y.next == (x.next + ((if p.side == side then |p.seg.data| else 0)
                                  + FinCount(log + [p], side) - FinCount(log, side))) % 0x1_0000_0000
    ensures Accounted(y, log + [p], side, b)
  {
    hide BytesFrom, FinCount;
    Snoc(log, p, side, b);
    assert (log + [p])[b] == log[b];
    WrapOnce(1 + BytesFrom(log[b..], side) + FinCount(log, side),
             (if p.side == side then |p.seg.data| else 0) + FinCount(log + [p], side) - FinCount(log, side));
  }

  lemma AccountingSnoc(log: seq<Packet>, p: Packet, side: Side, b: nat)
    requires b < |log| && Accounted(Tracked(log).Of(side), log, side, b)
    ensures Accounted(Tracked(log + [p]).Of(side), log + [p], side, b)
  {
    hide SeenIn, Tracked;
    StreamStep(log, p, side);
    AccountingStep(log, p, side, b, Tracked(log).Of(side), Tracked(log + [p]).Of(side));
  }

  lemma {:induction false} Accounting(log: seq<Packet>, side: Side, b: nat)
    requires OpenedAt(log, side, b)
    ensures Accounted(Tracked(log).Of(side), log, side, b)
    decreases |log|
  {
    if |log| == b + 1 {
      AccountingStart(log, side, b);
    } else {
      var before, p := log[..|log| - 1], log[|log| - 1];
      assert log == before + [p] && before[..b] == log[..b];
      Accounting(before, side, b);
      AccountingSnoc(before, p, side, b);
    }
  }

  // ---------------------------------------------------------------- whole sessions

  /** Nothing `s` knew is taken back by `r`: status, events, bases and log only grow. */
  ghost predicate Grows(s: State, r: State) {
    && s.log <= r.log
    && s.trk.status.Rank() <= r.trk.status.Rank()
    && s.trk.events <= r.trk.events
    && forall x :: s.Of(x).hasBase ==> r.Of(x).hasBase && r.Of(x).base == s.Of(x).base
  }

  /**
   After every run: status and events say exactly which of SYN, SYN|ACK, ACK and
   the two FINs were accepted in order, and no later packet takes any of it back.
   */
  lemma {:induction false} SessionLifecycle(packets: seq<Packet>, n: nat)
    requires n <= |packets|
    ensures var r := Run(NEW_STATE, packets);
            SeenIn(r.log).Means(r.trk) && r.trk.events == EventsOf(r.trk.status)
    ensures Grows(Run(NEW_STATE, packets[..n]), Run(NEW_STATE, packets))
  {
    hide SeenIn, Run, Tracked;
    var s, r := Run(NEW_STATE, packets[..n]), Run(NEW_STATE, packets);
    RunTracks(packets[..n]);
    RunTracks(packets);
    RunExtendsLog(packets, n);
    StatusLaw(s.log);
    StatusLaw(r.log);
    assert r.log[..|s.log|] == s.log;
    StatusForward(r.log, |s.log|);
  }

  /** The accounting equation in every state a session can reach. */
  lemma {:induction false} SessionAccounting(packets: seq<Packet>, side: Side)
    requires Run(NEW_STATE, packets).Of(side).hasBase
    ensures var r := Run(NEW_STATE, packets);
            exists b: nat :: OpenedAt(r.log, side, b) && Accounted(r.Of(side), r.log, side, b)
  {
    var r := Run(NEW_STATE, packets);
    RunTracks(packets);
    OpenedSomewhere(r.log, side);
    var b: nat :| OpenedAt(r.log, side, b);
    Accounting(r.log, side, b);
  }
}
