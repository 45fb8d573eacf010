/**
 Three runs in which a sender's slices all arrive, every packet of the other side is taken at
 once, and yet the stream is not reassembled: the other side has the same base and takes a slice;
 it has another base and moves a slice where it is not looked for; it moves it and then takes it.
 A fourth run shows what the law of reassembly must leave out: a slice moved away and back.
 */
module TcpLosses {
  import opened Common
  import opened SeqNum
  import opened TcpModel
  import opened TcpReassembly
  import opened TcpPeer
  import opened TcpRuns

  const TWO_SLICES: Slices := [[1], [2]]

  /** Slice `j` of the client, whose base is `base`. */
  function SliceOf(base: u32, j: nat): Packet
    requires j < 2
  {
    Packet(Client, Segment(Add(base, 1 + j), ACK, TWO_SLICES[j]))
  }

  function Opening(base: u32, base': u32): seq<Packet> {
    [Packet(Client, Segment(base, SYN, [])), Packet(Server, Segment(base', SYN | ACK, []))]
  }

  /** The client opened with `base`, the server with `base'`. */
  function AfterOpening(base: u32, base': u32): State {
    State(Tracker(Stream(true, base, 1), Stream(true, base', 1), None, SynAckSent, []),
          map[], None, [[], []], Opening(base, base'))
  }

  lemma OpeningRun(base: u32, base': u32)
    ensures Run(NEW_STATE, Opening(base, base')) == AfterOpening(base, base')
  {
    var all := Opening(base, base');
    assert all[..1] == [all[0]] && all[..1][..0] == [];
    assert Run(NEW_STATE, all[..1]) == Decode(NEW_STATE, Client, all[0].seg);
    assert SYN != SYN | ACK;
  }

  lemma TwoSlices()
    ensures Cut(TWO_SLICES) && Key(TWO_SLICES, 0) == 1 && Key(TWO_SLICES, 1) == 2 && Key(TWO_SLICES, 2) == 3
    ensures Off(TWO_SLICES, 2) == 2
    ensures forall base: u32, j: nat :: j < 2 ==> Carries(SliceOf(base, j), Client, base, TWO_SLICES, j)
  {
    assert Off(TWO_SLICES, 1) == 1 && Off(TWO_SLICES, 2) == 2;
  }

  lemma RunOne(s: State, packets: seq<Packet>, p: Packet)
    ensures Run(s, packets + [p]) == Decode(Run(s, packets), p.side, p.seg)
  {
    assert (packets + [p])[..|packets|] == packets;
  }

  lemma DeliveredLast(log: seq<Packet>, p: Packet)
    ensures Delivered(log + [p], p.side) == Delivered(log, p.side) + p.seg.data
    ensures Delivered(log + [p], p.side.Peer()) == Delivered(log, p.side.Peer())
  {
    DeliveredSnoc(log, p, p.side);
    DeliveredSnoc(log, p, p.side.Peer());
  }

  /** All slices of a run from `s0` arrive and every packet of the server is taken at once. */
  ghost predicate Setting(s0: State, packets: seq<Packet>)
    requires Cut(TWO_SLICES)
  {
    && Ready(s0, Client) && Opened(s0.trk, Server) && Prompt(s0, Client, TWO_SLICES, packets)
    && forall j: nat :: j < 2 ==> Arrived(packets, Client, s0.Of(Client).base, TWO_SLICES, j)
  }

  /** The client's second slice waits under key 2. */
  function SecondWaits(base: u32, base': u32): State {
    AfterOpening(base, base').(stash := map[2 := [SliceOf(base, 1).seg]])
  }

  lemma SecondFirst(base: u32, base': u32)
    ensures Run(AfterOpening(base, base'), [SliceOf(base, 1)]) == SecondWaits(base, base')
  {
    var s, p := AfterOpening(base, base'), SliceOf(base, 1);
    assert Run(s, []) == s;
    RunOne(s, [], p);
    assert [] + [p] == [p];
    SubAdd(base, 2);
    assert !s.Accepts(Client, p.seg);
    assert [] + [p.seg] == [p.seg];
  }

  /** One byte of the server, after which it waits for key 2. */
  function ServerByte(base': u32): Packet {
    Packet(Server, Segment(Add(base', 1), ACK, [9]))
  }

  /** The state in which that byte has been taken and the client's slice is about to be replayed. */
  function ServerReaches(base: u32, base': u32): State {
    var s := AfterOpening(base, base');
    State(s.trk.(server := Stream(true, base', 2)), map[], Some([9]), s.data + [[9]], s.log + [ServerByte(base')])
  }

  lemma ServerOpens(base: u32, base': u32)
    ensures var s, p := SecondWaits(base, base'), ServerByte(base');
            && s.Accepts(Server, p.seg)
            && Decode(s, Server, p.seg) == Replay(ServerReaches(base, base'), Server, [SliceOf(base, 1).seg])
  {
    var s, p := SecondWaits(base, base').(buf := None), ServerByte(base');
    SubAdd(base', 1);
    hide Replay, DecodeStream, Sub;
    OneCall(s, Server, p.seg);
    var a := s.Accept(Server, p.seg);
    assert a.Of(Server).next == 2;
    assert a.stash - {2} == map[];
    assert a.Open(2, p.seg) == ServerReaches(base, base');
  }

  /** The first slice comes last: the client takes it and goes on to wait for the second, which is not there. */
  lemma FirstLast(s: State, base: u32)
    requires s.Of(Client) == Stream(true, base, 1) && s.trk.status == SynAckSent && 2 !in s.stash
    ensures var r := Decode(s, Client, SliceOf(base, 0).seg);
            r.Of(Client).next == 2 && r.stash == s.stash && r.log == s.log + [SliceOf(base, 0)]
  {
    SubAdd(base, 1);
    OneCall(s.(buf := None), Client, SliceOf(base, 0).seg);
  }

  lemma RunThree(s: State, x: Packet, y: Packet, z: Packet)
    ensures Run(s, [x]) == Decode(s, x.side, x.seg)
    ensures Run(s, [x, y]) == Decode(Run(s, [x]), y.side, y.seg)
    ensures Run(s, [x, y, z]) == Decode(Run(s, [x, y]), z.side, z.seg)
  {
    hide Decode;
    assert [] + [x] == [x] && [x] + [y] == [x, y] && [x, y] + [z] == [x, y, z];
    assert Run(s, []) == s;
    RunOne(s, [], x);
    RunOne(s, [x], y);
    RunOne(s, [x, y], z);
  }

  lemma PromptOne(s0: State, slices: Slices, packets: seq<Packet>, p: Packet)
    requires Cut(slices) && Prompt(s0, Client, slices, packets)
    requires if p.side == Client then SomePiece(p.seg, s0.Of(Client).base, slices)
             else Run(s0, packets).Accepts(p.side, p.seg)
    ensures Prompt(s0, Client, slices, packets + [p])
  {
    hide Run, SomePiece, State.Accepts;
    var all, n := packets + [p], |packets|;
    assert all[..n] == packets;
    assert forall i :: 0 <= i < n ==> all[i] == packets[i] && all[..i] == packets[..i];
  }

  /** The run up to the server's byte. */
  lemma PromptTwo(base: u32, base': u32)
    requires Cut(TWO_SLICES)
    ensures Prompt(AfterOpening(base, base'), Client, TWO_SLICES, [SliceOf(base, 1), ServerByte(base')])
  {
    hide Run, Carries, Decode, Replay, SomePiece;
    var s0, x, y := AfterOpening(base, base'), SliceOf(base, 1), ServerByte(base');
    TwoSlices();
    SecondFirst(base, base');
    ServerOpens(base, base');
    Piece(x, base, TWO_SLICES, 1);
    PromptOne(s0, TWO_SLICES, [], x);
    assert [] + [x] == [x];
    PromptOne(s0, TWO_SLICES, [x], y);
    assert [x] + [y] == [x, y];
  }

  /** The second slice first and the first one last make a setting. */
  lemma SettingOf(base: u32, base': u32, packets: seq<Packet>)
    requires Cut(TWO_SLICES) && Prompt(AfterOpening(base, base'), Client, TWO_SLICES, packets)
    requires packets != [] && packets[0] == SliceOf(base, 1)
    ensures Setting(AfterOpening(base, base'), packets + [SliceOf(base, 0)])
  {
    hide Run, Carries, Prompt, SomePiece;
    var all := packets + [SliceOf(base, 0)];
    TwoSlices();
    Piece(SliceOf(base, 0), base, TWO_SLICES, 0);
    PromptOne(AfterOpening(base, base'), TWO_SLICES, packets, SliceOf(base, 0));
    assert all[0] == SliceOf(base, 1) && all[|packets|] == SliceOf(base, 0);
    assert Carries(all[0], Client, base, TWO_SLICES, 1) && Carries(all[|packets|], Client, base, TWO_SLICES, 0);
  }

  lemma Piece(p: Packet, base: u32, slices: Slices, j: nat)
    requires Cut(slices) && Carries(p, Client, base, slices, j)
    ensures SomePiece(p.seg, base, slices)
  {
  }

  // ---------------------------------------------------------------- the same base

  lemma ServerTakes(base: u32)
    ensures var seg, r := SliceOf(base, 1).seg, Replay(ServerReaches(base, base), Server, [SliceOf(base, 1).seg]);
            && r.Of(Client) == Stream(true, base, 1) && r.trk.status == SynAckSent && r.stash == map[]
            && r.log == Opening(base, base) + [ServerByte(base), Packet(Server, seg)]
  {
    var s, seg := ServerReaches(base, base), SliceOf(base, 1).seg;
    SubAdd(base, 2);
    OneCall(s, Server, seg);
    assert [seg][1..] == [];
    assert Replay(s, Server, [seg]) == s.Accept(Server, seg);
    assert ACK != SYN | ACK;
  }

  /** With the same base, whatever it is, the client's second slice goes to the server as its own data. */
  lemma {:induction false} PeerCanSteal(base: u32)
    ensures Cut(TWO_SLICES)
    ensures var s0, run := Run(NEW_STATE, Opening(base, base)), [SliceOf(base, 1), ServerByte(base), SliceOf(base, 0)];
            var r := Run(s0, run);
            && Setting(s0, run) && s0.Of(Server).base == s0.Of(Client).base
            && Delivered(r.log, Client) == Delivered(s0.log, Client) + [1]
            && Delivered(r.log, Server) == Delivered(s0.log, Server) + [9, 2]
            && r.Of(Client).next == 2 && r.stash == map[]
  {
    hide Run, Decode, Replay, Delivered, Setting, Prompt;
    var x, y, z := SliceOf(base, 1), ServerByte(base), SliceOf(base, 0);
    TwoSlices();
    OpeningRun(base, base);
    PromptTwo(base, base);
    SettingOf(base, base, [x, y]);
    assert [x, y] + [z] == [x, y, z];
    RunThree(AfterOpening(base, base), x, y, z);
    SecondFirst(base, base);
    ServerOpens(base, base);
    ServerTakes(base);
    FirstLast(Run(AfterOpening(base, base), [x, y]), base);
    var log := Opening(base, base);
    var l1 := log + [y];
    var l2 := l1 + [Packet(Server, x.seg)];
    assert log + [y, Packet(Server, x.seg)] == l2;
    DeliveredLast(log, y);
    DeliveredLast(l1, Packet(Server, x.seg));
    DeliveredLast(l2, z);
  }

  // ---------------------------------------------------------------- another base

  /** The key under which the server puts the client's second slice. */
  function MovedKey(base: u32, base': u32): u32 {
    Sub(Add(base, 2), base')
  }

  /** After the server's byte with another base: the slice waits under the other key. */
  function ServerMoved(base: u32, base': u32): State {
    ServerReaches(base, base').(stash := map[MovedKey(base, base') := [SliceOf(base, 1).seg]])
  }

  lemma ServerMoves(base: u32, base': u32)
    requires base != base'
    ensures Replay(ServerReaches(base, base'), Server, [SliceOf(base, 1).seg]) == ServerMoved(base, base')
    ensures MovedKey(base, base') != 2
  {
    var s, seg := ServerReaches(base, base'), SliceOf(base, 1).seg;
    SubAdd(base, 2);
    SubApart(Add(base, 2), base, base');
    RefusedAll(s, Server, [seg], seg.seqNo);
    assert [] + [seg] == [seg];
  }

  lemma TwoMoved(base: u32, base': u32)
    requires base != base'
    ensures Run(AfterOpening(base, base'), [SliceOf(base, 1), ServerByte(base')]) == ServerMoved(base, base')
  {
    hide Run, Decode, Replay, AfterOpening, ServerMoved, SecondWaits, ServerReaches;
    RunThree(AfterOpening(base, base'), SliceOf(base, 1), ServerByte(base'), SliceOf(base, 0));
    SecondFirst(base, base');
    ServerOpens(base, base');
    ServerMoves(base, base');
  }

  /** With any other base nothing is taken, but the client goes on to wait for a slice that lies under another key. */
  lemma {:induction false} PeerCanStall(base: u32, base': u32)
    requires base != base'
    ensures Cut(TWO_SLICES)
    ensures var s0 := Run(NEW_STATE, Opening(base, base'));
            var run := [SliceOf(base, 1), ServerByte(base'), SliceOf(base, 0)];
            var r := Run(s0, run);
            && Setting(s0, run) && s0.Of(Client).base == base && s0.Of(Server).base == base'
            && Delivered(r.log, Client) == Delivered(s0.log, Client) + [1]
            && Delivered(r.log, Server) == Delivered(s0.log, Server) + [9]
            && r.Of(Client).next == 2 && 2 !in r.stash
            && r.stash == map[MovedKey(base, base') := [SliceOf(base, 1).seg]]
  {
    hide Run, Decode, Replay, Delivered, Setting, Prompt, MovedKey;
    var x, y, z := SliceOf(base, 1), ServerByte(base'), SliceOf(base, 0);
    TwoSlices();
    OpeningRun(base, base');
    PromptTwo(base, base');
    SettingOf(base, base', [x, y]);
    assert [x, y] + [z] == [x, y, z];
    RunThree(AfterOpening(base, base'), x, y, z);
    TwoMoved(base, base');
    ServerMoves(base, base');
    FirstLast(Run(AfterOpening(base, base'), [x, y]), base);
    DeliveredLast(Opening(base, base'), y);
    DeliveredLast(Opening(base, base') + [y], z);
  }

  // ---------------------------------------------------------------- another base, and later

  /** Server data that ends where the client's second slice was put. */
  function ServerMore(base: u32, base': u32): Packet {
    Packet(Server, Segment(Add(base', 2), ACK, seq(Sub(base, base'), _ => 9)))
  }

  lemma MovedAhead(base: u32, base': u32)
    ensures Add(2, Sub(base, base')) == MovedKey(base, base')
  {
    AddAfterSub(base, base', 2);
    assert Add(2, Sub(base, base')) == Add(Sub(base, base'), 2);
  }

  lemma ServerTakesLater(base: u32, base': u32)
    requires base != base'
    ensures var s, p, seg := ServerMoved(base, base'), ServerMore(base, base'), SliceOf(base, 1).seg;
            var r := Decode(s, Server, p.seg);
            && s.Accepts(Server, p.seg)
            && r.Of(Client) == Stream(true, base, 1) && r.trk.status == SynAckSent && r.stash == map[]
            && r.log == Opening(base, base') + [ServerByte(base'), p, Packet(Server, seg)]
  {
    var s, p, seg := ServerMoved(base, base').(buf := None), ServerMore(base, base'), SliceOf(base, 1).seg;
    var key := MovedKey(base, base');
    SubAdd(base', 2);
    MovedAhead(base, base');
    assert seg.seqNo == Add(base, 2) && key == Sub(seg.seqNo, base');
    assert ACK != SYN | ACK;
    hide Add, Sub, MovedKey;
    OneCall(s, Server, p.seg);
    var a := s.Accept(Server, p.seg);
    assert a.Of(Server) == Stream(true, base', key);
    var o := a.Open(key, p.seg);
    assert o.stash == map[];
    OneCall(o, Server, seg);
    assert [seg][1..] == [];
    assert Replay(o, Server, [seg]) == o.Accept(Server, seg);
  }

  lemma PromptLater(base: u32, base': u32)
    requires Cut(TWO_SLICES) && base != base'
    ensures var packets := [SliceOf(base, 1), ServerByte(base'), ServerMore(base, base')];
            Prompt(AfterOpening(base, base'), Client, TWO_SLICES, packets)
  {
    var s0, x, y, m := AfterOpening(base, base'), SliceOf(base, 1), ServerByte(base'), ServerMore(base, base');
    assert m.side == Server;
    hide Run, Decode, MovedKey, Prompt, AfterOpening, ServerMoved, SliceOf, ServerByte, ServerMore, Stream.Accepts;
    PromptTwo(base, base');
    TwoMoved(base, base');
    ServerTakesLater(base, base');
    PromptOne(s0, TWO_SLICES, [x, y], m);
    assert [x, y] + [m] == [x, y, m];
  }

  /** With any other base a later packet of the server can take the slice it has moved. */
  lemma {:induction false} PeerCanTakeLater(base: u32, base': u32)
    requires base != base'
    ensures Cut(TWO_SLICES)
    ensures var s0 := Run(NEW_STATE, Opening(base, base'));
            var more := ServerMore(base, base');
            var run := [SliceOf(base, 1), ServerByte(base'), more, SliceOf(base, 0)];
            var r := Run(s0, run);
            && Setting(s0, run) && s0.Of(Client).base == base && s0.Of(Server).base == base'
            && Delivered(r.log, Client) == Delivered(s0.log, Client) + [1]
            && Delivered(r.log, Server) == Delivered(s0.log, Server) + [9] + more.seg.data + [2]
            && r.Of(Client).next == 2 && r.stash == map[]
  {
    hide Run, Decode, Replay, Delivered, Setting, Prompt, MovedKey;
    var x, y, m, z := SliceOf(base, 1), ServerByte(base'), ServerMore(base, base'), SliceOf(base, 0);
    TwoSlices();
    OpeningRun(base, base');
    PromptLater(base, base');
    SettingOf(base, base', [x, y, m]);
    var s0 := AfterOpening(base, base');
    RunThree(s0, x, y, m);
    assert [x, y, m] + [z] == [x, y, m, z];
    RunOne(s0, [x, y, m], z);
    TwoMoved(base, base');
    ServerTakesLater(base, base');
    FirstLast(Run(s0, [x, y, m]), base);
    var log, stolen := Opening(base, base'), Packet(Server, x.seg);
    var l1 := log + [y];
    var l2 := l1 + [m];
    var l3 := l2 + [stolen];
    assert log + [y, m, stolen] == l3;
    DeliveredLast(log, y);
    DeliveredLast(l1, m);
    DeliveredLast(l2, stolen);
    DeliveredLast(l3, z);
  }

  /** Bases that differ by three or more have no border of this stream in common: the law of reassembly covers them. */
  lemma ApartByThree(base: u32, base': u32)
    requires 3 <= Sub(base, base') <= 0x1_0000_0000 - 3
    ensures Cut(TWO_SLICES) && Apart(base, base', TWO_SLICES)
  {
    TwoSlices();
    forall i: nat, j: nat | i <= 2 && j <= 2
      ensures Shifted(base, base', TWO_SLICES, j) != Key(TWO_SLICES, i)
    {
      AddAfterSub(base, base', Key(TWO_SLICES, j));
      assert Key(TWO_SLICES, i) == 1 + i && Key(TWO_SLICES, j) == 1 + j;
    }
  }

  // ---------------------------------------------------------------- bases with a border in common

  const THREE_SLICES: Slices := [[1], [2], [3]]

  /** Slice `j` of a client with base 0. */
  function ThirdOf(j: nat): Packet
    requires j < 3
  {
    Packet(Client, Segment(1 + j, ACK, THREE_SLICES[j]))
  }

  const TWO_BYTES := Packet(Server, Segment(2, ACK, [9, 9]))

  lemma ThreeSlices()
    ensures Cut(THREE_SLICES) && Off(THREE_SLICES, 3) == 3 && Joined(THREE_SLICES, 0) == [1, 2, 3]
    ensures forall j: nat :: j <= 3 ==> Key(THREE_SLICES, j) == 1 + j
    ensures forall j: nat :: j < 3 ==> Carries(ThirdOf(j), Client, 0, THREE_SLICES, j)
  {
    assert Off(THREE_SLICES, 1) == 1 && Off(THREE_SLICES, 2) == 2 && Off(THREE_SLICES, 3) == 3;
    assert Joined(THREE_SLICES, 3) == [] && Joined(THREE_SLICES, 2) == [3] && Joined(THREE_SLICES, 1) == [2, 3];
  }

  /** The client has base 0 and the server base 1. */
  ghost predicate At(s: State, client: nat, server: nat, stash: Stash, log: seq<Packet>) {
    && client < 0x1_0000_0000 && server < 0x1_0000_0000
    && s.Of(Client) == Stream(true, 0, client) && s.Of(Server) == Stream(true, 1, server)
    && s.trk.status.Rank() in {2, 3} && s.stash == stash && s.log == log
  }

  lemma TakeThird(s: State, j: nat, server: nat, stash: Stash, log: seq<Packet>)
    requires j < 3 && At(s, 1 + j, server, stash, log)
    ensures s.Accepts(Client, ThirdOf(j).seg)
    ensures At(s.Accept(Client, ThirdOf(j).seg), 2 + j, server, stash, log + [ThirdOf(j)])
  {
  }

  /** A stream that does not wait for the third slice puts it back under its own key. */
  lemma PutBack(s: State, who: Side, client: nat, server: nat, log: seq<Packet>)
    requires At(s, client, server, map[], log) && Sub(3, s.Of(who).base) != s.Of(who).next
    ensures var seg := ThirdOf(2).seg;
            At(Replay(s, who, [seg]), client, server, map[Sub(3, s.Of(who).base) := [seg]], log)
  {
    RefusedAll(s, who, [ThirdOf(2).seg], 3);
    assert [] + [ThirdOf(2).seg] == [ThirdOf(2).seg];
  }

  lemma OpenAt(s: State, client: nat, server: nat, key: u32, log: seq<Packet>, seg: Segment)
    requires At(s, client, server, map[key := [ThirdOf(2).seg]], log)
    ensures At(s.Open(key, seg), client, server, map[], log)
  {
    assert s.stash - {key} == map[];
  }

  lemma ThirdWaits(s: State, log: seq<Packet>)
    requires At(s, 1, 1, map[], log)
    ensures At(Decode(s, Client, ThirdOf(2).seg), 1, 1, map[3 := [ThirdOf(2).seg]], log)
  {
    OneCall(s.(buf := None), Client, ThirdOf(2).seg);
    assert [] + [ThirdOf(2).seg] == [ThirdOf(2).seg];
  }

  lemma ThirdMoved(s: State, log: seq<Packet>)
    requires At(s, 1, 1, map[3 := [ThirdOf(2).seg]], log)
    ensures s.Accepts(Server, TWO_BYTES.seg)
    ensures At(Decode(s, Server, TWO_BYTES.seg), 1, 3, map[2 := [ThirdOf(2).seg]], log + [TWO_BYTES])
  {
    var seg := ThirdOf(2).seg;
    OneCall(s.(buf := None), Server, TWO_BYTES.seg);
    var a := s.(buf := None).Accept(Server, TWO_BYTES.seg);
    assert At(a, 1, 3, map[3 := [seg]], log + [TWO_BYTES]);
    hide Replay, DecodeStream;
    OpenAt(a, 1, 3, 3, log + [TWO_BYTES], TWO_BYTES.seg);
    PutBack(a.Open(3, TWO_BYTES.seg), Server, 1, 3, log + [TWO_BYTES]);
  }

  lemma ThirdBack(s: State, log: seq<Packet>)
    requires At(s, 1, 3, map[2 := [ThirdOf(2).seg]], log)
    ensures At(Decode(s, Client, ThirdOf(0).seg), 2, 3, map[3 := [ThirdOf(2).seg]], log + [ThirdOf(0)])
  {
    var seg := ThirdOf(2).seg;
    hide Replay, DecodeStream, Tracker.Take;
    OneCall(s.(buf := None), Client, ThirdOf(0).seg);
    TakeThird(s.(buf := None), 0, 3, map[2 := [seg]], log);
    var a := s.(buf := None).Accept(Client, ThirdOf(0).seg);
    OpenAt(a, 2, 3, 2, log + [ThirdOf(0)], ThirdOf(0).seg);
    PutBack(a.Open(2, ThirdOf(0).seg), Client, 2, 3, log + [ThirdOf(0)]);
  }

  lemma ThirdRead(s: State, log: seq<Packet>)
    requires At(s, 2, 3, map[3 := [ThirdOf(2).seg]], log)
    ensures At(Decode(s, Client, ThirdOf(1).seg), 4, 3, map[], log + [ThirdOf(1)] + [ThirdOf(2)])
  {
    var seg := ThirdOf(2).seg;
    hide DecodeStream, Tracker.Take;
    OneCall(s.(buf := None), Client, ThirdOf(1).seg);
    TakeThird(s.(buf := None), 1, 3, map[3 := [seg]], log);
    var a := s.(buf := None).Accept(Client, ThirdOf(1).seg);
    OpenAt(a, 3, 3, 3, log + [ThirdOf(1)], ThirdOf(1).seg);
    var o := a.Open(3, ThirdOf(1).seg);
    OneCall(o, Client, seg);
    TakeThird(o, 2, 3, map[], log + [ThirdOf(1)]);
    assert [seg][1..] == [];
  }

  lemma ThirdLost(s: State, log: seq<Packet>)
    requires Cut(THREE_SLICES) && At(s, 1, 1, map[3 := [ThirdOf(2).seg]], log)
    ensures Loses(s, TWO_BYTES, Client, THREE_SLICES, 2)
  {
    ThreeSlices();
    assert Copies(s.stash, 0, THREE_SLICES, 2) == 1;
  }

  /** The run in which the server moves the third slice and the client puts it back. */
  function BackAndForth(): seq<Packet> {
    [ThirdOf(2), TWO_BYTES, ThirdOf(0), ThirdOf(1)]
  }

  lemma BackAndForthRun()
    ensures Cut(THREE_SLICES)
    ensures var s0, log := AfterOpening(0, 1), Opening(0, 1);
            var s1 := Run(s0, [ThirdOf(2)]);
            && s1.Accepts(Server, TWO_BYTES.seg) && Loses(s1, TWO_BYTES, Client, THREE_SLICES, 2)
            && At(Run(s0, BackAndForth()), 4, 3, map[], log + [TWO_BYTES] + [ThirdOf(0)] + [ThirdOf(1)] + [ThirdOf(2)])
  {
    var s0, x, y, z, w := AfterOpening(0, 1), ThirdOf(2), TWO_BYTES, ThirdOf(0), ThirdOf(1);
    var log := Opening(0, 1);
    ThreeSlices();
    assert At(s0, 1, 1, map[], log);
    hide Run, Decode, At, Loses, Stream.Accepts, AfterOpening, Opening;
    RunThree(s0, x, y, z);
    RunOne(s0, [x, y, z], w);
    assert [x, y, z] + [w] == BackAndForth();
    ThirdWaits(s0, log);
    ThirdLost(Run(s0, [x]), log);
    ThirdMoved(Run(s0, [x]), log);
    ThirdBack(Run(s0, [x, y]), log + [y]);
    ThirdRead(Run(s0, [x, y, z]), log + [y] + [z]);
  }

  lemma BackAndForthPrompt()
    requires Cut(THREE_SLICES) && Run(AfterOpening(0, 1), [ThirdOf(2)]).Accepts(Server, TWO_BYTES.seg)
    ensures Prompt(AfterOpening(0, 1), Client, THREE_SLICES, BackAndForth())
  {
    hide Run, SomePiece, Stream.Accepts, Cut, Prompt;
    ThirdPiece(2);
    ThirdPiece(0);
    ThirdPiece(1);
    PromptFour(AfterOpening(0, 1), THREE_SLICES, ThirdOf(2), TWO_BYTES, ThirdOf(0), ThirdOf(1));
  }

  lemma PromptFour(s0: State, slices: Slices, x: Packet, y: Packet, z: Packet, w: Packet)
    requires Cut(slices) && forall p :: p in {x, z, w} ==> p.side == Client
    requires forall p :: p in {x, z, w} ==> SomePiece(p.seg, s0.Of(Client).base, slices)
    requires y.side == Server && Run(s0, [x]).Accepts(Server, y.seg)
    ensures Prompt(s0, Client, slices, [x, y, z, w])
  {
    hide Run, SomePiece, Stream.Accepts, Cut;
    assert [x, y, z, w][..1] == [x];
  }

  lemma ThirdPiece(j: nat)
    requires Cut(THREE_SLICES) && j < 3
    ensures SomePiece(ThirdOf(j).seg, 0, THREE_SLICES)
  {
    ThreeSlices();
    Piece(ThirdOf(j), 0, THREE_SLICES, j);
  }

  lemma ThreeDelivered(log: seq<Packet>)
    ensures Delivered(log + [TWO_BYTES] + [ThirdOf(0)] + [ThirdOf(1)] + [ThirdOf(2)], Client)
            == Delivered(log, Client) + [1, 2, 3]
  {
    hide Delivered;
    DeliveredLast(log, TWO_BYTES);
    DeliveredLast(log + [TWO_BYTES], ThirdOf(0));
    DeliveredLast(log + [TWO_BYTES] + [ThirdOf(0)], ThirdOf(1));
    DeliveredLast(log + [TWO_BYTES] + [ThirdOf(0)] + [ThirdOf(1)], ThirdOf(2));
  }

  lemma BackReassembled()
    ensures Reassembled(AfterOpening(0, 1), Run(AfterOpening(0, 1), BackAndForth()), Client, THREE_SLICES)
  {
    hide Run, Loses, Delivered, BackAndForth, Stream.Accepts, Cut, Joined, Off;
    ThreeSlices();
    BackAndForthRun();
    ThreeDelivered(Opening(0, 1));
  }

  lemma NotApart()
    requires Cut(THREE_SLICES)
    ensures !Apart(0, 1, THREE_SLICES)
  {
    ThreeSlices();
    assert Shifted(0, 1, THREE_SLICES, 1) == Key(THREE_SLICES, 0);
  }

  lemma ThirdNotKept(s0: State)
    requires Cut(THREE_SLICES) && s0.Of(Client).base == 0
    requires Loses(Run(s0, [ThirdOf(2)]), TWO_BYTES, Client, THREE_SLICES, 2)
    ensures !Kept(s0, Client, THREE_SLICES, BackAndForth(), 2)
  {
    var run := BackAndForth();
    ThreeSlices();
    forall i | 0 <= i < |run| && Carries(run[i], Client, 0, THREE_SLICES, 2)
      ensures i == 0
    {
    }
    hide Loses, Run, Carries;
    assert run[..1] == [ThirdOf(2)] && run[1] == TWO_BYTES;
  }

  /**
   The condition on the bases is needed.  Here a border as the server counts is one of the client's:
   the server moves the third slice under the key of the second, and when the client comes there it
   puts it back.  The stream is reassembled although the slice was lost and did not arrive again.
   */
  lemma {:induction false} MovedBack()
    ensures Cut(THREE_SLICES)
    ensures var s0, run := Run(NEW_STATE, Opening(0, 1)), BackAndForth();
            && Ready(s0, Client) && Opened(s0.trk, Server) && Prompt(s0, Client, THREE_SLICES, run)
            && !Apart(s0.Of(Client).base, s0.Of(Server).base, THREE_SLICES)
            && Reassembled(s0, Run(s0, run), Client, THREE_SLICES) && !Kept(s0, Client, THREE_SLICES, run, 2)
  {
    BackAndForthRun();
    hide Run, Loses, Prompt, Kept, BackAndForth, Stream.Accepts, Reassembled, Apart, Cut, At;
    OpeningRun(0, 1);
    NotApart();
    BackAndForthPrompt();
    BackReassembled();
    ThirdNotKept(AfterOpening(0, 1));
  }
}
