/**
 Session keys and the session table: make_key, search_session and the routing in
 TCP::decode.  The table forgets sessions when told to (`expired`), which stands
 for the timeout bookkeeping of the hash table.
 */
module TcpTable {
  import opened Common
  import opened TcpModel

  datatype Endpoint = Endpoint(addr: seq<byte>, port: u16)

  datatype RawFrame = RawFrame(src: Endpoint, dst: Endpoint, seg: Segment)

  /** Both addresses of a packet have one length; make_key asserts it. */
  type Frame = f: RawFrame | |f.src.addr| == |f.dst.addr|
    witness RawFrame(Endpoint([], 0), Endpoint([], 0), Segment(0, 0, []))

  type Key = seq<byte>

  /** The sign of memcmp over equally long byte strings. */
  function Memcmp(a: seq<byte>, b: seq<byte>): int
    requires |a| == |b|
  {
    if a == [] then 0
    else if a[0] != b[0] then a[0] - b[0]
    else Memcmp(a[1..], b[1..])
  }

  function Bytes(e: Endpoint): seq<byte> {
    e.addr + [e.port % 256, e.port / 256]
  }

  /** Session::make_key: the larger endpoint first. */
  function MakeKey(src: Endpoint, dst: Endpoint): Key
    requires |src.addr| == |dst.addr|
  {
    var rc := Memcmp(src.addr, dst.addr);
    if rc > 0 || (rc == 0 && src.port > dst.port) then Bytes(src) + Bytes(dst) else Bytes(dst) + Bytes(src)
  }

  function KeyOf(f: Frame): Key {
    MakeKey(f.src, f.dst)
  }

  lemma {:induction false} MemcmpOrders(a: seq<byte>, b: seq<byte>)
    requires |a| == |b|
    ensures Memcmp(a, b) == -Memcmp(b, a)
    ensures Memcmp(a, b) == 0 <==> a == b
  {
    if a != [] {
      MemcmpOrders(a[1..], b[1..]);
      assert a == [a[0]] + a[1..] && b == [b[0]] + b[1..];
    }
  }

  lemma BytesApart(a: Endpoint, b: Endpoint, c: Endpoint, d: Endpoint)
    requires |a.addr| == |b.addr| && |c.addr| == |d.addr|
    requires Bytes(a) + Bytes(b) == Bytes(c) + Bytes(d)
    ensures a == c && b == d
  {
    var n := |a.addr|;
    var k := Bytes(a) + Bytes(b);
    assert |k| == 2 * n + 4 && |c.addr| == n;
    assert k[..n + 2] == Bytes(a) && k[..n + 2] == Bytes(c);
    assert k[n + 2..] == Bytes(b) && k[n + 2..] == Bytes(d);
    SameBytes(a, c);
    SameBytes(b, d);
  }

  lemma SameBytes(a: Endpoint, b: Endpoint)
    requires |a.addr| == |b.addr| && Bytes(a) == Bytes(b)
    ensures a == b
  {
    var n := |a.addr|;
    assert Bytes(a)[..n] == a.addr && Bytes(b)[..n] == b.addr;
    assert Bytes(a)[n] == Bytes(b)[n] && Bytes(a)[n + 1] == Bytes(b)[n + 1];
  }

  /** Two packets share a key exactly when they run between the same two endpoints, in either direction. */
  lemma {:induction false} KeyIdentifies(f: Frame, g: Frame)
    ensures KeyOf(f) == KeyOf(g)
            <==> (f.src == g.src && f.dst == g.dst) || (f.src == g.dst && f.dst == g.src)
  {
    MemcmpOrders(f.src.addr, f.dst.addr);
    MemcmpOrders(g.src.addr, g.dst.addr);
    if KeyOf(f) == KeyOf(g) {
      var a, b := Ordered(f);
      var c, d := Ordered(g);
      BytesApart(a, b, c, d);
    }
  }

  /** The endpoints in the order make_key appends them. */
  lemma Ordered(f: Frame) returns (a: Endpoint, b: Endpoint)
    ensures KeyOf(f) == Bytes(a) + Bytes(b)
    ensures (a == f.src && b == f.dst) || (a == f.dst && b == f.src)
  {
    var rc := Memcmp(f.src.addr, f.dst.addr);
    if rc > 0 || (rc == 0 && f.src.port > f.dst.port) {
      a, b := f.src, f.dst;
    } else {
      a, b := f.dst, f.src;
    }
  }

  // ---------------------------------------------------------------- the table

  datatype Entry = Entry(client: Endpoint, server: Endpoint, state: State)

  datatype Input = Input(expired: set<Key>, frame: Frame)

  type Table = map<Key, Entry>

  /** TCP::decode passes on FIN, SYN, RST and ACK only. */
  const FLAG_MASK: bv8 := 0x17

  function Masked(seg: Segment): Segment {
    seg.(flags := seg.flags & FLAG_MASK)
  }

  function SideIn(e: Entry, f: Frame): Side {
    if f.src == e.client then Client else Server
  }

  /** The session part of TCP::decode: drop expired sessions, find or create, decode. */
  function Handle(table: Table, x: Input): Table {
    var live := table - x.expired;
    var key := KeyOf(x.frame);
    var e := if key in live then live[key] else Entry(x.frame.src, x.frame.dst, NEW_STATE);
    live[key := e.(state := Decode(e.state, SideIn(e, x.frame), Masked(x.frame.seg)))]
  }

  function HandleAll(xs: seq<Input>): Table {
    if xs == [] then map[] else Handle(HandleAll(xs[..|xs| - 1]), xs[|xs| - 1])
  }

  /** The packets under `key` since its session was last created. */
  function Own(xs: seq<Input>, key: Key): seq<Frame> {
    if xs == [] then []
    else
      var x := xs[|xs| - 1];
      var before := if key in x.expired then [] else Own(xs[..|xs| - 1], key);
      if KeyOf(x.frame) == key then before + [x.frame] else before
  }

  /** Those packets with a direction each: the first one's sender is the client. */
  function Directed(own: seq<Frame>): (r: seq<Packet>)
    ensures |r| == |own|
    ensures forall i :: 0 <= i < |own| ==>
              r[i] == Packet(if own[i].src == own[0].src then Client else Server, Masked(own[i].seg))
  {
    seq(|own|, i requires 0 <= i < |own| =>
      Packet(if own[i].src == own[0].src then Client else Server, Masked(own[i].seg)))
  }

  lemma DirectedSnoc(own: seq<Frame>, f: Frame)
    requires own != []
    ensures Directed(own + [f])
            == Directed(own) + [Packet(if f.src == own[0].src then Client else Server, Masked(f.seg))]
  {
  }

  lemma RunSnoc(packets: seq<Packet>, p: Packet)
    ensures Run(NEW_STATE, packets + [p]) == Decode(Run(NEW_STATE, packets), p.side, p.seg)
  {
    assert (packets + [p])[..|packets|] == packets;
  }

  /** A session and the packets that made it. */
  ghost predicate Explains(table: Table, own: seq<Frame>, key: Key) {
    && (key in table <==> own != [])
    && (forall i :: 0 <= i < |own| ==> KeyOf(own[i]) == key)
    && (own != [] ==> table[key] == Entry(own[0].src, own[0].dst, Run(NEW_STATE, Directed(own))))
  }

  /**
   Demultiplexing: whatever else is on the wire, the session under a key is what
   its own packets alone make of a new session.
   */
  lemma {:induction false} Demultiplexes(xs: seq<Input>, key: Key)
    ensures Explains(HandleAll(xs), Own(xs, key), key)
  {
    if xs != [] {
      var n := |xs| - 1;
      Demultiplexes(xs[..n], key);
      DemultiplexStep(HandleAll(xs[..n]), Own(xs[..n], key), xs[n], key);
    }
  }

  lemma DemultiplexStep(table: Table, own: seq<Frame>, x: Input, key: Key)
    requires Explains(table, own, key)
    ensures var before := if key in x.expired then [] else own;
            Explains(Handle(table, x), if KeyOf(x.frame) == key then before + [x.frame] else before, key)
  {
    hide Decode, MakeKey, Masked;
    var before := if key in x.expired then [] else own;
    if KeyOf(x.frame) == key {
      if before == [] {
        RunSnoc([], Packet(Client, Masked(x.frame.seg)));
        assert before + [x.frame] == [x.frame];
        assert Directed([x.frame]) == [] + [Packet(Client, Masked(x.frame.seg))];
        assert Run(NEW_STATE, []) == NEW_STATE;
      } else {
        DirectedSnoc(before, x.frame);
        RunSnoc(Directed(before), Packet(SideIn(table[key], x.frame), Masked(x.frame.seg)));
      }
    }
  }

  /** Every packet routed to a session goes from its client to its server or back. */
  lemma {:induction false} RoutedBetweenEnds(xs: seq<Input>, f: Frame)
    requires KeyOf(f) in HandleAll(xs)
    ensures var e := HandleAll(xs)[KeyOf(f)];
            if SideIn(e, f) == Client then f.src == e.client && f.dst == e.server
            else f.src == e.server && f.dst == e.client
  {
    var own := Own(xs, KeyOf(f));
    Demultiplexes(xs, KeyOf(f));
    KeyIdentifies(f, own[0]);
  }
}
