/**
 Module dispatch: the loop of Decoder::decode in src/decoder.cc over the built-in modules
 that hand a payload on (Ethernet, 802.1Q, PPPoE, IPv4, UDP); the other modules end the chain.
 */
module Dispatch {
  import opened Common
  import opened Pool

  datatype Mod = Ethernet | Dot1Q | PPPoE | IPv4 | UDP | ARP | ICMP | TCP | DNS | MDNS | DHCP

  /** The modules each module may name as its successor. */
  function Successors(m: Mod): set<Mod> {
    match m
    case Ethernet => {ARP, IPv4, Dot1Q, PPPoE}
    case Dot1Q => {ARP, IPv4, PPPoE}
    case PPPoE => {IPv4}
    case IPv4 => {ICMP, TCP, UDP}
    case UDP => {DNS, MDNS, DHCP}
    case _ => {}
  }

  function Height(m: Mod): nat {
    match m
    case Ethernet => 6
    case Dot1Q => 5
    case PPPoE => 4
    case IPv4 => 3
    case UDP => 2
    case _ => 1
  }

  function ByEtherType(t: nat, tagged: bool): Option<Mod> {
    if t == 0x0806 then Some(ARP)
    else if t == 0x0800 then Some(IPv4)
    else if t == 0x8100 && !tagged then Some(Dot1Q)
    else if t == 0x8864 then Some(PPPoE)
    else None
  }

  function ByPorts(sport: nat, dport: nat): Option<Mod> {
    if sport == 53 || dport == 53 then Some(DNS)
    else if sport == 5353 || dport == 5353 then Some(MDNS)
    else if sport in {67, 68} || dport in {67, 68} then Some(DHCP)
    else None
  }

  /** The low four bits of the first byte count 32-bit words. */
  function HdrLen(b0: byte): nat {
    (b0 % 16) as nat * 4
  }

  /** Past the options of an IPv4 header of `hdrLen` bytes, if they are there. */
  function PastOptions(b: seq<byte>, hdrLen: nat): seq<byte>
    requires |b| >= 20
  {
    if 20 < hdrLen <= |b| then b[hdrLen..] else b[20..]
  }

  /** Payload::shrink: a length that does not fit is ignored. */
  function Shrunk(b: seq<byte>, n: nat): seq<byte> {
    if n <= |b| then b[..n] else b
  }

  /** What IPv4 leaves to its successor: header and options skipped, the trailer cut off. */
  function Ipv4Body(b: seq<byte>): seq<byte>
    requires |b| >= 20 && HdrLen(b[0]) <= Be16(b, 2)
  {
    Shrunk(PastOptions(b, HdrLen(b[0])), Be16(b, 2) - HdrLen(b[0]))
  }

  /** The successor a module names for its payload, and the payload it leaves. */
  function Hand(m: Mod, b: seq<byte>): Option<(Mod, seq<byte>)> {
    match m
    case Ethernet =>
      if |b| < 14 then None else Onto(ByEtherType(Be16(b, 12), false), b[14..])
    case Dot1Q =>
      if |b| < 4 then None else Onto(ByEtherType(Be16(b, 2), true), b[4..])
    case PPPoE =>
      if |b| < 8 then None else Onto(if Be16(b, 6) == 0x21 then Some(IPv4) else None, b[8..])
    case IPv4 =>
      if |b| < 20 || Be16(b, 2) < HdrLen(b[0]) then None
      else Onto(ByProtocol(b[9]), Ipv4Body(b))
    case UDP =>
      if |b| < 8 then None else Onto(ByPorts(Be16(b, 0), Be16(b, 2)), b[8..])
    case _ => None
  }

  /** The switch of the IPv4 module on the protocol number. */
  function ByProtocol(proto: byte): Option<Mod> {
    if proto == 1 then Some(ICMP) else if proto == 6 then Some(TCP) else if proto == 17 then Some(UDP) else None
  }

  function Onto(m: Option<Mod>, b: seq<byte>): Option<(Mod, seq<byte>)> {
    if m.None? then None else Some((m.value, b))
  }

  /** A hand-over follows the module graph downwards and strictly shortens the payload. */
  lemma HandDescends(m: Mod, b: seq<byte>)
    ensures var h := Hand(m, b);
            h.Some? ==> h.value.0 in Successors(m) && Height(h.value.0) < Height(m) && |h.value.1| < |b|
  {
  }

  /** The modules entered from `m` on. */
  function Chain(m: Mod, b: seq<byte>): seq<Mod>
    decreases Height(m)
  {
    HandDescends(m, b);
    [m] + match Hand(m, b) case None => [] case Some(h) => Chain(h.0, h.1)
  }

  predicate Path(ms: seq<Mod>) {
    forall i :: 0 <= i < |ms| - 1 ==> ms[i + 1] in Successors(ms[i])
  }

  /** Whatever the bytes, the modules entered form a path of the graph of at most six. */
  lemma {:induction false} ChainIsShortPath(m: Mod, b: seq<byte>)
    ensures var c := Chain(m, b); c != [] && c[0] == m && |c| <= Height(m) && Path(c)
    decreases Height(m)
  {
    HandDescends(m, b);
    var h := Hand(m, b);
    if h.Some? {
      ChainIsShortPath(h.value.0, h.value.1);
    }
  }

  /** One Module::decode, as far as the payload and the successor go. */
  method Enter(m: Mod, pd: Payload) returns (next: Option<Mod>)
    requires pd.Valid()
    modifies pd`ptr, pd`length
    ensures pd.Valid()
    ensures match Hand(m, old(pd.Rest()))
            case None => next == None
            case Some(h) => next == Some(h.0) && pd.Rest() == h.1
  {
    hide Ipv4Body;
    ghost var b := pd.Rest();
    next := None;
    match m
    case Ethernet =>
      var h := pd.Retain(14);
      if h.Some? {
        Bytes(pd.bytes, h.value, 14, b);
        var t := Be16(pd.bytes, h.value + 12);
        next := if t == 0x0806 then Some(ARP) else if t == 0x0800 then Some(IPv4)
                else if t == 0x8100 then Some(Dot1Q) else if t == 0x8864 then Some(PPPoE) else None;
      }
    case Dot1Q =>
      var h := pd.Retain(4);
      if h.Some? {
        Bytes(pd.bytes, h.value, 4, b);
        var t := Be16(pd.bytes, h.value + 2);
        next := if t == 0x0806 then Some(ARP) else if t == 0x0800 then Some(IPv4)
                else if t == 0x8864 then Some(PPPoE) else None;
      }
    case PPPoE =>
      var h := pd.Retain(6);
      if h.Some? {
        var p := pd.Retain(2);
        if p.Some? {
          assert b[6..][..2] == b[6..8] && b[6..][2..] == b[8..];
          Bytes(pd.bytes, p.value, 2, b[6..]);
          if Be16(pd.bytes, p.value) == 0x21 {
            next := Some(IPv4);
          }
        }
      }
    case IPv4 =>
      next := EnterIpv4(pd);
    case UDP =>
      var h := pd.Retain(8);
      if h.Some? {
        Bytes(pd.bytes, h.value, 8, b);
        var sport, dport := Be16(pd.bytes, h.value), Be16(pd.bytes, h.value + 2);
        if sport == 53 || dport == 53 {
          next := Some(DNS);
        } else if sport == 5353 || dport == 5353 {
          next := Some(MDNS);
        } else if sport == 67 || sport == 68 || dport == 67 || dport == 68 {
          next := Some(DHCP);
        }
      }
    case _ =>
  }

  lemma Bytes(bytes: seq<byte>, p: nat, n: nat, b: seq<byte>)
    requires p + n <= |bytes| && n <= |b| && bytes[p..p + n] == b[..n]
    ensures forall i :: 0 <= i < n ==> bytes[p + i] == b[i]
  {
    forall i | 0 <= i < n
      ensures bytes[p + i] == b[i]
    {
      assert bytes[p..p + n][i] == b[..n][i];
    }
  }

  lemma Ipv4Hand(b: seq<byte>)
    requires |b| >= 20
    ensures Hand(IPv4, b) ==
            if Be16(b, 2) < HdrLen(b[0]) then None
            else Onto(ByProtocol(b[9]), Ipv4Body(b))
  {
  }

  method EnterIpv4(pd: Payload) returns (next: Option<Mod>)
    requires pd.Valid()
    modifies pd`ptr, pd`length
    ensures pd.Valid()
    ensures match Hand(IPv4, old(pd.Rest()))
            case None => next == None
            case Some(h) => next == Some(h.0) && pd.Rest() == h.1
  {
    ghost var b := pd.Rest();
    var h := pd.Retain(20);
    if h.None? {
      return None;
    }
    Bytes(pd.bytes, h.value, 20, b);
    Ipv4Hand(b);
    hide Hand;
    assert Be16(pd.bytes, h.value + 2) == Be16(b, 2);
    hide Be16, HdrLen;
    hide PastOptions, Shrunk;
    var hdrLen, total := HdrLen(pd.bytes[h.value]), Be16(pd.bytes, h.value + 2);
    if total < hdrLen {
      return None;
    }
    SkipOptions(pd, hdrLen, b);
    ShrinkTo(pd, total - hdrLen);
    var proto := pd.bytes[h.value + 9];
    next := ByProtocol(proto);
  }

  method SkipOptions(pd: Payload, hdrLen: nat, ghost b: seq<byte>)
    requires pd.Valid() && |b| >= 20 && pd.Rest() == b[20..]
    modifies pd`ptr, pd`length
    ensures pd.Valid() && pd.Rest() == PastOptions(b, hdrLen)
  {
    if hdrLen > 20 {
      var _ := pd.Retain(hdrLen - 20);
      assert hdrLen <= |b| ==> b[20..][hdrLen - 20..] == b[hdrLen..];
    }
  }

  method ShrinkTo(pd: Payload, n: nat)
    requires pd.Valid()
    modifies pd`length
    ensures pd.Valid() && pd.Rest() == Shrunk(old(pd.Rest()), n)
  {
    var _ := pd.Shrink(n);
  }

  /** The chain of a packet: what was entered, then what the module `next` still leads to. */
  ghost predicate Ahead(all: seq<Mod>, events: seq<Mod>, next: Option<Mod>, b: seq<byte>) {
    all == events + (if next.Some? then Chain(next.value, b) else [])
  }

  lemma AheadStart(packet: seq<byte>)
    ensures Ahead(Chain(Ethernet, packet), [], Some(Ethernet), packet)
  {
    hide Chain;
  }

  lemma ChainStep(m: Mod, b: seq<byte>)
    ensures Chain(m, b) == [m] + match Hand(m, b) case None => [] case Some(h) => Chain(h.0, h.1)
  {
    hide Hand;
  }

  lemma EnterAhead(all: seq<Mod>, events: seq<Mod>, m: Mod, b: seq<byte>)
    requires Ahead(all, events, Some(m), b)
    ensures match Hand(m, b)
            case None => forall b' :: Ahead(all, events + [m], None, b')
            case Some(h) => Ahead(all, events + [m], Some(h.0), h.1)
  {
    hide Hand, Chain;
    ChainStep(m, b);
    var h := Hand(m, b);
    var after := if h.Some? then Chain(h.value.0, h.value.1) else [];
    assert events + ([m] + after) == (events + [m]) + after;
  }

  /** Decoder::decode: the loop ends, and the module events pushed are the chain from Ethernet on. */
  method DecodePacket(packet: seq<byte>) returns (events: seq<Mod>)
    ensures events == Chain(Ethernet, packet)
  {
    hide Hand, Payload.Rest, Chain, Ahead, Successors;
    var pd := new Payload(packet);
    var next: Option<Mod> := Some(Ethernet);
    events := [];
    ghost var all := Chain(Ethernet, packet);
    AheadStart(packet);
    while next.Some?
      invariant pd.Valid() && Ahead(all, events, next, pd.Rest())
      decreases if next.Some? then Height(next.value) else 0
    {
      var m := next.value;
      HandDescends(m, pd.Rest());
      EnterAhead(all, events, m, pd.Rest());
      events := events + [m];
      next := Enter(m, pd);
    }
    AheadOver(all, events, pd.Rest());
  }

  lemma AheadOver(all: seq<Mod>, events: seq<Mod>, b: seq<byte>)
    requires Ahead(all, events, None, b)
    ensures all == events
  {
    assert events + [] == events;
  }
}
