/**
 Frames written layer by layer, with the numbers of the protocols they belong to: Ethernet with
 802.1Q tags and PPPoE sessions (RFC 2516), IPv4 with options and trailer (section 3.1 of
 RFC 791), UDP.  The module chain takes such a frame apart into exactly those layers, and the last
 module gets exactly the bytes that were put in.
 */
module Layers {
  import opened Common
  import opened Dispatch

  /** A 16-bit number in network byte order. */
  function U16Bytes(n: u16): seq<byte> {
    [n / 256, n % 256]
  }

  lemma U16Read(pre: seq<byte>, n: u16, post: seq<byte>)
    ensures Be16(pre + U16Bytes(n) + post, |pre|) == n
  {
    var b := pre + U16Bytes(n) + post;
    assert b[|pre|] == n / 256 && b[|pre| + 1] == n % 256;
  }

  // ---------------------------------------------------------------- transport

  datatype App = Dns | MDns | Dhcp4 | Plain

  datatype Transport =
    | Icmp(body: seq<byte>)
    | Tcp(body: seq<byte>)
    | Udp(app: App, sport: u16, dport: u16, rest: seq<byte>, body: seq<byte>)   // rest: length and checksum
    | OtherProtocol(number: byte, body: seq<byte>)

  /** Which application a pair of ports means: the well-known number may be at either end. */
  predicate Ports(app: App, s: u16, d: u16) {
    match app
    case Dns => s == 53 || d == 53
    case MDns => s != 53 && d != 53 && (s == 5353 || d == 5353)
    case Dhcp4 => s !in {53, 5353} && d !in {53, 5353} && (s in {67, 68} || d in {67, 68})
    case Plain => s !in {53, 67, 68, 5353} && d !in {53, 67, 68, 5353}
  }

  predicate FitsTransport(t: Transport) {
    match t
    case Udp(app, s, d, rest, _) => |rest| == 4 && Ports(app, s, d)
    case OtherProtocol(n, _) => n != 1 && n != 6 && n != 17
    case _ => true
  }

  function Protocol(t: Transport): byte {
    match t
    case Icmp(_) => 1
    case Tcp(_) => 6
    case Udp(_, _, _, _, _) => 17
    case OtherProtocol(n, _) => n
  }

  function WriteTransport(t: Transport): seq<byte> {
    match t
    case Udp(_, s, d, rest, body) => U16Bytes(s) + U16Bytes(d) + rest + body
    case _ => t.body
  }

  /** A module and the bytes it is entered with. */
  datatype Entry = Entry(m: Mod, bytes: seq<byte>)

  function TransportLayers(t: Transport): seq<Entry> {
    match t
    case Icmp(body) => [Entry(ICMP, body)]
    case Tcp(body) => [Entry(TCP, body)]
    case Udp(app, _, _, _, body) => [Entry(UDP, WriteTransport(t))] + AppLayers(app, body)
    case OtherProtocol(_, _) => []
  }

  function AppLayers(app: App, body: seq<byte>): seq<Entry> {
    match app
    case Dns => [Entry(DNS, body)]
    case MDns => [Entry(MDNS, body)]
    case Dhcp4 => [Entry(DHCP, body)]
    case Plain => []
  }

  // ---------------------------------------------------------------- network

  /** An IPv4 packet; `tos` to `addresses` are the header fields that play no part here. */
  datatype Ip = Ip(version: nat, tos: byte, fragment: seq<byte>, ttl: byte, addresses: seq<byte>,
                   options: seq<byte>, inner: Transport, trailer: seq<byte>)

  /** Options come in words; identification, flags and offset are four bytes, checksum and addresses ten. */
  predicate FitsIp(ip: Ip) {
    && ip.version < 16 && |ip.fragment| == 4 && |ip.addresses| == 10
    && |ip.options| % 4 == 0 && |ip.options| <= 40
    && 20 + |ip.options| + |WriteTransport(ip.inner)| < 0x1_0000 && FitsTransport(ip.inner)
  }

  function IpHeader(ip: Ip): seq<byte>
    requires FitsIp(ip)
  {
    var words := 5 + |ip.options| / 4;
    [ip.version * 16 + words, ip.tos] + U16Bytes(20 + |ip.options| + |WriteTransport(ip.inner)|)
    + ip.fragment + [ip.ttl, Protocol(ip.inner)] + ip.addresses
  }

  function WriteIp(ip: Ip): seq<byte>
    requires FitsIp(ip)
  {
    IpHeader(ip) + ip.options + WriteTransport(ip.inner) + ip.trailer
  }

  function IpLayers(ip: Ip): seq<Entry>
    requires FitsIp(ip)
  {
    [Entry(IPv4, WriteIp(ip))] + TransportLayers(ip.inner)
  }

  // ---------------------------------------------------------------- link

  datatype Link =
    | Arp(body: seq<byte>)
    | Internet(ip: Ip)
    | Session(header: seq<byte>, ip: Ip)             // PPPoE: version to length
    | OtherSession(header: seq<byte>, number: u16, body: seq<byte>)
    | Tagged(tag: seq<byte>, inner: Link)            // 802.1Q
    | OtherType(number: u16, body: seq<byte>)

  predicate FitsLink(l: Link) {
    match l
    case Arp(_) => true
    case Internet(ip) => FitsIp(ip)
    case Session(header, ip) => |header| == 6 && FitsIp(ip)
    case OtherSession(header, n, _) => |header| == 6 && n != 0x21
    case Tagged(tag, inner) => |tag| == 2 && FitsLink(inner)
    case OtherType(n, _) => n !in {0x0806, 0x0800, 0x8100, 0x8864}
  }

  function EtherType(l: Link): u16 {
    match l
    case Arp(_) => 0x0806
    case Internet(_) => 0x0800
    case Session(_, _) => 0x8864
    case OtherSession(_, _, _) => 0x8864
    case Tagged(_, _) => 0x8100
    case OtherType(n, _) => n
  }

  /** What stands behind the type field. */
  function WriteLink(l: Link): seq<byte>
    requires FitsLink(l)
  {
    match l
    case Arp(body) => body
    case Internet(ip) => WriteIp(ip)
    case Session(header, ip) => header + U16Bytes(0x21) + WriteIp(ip)
    case OtherSession(header, n, body) => header + U16Bytes(n) + body
    case Tagged(tag, inner) => tag + U16Bytes(EtherType(inner)) + WriteLink(inner)
    case OtherType(_, body) => body
  }

  /** A second tag is not followed. */
  function LinkLayers(l: Link): seq<Entry>
    requires FitsLink(l)
  {
    match l
    case Arp(body) => [Entry(ARP, body)]
    case Internet(ip) => IpLayers(ip)
    case Session(_, ip) => [Entry(PPPoE, WriteLink(l))] + IpLayers(ip)
    case OtherSession(_, _, _) => [Entry(PPPoE, WriteLink(l))]
    case Tagged(_, inner) => [Entry(Dot1Q, WriteLink(l))] + if inner.Tagged? then [] else LinkLayers(inner)
    case OtherType(_, _) => []
  }

  datatype EtherFrame = EtherFrame(macs: seq<byte>, link: Link)

  predicate FitsFrame(f: EtherFrame) {
    |f.macs| == 12 && FitsLink(f.link)
  }

  function WriteFrame(f: EtherFrame): seq<byte>
    requires FitsFrame(f)
  {
    f.macs + U16Bytes(EtherType(f.link)) + WriteLink(f.link)
  }

  function FrameLayers(f: EtherFrame): seq<Entry>
    requires FitsFrame(f)
  {
    [Entry(Ethernet, WriteFrame(f))] + LinkLayers(f.link)
  }

  // ---------------------------------------------------------------- taking apart

  /** The modules entered from `m` on, each with its bytes. */
  function Entries(m: Mod, b: seq<byte>): seq<Entry>
    decreases Height(m)
  {
    HandDescends(m, b);
    [Entry(m, b)] + match Hand(m, b) case None => [] case Some(h) => Entries(h.0, h.1)
  }

  function Modules(entries: seq<Entry>): (r: seq<Mod>)
    ensures |r| == |entries|
  {
    if entries == [] then [] else [entries[0].m] + Modules(entries[1..])
  }

  lemma {:induction false} EntriesChain(m: Mod, b: seq<byte>)
    ensures Modules(Entries(m, b)) == Chain(m, b)
    decreases Height(m)
  {
    HandDescends(m, b);
    hide Hand, Successors;
    var h := Hand(m, b);
    ChainStep(m, b);
    if h.Some? {
      EntriesChain(h.value.0, h.value.1);
      assert Entries(m, b)[1..] == Entries(h.value.0, h.value.1);
    } else {
      assert Entries(m, b)[1..] == [];
      assert Chain(m, b) == [m];
    }
  }

  lemma EntriesStep(m: Mod, b: seq<byte>)
    ensures Entries(m, b) == [Entry(m, b)] + match Hand(m, b) case None => [] case Some(h) => Entries(h.0, h.1)
  {
    hide Hand;
  }

  /** A module that hands nothing on. */
  lemma LastEntry(m: Mod, b: seq<byte>)
    requires m in {ARP, ICMP, TCP, DNS, MDNS, DHCP}
    ensures Entries(m, b) == [Entry(m, b)]
  {
  }

  lemma UdpEntries(t: Transport)
    requires FitsTransport(t) && t.Udp?
    ensures Entries(UDP, WriteTransport(t)) == TransportLayers(t)
  {
    var b := WriteTransport(t);
    U16Read([], t.sport, U16Bytes(t.dport) + t.rest + t.body);
    U16Read(U16Bytes(t.sport), t.dport, t.rest + t.body);
    assert b == [] + U16Bytes(t.sport) + (U16Bytes(t.dport) + t.rest + t.body);
    assert b == U16Bytes(t.sport) + U16Bytes(t.dport) + (t.rest + t.body);
    assert b[8..] == t.body;
    EntriesStep(UDP, b);
    hide Entries, Be16;
    match t.app
    case Dns => LastEntry(DNS, t.body);
    case MDns => LastEntry(MDNS, t.body);
    case Dhcp4 => LastEntry(DHCP, t.body);
    case Plain =>
  }

  lemma IpFields(ip: Ip)
    requires FitsIp(ip)
    ensures var b := WriteIp(ip);
            && |b| >= 20 && HdrLen(b[0]) == 20 + |ip.options|
            && Be16(b, 2) == 20 + |ip.options| + |WriteTransport(ip.inner)|
            && b[9] == Protocol(ip.inner)
  {
    hide WriteTransport, FitsTransport;
    var b, h := WriteIp(ip), IpHeader(ip);
    assert |h| == 20 && b[..20] == h;
    assert b[0] == h[0] && b[2] == h[2] && b[3] == h[3] && b[9] == h[9];
  }

  lemma IpBody(ip: Ip)
    requires FitsIp(ip)
    ensures var b := WriteIp(ip);
            |b| >= 20 && HdrLen(b[0]) <= Be16(b, 2) && Ipv4Body(b) == WriteTransport(ip.inner)
  {
    IpFields(ip);
    hide HdrLen, Be16, WriteTransport, FitsTransport;
    var b, n := WriteIp(ip), 20 + |ip.options|;
    assert |IpHeader(ip)| == 20;
    assert b[n..] == WriteTransport(ip.inner) + ip.trailer;
    assert PastOptions(b, n) == WriteTransport(ip.inner) + ip.trailer;
  }

  lemma IpEntries(ip: Ip)
    requires FitsIp(ip)
    ensures Entries(IPv4, WriteIp(ip)) == IpLayers(ip)
  {
    var b, t := WriteIp(ip), ip.inner;
    IpFields(ip);
    IpBody(ip);
    Ipv4Hand(b);
    EntriesStep(IPv4, b);
    hide Entries, Be16, HdrLen, Ipv4Body, WriteIp, WriteTransport, Hand;
    match t
    case Icmp(body) => BareBody(t); LastEntry(ICMP, body);
    case Tcp(body) => BareBody(t); LastEntry(TCP, body);
    case Udp(_, _, _, _, _) => UdpEntries(t);
    case OtherProtocol(_, _) =>
  }

  lemma BareBody(t: Transport)
    requires !t.Udp?
    ensures WriteTransport(t) == t.body
  {
  }

  /** What a two-byte type field behind `pre` and the bytes behind it are read as. */
  lemma TypeField(pre: seq<byte>, n: u16, post: seq<byte>)
    ensures var b := pre + U16Bytes(n) + post;
            |b| == |pre| + 2 + |post| && Be16(b, |pre|) == n && b[|pre| + 2..] == post
  {
    U16Read(pre, n, post);
  }

  lemma SessionEntries(l: Link)
    requires FitsLink(l) && (l.Session? || l.OtherSession?)
    ensures Entries(PPPoE, WriteLink(l)) == LinkLayers(l)
  {
    var b := WriteLink(l);
    if l.Session? {
      TypeField(l.header, 0x21, WriteIp(l.ip));
      IpEntries(l.ip);
    } else {
      TypeField(l.header, l.number, l.body);
    }
    EntriesStep(PPPoE, b);
    hide Entries, Be16, WriteIp, U16Bytes;
  }

  /** The layers below a type field. */
  lemma {:induction false} LinkEntries(l: Link, tagged: bool)
    requires FitsLink(l)
    ensures var m := ByEtherType(EtherType(l), tagged);
            (if m.Some? then Entries(m.value, WriteLink(l)) else [])
            == if tagged && l.Tagged? then [] else LinkLayers(l)
    decreases l, 1
  {
    if l.Tagged? {
      TaggedEntries(l);
    } else {
      match l
      case Arp(body) => LastEntry(ARP, body);
      case Internet(ip) => IpEntries(ip);
      case Session(_, _) => SessionEntries(l);
      case OtherSession(_, _, _) => SessionEntries(l);
      case OtherType(_, _) =>
    }
  }

  lemma {:induction false} TaggedEntries(l: Link)
    requires FitsLink(l) && l.Tagged?
    ensures Entries(Dot1Q, WriteLink(l)) == LinkLayers(l)
    decreases l, 0
  {
    var b := WriteLink(l);
    TypeField(l.tag, EtherType(l.inner), WriteLink(l.inner));
    EntriesStep(Dot1Q, b);
    LinkEntries(l.inner, true);
    hide Entries, Be16, U16Bytes;
  }

  /** The round trip: a frame is taken apart into exactly the layers it was written with. */
  lemma {:induction false} FrameRoundTrip(f: EtherFrame)
    requires FitsFrame(f)
    ensures Entries(Ethernet, WriteFrame(f)) == FrameLayers(f)
    ensures Chain(Ethernet, WriteFrame(f)) == Modules(FrameLayers(f))
  {
    var b := WriteFrame(f);
    TypeField(f.macs, EtherType(f.link), WriteLink(f.link));
    EntriesStep(Ethernet, b);
    LinkEntries(f.link, false);
    EntriesChain(Ethernet, b);
    hide Entries, Be16, U16Bytes, Chain, LinkLayers;
  }

  // ---------------------------------------------------------------- frames cut short

  function AppModules(app: App): seq<Mod> {
    match app
    case Dns => [DNS]
    case MDns => [MDNS]
    case Dhcp4 => [DHCP]
    case Plain => []
  }

  lemma SomeApp(s: u16, d: u16) returns (app: App)
    ensures Ports(app, s, d)
  {
    app := if s == 53 || d == 53 then Dns
           else if s == 5353 || d == 5353 then MDns
           else if s in {67, 68} || d in {67, 68} then Dhcp4 else Plain;
  }

  /** UDP enters the module of its ports, if they are there. */
  lemma UdpChain(b: seq<byte>, app: App)
    requires |b| >= 8 ==> Ports(app, Be16(b, 0), Be16(b, 2))
    ensures Chain(UDP, b) == [UDP] + if |b| >= 8 then AppModules(app) else []
  {
    ChainStep(UDP, b);
    if |b| >= 8 {
      hide Be16;
      ChainLast(DNS, b[8..]);
      ChainLast(MDNS, b[8..]);
      ChainLast(DHCP, b[8..]);
    }
  }

  lemma ChainLast(m: Mod, b: seq<byte>)
    requires m in {ARP, ICMP, TCP, DNS, MDNS, DHCP}
    ensures Chain(m, b) == [m]
  {
  }

  /** The modules of a transport of which at least `n` bytes are there. */
  function CutTransport(t: Transport, n: nat): seq<Mod> {
    match t
    case Icmp(_) => [ICMP]
    case Tcp(_) => [TCP]
    case Udp(app, _, _, _, _) => [UDP] + if n >= 8 then AppModules(app) else []
    case OtherProtocol(_, _) => []
  }

  function IpModules(ip: Ip): seq<Mod> {
    [IPv4] + CutTransport(ip.inner, 8)
  }

  /** Eight bytes or more of the options, and nothing behind them, are there, and read as ports mean `app`. */
  predicate ReadsAs(ip: Ip, n: nat, app: App) {
    && 28 <= n < 20 + |ip.options|
    && Ports(app, Be16(ip.options, 0), Be16(ip.options, 2))
  }

  /** A UDP packet cut in its options, which read as ports mean an application that is not its own. */
  ghost predicate Misread(ip: Ip, n: nat) {
    ip.inner.Udp? && exists app :: app != Plain && app != ip.inner.app && ReadsAs(ip, n, app)
  }

  /** What IPv4 leaves of a packet of which `n` bytes are there. */
  function CutBody(ip: Ip, n: nat): seq<byte>
    requires 20 <= n
  {
    var hdrLen, t := 20 + |ip.options|, WriteTransport(ip.inner);
    if n < hdrLen then Shrunk(ip.options[..n - 20], |t|) else if n - hdrLen < |t| then t[..n - hdrLen] else t
  }

  lemma CutIpBody(ip: Ip, n: nat)
    requires FitsIp(ip) && 20 <= n <= |WriteIp(ip)|
    ensures var b := WriteIp(ip)[..n];
            && HdrLen(b[0]) <= Be16(b, 2) && b[9] == Protocol(ip.inner) && Ipv4Body(b) == CutBody(ip, n)
  {
    IpFields(ip);
    var whole, t, hdrLen := WriteIp(ip), WriteTransport(ip.inner), 20 + |ip.options|;
    var b := whole[..n];
    assert b[0] == whole[0] && b[2] == whole[2] && b[3] == whole[3];
    assert |IpHeader(ip)| == 20;
    hide HdrLen, WriteTransport, FitsTransport, IpHeader;
    if n < hdrLen {
      assert b[20..] == ip.options[..n - 20];
    } else {
      assert whole[hdrLen..] == t + ip.trailer;
      assert b[hdrLen..] == (t + ip.trailer)[..n - hdrLen];
    }
  }

  lemma IpChain(ip: Ip, n: nat)
    requires FitsIp(ip) && n <= |WriteIp(ip)|
    ensures n < 20 ==> Chain(IPv4, WriteIp(ip)[..n]) == [IPv4]
    ensures 20 <= n ==>
              Chain(IPv4, WriteIp(ip)[..n]) == [IPv4] + match ip.inner
                                                        case Icmp(_) => [ICMP]
                                                        case Tcp(_) => [TCP]
                                                        case Udp(_, _, _, _, _) => Chain(UDP, CutBody(ip, n))
                                                        case OtherProtocol(_, _) => []
  {
    hide WriteIp, CutBody, Chain, Hand, FitsIp;
    ChainStep(IPv4, WriteIp(ip)[..n]);
    CutIpHand(ip, n);
    if 20 <= n {
      ChainLast(ICMP, CutBody(ip, n));
      ChainLast(TCP, CutBody(ip, n));
    }
  }

  lemma CutIpHand(ip: Ip, n: nat)
    requires FitsIp(ip) && n <= |WriteIp(ip)|
    ensures n < 20 ==> Hand(IPv4, WriteIp(ip)[..n]) == None
    ensures 20 <= n ==>
              Hand(IPv4, WriteIp(ip)[..n]) == match ip.inner
                                              case Icmp(_) => Some((ICMP, CutBody(ip, n)))
                                              case Tcp(_) => Some((TCP, CutBody(ip, n)))
                                              case Udp(_, _, _, _, _) => Some((UDP, CutBody(ip, n)))
                                              case OtherProtocol(_, _) => None
  {
    hide WriteIp, CutBody, WriteTransport;
    if 20 <= n {
      hide Be16, HdrLen, Ipv4Body, Hand;
      CutIpBody(ip, n);
      Ipv4Hand(WriteIp(ip)[..n]);
    }
  }

  lemma PrefixApps(a: App, b: App)
    ensures [UDP] + AppModules(a) <= [UDP] + AppModules(b) <==> a == Plain || a == b
  {
    PrefixBehind(UDP, AppModules(a), AppModules(b));
    if AppModules(a) <= AppModules(b) && a != Plain {
      assert AppModules(a)[0] == AppModules(b)[0];
    }
  }

  lemma OneApp(a: App, b: App, s: u16, d: u16)
    requires Ports(a, s, d) && Ports(b, s, d)
    ensures a == b
  {
  }

  lemma MisreadIff(ip: Ip, n: nat, app: App)
    requires ip.inner.Udp? && ReadsAs(ip, n, app)
    ensures Misread(ip, n) <==> app != Plain && app != ip.inner.app
  {
    hide Ports;
    forall other | ReadsAs(ip, n, other)
      ensures other == app
    {
      OneApp(app, other, Be16(ip.options, 0), Be16(ip.options, 2));
    }
  }

  /** UDP on what is left of the packet. */
  lemma CutUdp(ip: Ip, n: nat)
    requires FitsIp(ip) && 20 <= n <= |WriteIp(ip)| && ip.inner.Udp?
    ensures Chain(UDP, CutBody(ip, n)) <= [UDP] + AppModules(ip.inner.app) <==> !Misread(ip, n)
  {
    var b, t := CutBody(ip, n), ip.inner;
    var w := WriteTransport(t);
    if |b| < 8 {
      UdpChain(b, Plain);
    } else if n < 20 + |ip.options| {
      assert b[..4] == ip.options[..4];
      assert Be16(b, 0) == Be16(ip.options, 0) && Be16(b, 2) == Be16(ip.options, 2);
      var app := SomeApp(Be16(b, 0), Be16(b, 2));
      UdpChain(b, app);
      assert ReadsAs(ip, n, app);
      PrefixApps(app, t.app);
      MisreadIff(ip, n, app);
    } else {
      U16Read([], t.sport, U16Bytes(t.dport) + t.rest + t.body);
      U16Read(U16Bytes(t.sport), t.dport, t.rest + t.body);
      assert w == [] + U16Bytes(t.sport) + (U16Bytes(t.dport) + t.rest + t.body);
      assert w == U16Bytes(t.sport) + U16Bytes(t.dport) + (t.rest + t.body);
      assert b[..4] == w[..4];
      assert Be16(b, 0) == Be16(w, 0) && Be16(b, 2) == Be16(w, 2);
      UdpChain(b, t.app);
    }
  }

  lemma CutIp(ip: Ip, n: nat)
    requires FitsIp(ip) && n <= |WriteIp(ip)|
    ensures Chain(IPv4, WriteIp(ip)[..n]) <= IpModules(ip) <==> !Misread(ip, n)
  {
    hide Chain, WriteIp, CutBody;
    IpChain(ip, n);
    if 20 <= n && ip.inner.Udp? {
      CutUdp(ip, n);
      PrefixBehind(IPv4, Chain(UDP, CutBody(ip, n)), CutTransport(ip.inner, 8));
    }
  }

  lemma PrefixBehind(m: Mod, a: seq<Mod>, b: seq<Mod>)
    ensures [m] + a <= [m] + b <==> a <= b
  {
    if [m] + a <= [m] + b {
      assert forall i :: 0 <= i < |a| ==> a[i] == ([m] + a)[i + 1] && b[i] == ([m] + b)[i + 1];
    }
  }

  /** The modules of a whole frame, from below the type field on. */
  function LinkModules(l: Link): seq<Mod> {
    match l
    case Arp(_) => [ARP]
    case Internet(ip) => IpModules(ip)
    case Session(_, ip) => [PPPoE] + IpModules(ip)
    case OtherSession(_, _, _) => [PPPoE]
    case Tagged(_, inner) => [Dot1Q] + if inner.Tagged? then [] else LinkModules(inner)
    case OtherType(_, _) => []
  }

  /** The IPv4 packet in a link of which `n` bytes are there is misread. */
  ghost predicate MisreadIn(l: Link, n: int) {
    match l
    case Internet(ip) => n >= 0 && Misread(ip, n)
    case Session(_, ip) => n >= 8 && Misread(ip, n - 8)
    case Tagged(_, inner) => !inner.Tagged? && MisreadIn(inner, n - 4)
    case _ => false
  }

  /** What a cut leaves of a type field and the bytes behind it. */
  lemma CutField(pre: seq<byte>, n: u16, post: seq<byte>, cut: nat)
    requires cut <= |pre| + 2 + |post|
    ensures var b := (pre + U16Bytes(n) + post)[..cut];
            |pre| + 2 <= cut ==> Be16(b, |pre|) == n && b[|pre| + 2..] == post[..cut - |pre| - 2]
  {
    U16Read(pre, n, post);
  }

  /** What the modules below IPv4 do with their type field. */
  lemma LinkHand(b: seq<byte>)
    ensures Hand(Ethernet, b) == if |b| < 14 then None else Onto(ByEtherType(Be16(b, 12), false), b[14..])
    ensures Hand(Dot1Q, b) == if |b| < 4 then None else Onto(ByEtherType(Be16(b, 2), true), b[4..])
    ensures Hand(PPPoE, b)
            == if |b| < 8 then None else Onto(if Be16(b, 6) == 0x21 then Some(IPv4) else None, b[8..])
  {
  }

  lemma CutSession(l: Link, n: nat)
    requires FitsLink(l) && (l.Session? || l.OtherSession?) && n <= |WriteLink(l)|
    ensures Chain(PPPoE, WriteLink(l)[..n]) <= LinkModules(l) <==> !MisreadIn(l, n)
  {
    var b := WriteLink(l)[..n];
    hide Hand, Chain, WriteIp, Be16, U16Bytes, Misread, IpModules;
    ChainStep(PPPoE, b);
    LinkHand(b);
    if l.Session? {
      CutField(l.header, 0x21, WriteIp(l.ip), n);
      if n >= 8 {
        CutIp(l.ip, n - 8);
        PrefixBehind(PPPoE, Chain(IPv4, b[8..]), IpModules(l.ip));
      }
    } else {
      CutField(l.header, l.number, l.body, n);
    }
  }

  /** Below a type field, as much as is there. */
  lemma {:induction false} CutLink(l: Link, n: nat, tagged: bool)
    requires FitsLink(l) && n <= |WriteLink(l)| && !(tagged && l.Tagged?)
    ensures CutModules(l, n, tagged) <= LinkModules(l) <==> !MisreadIn(l, n)
    decreases l, 1
  {
    if l.Tagged? {
      CutTagged(l, n);
    } else {
      match l
      case Arp(body) => ChainLast(ARP, body[..n]);
      case Internet(ip) => CutIp(ip, n);
      case Session(_, _) => CutSession(l, n);
      case OtherSession(_, _, _) => CutSession(l, n);
      case OtherType(_, _) =>
    }
  }

  /** The modules from a type field on, as much as is there. */
  function CutModules(l: Link, n: nat, tagged: bool): seq<Mod>
    requires FitsLink(l) && n <= |WriteLink(l)|
  {
    var m := ByEtherType(EtherType(l), tagged);
    if m.Some? then Chain(m.value, WriteLink(l)[..n]) else []
  }

  /** Ethernet and 802.1Q on a cut frame: themselves, and what is behind their type field if that is there. */
  lemma CutBehindType(m: Mod, pre: seq<byte>, l: Link, n: nat)
    requires FitsLink(l) && n <= |pre| + 2 + |WriteLink(l)|
    requires (m == Ethernet && |pre| == 12) || (m == Dot1Q && |pre| == 2)
    ensures var b, at := (pre + U16Bytes(EtherType(l)) + WriteLink(l))[..n], |pre| + 2;
            Chain(m, b) == [m] + if n < at then [] else CutModules(l, n - at, m == Dot1Q)
  {
    hide Hand, Chain, Be16, U16Bytes, WriteLink, FitsLink, EtherType, ByEtherType;
    var w := WriteLink(l);
    U16Size(EtherType(l));
    var b := (pre + U16Bytes(EtherType(l)) + w)[..n];
    ChainStep(m, b);
    LinkHand(b);
    CutField(pre, EtherType(l), w, n);
  }

  lemma TaggedIs(l: Link, n: nat)
    requires FitsLink(l) && l.Tagged?
    ensures FitsLink(l.inner) && |l.tag| == 2
    ensures WriteLink(l) == l.tag + U16Bytes(EtherType(l.inner)) + WriteLink(l.inner)
    ensures |WriteLink(l)| == 4 + |WriteLink(l.inner)|
    ensures MisreadIn(l, n) <==> !l.inner.Tagged? && MisreadIn(l.inner, n - 4)
    ensures LinkModules(l) == [Dot1Q] + if l.inner.Tagged? then [] else LinkModules(l.inner)
  {
    hide Misread, IpModules, WriteIp;
  }

  lemma {:induction false} CutTagged(l: Link, n: nat)
    requires FitsLink(l) && l.Tagged? && n <= |WriteLink(l)|
    ensures Chain(Dot1Q, WriteLink(l)[..n]) <= LinkModules(l) <==> !MisreadIn(l, n)
    decreases l, 0
  {
    hide Chain, U16Bytes, CutModules, LinkModules, MisreadIn, WriteLink, FitsLink, EtherType;
    var inner := l.inner;
    TaggedIs(l, n);
    CutBehindType(Dot1Q, l.tag, inner, n);
    if n < 4 {
      ShortNotMisread(inner, n - 4);
    } else if !inner.Tagged? {
      CutLink(inner, n - 4, true);
      PrefixBehind(Dot1Q, CutModules(inner, n - 4, true), LinkModules(inner));
    } else {
      TwiceTagged(inner, n - 4);
    }
  }

  lemma TwiceTagged(l: Link, n: nat)
    requires FitsLink(l) && l.Tagged? && n <= |WriteLink(l)|
    ensures CutModules(l, n, true) == []
  {
  }

  lemma {:induction false} ShortNotMisread(l: Link, n: int)
    requires n < 0
    ensures !MisreadIn(l, n)
  {
    if l.Tagged? {
      ShortNotMisread(l.inner, n - 4);
    }
  }

  lemma ModulesBehind(e: Entry, entries: seq<Entry>)
    ensures Modules([e] + entries) == [e.m] + Modules(entries)
  {
    assert ([e] + entries)[1..] == entries;
  }

  lemma IpLayerModules(ip: Ip)
    requires FitsIp(ip)
    ensures Modules(IpLayers(ip)) == IpModules(ip)
  {
    hide WriteIp, WriteTransport;
    ModulesBehind(Entry(IPv4, WriteIp(ip)), TransportLayers(ip.inner));
    if ip.inner.Udp? {
      ModulesBehind(Entry(UDP, WriteTransport(ip.inner)), AppLayers(ip.inner.app, ip.inner.body));
    }
  }

  lemma {:induction false} LinkLayerModules(l: Link)
    requires FitsLink(l)
    ensures Modules(LinkLayers(l)) == LinkModules(l)
  {
    hide WriteLink, IpLayers, IpModules;
    match l
    case Internet(ip) => IpLayerModules(ip);
    case Session(_, ip) =>
      IpLayerModules(ip);
      ModulesBehind(Entry(PPPoE, WriteLink(l)), IpLayers(ip));
    case Tagged(_, inner) =>
      if !inner.Tagged? {
        LinkLayerModules(inner);
        ModulesBehind(Entry(Dot1Q, WriteLink(l)), LinkLayers(inner));
      }
    case _ =>
  }

  lemma FrameModules(f: EtherFrame)
    requires FitsFrame(f)
    ensures Modules(FrameLayers(f)) == [Ethernet] + LinkModules(f.link)
  {
    hide WriteFrame, LinkLayers, LinkModules;
    LinkLayerModules(f.link);
    ModulesBehind(Entry(Ethernet, WriteFrame(f)), LinkLayers(f.link));
  }

  /**
   A frame of which only the first `n` bytes were captured is taken apart into the first of its
   layers, exactly unless its UDP packet is cut in the IPv4 options and those read like ports: the
   original takes options that are not all there for the payload.
   */
  lemma {:induction false} CutFrame(f: EtherFrame, n: nat)
    requires FitsFrame(f) && n <= |WriteFrame(f)|
    ensures Chain(Ethernet, WriteFrame(f)[..n]) <= Modules(FrameLayers(f)) <==> !MisreadIn(f.link, n - 14)
  {
    hide Chain, U16Bytes, CutModules, LinkModules, MisreadIn, Modules, FrameLayers;
    FrameModules(f);
    U16Size(EtherType(f.link));
    CutBehindType(Ethernet, f.macs, f.link, n);
    if n < 14 {
      ShortNotMisread(f.link, n - 14);
    } else {
      CutLink(f.link, n - 14, false);
      PrefixBehind(Ethernet, CutModules(f.link, n - 14, false), LinkModules(f.link));
    }
  }

  /** UDP on no known port, with twelve bytes of options. */
  const SOME_UDP := Ip(4, 0, [0, 0, 0, 0], 64, [0, 0, 0, 0, 0, 0, 0, 0, 0, 0],
                       [0, 53, 0, 0, 0, 0, 0, 0, 0, 0, 0, 0], Udp(Plain, 1000, 1001, [0, 8, 0, 0], []), [])

  lemma SomeUdpCut()
    ensures FitsIp(SOME_UDP) && |WriteIp(SOME_UDP)| == 40
    ensures Chain(IPv4, WriteIp(SOME_UDP)[..28]) == [IPv4, UDP, DNS]
  {
    assert |WriteTransport(SOME_UDP.inner)| == 8 && |IpHeader(SOME_UDP)| == 20;
    var b := CutBody(SOME_UDP, 28);
    assert b == [0, 53, 0, 0, 0, 0, 0, 0];
    assert Be16(b, 0) == 53;
    hide CutBody, Chain, WriteIp, Be16;
    IpChain(SOME_UDP, 28);
    UdpChain(b, Dns);
  }

  /** There are such frames: with the first 42 bytes captured, this one is taken for DNS. */
  lemma {:induction false} OptionsTakenForPorts()
    ensures var f := EtherFrame(seq(12, _ => 0), Internet(SOME_UDP));
            && FitsFrame(f) && |WriteFrame(f)| >= 42
            && Chain(Ethernet, WriteFrame(f)) == [Ethernet, IPv4, UDP]
            && Chain(Ethernet, WriteFrame(f)[..42]) == [Ethernet, IPv4, UDP, DNS]
  {
    SomeUdpCut();
    hide Hand, Chain, WriteIp, U16Bytes, Be16, FitsIp, LinkLayers, Modules, FrameLayers;
    var f := EtherFrame(seq(12, _ => 0), Internet(SOME_UDP));
    U16Size(EtherType(f.link));
    FrameRoundTrip(f);
    FrameModules(f);
    CutBehindType(Ethernet, f.macs, f.link, 42);
  }

  lemma U16Size(n: u16)
    ensures |U16Bytes(n)| == 2
  {
  }
}
