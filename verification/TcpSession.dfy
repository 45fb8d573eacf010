/**
 The classes Stream and Session of src/modules/tcp.cc with their fields updated in
 place.  Every method is proved against the value model: the session's abstract
 state after a call is the model's function of its abstract state before.
 */
module TcpSession {
  import opened Common
  import opened SeqNum
  import opened TcpModel
  import M = TcpModel

  class Stream {
    const addr: seq<byte>
    const port: nat
    var hasBase: bool
    var base: u32
    var next: u32

    ghost function View(): M.Stream
      reads this
    {
      M.Stream(hasBase, base, next)
    }

    constructor (addr: seq<byte>, port: nat)
      ensures View() == NEW_STREAM && this.addr == addr && this.port == port
    {
      this.addr, this.port := addr, port;
      hasBase, base, next := false, 0, 0;
    }

    /** Stream::match: the address and port of this end. */
    predicate Match(addr: seq<byte>, port: nat) {
      |this.addr| == |addr| && this.port == port && this.addr == addr
    }

    method SetBaseSeq(seqNo: u32, len: nat)
      modifies this
      ensures View() == old(View()).SetBase(seqNo, len)
    {
      hasBase, base, next := true, seqNo, Add(1, len);
    }

    method IncSeq()
      modifies this
      ensures View() == old(View()).IncSeq()
    {
      next := Add(next, 1);
    }

    method Send(seqNo: u32, len: nat) returns (ok: bool)
      modifies this
      ensures ok <==> old(View()).Accepts(seqNo)
      ensures View() == if ok then old(View()).Send(len) else old(View())
    {
      if !hasBase {
        return true;
      }
      var relSeq := Sub(seqNo, base);
      if next == relSeq {
        next := Add(next, len);
      } else {
        return false;
      }
      return true;
    }
  }

  class Session {
    const client: Stream
    const server: Stream
    var closing: Stream?
    var status: Status
    var buf: Option<seq<byte>>
    var segMap: Stash
    // handed to the Property: events pushed and values stored under TCP.data
    var events: seq<Event>
    var data: seq<seq<byte>>
    ghost var log: seq<Packet>

    ghost predicate Valid()
      reads this
    {
      client != server && (closing == null || closing == client || closing == server)
    }

    ghost function SideOf(x: Stream): Side
      reads this
    {
      if x == client then Client else Server
    }

    ghost function Trk(): Tracker
      reads this, client, server
      requires Valid()
    {
      Tracker(client.View(), server.View(), if closing == null then None else Some(SideOf(closing)), status, events)
    }

    ghost function View(): State
      reads this, client, server
      requires Valid()
    {
      State(Trk(), segMap, buf, data, log)
    }

    /** The first packet's source is the client. */
    constructor (srcAddr: seq<byte>, srcPort: nat, dstAddr: seq<byte>, dstPort: nat)
      ensures Valid() && View() == NEW_STATE && fresh(client) && fresh(server)
      ensures client.addr == srcAddr && client.port == srcPort && server.addr == dstAddr && server.port == dstPort
    {
      client := new Stream(srcAddr, srcPort);
      server := new Stream(dstAddr, dstPort);
      closing, status, buf, segMap := null, Fresh, None, map[];
      events, data, log := [], [], [];
    }

    /** Answers the status entered, or Fresh when nothing changed; the caller pushes the event. */
    method TransState(flags: bv8, sender: Stream, seqNo: u32, ghost bytes: seq<byte>, len: nat)
      returns (entered: Status)
      requires Valid() && sender in {client, server} && len == |bytes|
      modifies this`status, this`closing, client, server
      ensures Valid()
      ensures var t := old(Trk()).Transition(SideOf(sender), Segment(seqNo, flags, bytes));
              && Trk() == t.(events := old(events))
              && t.events == old(events) + (if entered == Established then [EvEstablished]
                                            else if entered == Closed then [EvClosed] else [])
    {
      entered := Fresh;
      match status
      case Fresh =>
        if flags == SYN && sender == client {
          entered, status := SynSent, SynSent;
          sender.SetBaseSeq(seqNo, len);
        }
      case SynSent =>
        if flags == SYN | ACK && sender == server {
          entered, status := SynAckSent, SynAckSent;
          sender.SetBaseSeq(seqNo, len);
        }
      case SynAckSent =>
        if flags == ACK && sender == client {
          entered, status := Established, Established;
        }
      case Established =>
        if flags & FIN > 0 {
          entered, status := Closing, Closing;
          closing := sender;
          sender.IncSeq();
        }
      case Closing =>
        if flags & FIN > 0 && closing != sender {
          entered, status := Closed, Closed;
          sender.IncSeq();
        }
      case Closed =>
    }

    method Stow(seg: Segment, sender: Stream)
      requires Valid() && sender in {client, server}
      modifies this`segMap
      ensures View() == old(View()).Keep(SideOf(sender), seg)
    {
      var relSeq := Sub(seg.seqNo, sender.base);
      if relSeq !in segMap {
        assert [] + [seg] == [seg];
        segMap := segMap[relSeq := [seg]];
      } else {
        segMap := segMap[relSeq := segMap[relSeq] + [seg]];
      }
    }

    /** What follows a successful Stream::send: state change, events and data. */
    method Deliver(seg: Segment, sender: Stream, ghost before: State)
      requires Valid() && sender in {client, server}
      requires var side := SideOf(sender);
               View() == before.(trk := before.trk.Put(side, before.Of(side).Send(|seg.data|)))
      modifies this`status, this`closing, this`events, this`buf, this`data, this`log, client, server
      ensures Valid() && View() == before.Accept(SideOf(sender), seg)
    {
      hide Tracker.Transition;
      var entered := TransState(seg.flags, sender, seg.seqNo, seg.data, |seg.data|);
      if entered == Established {
        events := events + [EvEstablished];
      }
      if entered == Closed {
        events := events + [EvClosed];
      }
      if buf.Some? {
        buf := Some(buf.value + seg.data);
        data := data + [buf.value];
      } else {
        data := data + [seg.data];
      }
      log := log + [Packet(SideOf(sender), seg)];
    }

    /** Session::decode_stream, with the loop over the released chain inside the recursion. */
    method DecodeStream(seg: Segment, sender: Stream) returns (ok: bool)
      requires Valid() && sender in {client, server}
      modifies this, client, server
      ensures Valid()
      ensures ok <==> old(View()).Accepts(SideOf(sender), seg)
      ensures View() == M.DecodeStream(old(View()), SideOf(sender), seg)
      decreases StashSize(segMap)
    {
      hide Tracker.Take;
      ghost var side := SideOf(sender);
      ok := sender.Send(seg.seqNo, |seg.data|);
      if !ok {
        Stow(seg, sender);
        return;
      }
      Deliver(seg, sender, old(View()));
      var key := sender.next;
      if key in segMap {
        ghost var a := View();
        var rest := segMap[key];
        StashBagRemove(segMap, key);
        if buf == None {
          buf := Some(seg.data);
        }
        segMap := segMap - {key};
        ghost var start := View();
        ghost var chain := rest;
        assert start == a.Open(key, seg);
        while rest != []
          invariant Valid()
          invariant Replay(View(), side, rest) == Replay(start, side, chain)
          invariant StashSize(segMap) + |rest| <= old(StashSize(segMap))
          decreases |rest|
        {
          var _ := DecodeStream(rest[0], sender);
          rest := rest[1..];
        }
      }
    }

    /** Session::decode: drop the old buffer, take the client for the sender if the source matches it. */
    method Decode(seg: Segment, srcAddr: seq<byte>, srcPort: nat)
      requires Valid()
      modifies this, client, server
      ensures Valid()
      ensures var side := if client.addr == srcAddr && client.port == srcPort then Client else Server;
              View() == M.Decode(old(View()), side, seg)
    {
      buf := None;
      var sender := if client.Match(srcAddr, srcPort) then client else server;
      var _ := DecodeStream(seg, sender);
    }
  }
}
