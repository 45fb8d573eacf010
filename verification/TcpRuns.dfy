/**
 Reassembly over whole runs.  One sender's slices and empty segments arrive in any order and any
 number of times while the other side sends what it likes, as long as each of its packets is taken
 at once.  The stream is reassembled exactly if each slice arrives at some point after which no
 packet of the other side costs the sender that slice.
 */
module TcpRuns {
  import opened Common
  import opened SeqNum
  import opened TcpModel
  import opened TcpConservation
  import opened TcpReassembly
  import opened TcpPeer

  // ---------------------------------------------------------------- one packet of the other side

  /**
   A packet of the other side that is taken at once.  If it reaches into the stash its stream is
   open, and has the sender's base or one with no border in common.
   */
  ghost predicate Tame(s: State, p: Packet, base: u32, slices: Slices)
    requires Cut(slices)
  {
    && s.Accepts(p.side, p.seg)
    && (Quiet(s, p)
        || (Opened(s.Accept(p.side, p.seg).trk, p.side)
            && (Taker(s, p).base == base || Apart(base, Taker(s, p).base, slices))))
  }

  /** Segments wait away from borders only if the other side's base has no border in common. */
  ghost predicate Tidy(s: State, side: Side, base: u32, slices: Slices)
    requires Cut(slices)
  {
    || Bordered(s.stash, slices)
    || (Opened(s.trk, side.Peer()) && Apart(base, s.Of(side.Peer()).base, slices))
  }

  lemma TameLegible(s: State, p: Packet, side: Side, base: u32, slices: Slices)
    requires Cut(slices) && Tidy(s, side, base, slices) && Tame(s, p, base, slices) && p.side != side
    ensures Legible(s, p, base, slices)
    ensures !Quiet(s, p) && Taker(s, p).base == base ==> AtBorder(Taker(s, p).next, slices)
  {
    hide Cut, Apart, AtBorder, Tracker.Take;
    NotFar(base, slices);
    if Opened(s.trk, p.side) {
      TakeStaysOpen(s.trk, p.side, p.seg, p.side);
    }
  }

  lemma {:induction false} DeliveredPeer(log: seq<Packet>, more: seq<Packet>, side: Side)
    requires log <= more && forall i :: |log| <= i < |more| ==> more[i].side != side
    ensures Delivered(more, side) == Delivered(log, side)
    decreases |more|
  {
    if |log| == |more| {
      assert log == more;
    } else {
      DeliveredPeer(log, more[..|more| - 1], side);
    }
  }

  /** The sender's stream does not depend on what the other side takes. */
  lemma SenderKept(s: State, p: Packet, side: Side, base: u32, slices: Slices, k: nat)
    requires Cut(slices) && Reads(s, side, base, slices, k) && p.side != side
    requires Placed(Decode(s, p.side, p.seg).stash, base, slices)
    ensures Reads(Decode(s, p.side, p.seg), side, base, slices, k)
    ensures Delivered(Decode(s, p.side, p.seg).log, side) == Delivered(s.log, side)
  {
    hide Placed, Cut, Key, DecodeStream;
    DecodeExtends(s.(buf := None), p.side, p.seg);
    DecodeStaysOpen(s.(buf := None), p.side, p.seg, side);
    DeliveredPeer(s.log, Decode(s, p.side, p.seg).log, side);
  }

  lemma QuietPeer(s: State, p: Packet, side: Side, base: u32, slices: Slices, k: nat)
    requires Cut(slices) && Reads(s, side, base, slices, k) && Tidy(s, side, base, slices)
    requires p.side != side && Quiet(s, p)
    ensures var r := Decode(s, p.side, p.seg); Reads(r, side, base, slices, k) && Tidy(r, side, base, slices)
  {
    hide Placed, Cut, Quiet, DecodeStream, Apart;
    QuietStash(s, p);
    SenderKept(s, p, side, base, slices, k);
    if Opened(s.trk, p.side) {
      DecodeStaysOpen(s.(buf := None), p.side, p.seg, p.side);
    }
  }

  lemma SameBasePeer(s: State, p: Packet, side: Side, base: u32, slices: Slices, k: nat)
    requires Cut(slices) && Reads(s, side, base, slices, k) && Tidy(s, side, base, slices)
    requires p.side != side && Tame(s, p, base, slices) && !Quiet(s, p) && Taker(s, p).base == base
    ensures var r := Decode(s, p.side, p.seg); Reads(r, side, base, slices, k) && Tidy(r, side, base, slices)
  {
    hide Placed, Cut, Quiet, DecodeStream, Apart, Taker, CostsLosses, AtBorder;
    TameLegible(s, p, side, base, slices);
    CostSame(s, p, side, base, slices, k);
    SenderKept(s, p, side, base, slices, k);
    if Opened(s.trk, p.side) {
      DecodeStaysOpen(s.(buf := None), p.side, p.seg, p.side);
    }
  }

  lemma FarPeer(s: State, p: Packet, side: Side, base: u32, slices: Slices, k: nat)
    requires Cut(slices) && Reads(s, side, base, slices, k) && p.side != side
    requires Tame(s, p, base, slices) && !Quiet(s, p) && Apart(base, Taker(s, p).base, slices)
    ensures var r := Decode(s, p.side, p.seg); Reads(r, side, base, slices, k) && Tidy(r, side, base, slices)
  {
    hide Placed, Cut, Quiet, DecodeStream, Apart, CostsLosses, Replay;
    CostFar(s, p, side, base, slices, k);
    SenderKept(s, p, side, base, slices, k);
    NotQuiet(s, p);
    var a := Taken(s, p);
    ReplayStaysOpen(a.Open(a.Of(p.side).next, p.seg), p.side, a.stash[a.Of(p.side).next], p.side);
  }

  lemma PacketOfPeer(s: State, p: Packet, side: Side, base: u32, slices: Slices, k: nat)
    requires Cut(slices) && Reads(s, side, base, slices, k) && Tidy(s, side, base, slices)
    requires p.side != side && Tame(s, p, base, slices)
    ensures var r := Decode(s, p.side, p.seg);
            && Reads(r, side, base, slices, k) && Tidy(r, side, base, slices)
            && Delivered(r.log, side) == Delivered(s.log, side)
            && CostsLosses(s, p, side, base, slices, k)
  {
    hide Reads, Tidy, Cut, Quiet, Decode, Apart, CostsLosses, Taker;
    TameLegible(s, p, side, base, slices);
    ForgottenExactly(s, p, side, base, slices, k);
    if Quiet(s, p) {
      QuietPeer(s, p, side, base, slices, k);
    } else if Taker(s, p).base == base {
      SameBasePeer(s, p, side, base, slices, k);
    } else {
      FarPeer(s, p, side, base, slices, k);
    }
    ReadsPlaced(Decode(s, p.side, p.seg), side, base, slices, k);
    SenderKept(s, p, side, base, slices, k);
  }

  lemma ReadsPlaced(s: State, side: Side, base: u32, slices: Slices, k: nat)
    requires Cut(slices) && Reads(s, side, base, slices, k)
    ensures Placed(s.stash, base, slices)
  {
  }

  // ---------------------------------------------------------------- one packet of either side

  /** The sender sends pieces, the other side tame packets. */
  ghost predicate Fits(s: State, p: Packet, side: Side, base: u32, slices: Slices)
    requires Cut(slices)
  {
    if p.side == side then SomePiece(p.seg, base, slices) else Tame(s, p, base, slices)
  }

  /** What holds between packets: the sender stands at the first slice that is not at hand. */
  ghost predicate Inv(s: State, side: Side, base: u32, slices: Slices, all: seq<byte>, k: nat)
    requires Cut(slices)
  {
    && Reads(s, side, base, slices, k) && Tidy(s, side, base, slices)
    && Delivered(s.log, side) + Joined(slices, k) == all
    && (k < |slices| ==> !Have(s, base, slices, k, k))
  }

  lemma SenderTidy(s: State, p: Packet, base: u32, slices: Slices)
    requires Cut(slices) && Tidy(s, p.side, base, slices)
    requires Bordered(s.stash, slices) ==> Bordered(Decode(s, p.side, p.seg).stash, slices)
    ensures Tidy(Decode(s, p.side, p.seg), p.side, base, slices)
  {
    hide Cut, Apart, DecodeStream, Bordered;
    if Opened(s.trk, p.side.Peer()) {
      DecodeStaysOpen(s.(buf := None), p.side, p.seg, p.side.Peer());
    }
  }

  lemma StepInv(s: State, p: Packet, side: Side, base: u32, slices: Slices, all: seq<byte>, k: nat) returns (k': nat)
    requires Cut(slices) && Inv(s, side, base, slices, all, k) && Fits(s, p, side, base, slices)
    ensures var r := Decode(s, p.side, p.seg);
            && Inv(r, side, base, slices, all, k')
            && forall j: nat :: j < |slices| ==>
                 (Have(r, base, slices, k', j) <==>
                  || Carries(p, side, base, slices, j)
                  || (Have(s, base, slices, k, j) && !Loses(s, p, side, slices, j)))
  {
    if p.side == side {
      OwnLosesNone(s, p, slices);
      hide Cut, Tidy, Reads, Have, Loses, Decode, Bordered, Carries;
      k' := PacketOfSender(s, p, base, slices, k);
      SenderTidy(s, p, base, slices);
    } else {
      k' := k;
      hide Cut, Tidy, Reads, Have, Loses, Decode, Tame, Key;
      PacketOfPeer(s, p, side, base, slices, k);
    }
  }

  lemma OwnLosesNone(s: State, p: Packet, slices: Slices)
    requires Cut(slices)
    ensures forall j: nat :: j < |slices| ==> !Loses(s, p, p.side, slices, j)
  {
  }

  // ---------------------------------------------------------------- whole runs

  /** Just opened by a data-less SYN, nothing waiting. */
  predicate Ready(s: State, side: Side) {
    Opened(s.trk, side) && s.Of(side).next == 1 && s.stash == map[]
  }

  /** Every packet of the run fits. */
  ghost predicate Course(s0: State, side: Side, slices: Slices, packets: seq<Packet>)
    requires Cut(slices)
  {
    forall i :: 0 <= i < |packets| ==> Fits(Run(s0, packets[..i]), packets[i], side, s0.Of(side).base, slices)
  }

  /** Slice `j` arrived, and no later packet of the other side cost it. */
  ghost predicate Kept(s0: State, side: Side, slices: Slices, packets: seq<Packet>, j: nat)
    requires Cut(slices) && j < |slices|
  {
    exists i :: 0 <= i < |packets| && Carries(packets[i], side, s0.Of(side).base, slices, j)
                && forall m :: i < m < |packets| ==> !Loses(Run(s0, packets[..m]), packets[m], side, slices, j)
  }

  lemma KeptLast(s0: State, side: Side, slices: Slices, packets: seq<Packet>, j: nat)
    requires packets != [] && Cut(slices) && j < |slices|
    ensures var n := |packets| - 1;
            Kept(s0, side, slices, packets, j)
            <==> Carries(packets[n], side, s0.Of(side).base, slices, j)
                 || (Kept(s0, side, slices, packets[..n], j)
                     && !Loses(Run(s0, packets[..n]), packets[n], side, slices, j))
  {
    hide Loses, Run, Carries, Cut;
    var n, base := |packets| - 1, s0.Of(side).base;
    var before := packets[..n];
    assert forall i :: 0 <= i < n ==> before[i] == packets[i] && before[..i] == packets[..i];
    if Kept(s0, side, slices, packets, j) && !Carries(packets[n], side, base, slices, j) {
      var i :| 0 <= i < |packets| && Carries(packets[i], side, base, slices, j)
               && forall m :: i < m < |packets| ==> !Loses(Run(s0, packets[..m]), packets[m], side, slices, j);
      assert Carries(before[i], side, base, slices, j);
    }
    if Kept(s0, side, slices, before, j) && !Loses(Run(s0, before), packets[n], side, slices, j) {
      var i :| 0 <= i < |before| && Carries(before[i], side, base, slices, j)
               && forall m :: i < m < |before| ==> !Loses(Run(s0, before[..m]), before[m], side, slices, j);
      assert Carries(packets[i], side, base, slices, j);
      forall m | i < m < |packets|
        ensures !Loses(Run(s0, packets[..m]), packets[m], side, slices, j)
      {
        if m < n {
          assert !Loses(Run(s0, before[..m]), before[m], side, slices, j);
        }
      }
    }
  }

  lemma CoursePrefix(s0: State, side: Side, slices: Slices, packets: seq<Packet>)
    requires packets != [] && Cut(slices) && Course(s0, side, slices, packets)
    ensures Course(s0, side, slices, packets[..|packets| - 1])
  {
    hide Fits, Run;
    var n := |packets| - 1;
    forall i | 0 <= i < n
      ensures packets[..n][i] == packets[i] && packets[..n][..i] == packets[..i]
    {
    }
  }

  lemma {:induction false} RunInv(s0: State, side: Side, slices: Slices, packets: seq<Packet>) returns (k: nat)
    requires Cut(slices) && Ready(s0, side) && Course(s0, side, slices, packets)
    ensures var r, base := Run(s0, packets), s0.Of(side).base;
            && Inv(r, side, base, slices, Delivered(s0.log, side) + Joined(slices, 0), k)
            && forall j: nat :: j < |slices| ==> (Have(r, base, slices, k, j) <==> Kept(s0, side, slices, packets, j))
    decreases |packets|
  {
    var base, all := s0.Of(side).base, Delivered(s0.log, side) + Joined(slices, 0);
    if packets == [] {
      k := 0;
    } else {
      hide Inv, Decode, Have, Loses, Kept, Fits, Cut, Carries, Ready, Delivered, Joined;
      var n := |packets| - 1;
      CoursePrefix(s0, side, slices, packets);
      var k0 := RunInv(s0, side, slices, packets[..n]);
      k := StepInv(Run(s0, packets[..n]), packets[n], side, base, slices, all, k0);
      forall j: nat | j < |slices|
        ensures Have(Run(s0, packets), base, slices, k, j) <==> Kept(s0, side, slices, packets, j)
      {
        KeptLast(s0, side, slices, packets, j);
      }
    }
  }

  /** Exactly the stream was delivered after `s0`, and `next` is 1 plus its length. */
  ghost predicate Reassembled(s0: State, r: State, side: Side, slices: Slices) {
    && Delivered(r.log, side) == Delivered(s0.log, side) + Joined(slices, 0)
    && r.Of(side).next == 1 + Off(slices, |slices|)
  }

  lemma CompleteIff(s0: State, r: State, side: Side, slices: Slices, k: nat)
    requires Cut(slices)
    requires Inv(r, side, s0.Of(side).base, slices, Delivered(s0.log, side) + Joined(slices, 0), k)
    ensures Reassembled(s0, r, side, slices)
            <==> forall j: nat :: j < |slices| ==> Have(r, s0.Of(side).base, slices, k, j)
  {
    KeyOrdered(slices, k, |slices|);
  }

  /** The law of reassembly, for every run whose packets fit. */
  lemma {:induction false} ReassembledIff(s0: State, side: Side, slices: Slices, packets: seq<Packet>)
    requires Cut(slices) && Ready(s0, side) && Course(s0, side, slices, packets)
    ensures Reassembled(s0, Run(s0, packets), side, slices)
            <==> forall j: nat :: j < |slices| ==> Kept(s0, side, slices, packets, j)
  {
    hide Run, Course, Kept, Inv, Have, Reassembled, Cut, Ready;
    var k := RunInv(s0, side, slices, packets);
    CompleteIff(s0, Run(s0, packets), side, slices, k);
  }

  // ---------------------------------------------------------------- conditions checkable beforehand

  /** The sender sends pieces; the other side's packets are merely taken at once. */
  ghost predicate Prompt(s0: State, side: Side, slices: Slices, packets: seq<Packet>)
    requires Cut(slices)
  {
    forall i :: 0 <= i < |packets| ==>
      if packets[i].side == side then SomePiece(packets[i].seg, s0.Of(side).base, slices)
      else Run(s0, packets[..i]).Accepts(packets[i].side, packets[i].seg)
  }

  lemma {:induction false} RunStaysOpen(s0: State, packets: seq<Packet>, side: Side)
    requires Opened(s0.trk, side)
    ensures var r := Run(s0, packets); Opened(r.trk, side) && r.Of(side).base == s0.Of(side).base
  {
    if packets != [] {
      hide Opened, DecodeStream;
      var n := |packets| - 1;
      RunStaysOpen(s0, packets[..n], side);
      DecodeStaysOpen(Run(s0, packets[..n]).(buf := None), packets[n].side, packets[n].seg, side);
    }
  }

  lemma PromptCourse(s0: State, side: Side, slices: Slices, packets: seq<Packet>)
    requires Cut(slices) && Opened(s0.trk, side.Peer()) && Prompt(s0, side, slices, packets)
    requires var base, base' := s0.Of(side).base, s0.Of(side.Peer()).base; base == base' || Apart(base, base', slices)
    ensures Course(s0, side, slices, packets)
  {
    hide Run, Apart, Opened, Tracker.Take, Quiet, SomePiece, Cut;
    forall i | 0 <= i < |packets|
      ensures Fits(Run(s0, packets[..i]), packets[i], side, s0.Of(side).base, slices)
    {
      var s := Run(s0, packets[..i]);
      RunStaysOpen(s0, packets[..i], side.Peer());
      TakeStaysOpen(s.trk, packets[i].side, packets[i].seg, side.Peer());
    }
  }

  /**
   Both streams open, bases equal or with no border in common, the other side's packets taken at
   once: the law of reassembly holds, whatever those packets reach in the stash.
   */
  lemma {:induction false} ReassembledPrompt(s0: State, side: Side, slices: Slices, packets: seq<Packet>)
    requires Cut(slices) && Ready(s0, side) && Opened(s0.trk, side.Peer()) && Prompt(s0, side, slices, packets)
    requires var base, base' := s0.Of(side).base, s0.Of(side.Peer()).base; base == base' || Apart(base, base', slices)
    ensures Reassembled(s0, Run(s0, packets), side, slices)
            <==> forall j: nat :: j < |slices| ==> Kept(s0, side, slices, packets, j)
  {
    hide Prompt, Course, Reassembled, Kept, Run, Ready, Opened, Apart, Cut;
    PromptCourse(s0, side, slices, packets);
    ReassembledIff(s0, side, slices, packets);
  }

  /** The sender sends pieces; the other side does not reach into the stash. */
  ghost predicate Undisturbed(s0: State, side: Side, slices: Slices, packets: seq<Packet>)
    requires Cut(slices)
  {
    forall i :: 0 <= i < |packets| ==>
      if packets[i].side == side then SomePiece(packets[i].seg, s0.Of(side).base, slices)
      else Quiet(Run(s0, packets[..i]), packets[i])
  }

  /** Slice `j` is among the packets. */
  ghost predicate Arrived(packets: seq<Packet>, side: Side, base: u32, slices: Slices, j: nat)
    requires Cut(slices)
  {
    exists i :: 0 <= i < |packets| && Carries(packets[i], side, base, slices, j)
  }

  lemma UndisturbedKept(s0: State, side: Side, slices: Slices, packets: seq<Packet>, j: nat)
    requires Cut(slices) && j < |slices| && Undisturbed(s0, side, slices, packets)
    ensures Kept(s0, side, slices, packets, j) <==> Arrived(packets, side, s0.Of(side).base, slices, j)
  {
    hide Run, Carries, Loses, Cut, Quiet;
    forall m | 0 <= m < |packets|
      ensures !Loses(Run(s0, packets[..m]), packets[m], side, slices, j)
    {
      if packets[m].side == side {
        OwnLosesNone(Run(s0, packets[..m]), packets[m], slices);
      } else {
        QuietLosesNone(Run(s0, packets[..m]), packets[m], side, slices, j);
      }
    }
  }

  /** With a quiet other side: the stream is reassembled exactly if every slice has arrived, in whatever order. */
  lemma {:induction false} OrderIndependent(s0: State, side: Side, slices: Slices, packets: seq<Packet>)
    requires Cut(slices) && Ready(s0, side) && Undisturbed(s0, side, slices, packets)
    ensures Reassembled(s0, Run(s0, packets), side, slices)
            <==> forall j: nat :: j < |slices| ==> Arrived(packets, side, s0.Of(side).base, slices, j)
  {
    assert Course(s0, side, slices, packets);
    hide Undisturbed, Course, Reassembled, Kept, Run, Ready, Arrived, Cut;
    ReassembledIff(s0, side, slices, packets);
    forall j: nat | j < |slices|
      ensures Kept(s0, side, slices, packets, j) <==> Arrived(packets, side, s0.Of(side).base, slices, j)
    {
      UndisturbedKept(s0, side, slices, packets, j);
    }
  }
}
