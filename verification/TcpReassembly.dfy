/**
 One sender's stream is cut into fixed non-empty slices.  Its segments each carry a slice, or
 nothing, from one of the borders between slices; they arrive in any order and any number of
 times.  This file says what one call does to a stream that reads such segments, the sender's
 or a peer's that happens to have the same base: it goes on over an unbroken run of waiting
 slices, and of each slice it passes exactly one copy leaves the stash.
 */
module TcpReassembly {
  import opened Common
  import opened SeqNum
  import opened TcpModel
  import opened TcpConservation

  type Slices = seq<seq<byte>>

  /** Length of the first `k` slices. */
  function Off(slices: Slices, k: nat): nat
    requires k <= |slices|
  {
    if k == 0 then 0 else Off(slices, k - 1) + |slices[k - 1]|
  }

  /** The stream from slice `k` on. */
  function Joined(slices: Slices, k: nat): seq<byte>
    requires k <= |slices|
    decreases |slices| - k
  {
    if k == |slices| then [] else slices[k] + Joined(slices, k + 1)
  }

  /** All payload accepted from `side`, in order. */
  function Delivered(log: seq<Packet>, side: Side): seq<byte> {
    if log == [] then []
    else
      var n := |log| - 1;
      Delivered(log[..n], side) + (if log[n].side == side then log[n].seg.data else [])
  }

  /** Non-empty slices of a stream that fits in the sequence space. */
  ghost predicate Cut(slices: Slices) {
    && (forall i :: 0 <= i < |slices| ==> slices[i] != [])
    && 1 + Off(slices, |slices|) < 0x1_0000_0000
  }

  lemma {:induction false} OffOrdered(slices: Slices, i: nat, j: nat)
    requires i <= j <= |slices| && forall k :: 0 <= k < |slices| ==> slices[k] != []
    ensures Off(slices, i) <= Off(slices, j)
    ensures i < j ==> Off(slices, i) < Off(slices, j)
    decreases j
  {
    if i < j {
      OffOrdered(slices, i, j - 1);
    }
  }

  /** Border `j`, where slice `j` starts or the stream ends, relative to the base. */
  function Key(slices: Slices, j: nat): u32
    requires j <= |slices| && Cut(slices)
  {
    OffOrdered(slices, j, |slices|);
    1 + Off(slices, j)
  }

  lemma KeyOrdered(slices: Slices, i: nat, j: nat)
    requires Cut(slices) && i <= |slices| && j <= |slices|
    ensures Key(slices, i) <= Key(slices, j) <==> i <= j
    ensures Key(slices, i) == Key(slices, j) <==> i == j
  {
    if i <= j {
      OffOrdered(slices, i, j);
    } else {
      OffOrdered(slices, j, i);
    }
  }

  /** `seg` starts at border `j` and carries slice `j` or nothing, with any flags but FIN. */
  predicate IsPiece(seg: Segment, base: u32, slices: Slices, j: nat)
    requires Cut(slices)
  {
    && j <= |slices|
    && seg.seqNo == Add(base, Key(slices, j))
    && (seg.data == [] || (j < |slices| && seg.data == slices[j]))
    && !HasFin(seg.flags)
  }

  lemma SamePiece(seg: Segment, base: u32, slices: Slices, i: nat, j: nat)
    requires Cut(slices) && IsPiece(seg, base, slices, i) && IsPiece(seg, base, slices, j)
    ensures i == j
  {
    SubAdd(base, Key(slices, i));
    SubAdd(base, Key(slices, j));
    KeyOrdered(slices, i, j);
  }

  ghost predicate SomePiece(seg: Segment, base: u32, slices: Slices)
    requires Cut(slices)
  {
    exists j: nat :: IsPiece(seg, base, slices, j)
  }

  ghost predicate ChainOf(chain: seq<Segment>, base: u32, slices: Slices, j: nat)
    requires Cut(slices)
  {
    forall i :: 0 <= i < |chain| ==> IsPiece(chain[i], base, slices, j)
  }

  /** Only pieces wait, and under the key of a border only pieces that start there. */
  ghost predicate Placed(stash: Stash, base: u32, slices: Slices)
    requires Cut(slices)
  {
    && (forall key, i :: key in stash && 0 <= i < |stash[key]| ==> SomePiece(stash[key][i], base, slices))
    && forall j: nat :: j <= |slices| && Key(slices, j) in stash ==> ChainOf(stash[Key(slices, j)], base, slices, j)
  }

  /** Segments wait at borders only. */
  ghost predicate Bordered(stash: Stash, slices: Slices)
    requires Cut(slices)
  {
    forall key :: key in stash ==> AtBorder(key, slices)
  }

  ghost predicate AtBorder(key: u32, slices: Slices)
    requires Cut(slices)
  {
    exists j: nat :: j <= |slices| && key == Key(slices, j)
  }

  /** How many segments of a chain carry data that starts at `seqNo`. */
  function Carrying(chain: seq<Segment>, seqNo: u32): nat {
    if chain == [] then 0
    else (if chain[0].seqNo == seqNo && chain[0].data != [] then 1 else 0) + Carrying(chain[1..], seqNo)
  }

  /** How many copies of slice `j` wait where its reader will look for it. */
  function Copies(stash: Stash, base: u32, slices: Slices, j: nat): nat
    requires Cut(slices) && j <= |slices|
  {
    if Key(slices, j) in stash then Carrying(stash[Key(slices, j)], Add(base, Key(slices, j))) else 0
  }

  lemma {:induction false} CarryingAppend(chain: seq<Segment>, more: seq<Segment>, seqNo: u32)
    ensures Carrying(chain + more, seqNo) == Carrying(chain, seqNo) + Carrying(more, seqNo)
  {
    if chain == [] {
      assert chain + more == more;
    } else {
      assert (chain + more)[1..] == chain[1..] + more;
      CarryingAppend(chain[1..], more, seqNo);
    }
  }

  /** `side` has been opened and its opening segment cannot be seen again as an opening. */
  predicate Opened(t: Tracker, side: Side) {
    t.Of(side).hasBase && t.status.Rank() >= (if side == Client then 1 else 2)
  }

  /** A stream that has read up to border `k`. */
  ghost predicate Reads(s: State, who: Side, base: u32, slices: Slices, k: nat)
    requires Cut(slices)
  {
    && k <= |slices|
    && Opened(s.trk, who)
    && s.Of(who).base == base
    && s.Of(who).next == Key(slices, k)
    && Placed(s.stash, base, slices)
  }

  /**
   From `s` to `r` a stream went from border `k` to border `k'`, and `n` copies of slice `j` came in:
   the slices passed were delivered, each left one copy, and no key is new but that of slice `j`.
   */
  ghost predicate Passes(s: State, r: State, who: Side, base: u32, slices: Slices, k: nat, k': nat, j: nat, n: nat)
    requires Cut(slices) && j <= |slices|
  {
    && k <= k' <= |slices|
    && r.stash.Keys <= s.stash.Keys + {Key(slices, j)}
    && Delivered(r.log, who) + Joined(slices, k') == Delivered(s.log, who) + Joined(slices, k)
    && forall h: nat :: h < |slices| ==>
         Copies(r.stash, base, slices, h) + (if k <= h < k' then 1 else 0)
         == Copies(s.stash, base, slices, h) + (if h == j then n else 0)
  }

  lemma PassesOn(s: State, t: State, r: State, who: Side, base: u32, slices: Slices,
                 k: nat, k1: nat, k2: nat, j: nat, n1: nat, n2: nat)
    requires Cut(slices) && j <= |slices|
    requires Passes(s, t, who, base, slices, k, k1, j, n1) && Passes(t, r, who, base, slices, k1, k2, j, n2)
    ensures Passes(s, r, who, base, slices, k, k2, j, n1 + n2)
  {
    hide Cut, Copies, Delivered, Joined;
  }

  lemma DeliveredSnoc(log: seq<Packet>, p: Packet, side: Side)
    ensures Delivered(log + [p], side) == Delivered(log, side) + (if p.side == side then p.seg.data else [])
  {
    assert (log + [p])[..|log|] == log;
  }

  /** One call of DecodeStream, without what its replay does. */
  lemma OneCall(s: State, side: Side, seg: Segment)
    ensures !s.Accepts(side, seg) ==> DecodeStream(s, side, seg) == s.Keep(side, seg)
    ensures s.Accepts(side, seg) ==>
              var a := s.Accept(side, seg);
              var key := a.Of(side).next;
              DecodeStream(s, side, seg) == if key in a.stash then Replay(a.Open(key, seg), side, a.stash[key]) else a
  {
    hide Replay;
  }

  // ---------------------------------------------------------------- a piece that waits

  lemma StashedPlaced(stash: Stash, base: u32, slices: Slices, key: u32, seg: Segment)
    requires Cut(slices) && Placed(stash, base, slices) && SomePiece(seg, base, slices)
    requires forall j: nat :: j <= |slices| && key == Key(slices, j) ==> IsPiece(seg, base, slices, j)
    ensures Placed(Stashed(stash, key, seg), base, slices)
  {
    hide Cut, Key, IsPiece;
  }

  lemma StashedCopies(stash: Stash, base: u32, slices: Slices, seg: Segment, j: nat, h: nat)
    requires Cut(slices) && IsPiece(seg, base, slices, j) && h < |slices|
    ensures Copies(Stashed(stash, Key(slices, j), seg), base, slices, h)
            == Copies(stash, base, slices, h) + (if h == j && seg.data != [] then 1 else 0)
  {
    KeyOrdered(slices, j, h);
    var key := Key(slices, j);
    CarryingAppend(if key in stash then stash[key] else [], [seg], Add(base, key));
  }

  lemma KeepPiece(s: State, who: Side, base: u32, seg: Segment, slices: Slices, k: nat, j: nat)
    requires Cut(slices) && Reads(s, who, base, slices, k) && IsPiece(seg, base, slices, j) && j != k
    ensures !s.Accepts(who, seg)
    ensures Reads(s.Keep(who, seg), who, base, slices, k)
    ensures Passes(s, s.Keep(who, seg), who, base, slices, k, k, j, if seg.data != [] then 1 else 0)
  {
    hide Placed, Delivered, Joined;
    KeyOrdered(slices, j, k);
    SubAdd(base, Key(slices, j));
    var r := s.Keep(who, seg);
    assert r.stash == Stashed(s.stash, Key(slices, j), seg);
    hide Stashed, Key, Copies, Cut;
    forall i: nat | i <= |slices| && Key(slices, j) == Key(slices, i)
      ensures i == j
    {
      KeyOrdered(slices, i, j);
    }
    StashedPlaced(s.stash, base, slices, Key(slices, j), seg);
    forall h: nat | h < |slices|
      ensures Copies(r.stash, base, slices, h)
              == Copies(s.stash, base, slices, h) + (if h == j && seg.data != [] then 1 else 0)
    {
      StashedCopies(s.stash, base, slices, seg, j, h);
    }
  }

  // ---------------------------------------------------------------- a piece that is taken

  /** The border behind a piece. */
  function Behind(seg: Segment, j: nat): nat {
    if seg.data == [] then j else j + 1
  }

  lemma TakePiece(t: Tracker, who: Side, base: u32, seg: Segment, slices: Slices, j: nat)
    requires Cut(slices) && Opened(t, who) && t.Of(who).base == base && IsPiece(seg, base, slices, j)
    requires t.Of(who).next == Key(slices, j)
    ensures t.Of(who).Accepts(seg.seqNo) && Behind(seg, j) <= |slices|
    ensures var t' := t.Take(who, seg);
            Opened(t', who) && t'.Of(who).base == base && t'.Of(who).next == Key(slices, Behind(seg, j))
  {
    SubAdd(base, Key(slices, j));
    OffOrdered(slices, Behind(seg, j), |slices|);
  }

  lemma AcceptPiece(s: State, who: Side, base: u32, seg: Segment, slices: Slices, k: nat)
    requires Cut(slices) && Reads(s, who, base, slices, k) && IsPiece(seg, base, slices, k)
    ensures s.Accepts(who, seg) && Behind(seg, k) <= |slices|
    ensures Reads(s.Accept(who, seg), who, base, slices, Behind(seg, k))
    ensures Passes(s, s.Accept(who, seg), who, base, slices, k, Behind(seg, k), k, if seg.data != [] then 1 else 0)
  {
    hide Placed, Key, Tracker.Take, Delivered, Copies;
    TakePiece(s.trk, who, base, seg, slices, k);
    DeliveredSnoc(s.log, Packet(who, seg), who);
    if seg.data != [] {
      assert Joined(slices, k) == seg.data + Joined(slices, k + 1);
    }
  }

  // ---------------------------------------------------------------- a chain that is released

  lemma OpenPlaced(stash: Stash, base: u32, slices: Slices, key: u32)
    requires Cut(slices) && Placed(stash, base, slices)
    ensures Placed(stash - {key}, base, slices)
  {
    hide Cut, Key, IsPiece;
  }

  lemma OpenPasses(s: State, who: Side, base: u32, slices: Slices, seg: Segment, k: nat)
    requires Cut(slices) && Reads(s, who, base, slices, k) && Key(slices, k) in s.stash
    ensures var key := Key(slices, k);
            var o := s.Open(key, seg);
            && Reads(o, who, base, slices, k) && ChainOf(s.stash[key], base, slices, k)
            && Delivered(o.log, who) == Delivered(s.log, who)
            && o.stash.Keys == s.stash.Keys - {key}
            && (forall h: nat :: h < |slices| ==>
                  Copies(s.stash, base, slices, h) == Copies(o.stash, base, slices, h)
                  + (if h == k then Carrying(s.stash[key], Add(base, key)) else 0))
  {
    hide Key, Cut, IsPiece, Carrying;
    var key := Key(slices, k);
    OpenPlaced(s.stash, base, slices, key);
    forall h: nat | h < |slices|
      ensures Key(slices, h) == key <==> h == k
    {
      KeyOrdered(slices, h, k);
    }
  }

  /** One piece that arrives at, or is replayed for, a stream that reads the slices. */
  lemma {:induction false} DecodePiece(s: State, who: Side, base: u32, seg: Segment, slices: Slices, k: nat, j: nat)
    returns (k': nat)
    requires Cut(slices) && Reads(s, who, base, slices, k) && IsPiece(seg, base, slices, j)
    ensures var r := DecodeStream(s, who, seg);
            && Reads(r, who, base, slices, k')
            && Passes(s, r, who, base, slices, k, k', j, if seg.data != [] then 1 else 0)
    decreases StashSize(s.stash) + 1, 0, 0
  {
    hide Reads, Passes, Cut, Key, IsPiece, Stream.Accepts, DecodeStream, Replay, StashBag, Stashed;
    OneCall(s, who, seg);
    if j != k {
      KeepPiece(s, who, base, seg, slices, k, j);
      k' := k;
    } else {
      AcceptPiece(s, who, base, seg, slices, k);
      var a, k1 := s.Accept(who, seg), Behind(seg, k);
      NextIs(a, who, base, slices, k1);
      k' := ReleaseChain(a, who, base, seg, slices, k1, k);
      var r := DecodeStream(s, who, seg);
      hide State.Accept, State.Keep, State.Open;
      PassesOn(s, a, r, who, base, slices, k, k1, k', k, if seg.data != [] then 1 else 0, 0);
    }
  }

  lemma NextIs(s: State, who: Side, base: u32, slices: Slices, k: nat)
    requires Cut(slices) && Reads(s, who, base, slices, k)
    ensures k <= |slices| && s.Of(who).next == Key(slices, k)
  {
  }

  /** Releasing the chain a stream waits for, if there is one: every slice passed gives one copy. */
  lemma {:induction false} ReleaseChain(s: State, who: Side, base: u32, seg: Segment, slices: Slices, k: nat, j: nat)
    returns (k': nat)
    requires Cut(slices) && Reads(s, who, base, slices, k) && j <= |slices|
    ensures var key := s.Of(who).next;
            var r := if key in s.stash then Replay(s.Open(key, seg), who, s.stash[key]) else s;
            Reads(r, who, base, slices, k') && Passes(s, r, who, base, slices, k, k', j, 0)
    decreases StashSize(s.stash), 2, 0
  {
    hide Cut, Key, Replay, ChainOf, Copies, StashBag, Delivered, Joined, Opened, Placed, Carrying;
    var key := Key(slices, k);
    k' := k;
    if key in s.stash {
      StashBagRemove(s.stash, key);
      OpenPasses(s, who, base, slices, seg, k);
      k' := ReplayPieces(s.Open(key, seg), who, base, s.stash[key], slices, k, k);
    }
  }

  lemma {:induction false} ReplayPieces(s: State, who: Side, base: u32, chain: seq<Segment>, slices: Slices,
                                        k: nat, j: nat)
    returns (k': nat)
    requires Cut(slices) && j <= |slices| && Reads(s, who, base, slices, k) && ChainOf(chain, base, slices, j)
    ensures var r := Replay(s, who, chain);
            && Reads(r, who, base, slices, k')
            && Passes(s, r, who, base, slices, k, k', j, Carrying(chain, Add(base, Key(slices, j))))
    decreases StashSize(s.stash) + |chain|, 1, |chain|
  {
    if chain == [] {
      k' := k;
    } else {
      assert IsPiece(chain[0], base, slices, j) && chain[0].seqNo == Add(base, Key(slices, j));
      hide DecodeStream, Reads, Passes, Cut, Key, StashBag, IsPiece;
      var t := DecodeStream(s, who, chain[0]);
      var k1 := DecodePiece(s, who, base, chain[0], slices, k, j);
      k' := ReplayPieces(t, who, base, chain[1..], slices, k1, j);
      PassesOn(s, t, Replay(s, who, chain), who, base, slices, k, k1, k', j,
               if chain[0].data != [] then 1 else 0, Carrying(chain[1..], Add(base, Key(slices, j))));
    }
  }

  // ---------------------------------------------------------------- slices at hand

  /** Slice `j` was delivered or waits where it will be looked for. */
  predicate Have(s: State, base: u32, slices: Slices, k: nat, j: nat)
    requires Cut(slices) && j < |slices|
  {
    j < k || Copies(s.stash, base, slices, j) >= 1
  }

  /** The packet carries slice `j` of the sender. */
  ghost predicate Carries(p: Packet, side: Side, base: u32, slices: Slices, j: nat)
    requires Cut(slices)
  {
    p.side == side && p.seg.data != [] && IsPiece(p.seg, base, slices, j)
  }

  lemma PassedHave(s: State, r: State, p: Packet, base: u32, slices: Slices, k: nat, k': nat, j: nat)
    requires Cut(slices) && IsPiece(p.seg, base, slices, j)
    requires Passes(s, r, p.side, base, slices, k, k', j, if p.seg.data != [] then 1 else 0)
    ensures forall i: nat :: i < |slices| ==>
              (Have(r, base, slices, k', i) <==> Have(s, base, slices, k, i) || Carries(p, p.side, base, slices, i))
    ensures Bordered(s.stash, slices) ==> Bordered(r.stash, slices)
  {
    assert AtBorder(Key(slices, j), slices);
    hide Cut, Key, Delivered, Joined, IsPiece, AtBorder, Copies;
    forall i: nat | IsPiece(p.seg, base, slices, i)
      ensures i == j
    {
      SamePiece(p.seg, base, slices, i, j);
    }
  }

  /** The slice a stream waits for does not wait. */
  lemma NotHaveNext(s: State, r: State, p: Packet, base: u32, slices: Slices, k: nat, k': nat, j: nat)
    requires Cut(slices) && IsPiece(p.seg, base, slices, j) && r == Decode(s, p.side, p.seg)
    requires Passes(s, r, p.side, base, slices, k, k', j, if p.seg.data != [] then 1 else 0)
    requires Reads(s, p.side, base, slices, k) && Reads(r, p.side, base, slices, k')
    requires k < |slices| ==> !Have(s, base, slices, k, k)
    ensures k' < |slices| ==> !Have(r, base, slices, k', k')
  {
    hide DecodeStream, Placed, Cut, Key, Delivered, Joined, Opened, Carrying;
    NextNeverStashed(s.(buf := None), p.side, p.seg);
    if !s.Accepts(p.side, p.seg) {
      OneCall(s.(buf := None), p.side, p.seg);
      KeyOrdered(slices, k, k');
      SubAdd(base, Key(slices, j));
    }
  }

  /**
   One packet of the sender, late, early, repeated or empty: the slices at hand are those before
   and the one it carries, and the sender stands at the first that is not at hand.
   */
  lemma PacketOfSender(s: State, p: Packet, base: u32, slices: Slices, k: nat) returns (k': nat)
    requires Cut(slices) && Reads(s, p.side, base, slices, k) && SomePiece(p.seg, base, slices)
    requires k < |slices| ==> !Have(s, base, slices, k, k)
    ensures var r := Decode(s, p.side, p.seg);
            && Reads(r, p.side, base, slices, k') && (Bordered(s.stash, slices) ==> Bordered(r.stash, slices))
            && Delivered(r.log, p.side) + Joined(slices, k') == Delivered(s.log, p.side) + Joined(slices, k)
            && k <= k' && (k' < |slices| ==> !Have(r, base, slices, k', k'))
            && forall i: nat :: i < |slices| ==>
                 (Have(r, base, slices, k', i) <==> Have(s, base, slices, k, i) || Carries(p, p.side, base, slices, i))
  {
    hide DecodeStream, Reads, Cut, Delivered, Joined, IsPiece, Bordered, Have, Carries, Copies, Key;
    var j: nat :| IsPiece(p.seg, base, slices, j);
    k' := DecodePiece(s.(buf := None), p.side, base, p.seg, slices, k, j) by {
      ForgetBuffer(s, p.side, base, slices, k);
    }
    var r := Decode(s, p.side, p.seg);
    PassedHave(s, r, p, base, slices, k, k', j);
    NotHaveNext(s, r, p, base, slices, k, k', j);
  }

  lemma ForgetBuffer(s: State, who: Side, base: u32, slices: Slices, k: nat)
    requires Cut(slices) && Reads(s, who, base, slices, k)
    ensures Reads(s.(buf := None), who, base, slices, k)
  {
  }
}
