/**
 The packet channel: RingBuffer of src/channel.hpp between the capture thread
 (Input::thread_main) and the decoding thread (Kernel::thread_main), as a system of
 interleaved atomic steps.  Each read of an index, each test, each slot access and
 each publication of an index is a step of its own.

 `captured` records the contents the capture completed; `pushed` and `pulled` record
 contents in the order in which `push_idx_` and `pull_idx_` were moved past them;
 `tested` and `closedAtTest` record what held when the consumer last compared the two
 indices.
 */
module Ring {
  import opened Common

  datatype Packet = Packet(bytes: seq<byte>, capLen: nat)

  type Slot = nat

  /** Program points of retain, read, push and close. */
  datatype Producer =
    | Retain                                  // about to read push_idx_
    | Await(n: nat)                           // about to compare with pull_idx_
    | Fill(pkt: Slot)                         // the capture writes into the retained packet
    | Push(pkt: Slot)                         // about to read push_idx_ again
    | Store(n: nat, pkt: Slot)                // about to write ring_[n]
    | Publish(n: nat)                         // about to write push_idx_
    | Close                                   // about to write eos_
    | Stopped

  /** Program points of pull and of the loop around it. */
  datatype Consumer =
    | Pull                                    // about to read pull_idx_
    | TestEmpty(n: nat)                       // about to read push_idx_
    | TestClosed(n: nat)                      // about to read eos_
    | Load(n: nat)                            // about to read ring_[n]
    | Take(n: nat, pkt: Slot)                 // about to write pull_idx_
    | Count(pkt: Slot)                        // about to add to recv_pkt_ and recv_size_
    | Decode(pkt: Slot)                       // decoding, handlers running
    | Ended                                   // pull answered null

  datatype State = State(
    ring: seq<Slot>, mem: seq<Packet>, pushIdx: nat, pullIdx: nat, eos: bool,
    producer: Producer, consumer: Consumer, recvPkt: nat, recvSize: nat,
    captured: seq<Packet>, pushed: seq<Packet>, pulled: seq<Packet>, tested: nat, closedAtTest: bool)

  datatype Action =
    | ProducerStep
    | Write(content: Packet)                  // part of Capture::read
    | ReadOk                                  // Capture::read answers OK
    | ReadEnd                                 // Capture::read answers EXIT or ERROR
    | ConsumerStep

  function Next(idx: nat, size: nat): nat
    requires size > 0
  {
    (idx + 1) % size
  }

  /** `uint64_t` counters wrap. */
  function U64(x: nat): nat {
    x % 0x1_0000_0000_0000_0000
  }

  /** Indices inside the ring, so that every step below is defined. */
  predicate Shaped(s: State) {
    && |s.ring| == |s.mem| > 0
    && (forall i :: 0 <= i < |s.ring| ==> s.ring[i] < |s.mem|)
    && (match s.producer
        case Await(n) => n < |s.ring|
        case Fill(p) => p < |s.mem|
        case Push(p) => p < |s.mem|
        case Store(n, p) => n < |s.ring| && p < |s.mem|
        case Publish(n) => n < |s.ring|
        case _ => true)
    && (match s.consumer
        case TestEmpty(n) => n < |s.ring|
        case TestClosed(n) => n < |s.ring|
        case Load(n) => n < |s.ring|
        case Take(n, p) => n < |s.ring| && p < |s.mem|
        case Count(p) => p < |s.mem|
        case Decode(p) => p < |s.mem|
        case _ => true)
  }

  function StepProducer(s: State): (r: State)
    requires Shaped(s)
    ensures Shaped(r) && |r.ring| == |s.ring|
  {
    match s.producer
    case Retain => s.(producer := Await(Next(s.pushIdx, |s.ring|)))
    case Await(n) => if n == s.pullIdx then s else s.(producer := Fill(s.ring[n]))
    case Push(p) => s.(producer := Store(Next(s.pushIdx, |s.ring|), p))
    case Store(n, p) => s.(ring := s.ring[n := p], producer := Publish(n))
    case Publish(n) => s.(pushIdx := n, pushed := s.pushed + [s.mem[s.ring[n]]], producer := Retain)
    case Close => s.(eos := true, producer := Stopped)
    case _ => s
  }

  function StepConsumer(s: State): (r: State)
    requires Shaped(s)
    ensures Shaped(r) && |r.ring| == |s.ring|
  {
    match s.consumer
    case Pull => s.(consumer := TestEmpty(Next(s.pullIdx, |s.ring|)))
    case TestEmpty(n) =>
      s.(consumer := if n == Next(s.pushIdx, |s.ring|) then TestClosed(n) else Load(n),
         tested := |s.pushed|, closedAtTest := s.eos)
    case TestClosed(n) => s.(consumer := if s.eos then Ended else TestEmpty(n))
    case Load(n) => s.(consumer := Take(n, s.ring[n]))
    case Take(n, p) => s.(pullIdx := n, pulled := s.pulled + [s.mem[p]], consumer := Count(p))
    case Count(p) =>
      s.(recvPkt := U64(s.recvPkt + 1), recvSize := U64(s.recvSize + s.mem[p].capLen), consumer := Decode(p))
    case Decode(p) => s.(consumer := Pull)
    case Ended => s
  }

  function Step(s: State, a: Action): (r: State)
    requires Shaped(s)
    ensures Shaped(r) && |r.ring| == |s.ring|
  {
    match a
    case ProducerStep => StepProducer(s)
    case Write(content) => if s.producer.Fill? then s.(mem := s.mem[s.producer.pkt := content]) else s
    case ReadOk => if s.producer.Fill? then
      s.(producer := Push(s.producer.pkt), captured := s.captured + [s.mem[s.producer.pkt]]) else s
    case ReadEnd => if s.producer.Fill? then s.(producer := Close) else s
    case ConsumerStep => StepConsumer(s)
  }

  /** RingBuffer(): slot `i` holds packet object `i`, whatever its initial content. */
  function Init(mem: seq<Packet>): (r: State)
    requires |mem| > 0
    ensures Shaped(r)
  {
    State(seq(|mem|, i => i), mem, 0, 0, false, Retain, Pull, 0, 0, [], [], [], 0, false)
  }

  /** Any interleaving. */
  function Run(mem: seq<Packet>, actions: seq<Action>): (r: State)
    requires |mem| > 0
    ensures Shaped(r) && |r.ring| == |mem|
  {
    if actions == [] then Init(mem)
    else Step(Run(mem, actions[..|actions| - 1]), actions[|actions| - 1])
  }

  // ---------------------------------------------------------------- wrapped indices

  /** The ring index after `k` advances from 0. */
  function Wrap(k: nat, size: nat): (r: nat)
    requires size > 0
    ensures r < size
  {
    if k == 0 then 0 else Next(Wrap(k - 1, size), size)
  }

  lemma WrapNext(k: nat, size: nat)
    requires size > 0
    ensures Wrap(k + 1, size) == Next(Wrap(k, size), size)
  {
  }

  lemma NextInside(idx: nat, size: nat)
    requires idx < size
    ensures Next(idx, size) == if idx + 1 == size then 0 else idx + 1
  {
  }

  /** Fewer than `size` advances lead to a different index, the one that many places on. */
  lemma {:induction false} WrapAhead(k: nat, d: nat, size: nat)
    requires d < size
    ensures Wrap(k + d, size) == if Wrap(k, size) + d < size then Wrap(k, size) + d else Wrap(k, size) + d - size
    decreases d
  {
    if d > 0 {
      WrapAhead(k, d - 1, size);
      NextInside(Wrap(k + d - 1, size), size);
    }
  }

  lemma WrapApart(a: nat, b: nat, size: nat)
    requires b <= a < b + size
    ensures Wrap(a, size) == Wrap(b, size) <==> a == b
  {
    WrapAhead(b, a - b, size);
  }

  // ---------------------------------------------------------------- the invariant

  /** The slot of the `k`-th packet pushed (counting from 0): slot 1 is used first. */
  function SlotOf(k: nat, size: nat): nat
    requires size > 0
  {
    Wrap(k + 1, size)
  }

  /** Indices are the two counts, wrapped, and their distance is at most size - 1. */
  predicate Indexed(s: State)
    requires Shaped(s)
  {
    var n := |s.ring|;
    && s.pushIdx == Wrap(|s.pushed|, n) && s.pullIdx == Wrap(|s.pulled|, n)
    && |s.pulled| <= |s.pushed| <= |s.pulled| + n - 1
    && forall i :: 0 <= i < n ==> s.ring[i] == i
  }

  /** The producer works on the slot after the last one pushed, which is not the last one pulled. */
  predicate ProducerPlaced(s: State)
    requires Shaped(s)
  {
    var n, mine := |s.ring|, SlotOf(|s.pushed|, |s.ring|);
    var room := |s.pushed| + 1 <= |s.pulled| + n - 1;
    match s.producer
    case Await(i) => i == mine
    case Fill(p) => p == mine && room
    case Push(p) => p == mine && room
    case Store(i, p) => i == p == mine && room
    case Publish(i) => i == mine && room
    case _ => true
  }

  predicate ConsumerPlaced(s: State)
    requires Shaped(s)
  {
    var n, mine := |s.ring|, SlotOf(|s.pulled|, |s.ring|);
    match s.consumer
    case TestEmpty(i) => i == mine
    case TestClosed(i) => i == mine && s.tested == |s.pulled|
    case Load(i) => i == mine && |s.pulled| < |s.pushed|
    case Take(i, p) => i == p == mine && |s.pulled| < |s.pushed|
    case Count(p) => |s.pulled| > 0 && p == s.pullIdx
    case Decode(p) => |s.pulled| > 0 && p == s.pullIdx
    case Ended => s.eos && s.tested == |s.pulled|
    case Pull => true
  }

  /** The consumer holds the packet it pulled last. */
  predicate Holding(s: State) {
    s.consumer.Count? || s.consumer.Decode?
  }

  /** Slots between the indices, and the one the consumer holds, keep what was pushed into them. */
  ghost predicate Contents(s: State)
    requires Shaped(s)
  {
    && (forall k :: |s.pulled| <= k < |s.pushed| ==> s.mem[SlotOf(k, |s.ring|)] == s.pushed[k])
    && (Holding(s) && |s.pulled| > 0 ==> s.mem[s.consumer.pkt] == s.pulled[|s.pulled| - 1])
    && s.pulled <= s.pushed
    && s.captured == s.pushed + InFlight(s)
  }

  /** The packet the producer has read but not yet published. */
  function InFlight(s: State): seq<Packet>
    requires Shaped(s)
  {
    match s.producer
    case Push(p) => [s.mem[p]]
    case Store(n, p) => [s.mem[p]]
    case Publish(n) => [s.mem[s.ring[n]]]
    case _ => []
  }

  function CapSum(packets: seq<Packet>): nat {
    if packets == [] then 0 else CapSum(packets[..|packets| - 1]) + packets[|packets| - 1].capLen
  }

  /** The packets the kernel has counted: all pulled ones, but for the one it is about to count. */
  function Counted(s: State): seq<Packet> {
    if s.consumer.Count? && s.pulled != [] then s.pulled[..|s.pulled| - 1] else s.pulled
  }

  predicate Counters(s: State) {
    s.recvPkt == U64(|Counted(s)|) && s.recvSize == U64(CapSum(Counted(s)))
  }

  /** After close nothing more is pushed. */
  predicate Shutdown(s: State) {
    && (s.eos <==> s.producer.Stopped?)
    && s.tested <= |s.pushed|
    && (s.closedAtTest ==> s.eos && s.tested == |s.pushed|)
  }

  ghost predicate Inv(s: State) {
    && Shaped(s) && Indexed(s) && ProducerPlaced(s) && ConsumerPlaced(s)
    && Contents(s) && Counters(s) && Shutdown(s)
  }

  lemma InitInv(mem: seq<Packet>)
    requires |mem| > 0
    ensures Inv(Init(mem))
  {
  }

  /** The producer's slot is neither pending nor held. */
  lemma SlotsApart(s: State)
    requires Shaped(s) && Indexed(s) && |s.pushed| + 1 <= |s.pulled| + |s.ring| - 1
    ensures forall k :: |s.pulled| <= k < |s.pushed| ==> SlotOf(k, |s.ring|) != SlotOf(|s.pushed|, |s.ring|)
    ensures s.pullIdx != SlotOf(|s.pushed|, |s.ring|)
  {
    var n := |s.ring|;
    forall k | |s.pulled| <= k < |s.pushed|
      ensures SlotOf(k, n) != SlotOf(|s.pushed|, n)
    {
      WrapApart(|s.pushed| + 1, k + 1, n);
    }
    WrapApart(|s.pushed| + 1, |s.pulled|, n);
  }

  /** The retain test lets the producer through only when a slot is free. */
  lemma AwaitHasRoom(s: State, i: nat)
    requires Inv(s) && s.producer == Await(i) && i != s.pullIdx
    ensures |s.pushed| + 1 <= |s.pulled| + |s.ring| - 1
  {
    var n := |s.ring|;
    if |s.pushed| + 1 == |s.pulled| + n {
      WrapAhead(|s.pulled|, n - 1, n);
      NextInside(Wrap(|s.pushed|, n), n);
    }
  }

  lemma RetainKeeps(s: State)
    requires Inv(s) && s.producer.Retain?
    ensures Inv(StepProducer(s))
  {
    hide Wrap, Next, U64, CapSum;
    WrapNext(|s.pushed|, |s.ring|);
  }

  lemma PushKeeps(s: State)
    requires Inv(s) && s.producer.Push?
    ensures Inv(StepProducer(s))
  {
    hide Wrap, Next, U64, CapSum;
    WrapNext(|s.pushed|, |s.ring|);
  }

  lemma AwaitKeeps(s: State)
    requires Inv(s) && s.producer.Await?
    ensures Inv(StepProducer(s))
  {
    hide Wrap, Next, U64, CapSum;
    if s.producer.n != s.pullIdx {
      AwaitHasRoom(s, s.producer.n);
    }
  }

  lemma StoreKeeps(s: State)
    requires Inv(s) && s.producer.Store?
    ensures Inv(StepProducer(s))
  {
    hide Wrap, Next, U64, CapSum;
    assert StepProducer(s).ring == s.ring;
  }

  lemma PublishMoves(s: State)
    requires Inv(s) && s.producer.Publish?
    ensures var r := StepProducer(s); Indexed(r) && ConsumerPlaced(r) && Shutdown(r)
  {
    hide Wrap, Next, Counters, Contents;
  }

  lemma PublishContents(s: State)
    requires Inv(s) && s.producer.Publish?
    ensures Contents(StepProducer(s))
  {
    hide Wrap, Next, Counters, ConsumerPlaced, Shutdown;
    var r := StepProducer(s);
    assert r.captured == r.pushed + [];
    assert forall k :: 0 <= k < |s.pushed| ==> r.pushed[k] == s.pushed[k];
  }

  lemma PublishKeeps(s: State)
    requires Inv(s) && s.producer.Publish?
    ensures Inv(StepProducer(s))
  {
    hide Wrap, Next, U64, CapSum, Contents, Indexed, ConsumerPlaced, Shutdown;
    var r := StepProducer(s);
    PublishMoves(s);
    PublishContents(s);
  }

  lemma CloseKeeps(s: State)
    requires Inv(s) && s.producer.Close?
    ensures Inv(StepProducer(s))
  {
    hide Wrap, Next, U64, CapSum;
  }

  lemma ProducerKeeps(s: State)
    requires Inv(s)
    ensures Inv(StepProducer(s))
  {
    hide Inv;
    match s.producer
    case Retain => RetainKeeps(s);
    case Push(_) => PushKeeps(s);
    case Await(_) => AwaitKeeps(s);
    case Store(_, _) => StoreKeeps(s);
    case Publish(_) => PublishKeeps(s);
    case Close => CloseKeeps(s);
    case _ =>
  }

  lemma WriteKeeps(s: State, content: Packet)
    requires Inv(s)
    ensures Inv(Step(s, Write(content)))
  {
    hide Wrap, Next, U64, CapSum;
    if s.producer.Fill? {
      SlotsApart(s);
    }
  }

  /** The emptiness test is exact: it passes exactly when something is pending. */
  lemma {:induction false} EmptyTestExact(s: State)
    requires Inv(s) && s.consumer.TestEmpty?
    ensures s.consumer.n == Next(s.pushIdx, |s.ring|) <==> |s.pulled| == |s.pushed|
  {
    WrapApart(|s.pushed| + 1, |s.pulled| + 1, |s.ring|);
  }

  lemma U64Add(a: nat, b: nat)
    ensures U64(U64(a) + b) == U64(a + b)
  {
    var m := 0x1_0000_0000_0000_0000;
    var q := (U64(a) + b) / m;
    assert a + b == (a / m + q) * m + U64(U64(a) + b);
  }

  lemma HeldIsLast(s: State)
    requires Inv(s) && Holding(s)
    ensures s.pulled != [] && s.mem[s.consumer.pkt] == s.pulled[|s.pulled| - 1]
  {
  }

  lemma PullKeeps(s: State)
    requires Inv(s) && s.consumer.Pull?
    ensures Inv(StepConsumer(s))
  {
    hide Wrap, Next, U64, CapSum;
    WrapNext(|s.pulled|, |s.ring|);
  }

  lemma TestKeeps(s: State)
    requires Inv(s) && (s.consumer.TestEmpty? || s.consumer.TestClosed?)
    ensures Inv(StepConsumer(s))
  {
    hide Wrap, Next, U64, CapSum;
    if s.consumer.TestEmpty? {
      EmptyTestExact(s);
    }
  }

  lemma LoadKeeps(s: State)
    requires Inv(s) && s.consumer.Load?
    ensures Inv(StepConsumer(s))
  {
    hide Wrap, Next, U64, CapSum;
  }

  lemma TakeKeeps(s: State)
    requires Inv(s) && s.consumer.Take?
    ensures Inv(StepConsumer(s))
  {
    hide Wrap, Next, U64, CapSum;
    assert s.mem[s.consumer.pkt] == s.pushed[|s.pulled|];
    var r := StepConsumer(s);
    assert r.pulled == s.pushed[..|s.pulled| + 1];
    assert r.pulled[..|s.pulled|] == s.pulled;
  }

  lemma CountKeeps(s: State)
    requires Inv(s) && s.consumer.Count?
    ensures Inv(StepConsumer(s))
  {
    hide Wrap, Next, U64;
    var last := |s.pulled| - 1;
    U64Add(last, 1);
    U64Add(CapSum(s.pulled[..last]), s.pulled[last].capLen);
  }

  lemma DecodeKeeps(s: State)
    requires Inv(s) && s.consumer.Decode?
    ensures Inv(StepConsumer(s))
  {
    hide Wrap, Next, U64, CapSum;
  }

  lemma ConsumerKeeps(s: State)
    requires Inv(s)
    ensures Inv(StepConsumer(s))
  {
    hide Inv;
    match s.consumer
    case Pull => PullKeeps(s);
    case TestEmpty(_) => TestKeeps(s);
    case TestClosed(_) => TestKeeps(s);
    case Load(_) => LoadKeeps(s);
    case Take(_, _) => TakeKeeps(s);
    case Count(_) => CountKeeps(s);
    case Decode(_) => DecodeKeeps(s);
    case Ended =>
  }

  /** Every interleaving keeps the invariant. */
  lemma {:induction false} RunInv(mem: seq<Packet>, actions: seq<Action>)
    requires |mem| > 0
    ensures Inv(Run(mem, actions))
  {
    if actions == [] {
      InitInv(mem);
    } else {
      var n := |actions| - 1;
      RunInv(mem, actions[..n]);
      StepInv(Run(mem, actions[..n]), actions[n]);
    }
  }

  lemma ReadOkKeeps(s: State)
    requires Inv(s)
    ensures Inv(Step(s, ReadOk))
  {
    hide Wrap, Next, U64, CapSum;
    assert s.pushed + [] == s.pushed;
  }

  lemma ReadEndKeeps(s: State)
    requires Inv(s)
    ensures Inv(Step(s, ReadEnd))
  {
    hide Wrap, Next, U64, CapSum;
  }

  lemma StepInv(s: State, a: Action)
    requires Inv(s)
    ensures Inv(Step(s, a))
  {
    hide Inv, StepProducer, StepConsumer;
    match a
    case ProducerStep => ProducerKeeps(s);
    case Write(content) => WriteKeeps(s, content);
    case ReadOk => ReadOkKeeps(s);
    case ReadEnd => ReadEndKeeps(s);
    case ConsumerStep => ConsumerKeeps(s);
  }

  // ---------------------------------------------------------------- what the channel promises

  /**
   In every interleaving the packets pulled are a prefix of the packets captured, in
   order, without loss, repetition or change; the distance of the indices stays below the
   size, and the kernel's counters are the count and total captured length of that prefix.
   */
  lemma {:induction false} InOrderDelivery(mem: seq<Packet>, actions: seq<Action>)
    requires |mem| > 0
    ensures var s := Run(mem, actions);
            && s.pulled <= s.pushed <= s.captured
            && |s.captured| <= |s.pushed| + 1
            && |s.pushed| - |s.pulled| <= |mem| - 1
            && s.recvPkt == U64(|Counted(s)|) && s.recvSize == U64(CapSum(Counted(s)))
  {
    RunInv(mem, actions);
  }

  /** The packet object the producer has retained and not yet published. */
  function Retained(s: State): Option<Slot>
    requires Shaped(s)
  {
    match s.producer
    case Fill(p) => Some(p)
    case Push(p) => Some(p)
    case Store(_, p) => Some(p)
    case Publish(n) => Some(s.ring[n])
    case _ => None
  }

  /** The packet object the consumer has in hand. */
  function InHand(s: State): Option<Slot> {
    match s.consumer
    case Take(_, p) => Some(p)
    case Count(p) => Some(p)
    case Decode(p) => Some(p)
    case _ => None
  }

  /** The packet the producer works on is not the one in the consumer's hand and not one that waits. */
  lemma {:induction false} SlotExclusive(mem: seq<Packet>, actions: seq<Action>)
    requires |mem| > 0
    ensures var s := Run(mem, actions);
            Retained(s).Some? ==>
              && Retained(s) != InHand(s)
              && forall k :: |s.pulled| <= k < |s.pushed| ==> Retained(s).value != s.ring[SlotOf(k, |s.ring|)]
  {
    hide Wrap, Run;
    RunInv(mem, actions);
    var s := Run(mem, actions);
    if Retained(s).Some? {
      SlotsApart(s);
    }
  }

  lemma HeldSurvives(s: State, a: Action)
    requires Inv(s) && Holding(s)
    ensures Step(s, a).mem[s.consumer.pkt] == s.mem[s.consumer.pkt]
  {
    hide Contents, Counters, Wrap;
    if a.Write? && s.producer.Fill? {
      SlotsApart(s);
    }
  }

  /** A packet under decode never changes: while held it is the content pulled, after any further step too. */
  lemma {:induction false} HeldPacketStable(mem: seq<Packet>, actions: seq<Action>, a: Action)
    requires |mem| > 0
    ensures var s := Run(mem, actions);
            Holding(s) ==>
              && s.pulled != [] && s.mem[s.consumer.pkt] == s.pulled[|s.pulled| - 1]
              && Step(s, a).mem[s.consumer.pkt] == s.mem[s.consumer.pkt]
  {
    hide Run, Step;
    RunInv(mem, actions);
    if Holding(Run(mem, actions)) {
      HeldIsLast(Run(mem, actions));
      HeldSurvives(Run(mem, actions), a);
    }
  }

  /**
   Shutdown: when pull answers null, everything captured has been pulled exactly when
   nothing was published after the last emptiness test; in particular when the channel
   was already closed at that test.
   */
  lemma {:induction false} DrainedIff(mem: seq<Packet>, actions: seq<Action>)
    requires |mem| > 0
    ensures var s := Run(mem, actions);
            s.consumer == Ended ==>
              && (s.pulled == s.captured <==> s.tested == |s.pushed|)
              && (s.closedAtTest ==> s.pulled == s.captured)
  {
    hide Run;
    RunInv(mem, actions);
  }

  lemma RunSnoc(mem: seq<Packet>, actions: seq<Action>, a: Action)
    requires |mem| > 0
    ensures Run(mem, actions + [a]) == Step(Run(mem, actions), a)
  {
    assert (actions + [a])[..|actions|] == actions;
  }

  lemma RunNone(mem: seq<Packet>)
    requires |mem| > 0
    ensures Run(mem, []) == Init(mem)
  {
  }

  function TestedEmpty(mem: seq<Packet>): State
    requires |mem| > 0
  {
    Init(mem).(consumer := TestClosed(1))
  }

  /** One packet pushed from `s` on, the producer back at retain. */
  function PushedOne(mem: seq<Packet>, s: State): State
    requires |mem| > 1
  {
    s.(pushIdx := 1, captured := [mem[1]], pushed := [mem[1]], producer := Retain)
  }

  lemma ConsumerTests(mem: seq<Packet>) returns (actions: seq<Action>)
    requires |mem| >= 3
    ensures Run(mem, actions) == TestedEmpty(mem)
  {
    hide Run;
    RunNone(mem);
    var s;
    actions, s := Do(mem, [], Init(mem), ConsumerStep);
    actions, s := Do(mem, actions, s, ConsumerStep);
  }

  lemma ProducerPushes(mem: seq<Packet>, before: seq<Action>) returns (actions: seq<Action>)
    requires |mem| >= 3 && Run(mem, before) == TestedEmpty(mem)
    ensures Run(mem, actions) == PushedOne(mem, TestedEmpty(mem))
  {
    hide Run;
    var s;
    actions, s := Do(mem, before, TestedEmpty(mem), ProducerStep);
    actions, s := Do(mem, actions, s, ProducerStep);
    assert s == TestedEmpty(mem).(producer := Fill(1));
    actions, s := Do(mem, actions, s, ReadOk);
    actions, s := Do(mem, actions, s, ProducerStep);
    assert s == TestedEmpty(mem).(producer := Store(1, 1), captured := [mem[1]]);
    actions, s := Do(mem, actions, s, ProducerStep);
    assert s.ring == TestedEmpty(mem).ring;
    actions, s := Do(mem, actions, s, ProducerStep);
  }

  /** The condition is needed: a push and a close between the two tests lose the packet. */
  lemma {:induction false} PacketCanBeLost(mem: seq<Packet>) returns (actions: seq<Action>)
    requires |mem| >= 3
    ensures var s := Run(mem, actions);
            s.consumer == Ended && s.captured == [mem[1]] && s.pulled == []
  {
    hide Run;
    actions := ConsumerTests(mem);
    actions := ProducerPushes(mem, actions);
    var s;
    actions, s := Do(mem, actions, PushedOne(mem, TestedEmpty(mem)), ProducerStep);
    actions, s := Do(mem, actions, s, ProducerStep);
    assert s.producer.Fill?;
    actions, s := Do(mem, actions, s, ReadEnd);
    actions, s := Do(mem, actions, s, ProducerStep);
    actions, s := Do(mem, actions, s, ConsumerStep);
  }

  lemma Do(mem: seq<Packet>, actions: seq<Action>, s: State, a: Action) returns (more: seq<Action>, r: State)
    requires |mem| > 0 && s == Run(mem, actions)
    ensures r == Step(s, a) == Run(mem, more)
  {
    more, r := actions + [a], Step(s, a);
    RunSnoc(mem, actions, a);
  }
}
