/**
 Progress of the packet channel.  Neither thread waits for the other without need: whatever the
 other side does in between, a number of its own steps that is known beforehand takes the consumer
 to the next packet, the producer to the publication of the packet it has read, and, once the
 channel is closed, the consumer to the end with everything pulled.
 */
module RingProgress {
  import opened Ring

  /** How often `a` is among the actions. */
  function Times(actions: seq<Action>, a: Action): nat {
    if actions == [] then 0
    else Times(actions[..|actions| - 1], a) + (if actions[|actions| - 1] == a then 1 else 0)
  }

  lemma SplitLast(actions: seq<Action>, more: seq<Action>)
    requires more != []
    ensures actions + more == actions + more[..|more| - 1] + [more[|more| - 1]]
  {
  }

  lemma RunLast(mem: seq<Packet>, actions: seq<Action>, more: seq<Action>)
    requires |mem| > 0 && more != []
    ensures var n := |more| - 1;
            Run(mem, actions + more) == Step(Run(mem, actions + more[..n]), more[n])
  {
    hide *;
    SplitLast(actions, more);
    RunSnoc(mem, actions + more[..|more| - 1], more[|more| - 1]);
  }

  lemma RunSame(mem: seq<Packet>, actions: seq<Action>)
    requires |mem| > 0
    ensures Run(mem, actions + []) == Run(mem, actions)
  {
    assert actions + [] == actions;
  }

  // ---------------------------------------------------------------- the next packet

  /** The consumer's steps until it has the next packet, while one is pending. */
  function Delay(c: Consumer): nat {
    match c
    case Take(_, _) => 1
    case Load(_) => 2
    case TestEmpty(_) => 3
    case TestClosed(_) => 4
    case Pull => 4
    case Decode(_) => 5
    case Count(_) => 6
    case Ended => 0
  }

  predicate Underway(s: State) {
    !s.consumer.Ended? && |s.pulled| < |s.pushed|
  }

  lemma ConsumerCloser(s: State)
    requires Inv(s) && Underway(s) && (s.consumer.TestClosed? ==> !s.eos)
    ensures var r := StepConsumer(s);
            && r.eos == s.eos && !r.consumer.TestClosed?
            && (Delay(s.consumer) > 1 ==>
                  r.pulled == s.pulled && Underway(r) && Delay(r.consumer) == Delay(s.consumer) - 1)
            && (Delay(s.consumer) == 1 ==> r.pulled == s.pulled + [s.pushed[|s.pulled|]] && r.consumer.Count?)
  {
    hide Wrap, Next, U64, CapSum, Counters;
    if s.consumer.TestEmpty? {
      EmptyTestExact(s);
    }
  }

  lemma OthersKeepConsumer(s: State, a: Action)
    requires Inv(s) && a != ConsumerStep
    ensures var r := Step(s, a);
            && r.consumer == s.consumer && r.pulled == s.pulled && s.pushed <= r.pushed && (s.eos ==> r.eos)
  {
    hide Inv, Next;
  }

  /**
   From any reachable state with a packet pending, any interleaving that gives the consumer as many
   steps as its program point says ends with exactly that packet pulled and in hand; if the consumer
   is about to test `eos_`, provided the channel is not closed on the way.
   */
  lemma {:induction false} NextDelivered(mem: seq<Packet>, actions: seq<Action>, more: seq<Action>)
    requires |mem| > 0 && Underway(Run(mem, actions))
    requires Times(more, ConsumerStep) <= Delay(Run(mem, actions).consumer)
    requires Run(mem, actions).consumer.TestClosed? ==> !Run(mem, actions + more).eos
    ensures var s, r := Run(mem, actions), Run(mem, actions + more);
            var left := Delay(s.consumer) - Times(more, ConsumerStep);
            && s.pushed <= r.pushed && (r.consumer.TestClosed? ==> s.consumer.TestClosed?)
            && (left > 0 ==> r.pulled == s.pulled && Underway(r) && Delay(r.consumer) == left)
            && (left == 0 ==> r.pulled == s.pulled + [s.pushed[|s.pulled|]] && r.consumer.Count?
                              && r.mem[r.consumer.pkt] == s.pushed[|s.pulled|])
    decreases |more|
  {
    hide Run, Step, Inv;
    var s := Run(mem, actions);
    RunInv(mem, actions);
    RunInv(mem, actions + more);
    if more == [] {
      RunSame(mem, actions);
      DelayPositive(s);
    } else {
      var n := |more| - 1;
      RunLast(mem, actions, more);
      var t := Run(mem, actions + more[..n]);
      RunInv(mem, actions + more[..n]);
      ClosedStays(t, more[n]);
      NextDelivered(mem, actions, more[..n]);
      if more[n] == ConsumerStep {
        StepIsConsumer(t);
        ConsumerCloser(t);
        StepKeepsPushed(t);
      } else {
        OthersKeepConsumer(t, more[n]);
      }
    }
    var r := Run(mem, actions + more);
    if r.consumer.Count? {
      HeldIsLast(r);
    }
  }

  lemma ClosedStays(s: State, a: Action)
    requires Shaped(s)
    ensures s.eos ==> Step(s, a).eos
  {
    hide Next;
  }

  lemma DelayPositive(s: State)
    requires Underway(s)
    ensures Delay(s.consumer) > 0
  {
  }

  lemma StepIsConsumer(s: State)
    requires Shaped(s)
    ensures Step(s, ConsumerStep) == StepConsumer(s)
  {
  }

  lemma StepKeepsPushed(s: State)
    requires Shaped(s)
    ensures StepConsumer(s).pushed == s.pushed
  {
  }

  // ---------------------------------------------------------------- the packet being captured

  /** The producer's steps until the packet it has read is published. */
  function Unpublished(p: Producer): nat {
    match p
    case Push(_) => 3
    case Store(_, _) => 2
    case Publish(_) => 1
    case _ => 0
  }

  lemma ProducerCloser(s: State)
    requires Inv(s) && Unpublished(s.producer) > 0
    ensures var r := StepProducer(s);
            && r.captured == s.captured && Unpublished(r.producer) == Unpublished(s.producer) - 1
            && (Unpublished(s.producer) == 1 ==> r.producer == Retain && r.pushed == s.captured)
            && (Unpublished(s.producer) > 1 ==> r.pushed == s.pushed)
  {
    hide Wrap, Next, U64, CapSum, Counters, ConsumerPlaced;
  }

  lemma OthersKeepProducer(s: State, a: Action)
    requires Inv(s) && a != ProducerStep && !s.producer.Fill?
    ensures var r := Step(s, a); r.producer == s.producer && r.pushed == s.pushed && r.captured == s.captured
  {
    hide Inv, Next;
  }

  /** Any interleaving that gives the producer those steps publishes the packet it has read, and no other. */
  lemma {:induction false} ReadIsPublished(mem: seq<Packet>, actions: seq<Action>, more: seq<Action>)
    requires |mem| > 0 && Unpublished(Run(mem, actions).producer) > 0
    requires Times(more, ProducerStep) <= Unpublished(Run(mem, actions).producer)
    ensures var s, r := Run(mem, actions), Run(mem, actions + more);
            var left := Unpublished(s.producer) - Times(more, ProducerStep);
            && r.captured == s.captured && Unpublished(r.producer) == left
            && (left > 0 ==> r.pushed == s.pushed)
            && (left == 0 ==> r.pushed == s.captured && r.producer == Retain)
    decreases |more|
  {
    hide Run, Inv;
    if more == [] {
      RunSame(mem, actions);
    } else {
      var n := |more| - 1;
      RunLast(mem, actions, more);
      ReadIsPublished(mem, actions, more[..n]);
      var t := Run(mem, actions + more[..n]);
      RunInv(mem, actions + more[..n]);
      if more[n] == ProducerStep {
        ProducerCloser(t);
      } else {
        OthersKeepProducer(t, more[n]);
      }
    }
  }

  /** What the capture writes last is what it has read when it says so. */
  lemma {:induction false} CaptureReads(mem: seq<Packet>, actions: seq<Action>, content: Packet)
    requires |mem| > 0 && Run(mem, actions).producer.Fill?
    ensures var s, r := Run(mem, actions), Run(mem, actions + [Write(content), ReadOk]);
            && r.captured == s.captured + [content] && r.pushed == s.pushed && r.producer.Push?
            && r.consumer == s.consumer && r.pulled == s.pulled
  {
    var both := [Write(content), ReadOk];
    RunLast(mem, actions, both);
    assert both[..1] == [Write(content)];
    RunSnoc(mem, actions, Write(content));
  }

  /** The retain loop lets the producer through exactly when a slot is free. */
  lemma {:induction false} RetainedIffRoom(mem: seq<Packet>, actions: seq<Action>)
    requires |mem| > 0 && Run(mem, actions).producer.Await?
    ensures var s, r := Run(mem, actions), Run(mem, actions + [ProducerStep]);
            && (r.producer.Fill? <==> |s.pushed| + 1 <= |s.pulled| + |mem| - 1)
            && (!r.producer.Fill? ==> r == s)
  {
    var s := Run(mem, actions);
    RunInv(mem, actions);
    RunSnoc(mem, actions, ProducerStep);
    if s.producer.n != s.pullIdx {
      AwaitHasRoom(s, s.producer.n);
    } else if |s.pushed| + 1 <= |s.pulled| + |mem| - 1 {
      SlotsApart(s);
    }
  }

  // ---------------------------------------------------------------- the end

  function Base(c: Consumer): nat {
    match c
    case Count(_) => 5
    case Decode(_) => 4
    case Pull => 3
    case TestEmpty(_) => 2
    case Load(_) => 1
    case TestClosed(_) => 1
    case _ => 0
  }

  /** The consumer's steps to the end once the channel is closed: six for each pending packet. */
  function ToEnd(s: State): nat
    requires |s.pulled| <= |s.pushed|
  {
    Base(s.consumer) + 6 * (|s.pushed| - |s.pulled|)
  }

  /** A packet pends, but the consumer has compared the indices for the last time. */
  predicate Missed(s: State) {
    (s.consumer.TestClosed? || s.consumer.Ended?) && |s.pulled| < |s.pushed|
  }

  lemma ClosedCloser(s: State)
    requires Inv(s) && s.eos && !Missed(s)
    ensures var r := StepConsumer(s);
            && r.eos && !Missed(r) && r.captured == s.captured == r.pushed && |r.pulled| <= |r.pushed|
            && ToEnd(r) == (if ToEnd(s) > 0 then ToEnd(s) - 1 else 0)
  {
    hide Wrap, Next, U64, CapSum, Counters, ProducerPlaced;
    if s.consumer.TestEmpty? {
      EmptyTestExact(s);
    }
    ClosedAll(s);
    hide Contents;
  }

  lemma ClosedAll(s: State)
    requires Inv(s) && s.eos
    ensures s.captured == s.pushed && |s.pulled| <= |s.pushed|
  {
    assert s.pushed + [] == s.pushed;
  }

  lemma MissedForever(s: State, a: Action)
    requires Inv(s) && s.eos && Missed(s)
    ensures var r := Step(s, a); r.eos && Missed(r) && r.captured == s.captured && r.pulled == s.pulled
  {
    hide Wrap, Next, U64, CapSum, Counters;
  }

  lemma ClosedOthers(s: State, a: Action)
    requires Inv(s) && s.eos && a != ConsumerStep
    ensures Step(s, a) == s
  {
    hide Wrap, Next, U64, CapSum, Counters;
  }

  lemma EndedAll(s: State)
    requires Inv(s) && s.eos && !Missed(s)
    ensures ToEnd(s) == 0 <==> s.consumer == Ended
    ensures ToEnd(s) == 0 ==> s.pulled == s.captured
  {
    assert s.pushed + [] == s.pushed;
  }

  /** A closed channel: the given number of consumer steps ends it with everything pulled. */
  lemma {:induction false} ClosedRun(mem: seq<Packet>, actions: seq<Action>, more: seq<Action>)
    requires |mem| > 0 && Run(mem, actions).eos && !Missed(Run(mem, actions))
    ensures var s, r := Run(mem, actions), Run(mem, actions + more);
            && r.eos && !Missed(r) && r.captured == s.captured
            && |s.pulled| <= |s.pushed| && |r.pulled| <= |r.pushed|
            && ToEnd(r) == (if ToEnd(s) > Times(more, ConsumerStep) then ToEnd(s) - Times(more, ConsumerStep) else 0)
    decreases |more|
  {
    hide Run, Step, Inv, Missed, ToEnd;
    InOrderDelivery(mem, actions);
    InOrderDelivery(mem, actions + more);
    if more == [] {
      RunSame(mem, actions);
    } else {
      var n := |more| - 1;
      RunLast(mem, actions, more);
      ClosedRun(mem, actions, more[..n]);
      var t := Run(mem, actions + more[..n]);
      RunInv(mem, actions + more[..n]);
      if more[n] == ConsumerStep {
        StepIsConsumer(t);
        ClosedCloser(t);
      } else {
        ClosedOthers(t, more[n]);
      }
    }
  }

  lemma {:induction false} MissedRun(mem: seq<Packet>, actions: seq<Action>, more: seq<Action>)
    requires |mem| > 0 && Run(mem, actions).eos && Missed(Run(mem, actions))
    ensures var r := Run(mem, actions + more); r.eos && Missed(r)
    decreases |more|
  {
    hide Run, Step, Inv, Missed;
    if more == [] {
      RunSame(mem, actions);
    } else {
      var n := |more| - 1;
      RunLast(mem, actions, more);
      MissedRun(mem, actions, more[..n]);
      RunInv(mem, actions + more[..n]);
      MissedForever(Run(mem, actions + more[..n]), more[n]);
    }
  }

  /**
   Shutdown.  From a closed channel every schedule that goes on long enough ends with all captured
   packets pulled, exactly if the consumer has not yet passed its last comparison with a packet pending.
   */
  lemma {:induction false} DrainsIff(mem: seq<Packet>, actions: seq<Action>, more: seq<Action>)
    requires |mem| > 0 && Run(mem, actions).eos
    ensures |Run(mem, actions).pulled| <= |Run(mem, actions).pushed|
    ensures var s, r := Run(mem, actions), Run(mem, actions + more);
            Times(more, ConsumerStep) >= ToEnd(s) ==> (r.consumer == Ended && r.pulled == s.captured <==> !Missed(s))
  {
    hide Run, Step, Inv, ToEnd;
    InOrderDelivery(mem, actions);
    InOrderDelivery(mem, actions + more);
    RunInv(mem, actions + more);
    var s, r := Run(mem, actions), Run(mem, actions + more);
    if Missed(s) {
      MissedRun(mem, actions, more);
      ClosedCaptured(mem, actions, more);
    } else {
      ClosedRun(mem, actions, more);
      EndedAll(r);
    }
  }

  lemma {:induction false} ClosedCaptured(mem: seq<Packet>, actions: seq<Action>, more: seq<Action>)
    requires |mem| > 0 && Run(mem, actions).eos
    ensures Run(mem, actions + more).captured == Run(mem, actions).captured && Run(mem, actions + more).eos
    ensures Run(mem, actions + more).pushed == Run(mem, actions).pushed
    decreases |more|
  {
    hide Run, Inv;
    if more == [] {
      RunSame(mem, actions);
    } else {
      var n := |more| - 1;
      RunLast(mem, actions, more);
      ClosedCaptured(mem, actions, more[..n]);
      RunInv(mem, actions + more[..n]);
      if more[n] != ConsumerStep {
        ClosedOthers(Run(mem, actions + more[..n]), more[n]);
      }
    }
  }

  // ---------------------------------------------------------------- a complete run

  /** Both threads at the top of their loops, `done` captured and pulled. */
  predicate Resting(s: State, done: seq<Packet>) {
    s.producer == Retain && s.consumer == Pull && !s.eos && s.captured == s.pushed == s.pulled == done
  }

  /** The producer goes from the top of its loop to a packet it may fill; the consumer is not needed. */
  lemma Retains(mem: seq<Packet>, actions: seq<Action>) returns (more: seq<Action>)
    requires |mem| >= 2 && Resting(Run(mem, actions), Run(mem, actions).pulled)
    ensures var s, r := Run(mem, actions), Run(mem, more);
            r.producer.Fill? && r == s.(producer := r.producer)
  {
    hide Run;
    var s;
    more, s := Do(mem, actions, Run(mem, actions), ProducerStep);
    RetainedIffRoom(mem, more);
    RunSnoc(mem, more, ProducerStep);
    more := more + [ProducerStep];
  }

  lemma Publishes(mem: seq<Packet>, actions: seq<Action>, p: Packet) returns (more: seq<Action>)
    requires |mem| >= 2 && Resting(Run(mem, actions), Run(mem, actions).pulled)
    ensures var s, r := Run(mem, actions), Run(mem, more);
            && r.captured == r.pushed == s.pulled + [p] && r.pulled == s.pulled
            && r.producer == Retain && r.consumer == Pull && !r.eos
  {
    hide Run, Inv;
    var filling := Retains(mem, actions);
    CaptureReads(mem, filling, p);
    var pushing := filling + [Write(p), ReadOk];
    var three := [ProducerStep, ProducerStep, ProducerStep];
    ThreeTimes(ProducerStep);
    ReadIsPublished(mem, pushing, three);
    more := pushing + three;
    RunInv(mem, more);
    StillOpen(Run(mem, more));
    ConsumerApart(mem, pushing);
  }

  lemma ThreeTimes(a: Action)
    ensures Times([a, a, a], a) == 3
  {
    assert [a, a, a][..2] == [a, a] && [a, a][..1] == [a] && [a][..0] == [];
    assert Times([a], a) == 1 && Times([a, a], a) == 2;
  }

  lemma StillOpen(s: State)
    requires Inv(s) && s.producer == Retain
    ensures !s.eos
  {
  }

  lemma ConsumerApart(mem: seq<Packet>, actions: seq<Action>)
    requires |mem| > 0
    ensures var s, r := Run(mem, actions), Run(mem, actions + [ProducerStep, ProducerStep, ProducerStep]);
            r.consumer == s.consumer && r.pulled == s.pulled
  {
    hide Run, Step;
    var three := [ProducerStep, ProducerStep, ProducerStep];
    assert three[..2] == [ProducerStep, ProducerStep] && three[..2][..1] == [ProducerStep];
    assert [ProducerStep][..0] == [];
    RunSame(mem, actions);
    ProducerAlone(mem, actions, [ProducerStep]);
    ProducerAlone(mem, actions, three[..2]);
    ProducerAlone(mem, actions, three);
  }

  lemma ProducerAlone(mem: seq<Packet>, actions: seq<Action>, more: seq<Action>)
    requires |mem| > 0 && more != [] && more[|more| - 1] == ProducerStep
    ensures var s, r := Run(mem, actions + more[..|more| - 1]), Run(mem, actions + more);
            r.consumer == s.consumer && r.pulled == s.pulled
  {
    hide Run, Inv, Step;
    RunLast(mem, actions, more);
    RunInv(mem, actions + more[..|more| - 1]);
    OthersKeepConsumer(Run(mem, actions + more[..|more| - 1]), ProducerStep);
  }

  /** The consumer takes the one packet that pends and comes back to the top of its loop. */
  lemma Pulls(mem: seq<Packet>, actions: seq<Action>) returns (more: seq<Action>)
    requires |mem| >= 2
    requires var s := Run(mem, actions); s.consumer == Pull && s.producer == Retain && |s.pulled| < |s.pushed|
    ensures var s, r := Run(mem, actions), Run(mem, more);
            && r.pulled == s.pulled + [s.pushed[|s.pulled|]] && r.pushed == s.pushed && r.captured == s.captured
            && r.producer == Retain && r.consumer == Pull && !r.eos
  {
    hide Run, Inv, Counters, Next;
    var s;
    more, s := Do(mem, actions, Run(mem, actions), ConsumerStep);
    RunInv(mem, actions);
    ConsumerCloser(Run(mem, actions));
    RunInv(mem, more);
    ConsumerCloser(s);
    more, s := Do(mem, more, s, ConsumerStep);
    RunInv(mem, more);
    ConsumerCloser(s);
    more, s := Do(mem, more, s, ConsumerStep);
    RunInv(mem, more);
    ConsumerCloser(s);
    more, s := Do(mem, more, s, ConsumerStep);
    more, s := Do(mem, more, s, ConsumerStep);
    more, s := Do(mem, more, s, ConsumerStep);
    RunInv(mem, more);
    StillOpen(s);
  }

  lemma {:induction false} Passes(mem: seq<Packet>, packets: seq<Packet>) returns (actions: seq<Action>)
    requires |mem| >= 2
    ensures Resting(Run(mem, actions), packets)
  {
    hide Run, Shaped;
    if packets == [] {
      actions := [];
      RunNone(mem);
    } else {
      var n := |packets| - 1;
      actions := Passes(mem, packets[..n]);
      actions := Publishes(mem, actions, packets[n]);
      actions := Pulls(mem, actions);
      assert packets[..n] + [packets[n]] == packets;
    }
  }

  /** Whatever is captured, there is a schedule that hands it over complete and ends. */
  lemma {:induction false} EverythingArrives(mem: seq<Packet>, packets: seq<Packet>) returns (actions: seq<Action>)
    requires |mem| >= 2
    ensures var s := Run(mem, actions);
            s.consumer == Ended && s.producer == Stopped && s.captured == s.pulled == packets
  {
    hide Run, Inv;
    actions := Passes(mem, packets);
    actions := Retains(mem, actions);
    var s;
    actions, s := Do(mem, actions, Run(mem, actions), ReadEnd);
    actions, s := Do(mem, actions, s, ProducerStep);
    var three := [ConsumerStep, ConsumerStep, ConsumerStep];
    ThreeTimes(ConsumerStep);
    DrainsIff(mem, actions, three);
    ClosedCaptured(mem, actions, three);
    RunInv(mem, actions + three);
    StoppedIff(Run(mem, actions + three));
    actions := actions + three;
  }

  lemma StoppedIff(s: State)
    requires Inv(s)
    ensures s.eos <==> s.producer == Stopped
  {
  }
}
