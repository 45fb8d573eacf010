/**
 Progress of the kernel thread.  The dispatch of a packet ends after a number of kernel steps known
 when it starts, whatever the user threads do in between; with the queue unlocked the kernel then
 applies every request that was pushed and goes back to wait for a packet.
 */
module HandlersProgress {
  import opened Handlers

  /** How often the kernel steps. */
  function KernelSteps(actions: seq<Action>): nat {
    if actions == [] then 0
    else KernelSteps(actions[..|actions| - 1]) + (if actions[|actions| - 1] == KernelStep then 1 else 0)
  }

  lemma RunLast(actions: seq<Action>, more: seq<Action>)
    requires more != []
    ensures Run(actions + more) == Step(Run(actions + more[..|more| - 1]), more[|more| - 1])
  {
    hide *;
    SplitLast(actions, more);
    RunOne(actions + more[..|more| - 1], more[|more| - 1]);
  }

  lemma SplitLast(actions: seq<Action>, more: seq<Action>)
    requires more != []
    ensures actions + more == actions + more[..|more| - 1] + [more[|more| - 1]]
  {
  }

  // ---------------------------------------------------------------- dispatch

  /** Kernel steps to dispatch some events: one per handler, one per event and one to leave. */
  function Cost(table: map<nat, seq<Handler>>, events: seq<nat>): nat {
    if events == [] then 1 else |Get(table, events[0])| + 1 + Cost(table, events[1..])
  }

  /** The steps left of a dispatch. */
  function Left(s: State): int
    requires s.kernel.Dispatch? && s.kernel.i <= |s.kernel.events|
  {
    Cost(s.table, s.kernel.events[s.kernel.i..]) - s.kernel.j
  }

  lemma DispatchCloser(s: State)
    requires VisitInv(s) && s.kernel.Dispatch? && (s.kernel.i == |s.kernel.events| ==> s.kernel.j == 0)
    ensures var r := StepKernel(s);
            && r.table == s.table && Left(s) >= 1
            && (Left(s) > 1 ==>
                  && r.kernel.Dispatch? && r.kernel.events == s.kernel.events && r.kernel.i <= |s.kernel.events|
                  && (r.kernel.i == |s.kernel.events| ==> r.kernel.j == 0) && Left(r) == Left(s) - 1)
            && (Left(s) == 1 ==>
                  r.kernel == Test && r.visits == s.visits && r.from == s.from && s.kernel.i == |s.kernel.events|)
  {
    hide VisitsOk, Passed, Visited;
    var Dispatch(events, i, j) := s.kernel;
    if i < |events| {
      assert events[i..][0] == events[i] && events[i..][1..] == events[i + 1..];
      CostPositive(s.table, events[i + 1..]);
    }
  }

  lemma CostPositive(table: map<nat, seq<Handler>>, events: seq<nat>)
    ensures Cost(table, events) >= 1
  {
  }

  lemma UsersWait(s: State, a: Action)
    requires !s.kernel.Setup?
    ensures var r := StepUser(s, a);
            r.kernel == s.kernel && r.table == s.table && r.visits == s.visits && r.from == s.from
  {
    hide Get, Erase, AddHandler, ClearNow;
  }

  lemma OthersWait(s: State, a: Action)
    requires !s.kernel.Setup? && !s.kernel.Waiting? && a != KernelStep
    ensures var r := Step(s, a); r.kernel == s.kernel && r.table == s.table && r.visits == s.visits && r.from == s.from
  {
    hide StepUser, StepToggle, StepKernel;
    UsersWait(s, a);
    ToggleFrame(s, a);
  }

  /** What a dispatch that began at `s` looks like with `left` steps to go. */
  ghost predicate Dispatching(s: State, r: State, events: seq<nat>, left: int) {
    && r.table == s.table && r.from == |s.visits|
    && if left > 0 then
         && r.kernel.Dispatch? && r.kernel.events == events && r.kernel.i <= |events|
         && (r.kernel.i == |events| ==> r.kernel.j == 0) && Left(r) == left
       else
         r.kernel == Test && r.from <= |r.visits| && Visited(r.visits[r.from..]) == Lists(s.table, events)
  }

  lemma DispatchingStep(s: State, r: State, events: seq<nat>, left: int, a: Action)
    requires Dispatching(s, r, events, left) && VisitInv(r) && (left > 0 || a != KernelStep)
    ensures Dispatching(s, Step(r, a), events, if a == KernelStep then left - 1 else left)
  {
    if a == KernelStep {
      DispatchCloser(r);
      if left == 1 {
        assert events[..r.kernel.i] == events;
      }
    } else {
      OthersWait(r, a);
    }
  }

  /**
   A packet's events: any interleaving in which the kernel makes the given number of steps visits
   all their handlers, in order, with the table it started with, and leaves the dispatch.
   */
  lemma {:induction false} DispatchEnds(actions: seq<Action>, events: seq<nat>, more: seq<Action>)
    requires Run(actions).kernel == Waiting
    requires KernelSteps(more) <= Cost(Run(actions).table, events)
    ensures var s := Run(actions);
            Dispatching(s, Run(actions + [Packet(events)] + more), events, Cost(s.table, events) - KernelSteps(more))
    decreases |more|
  {
    hide Run, Dispatching, VisitInv, QueueInv, TableInv, FlagInv, Step;
    var begun := actions + [Packet(events)];
    if more == [] {
      RunOne(actions, Packet(events));
      assert begun + more == begun;
      DispatchBegins(Run(actions), events);
    } else {
      var n := |more| - 1;
      RunLast(begun, more);
      DispatchEnds(actions, events, more[..n]);
      RunInv(begun + more[..n]);
      var left := Cost(Run(actions).table, events) - KernelSteps(more[..n]);
      DispatchingStep(Run(actions), Run(begun + more[..n]), events, left, more[n]);
    }
  }

  lemma DispatchBegins(s: State, events: seq<nat>)
    requires s.kernel == Waiting
    ensures Dispatching(s, Step(s, Packet(events)), events, Cost(s.table, events))
  {
    assert events[0..] == events;
    CostPositive(s.table, events);
  }

  // ---------------------------------------------------------------- requests

  /** The kernel stepping alone. */
  function Alone(s: State, n: nat): State {
    if n == 0 then s else StepKernel(Alone(s, n - 1))
  }

  lemma {:induction false} AloneOn(s: State, n: nat, m: nat)
    ensures Alone(s, n + m) == Alone(Alone(s, n), m)
  {
    hide StepKernel;
    if m > 0 {
      AloneOn(s, n, m - 1);
    }
  }

  lemma AloneNext(s: State, n: nat)
    ensures Alone(s, 0) == s && Alone(s, n + 1) == StepKernel(Alone(s, n))
  {
    hide StepKernel;
  }

  /** Between packets, nobody holding the lock. */
  predicate AtTest(s: State) {
    QueueInv(s) && s.kernel == Test && s.lock == Free
  }

  /** Up to the queue's lock. */
  lemma Locks(s: State)
    requires s.kernel == Test && s.hasMsg && s.lock == Free
    ensures Alone(s, 2) == s.(kernel := Pop, lock := ByKernel)
  {
    hide StepVisit, StepChange, Alone;
    AloneNext(s, 0);
    AloneNext(s, 1);
  }

  /** Out of the queue and past the lock. */
  lemma Pops(s: State)
    requires s.kernel == Pop && s.queue != []
    ensures var r := Alone(s, 3);
            r == s.(kernel := Apply(s.queue[0]), lock := Free, queue := s.queue[1..], hasMsg := r.hasMsg)
  {
    var req := s.queue[0];
    var s1 := s.(kernel := Flag(req), queue := s.queue[1..]);
    TakesFront(s);
    SettlesFlag(s1, req);
    Unlocks(StepKernel(s1), req);
    hide Alone, StepKernel;
    AloneNext(s, 0);
    AloneNext(s, 1);
    AloneNext(s, 2);
  }

  lemma TakesFront(s: State)
    requires s.kernel == Pop && s.queue != []
    ensures StepKernel(s) == s.(kernel := Flag(s.queue[0]), queue := s.queue[1..])
  {
  }

  lemma SettlesFlag(s: State, req: Request)
    requires s.kernel == Flag(req)
    ensures var r := StepKernel(s); r == s.(kernel := Release(req), hasMsg := r.hasMsg)
  {
  }

  lemma Unlocks(s: State, req: Request)
    requires s.kernel == Release(req)
    ensures StepKernel(s) == s.(kernel := Apply(req), lock := Free)
  {
  }

  /** Five steps take the front request out of the queue. */
  lemma FrontTaken(s: State)
    requires AtTest(s) && s.queue != []
    ensures var r := Alone(s, 5);
            && r.kernel == Apply(s.queue[0]) && r.queue == s.queue[1..] && r.lock == Free
            && r == s.(kernel := r.kernel, queue := r.queue, hasMsg := r.hasMsg)
  {
    assert s.hasMsg;
    hide Alone, QueueInv;
    Locks(s);
    Pops(Alone(s, 2));
    AloneOn(s, 2, 3);
  }

  /** A handler that is listed and was not destroyed. */
  lemma Destroys(s: State, h: Handler)
    requires s.kernel == Retire(h)
    ensures var r := Alone(s, 3);
            && r.kernel == Test && r.applied == s.applied + [Delete(h)]
            && r.queue == s.queue && r.lock == s.lock && r.pushed == s.pushed && r.visits == s.visits
  {
    hide StepVisit, StepPull, Erase, Get, Alone;
    AloneNext(s, 0);
    AloneNext(s, 1);
    AloneNext(s, 2);
    assert Alone(s, 1) == SetActive(s, h.ptr, false).(kernel := Doom(h));
    assert Alone(s, 2) == SetActive(s, h.ptr, false).(kernel := Unlink(h), destroyed := s.destroyed + {h.ptr});
  }

  /** Up to four more apply it. */
  lemma RequestChanges(s: State) returns (n: nat)
    requires s.kernel.Apply?
    ensures 1 <= n <= 4
    ensures var r := Alone(s, n);
            && r.kernel == Test && r.applied == s.applied + [s.kernel.req]
            && r.queue == s.queue && r.lock == s.lock && r.pushed == s.pushed && r.visits == s.visits
  {
    hide StepVisit, StepPull, Erase, Get, Alone;
    AloneNext(s, 0);
    if s.kernel.req.Add? || s.kernel.req.h !in Get(s.table, s.kernel.req.h.ev) {
      n := 1;
    } else if s.kernel.req.h.ptr in s.destroyed {
      n := 2;
      AloneNext(s, 1);
    } else {
      n := 4;
      Destroys(Alone(s, 1), s.kernel.req.h);
      AloneOn(s, 1, 3);
    }
  }

  lemma {:induction false} AloneInv(s: State, n: nat)
    requires QueueInv(s)
    ensures QueueInv(Alone(s, n))
  {
    hide QueueInv;
    if n > 0 {
      AloneInv(s, n - 1);
      KernelQueueStep(Alone(s, n - 1));
    }
  }

  lemma FrontApplied(s: State) returns (n: nat)
    requires AtTest(s) && s.queue != []
    ensures 6 <= n <= 9
    ensures var r := Alone(s, n);
            AtTest(r) && r.applied == s.applied + [s.queue[0]] && r.queue == s.queue[1..] && r.pushed == s.pushed
            && r.visits == s.visits
  {
    hide Alone, QueueInv;
    FrontTaken(s);
    var m := RequestChanges(Alone(s, 5));
    n := 5 + m;
    AloneOn(s, 5, m);
    AloneInv(s, n);
  }

  lemma {:induction false} AllApplied(s: State) returns (n: nat)
    requires AtTest(s)
    ensures n <= 9 * |s.queue| + 1
    ensures var r := Alone(s, n);
            && r.kernel == Waiting && r.queue == [] && r.applied == r.pushed == s.pushed && r.visits == s.visits
    decreases |s.queue|
  {
    hide Alone;
    if s.queue == [] {
      n := 1;
      AloneNext(s, 0);
      NothingQueued(s);
    } else {
      hide StepKernel, QueueInv;
      var m := FrontApplied(s);
      n := AllApplied(Alone(s, m));
      AloneOn(s, m, n);
      n := m + n;
    }
  }

  lemma NothingQueued(s: State)
    requires AtTest(s) && s.queue == []
    ensures StepKernel(s) == s.(kernel := Waiting) && s.applied == s.pushed
  {
    assert s.applied + [] + [] == s.applied;
  }

  /** The kernel alone, as a run. */
  lemma {:induction false} AloneRuns(actions: seq<Action>, n: nat)
    ensures Run(actions + seq(n, _ => KernelStep)) == Alone(Run(actions), n)
  {
    hide Run, StepKernel;
    var more := seq(n, _ => KernelStep);
    if n == 0 {
      assert actions + more == actions;
    } else {
      assert more[..n - 1] == seq(n - 1, _ => KernelStep);
      AloneRuns(actions, n - 1);
      RunLast(actions, more);
    }
  }

  /**
   Requests do not wait for ever: from any reachable state between packets with the queue unlocked,
   at most nine kernel steps per request and one apply everything pushed, in order, and the kernel
   waits for the next packet.
   */
  lemma {:induction false} RequestsApplied(actions: seq<Action>) returns (n: nat)
    requires Run(actions).kernel == Test && Run(actions).lock == Free
    ensures n <= 9 * |Run(actions).queue| + 1
    ensures var s, r := Run(actions), Run(actions + seq(n, _ => KernelStep));
            && r.kernel == Waiting && r.queue == [] && r.applied == r.pushed == s.pushed
            && s.pushed == s.applied + s.queue
  {
    hide Run, Alone, VisitInv, TableInv, FlagInv;
    RunInv(actions);
    n := AllApplied(Run(actions));
    AloneRuns(actions, n);
    var s := Run(actions);
    assert s.applied + [] + s.queue == s.applied + s.queue;
  }

  // ---------------------------------------------------------------- on and clear take effect

  /** The kernel waits for a packet and nobody holds the lock. */
  predicate Idle(s: State) {
    s.kernel == Waiting && s.lock == Free
  }

  /** MsgQueue::push has three steps: append, raise the flag, unlock. */
  lemma PushesOn(s: State)
    requires QueueInv(s) && s.kernel == Waiting && s.lock == Appended
    ensures var r := Step(Step(s, RaiseFlag), Unlock);
            Idle(r) && r.pushed == s.pushed && r.table == s.table && r.active == s.active && r.made == s.made
  {
  }

  /** A packet without events takes the kernel to its test in two steps. */
  lemma ToTest(s: State)
    requires Idle(s)
    ensures var r := StepKernel(Step(s, Packet([])));
            r.kernel == Test && r.lock == Free && r.pushed == s.pushed && r.active == s.active && r.made == s.made
  {
  }

  /** From an idle kernel everything pushed is applied when the next packet has been handled. */
  lemma {:induction false} NextPacketApplies(actions: seq<Action>) returns (more: seq<Action>)
    requires Idle(Run(actions))
    ensures var s, r := Run(actions), Run(actions + more);
            r.kernel == Waiting && r.applied == r.pushed == s.pushed
  {
    hide Run, Step, StepKernel;
    var first := [Packet([]), KernelStep];
    var there := actions + first;
    RunTwo(actions, Packet([]), KernelStep);
    StepIsKernel(Step(Run(actions), Packet([])));
    ToTest(Run(actions));
    var n := RequestsApplied(there);
    more := first + seq(n, _ => KernelStep);
    assert actions + more == there + seq(n, _ => KernelStep);
  }

  lemma StepIsKernel(s: State)
    ensures Step(s, KernelStep) == StepKernel(s)
  {
  }

  lemma RunTwo(actions: seq<Action>, a: Action, b: Action)
    ensures Run(actions + [a, b]) == Step(Step(Run(actions), a), b)
  {
    hide *;
    RunOne(actions, a);
    RunOne(actions + [a], b);
    assert actions + [a] + [b] == actions + [a, b];
  }

  lemma CreatesAndPushes(s: State, id: nat, ev: nat)
    requires Idle(s)
    ensures var h := Handler(|s.made|, id, ev);
            var r := Step(Step(s, Create(id, ev)), PushAdd(h));
            && r.kernel == Waiting && r.lock == Appended && r.pushed == s.pushed + [Add(h)]
  {
    hide SetActive;
    var h := Handler(|s.made|, id, ev);
    var c := Step(s, Create(id, ev));
    assert c.kernel == Waiting && c.lock == Free && h in c.unpushed && c.pushed == s.pushed by {
      CreateFrame(s, id, ev);
    }
  }

  lemma CreateFrame(s: State, id: nat, ev: nat)
    ensures var c := Step(s, Create(id, ev));
            c.kernel == s.kernel && c.lock == s.lock && c.pushed == s.pushed && Handler(|s.made|, id, ev) in c.unpushed
  {
  }

  lemma ClearPushes(s: State, h: Handler)
    requires Idle(s) && Add(h) in s.pushed
    ensures var r := Step(s, Clear(h)); r.kernel == Waiting && r.lock == Appended && r.pushed == s.pushed + [Delete(h)]
  {
  }

  /** Kernel::on while the kernel runs: once the next packet has been handled the new handler is in the table. */
  lemma {:induction false} OnTakesEffect(actions: seq<Action>, id: nat, ev: nat) returns (more: seq<Action>)
    requires Idle(Run(actions))
    ensures var s, r := Run(actions), Run(actions + more);
            var h := Handler(|s.made|, id, ev);
            r.kernel == Waiting && r.applied == s.pushed + [Add(h)] && h in Get(r.table, ev)
  {
    hide Run, Step, VisitInv, FlagInv, TableInv;
    var s := Run(actions);
    var h := Handler(|s.made|, id, ev);
    RunTwo(actions, Create(id, ev), PushAdd(h));
    CreatesAndPushes(s, id, ev);
    var there := actions + [Create(id, ev), PushAdd(h)];
    RunTwo(there, RaiseFlag, Unlock);
    RunInv(there);
    PushesOn(Run(there));
    var m := NextPacketApplies(there + [RaiseFlag, Unlock]);
    more := [Create(id, ev), PushAdd(h), RaiseFlag, Unlock] + m;
    assert actions + more == there + [RaiseFlag, Unlock] + m;
    NewInTable(actions, actions + more, h);
  }

  lemma NewInTable(actions: seq<Action>, after: seq<Action>, h: Handler)
    requires h.ptr == |Run(actions).made| && Run(after).applied == Run(actions).pushed + [Add(h)]
    ensures h in Get(Run(after).table, h.ev)
  {
    hide Run, VisitInv, FlagInv;
    RunInv(actions);
    RunInv(after);
    TableFollowsRequests(after, h.ev);
    assert Run(after).applied[|Run(actions).pushed|] == Add(h);
  }

  /** Kernel::clear while the kernel runs: once the next packet has been handled the handler is out of the table. */
  lemma {:induction false} ClearTakesEffect(actions: seq<Action>, h: Handler) returns (more: seq<Action>)
    requires Idle(Run(actions)) && Add(h) in Run(actions).pushed
    ensures var s, r := Run(actions), Run(actions + more);
            r.kernel == Waiting && r.applied == s.pushed + [Delete(h)] && h !in Get(r.table, h.ev)
  {
    hide Run, Step, VisitInv, FlagInv, TableInv;
    RunOne(actions, Clear(h));
    ClearPushes(Run(actions), h);
    var there := actions + [Clear(h)];
    RunTwo(there, RaiseFlag, Unlock);
    RunInv(there);
    PushesOn(Run(there));
    var m := NextPacketApplies(there + [RaiseFlag, Unlock]);
    more := [Clear(h), RaiseFlag, Unlock] + m;
    assert actions + more == there + [RaiseFlag, Unlock] + m;
    TableFollowsRequests(actions + more, h.ev);
    assert Run(actions + more).applied[|Run(actions).pushed|] == Delete(h);
  }
}
