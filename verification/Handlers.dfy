/**
 Event handlers: MsgQueue of src/channel.hpp and the handler table of src/kernel.cc, as a
 system of interleaved steps.  User threads register, remove, activate and deactivate
 handlers; while the kernel runs they register and remove by pushing requests, which the
 kernel applies between packets.  The handler flags are atomics that every thread touches,
 so each read and each store of a flag is a step of its own.

 A handler is identified by its entity, `ptr`.  The number `id` comes from an unlocked
 counter and may repeat or come out of order; nothing here depends on it.

 Histories: `pushed` and `applied` hold the requests as they entered the queue and took
 effect, `stores` the stores to the active flags, and `visits` each handler the kernel came
 to, with whether its callback ran and how long `applied` and `stores` were; the visits of
 the last packet begin at `from`.
 */
module Handlers {

  datatype Handler = Handler(ptr: nat, id: nat, ev: nat)

  datatype Request = Add(h: Handler) | Delete(h: Handler)

  datatype Lock = Free | Appended | Raised | ByKernel

  datatype Kernel =
    | Setup                                            // thread_main not entered
    | Waiting                                          // for a packet
    | Dispatch(events: seq<nat>, i: nat, j: nat)       // at handler j of event i
    | Test                                             // about to read has_msg_
    | Lock                                             // about to lock the queue
    | Pop                                              // about to take the front of the queue
    | Flag(req: Request)                               // about to update has_msg_
    | Release(req: Request)                            // about to unlock
    | Apply(req: Request)                              // about to change the table
    | Retire(h: Handler)                               // destroy: about to store active_
    | Doom(h: Handler)                                 // destroy: about to store destroyed_
    | Unlink(h: Handler)                               // about to erase the handler
    | Failed                                           // pull threw: no data in queue

  /** A call of activate (`value` true) or deactivate on its way. */
  datatype Stage = Compare | Write
  datatype Toggle = Toggle(ptr: nat, value: bool, stage: Stage)

  datatype Store = Store(ptr: nat, value: bool)

  datatype Visit = Visit(h: Handler, ran: bool, after: nat, stamp: nat)

  datatype State = State(
    queue: seq<Request>, hasMsg: bool, lock: Lock, kernel: Kernel,
    table: map<nat, seq<Handler>>, made: seq<Handler>, unpushed: set<Handler>,
    active: set<nat>, destroyed: set<nat>, toggles: multiset<Toggle>,
    pushed: seq<Request>, applied: seq<Request>, stores: seq<Store>, visits: seq<Visit>, from: nat)

  datatype Action =
    | Create(id: nat, ev: nat)                         // Kernel::on: the new entity
    | PushAdd(h: Handler)                              // Kernel::on: its request, or its registration
    | Clear(h: Handler)                                // Kernel::clear
    | RaiseFlag                                        // MsgQueue::push: store has_msg_
    | Unlock                                           // MsgQueue::push: unlock
    | Begin(ptr: nat, value: bool)                     // (de)activate: read destroyed_
    | Look(ptr: nat, value: bool)                      // (de)activate: read active_
    | Finish(ptr: nat, value: bool)                    // (de)activate: store active_
    | Start
    | Packet(events: seq<nat>)                         // a packet was decoded
    | KernelStep

  function Get(table: map<nat, seq<Handler>>, ev: nat): seq<Handler> {
    if ev in table then table[ev] else []
  }

  /** The list without the first occurrence of `h`. */
  function Erase(hs: seq<Handler>, h: Handler): seq<Handler> {
    if hs == [] then [] else if hs[0] == h then hs[1..] else [hs[0]] + Erase(hs[1..], h)
  }

  function SetActive(s: State, ptr: nat, value: bool): State {
    s.(active := if value then s.active + {ptr} else s.active - {ptr}, stores := s.stores + [Store(ptr, value)])
  }

  /** Kernel::add_handler. */
  function AddHandler(s: State, h: Handler): State {
    s.(table := s.table[h.ev := Get(s.table, h.ev) + [h]], applied := s.applied + [Add(h)])
  }

  /** The end of Kernel::delete_handler: the handler leaves its list, if it is there. */
  function EraseHandler(s: State, h: Handler): State {
    s.(table := if h in Get(s.table, h.ev) then s.table[h.ev := Erase(Get(s.table, h.ev), h)] else s.table,
       applied := s.applied + [Delete(h)])
  }

  /** Take the lock and append; the flag is raised and the lock released in later steps. */
  function Enqueue(s: State, req: Request): State {
    s.(queue := s.queue + [req], lock := Appended, pushed := s.pushed + [req])
  }

  /** Whether Kernel::on has returned `h`. */
  predicate Issued(s: State, h: Handler) {
    Add(h) in s.pushed
  }

  /** Whether a thread can change the table or push a request now. */
  predicate CanPush(s: State) {
    s.kernel == Setup || s.lock == Free
  }

  /** Kernel::thread_main: one handler of one event. */
  function StepVisit(s: State): State {
    match s.kernel
    case Dispatch(events, i, j) =>
      if i >= |events| then s.(kernel := Test)
      else if j >= |Get(s.table, events[i])| then s.(kernel := Dispatch(events, i + 1, 0))
      else
        var h := Get(s.table, events[i])[j];
        s.(kernel := Dispatch(events, i, j + 1),
           visits := s.visits + [Visit(h, h.ptr in s.active, |s.applied|, |s.stores|)])
    case _ => s
  }

  /** MsgQueue::has_msg and pull. */
  function StepPull(s: State): State {
    match s.kernel
    case Test => s.(kernel := if s.hasMsg then Lock else Waiting)
    case Lock => if s.lock == Free then s.(lock := ByKernel, kernel := Pop) else s
    case Pop => if s.queue == [] then s.(kernel := Failed) else s.(queue := s.queue[1..], kernel := Flag(s.queue[0]))
    case Flag(req) => s.(hasMsg := if s.queue == [] then false else s.hasMsg, kernel := Release(req))
    case Release(req) => s.(lock := Free, kernel := Apply(req))
    case _ => s
  }

  /** ChangeRequest::change: add_handler, or delete_handler with the stores of destroy. */
  function StepChange(s: State): State {
    match s.kernel
    case Apply(Add(h)) => AddHandler(s, h).(kernel := Test)
    case Apply(Delete(h)) =>
      if h !in Get(s.table, h.ev) then EraseHandler(s, h).(kernel := Test)
      else s.(kernel := if h.ptr in s.destroyed then Unlink(h) else Retire(h))
    case Retire(h) => SetActive(s, h.ptr, false).(kernel := Doom(h))
    case Doom(h) => s.(destroyed := s.destroyed + {h.ptr}, kernel := Unlink(h))
    case Unlink(h) => EraseHandler(s, h).(kernel := Test)
    case _ => s
  }

  predicate Changing(k: Kernel) {
    k.Apply? || k.Retire? || k.Doom? || k.Unlink?
  }

  function StepKernel(s: State): State {
    if s.kernel.Dispatch? then StepVisit(s)
    else if Changing(s.kernel) then StepChange(s)
    else StepPull(s)
  }

  /** Kernel::clear before the kernel runs: one thread, so one step. */
  function ClearNow(s: State, h: Handler): State {
    var s := if h in Get(s.table, h.ev) && h.ptr !in s.destroyed
             then SetActive(s, h.ptr, false).(destroyed := s.destroyed + {h.ptr}) else s;
    EraseHandler(s, h).(pushed := s.pushed + [Delete(h)])
  }

  /** Registration and removal by user threads. */
  function StepUser(s: State, a: Action): State {
    match a
    case Create(id, ev) =>
      var h := Handler(|s.made|, id, ev);
      SetActive(s, h.ptr, true).(made := s.made + [h], unpushed := s.unpushed + {h})
    case PushAdd(h) =>
      if h !in s.unpushed || !CanPush(s) then s
      else
        var s := s.(unpushed := s.unpushed - {h});
        if s.kernel == Setup then AddHandler(s, h).(pushed := s.pushed + [Add(h)]) else Enqueue(s, Add(h))
    case Clear(h) =>
      if !Issued(s, h) || !CanPush(s) then s
      else if s.kernel == Setup then ClearNow(s, h)
      else Enqueue(s, Delete(h))
    case RaiseFlag => if s.lock == Appended then s.(hasMsg := true, lock := Raised) else s
    case Unlock => if s.lock == Raised then s.(lock := Free) else s
    case _ => s
  }

  /** HandlerEntity::activate and deactivate by user threads. */
  function StepToggle(s: State, a: Action): State {
    match a
    case Begin(p, value) =>
      if p >= |s.made| || p in s.destroyed then s else s.(toggles := s.toggles + multiset{Toggle(p, value, Compare)})
    case Look(p, value) =>
      if Toggle(p, value, Compare) !in s.toggles then s
      else
        var left := s.toggles - multiset{Toggle(p, value, Compare)};
        s.(toggles := if (p in s.active) == value then left else left + multiset{Toggle(p, value, Write)})
    case Finish(p, value) =>
      if Toggle(p, value, Write) !in s.toggles then s
      else SetActive(s, p, value).(toggles := s.toggles - multiset{Toggle(p, value, Write)})
    case _ => s
  }

  predicate Toggles(a: Action) {
    a.Begin? || a.Look? || a.Finish?
  }

  function Step(s: State, a: Action): State {
    match a
    case Start => if s.kernel == Setup then s.(kernel := Waiting) else s
    case Packet(events) => if s.kernel == Waiting then s.(kernel := Dispatch(events, 0, 0), from := |s.visits|) else s
    case KernelStep => StepKernel(s)
    case _ => if Toggles(a) then StepToggle(s, a) else StepUser(s, a)
  }

  /** Visiting moves the kernel and adds to the visits only. */
  lemma VisitFrame(s: State)
    ensures var r := StepVisit(s); r == s.(kernel := r.kernel, visits := r.visits)
    ensures s.kernel.Dispatch? ==> StepVisit(s).kernel.Dispatch? || StepVisit(s).kernel == Test
  {
  }

  /** Pulling touches the queue only. */
  lemma PullFrame(s: State)
    ensures var r := StepPull(s); r == s.(kernel := r.kernel, queue := r.queue, hasMsg := r.hasMsg, lock := r.lock)
    ensures StepPull(s).kernel.Dispatch? || StepPull(s).kernel.Unlink? ==> StepPull(s).kernel == s.kernel
  {
  }

  /** Activating and deactivating touches the flags only. */
  lemma ToggleFrame(s: State, a: Action)
    ensures var r := StepToggle(s, a);
            && r == s.(toggles := r.toggles, active := r.active, stores := r.stores)
            && s.stores <= r.stores
  {
  }

  const INIT := State([], false, Free, Setup, map[], [], {}, {}, {}, multiset{}, [], [], [], [], 0)

  function RunFrom(s: State, actions: seq<Action>): State {
    if actions == [] then s else Step(RunFrom(s, actions[..|actions| - 1]), actions[|actions| - 1])
  }

  function Run(actions: seq<Action>): State {
    RunFrom(INIT, actions)
  }

  // ---------------------------------------------------------------- the queue

  /** The request taken from the queue but not yet applied. */
  function InHand(s: State): seq<Request> {
    match s.kernel
    case Flag(req) => [req]
    case Release(req) => [req]
    case Apply(req) => [req]
    case Retire(h) => [Delete(h)]
    case Doom(h) => [Delete(h)]
    case Unlink(h) => [Delete(h)]
    case _ => []
  }

  /** Requests are applied in push order and none is lost; a pull finds the queue filled. */
  predicate QueueInv(s: State) {
    && s.pushed == s.applied + InHand(s) + s.queue
    && (s.lock == ByKernel <==> s.kernel.Pop? || s.kernel.Flag? || s.kernel.Release?)
    && (s.lock == Appended || s.lock == Raised ==> s.queue != [])
    && (s.lock == Raised || s.kernel.Pop? || s.kernel.Flag? ==> s.hasMsg)
    && (s.hasMsg && !s.kernel.Flag? ==> s.queue != [])
    && (s.queue != [] && (s.lock == Free || s.kernel.Release?) ==> s.hasMsg)
    && (s.kernel.Lock? || s.kernel.Pop? ==> s.queue != [])
    && (s.kernel.Setup? ==> s.queue == [] && s.lock == Free)
    && !s.kernel.Failed?
  }

  lemma PullQueueStep(s: State)
    requires QueueInv(s)
    ensures QueueInv(StepPull(s))
  {
  }

  lemma ChangeQueueStep(s: State)
    requires QueueInv(s)
    ensures QueueInv(StepChange(s))
  {
    hide Erase, Get;
  }

  lemma KernelQueueStep(s: State)
    requires QueueInv(s)
    ensures QueueInv(StepKernel(s))
  {
    hide StepVisit, StepPull, StepChange;
    VisitFrame(s);
    PullQueueStep(s);
    ChangeQueueStep(s);
  }

  lemma UserQueueStep(s: State, a: Action)
    requires QueueInv(s)
    ensures QueueInv(StepUser(s, a))
  {
    hide Erase, Get;
  }

  lemma QueueStep(s: State, a: Action)
    requires QueueInv(s)
    ensures QueueInv(Step(s, a))
  {
    hide StepKernel, StepUser, StepToggle;
    KernelQueueStep(s);
    UserQueueStep(s, a);
    ToggleFrame(s, a);
  }

  // ---------------------------------------------------------------- the requests

  /** Every handler is added once and deleted only after that. */
  ghost predicate Sane(reqs: seq<Request>) {
    && (forall i, j :: 0 <= i < j < |reqs| && reqs[i].Add? ==> reqs[i] != reqs[j])
    && (forall j :: 0 <= j < |reqs| && reqs[j].Delete? ==> exists i :: 0 <= i < j && reqs[i] == Add(reqs[j].h))
  }

  /** The table after some requests: for every event its handlers in order of registration. */
  function Registered(reqs: seq<Request>, ev: nat): seq<Handler> {
    if reqs == [] then []
    else
      var before, r := Registered(reqs[..|reqs| - 1], ev), reqs[|reqs| - 1];
      if r.h.ev != ev then before else if r.Add? then before + [r.h] else Erase(before, r.h)
  }

  predicate Once(hs: seq<Handler>) {
    forall i, j :: 0 <= i < j < |hs| ==> hs[i] != hs[j]
  }

  lemma {:induction false} EraseOnce(hs: seq<Handler>, h: Handler)
    requires Once(hs)
    ensures Once(Erase(hs, h))
    ensures forall g :: g in Erase(hs, h) <==> g in hs && g != h
  {
    if hs != [] {
      EraseOnce(hs[1..], h);
      assert hs == [hs[0]] + hs[1..];
      assert hs[0] !in hs[1..];
      assert hs[0] !in Erase(hs[1..], h);
    }
  }

  lemma {:induction false} EraseAbsent(hs: seq<Handler>, h: Handler)
    requires h !in hs
    ensures Erase(hs, h) == hs
  {
    if hs != [] {
      EraseAbsent(hs[1..], h);
    }
  }

  /** A handler is in the table exactly while its add has been applied and no delete of it has; once at most. */
  lemma {:induction false} RegisteredExactly(reqs: seq<Request>, ev: nat)
    requires Sane(reqs)
    ensures Once(Registered(reqs, ev))
    ensures forall h :: h in Registered(reqs, ev) <==> h.ev == ev && Add(h) in reqs && Delete(h) !in reqs
  {
    if reqs != [] {
      var n := |reqs| - 1;
      var before, r := reqs[..n], reqs[n];
      assert reqs == before + [r];
      assert Sane(before);
      RegisteredExactly(before, ev);
      if r.h.ev == ev && r.Add? {
        assert r !in before;
      } else if r.h.ev == ev {
        EraseOnce(Registered(before, ev), r.h);
      }
    }
  }

  // ---------------------------------------------------------------- the table

  /** Entities are distinct, requests name entities that were made, and an unpushed one has no request yet. */
  ghost predicate MadeInv(s: State) {
    && (forall i :: 0 <= i < |s.made| ==> s.made[i].ptr == i)
    && (forall h :: h in s.unpushed ==> h in s.made && Add(h) !in s.pushed)
    && (forall i :: 0 <= i < |s.pushed| ==> s.pushed[i].h in s.made)
    && (forall p :: p in s.destroyed ==> p < |s.made|)
  }

  ghost predicate TableInv(s: State) {
    && Sane(s.pushed) && MadeInv(s)
    && forall ev :: Get(s.table, ev) == Registered(s.applied, ev)
  }

  lemma SanePrefix(reqs: seq<Request>, n: nat)
    requires Sane(reqs) && n <= |reqs|
    ensures Sane(reqs[..n])
  {
  }

  lemma SaneSnoc(reqs: seq<Request>, req: Request)
    requires Sane(reqs)
    requires if req.Add? then req !in reqs && Delete(req.h) !in reqs else Add(req.h) in reqs
    ensures Sane(reqs + [req])
  {
    var more := reqs + [req];
    if req.Delete? {
      var i :| 0 <= i < |reqs| && reqs[i] == Add(req.h);
      assert more[i] == Add(more[|reqs|].h);
    }
    forall j | 0 <= j < |more| && more[j].Delete?
      ensures exists i :: 0 <= i < j && more[i] == Add(more[j].h)
    {
      if j < |reqs| {
        var i :| 0 <= i < j && reqs[i] == Add(reqs[j].h);
        assert more[i] == Add(more[j].h);
      }
    }
  }

  /** A handler never added was never deleted. */
  lemma NoDeleteBeforeAdd(reqs: seq<Request>, h: Handler)
    requires Sane(reqs) && Add(h) !in reqs
    ensures Delete(h) !in reqs
  {
    if Delete(h) in reqs {
      var j :| 0 <= j < |reqs| && reqs[j] == Delete(h);
      var i :| 0 <= i < j && reqs[i] == Add(reqs[j].h);
      assert false;
    }
  }

  lemma ChangeTable(s: State, req: Request)
    requires forall ev :: Get(s.table, ev) == Registered(s.applied, ev)
    ensures var r := if req.Add? then AddHandler(s, req.h) else EraseHandler(s, req.h);
            r.applied == s.applied + [req] && forall ev :: Get(r.table, ev) == Registered(s.applied + [req], ev)
  {
    assert (s.applied + [req])[..|s.applied|] == s.applied;
    if req.Delete? && req.h !in Get(s.table, req.h.ev) {
      EraseAbsent(Get(s.table, req.h.ev), req.h);
    }
  }

  lemma PushSane(s: State, a: Action)
    requires QueueInv(s) && Sane(s.pushed) && MadeInv(s)
    ensures Sane(StepUser(s, a).pushed)
  {
    hide Registered, Erase, Get;
    if a.PushAdd? && a.h in s.unpushed {
      NoDeleteBeforeAdd(s.pushed, a.h);
      SaneSnoc(s.pushed, Add(a.h));
    }
    if a.Clear? && Issued(s, a.h) {
      SaneSnoc(s.pushed, Delete(a.h));
    }
  }

  lemma UserMade(s: State, a: Action)
    requires TableInv(s)
    ensures MadeInv(StepUser(s, a))
  {
    hide Registered, Erase, Get, Sane;
    if a.Clear? && Issued(s, a.h) {
      var i :| 0 <= i < |s.pushed| && s.pushed[i] == Add(a.h);
    }
  }

  lemma ChangeMade(s: State)
    requires QueueInv(s) && TableInv(s)
    ensures MadeInv(StepChange(s)) && StepChange(s).pushed == s.pushed
  {
    hide Registered, Erase, Get, Sane;
    if s.kernel.Doom? {
      assert s.pushed[|s.applied|] == Delete(s.kernel.h);
    }
  }

  lemma UserTable(s: State, a: Action)
    requires QueueInv(s) && TableInv(s)
    ensures TableInv(StepUser(s, a))
  {
    hide Registered, Erase, Sane, MadeInv;
    PushSane(s, a);
    UserMade(s, a);
    if a.PushAdd? {
      ChangeTable(s.(unpushed := s.unpushed - {a.h}), Add(a.h));
    } else if a.Clear? && s.kernel == Setup {
      ChangeTable(s, Delete(a.h));
    }
  }

  lemma ChangeStepTable(s: State)
    requires QueueInv(s) && TableInv(s)
    ensures TableInv(StepChange(s))
  {
    hide Registered, Erase, Sane, MadeInv;
    ChangeMade(s);
    if s.kernel.Apply? {
      ChangeTable(s, s.kernel.req);
    } else if s.kernel.Unlink? {
      ChangeTable(s, Delete(s.kernel.h));
    }
  }

  lemma KernelTable(s: State)
    requires QueueInv(s) && TableInv(s)
    ensures TableInv(StepKernel(s))
  {
    hide Registered, Sane, StepVisit, StepPull, StepChange, QueueInv;
    ChangeStepTable(s);
    VisitFrame(s);
    PullFrame(s);
  }

  lemma TableStep(s: State, a: Action)
    requires QueueInv(s) && TableInv(s)
    ensures TableInv(Step(s, a))
  {
    hide Registered, Sane, StepUser, StepToggle, StepKernel, QueueInv;
    UserTable(s, a);
    KernelTable(s);
    ToggleFrame(s, a);
  }

  // ---------------------------------------------------------------- the flags

  /** The value the last store left in an active flag. */
  function FlagAfter(stores: seq<Store>, ptr: nat): bool {
    if stores == [] then false
    else
      var last := stores[|stores| - 1];
      if last.ptr == ptr then last.value else FlagAfter(stores[..|stores| - 1], ptr)
  }

  /** Flags are what their last store says; a handler whose delete was applied, or nearly, is destroyed. */
  ghost predicate FlagInv(s: State) {
    && (forall p :: p in s.active <==> FlagAfter(s.stores, p))
    && (forall h :: Delete(h) in s.applied ==> h.ptr in s.destroyed)
    && (s.kernel.Unlink? ==> s.kernel.h.ptr in s.destroyed)
  }

  lemma StoreStep(s: State, ptr: nat, value: bool)
    requires forall p :: p in s.active <==> FlagAfter(s.stores, p)
    ensures var r := SetActive(s, ptr, value); forall p :: p in r.active <==> FlagAfter(r.stores, p)
  {
    assert (s.stores + [Store(ptr, value)])[..|s.stores|] == s.stores;
  }

  /** A delete that finds no handler is not the first one. */
  lemma DeletedBefore(s: State, h: Handler)
    requires QueueInv(s) && TableInv(s) && Add(h) in s.applied && h !in Get(s.table, h.ev)
    ensures Delete(h) in s.applied
  {
    SanePrefix(s.pushed, |s.applied|);
    assert s.pushed[..|s.applied|] == s.applied;
    RegisteredExactly(s.applied, h.ev);
  }

  /** The delete in the kernel's hand comes after its add. */
  lemma AddedBefore(s: State, h: Handler)
    requires QueueInv(s) && TableInv(s) && InHand(s) == [Delete(h)]
    ensures Add(h) in s.applied
  {
    var n := |s.applied|;
    assert s.pushed[n] == Delete(h);
    var i :| 0 <= i < n && s.pushed[i] == Add(s.pushed[n].h);
    assert s.applied[i] == Add(h);
  }

  lemma UserFlags(s: State, a: Action)
    requires QueueInv(s) && TableInv(s) && FlagInv(s)
    ensures FlagInv(StepUser(s, a))
  {
    hide Registered, Erase, FlagAfter, TableInv, QueueInv;
    if a.Create? {
      StoreStep(s, |s.made|, true);
    } else if a.Clear? {
      ClearFlags(s, a.h);
    }
  }

  lemma ClearFlags(s: State, h: Handler)
    requires QueueInv(s) && TableInv(s) && FlagInv(s)
    ensures FlagInv(StepUser(s, Clear(h)))
  {
    hide Registered, Erase, FlagAfter, Sane, MadeInv;
    StoreStep(s, h.ptr, false);
    if s.kernel == Setup && Issued(s, h) {
      assert s.pushed == s.applied;
      if h !in Get(s.table, h.ev) {
        DeletedBefore(s, h);
      }
    }
  }

  lemma ToggleFlags(s: State, a: Action)
    requires FlagInv(s)
    ensures FlagInv(StepToggle(s, a))
  {
    hide FlagAfter;
    if a.Finish? {
      StoreStep(s, a.ptr, a.value);
    }
  }

  lemma FlagStep(s: State, a: Action)
    requires QueueInv(s) && TableInv(s) && FlagInv(s)
    ensures FlagInv(Step(s, a))
  {
    hide TableInv, QueueInv, FlagAfter, StepUser, StepToggle, StepKernel;
    UserFlags(s, a);
    ToggleFlags(s, a);
    KernelFlags(s);
  }

  lemma ChangeFlags(s: State)
    requires QueueInv(s) && TableInv(s) && FlagInv(s)
    ensures FlagInv(StepChange(s))
  {
    hide Registered, Erase, FlagAfter, TableInv, QueueInv;
    if s.kernel.Retire? {
      StoreStep(s, s.kernel.h.ptr, false);
    }
    if s.kernel.Apply? && s.kernel.req.Delete? {
      AddedBefore(s, s.kernel.req.h);
      if s.kernel.req.h !in Get(s.table, s.kernel.req.h.ev) {
        DeletedBefore(s, s.kernel.req.h);
      }
    }
  }

  lemma KernelFlags(s: State)
    requires QueueInv(s) && TableInv(s) && FlagInv(s)
    ensures FlagInv(StepKernel(s))
  {
    hide FlagAfter, TableInv, QueueInv, StepVisit, StepPull, StepChange;
    ChangeFlags(s);
    VisitFrame(s);
    PullFrame(s);
  }

  // ---------------------------------------------------------------- visits

  /**
   A visited handler had been added and not deleted when it was visited, and its callback ran
   exactly when the last store to its flag had made it active.
   */
  predicate VisitOk(v: Visit, applied: seq<Request>, stores: seq<Store>) {
    && v.after <= |applied| && Add(v.h) in applied[..v.after] && Delete(v.h) !in applied[..v.after]
    && v.stamp <= |stores| && (v.ran <==> FlagAfter(stores[..v.stamp], v.h.ptr))
  }

  ghost predicate VisitsOk(s: State) {
    forall i :: 0 <= i < |s.visits| ==> VisitOk(s.visits[i], s.applied, s.stores)
  }

  function Visited(visits: seq<Visit>): (r: seq<Handler>)
    ensures |r| == |visits| && forall i :: 0 <= i < |r| ==> r[i] == visits[i].h
  {
    seq(|visits|, i requires 0 <= i < |visits| => visits[i].h)
  }

  /** All handlers of some events, event by event. */
  function Lists(table: map<nat, seq<Handler>>, events: seq<nat>): seq<Handler> {
    if events == [] then [] else Lists(table, events[..|events| - 1]) + Get(table, events[|events| - 1])
  }

  /** The handlers before position `j` of event `i`. */
  function Passed(table: map<nat, seq<Handler>>, events: seq<nat>, i: nat, j: nat): seq<Handler>
    requires i <= |events|
  {
    Lists(table, events[..i]) + if i < |events| && j <= |Get(table, events[i])| then Get(table, events[i])[..j] else []
  }

  /** A dispatch in progress has visited exactly the handlers before its position. */
  ghost predicate VisitInv(s: State) {
    && VisitsOk(s) && s.from <= |s.visits|
    && (s.kernel.Dispatch? ==>
          var Dispatch(events, i, j) := s.kernel;
          && i <= |events| && (i < |events| ==> j <= |Get(s.table, events[i])|)
          && Visited(s.visits[s.from..]) == Passed(s.table, events, i, j))
  }

  lemma VisitsLater(s: State, r: State)
    requires VisitsOk(s) && s.applied <= r.applied && s.stores <= r.stores && r.visits == s.visits
    ensures VisitsOk(r)
  {
    forall i | 0 <= i < |s.visits|
      ensures VisitOk(s.visits[i], r.applied, r.stores)
    {
      var v := s.visits[i];
      assert r.applied[..v.after] == s.applied[..v.after] && r.stores[..v.stamp] == s.stores[..v.stamp];
    }
  }

  lemma ChangeHistoriesGrow(s: State)
    ensures s.applied <= StepChange(s).applied && s.stores <= StepChange(s).stores
  {
    hide Erase, Get;
  }

  lemma KernelHistoriesGrow(s: State)
    ensures s.applied <= StepKernel(s).applied && s.stores <= StepKernel(s).stores
  {
    hide StepVisit, StepPull, StepChange;
    ChangeHistoriesGrow(s);
    VisitFrame(s);
    PullFrame(s);
  }

  lemma UserHistoriesGrow(s: State, a: Action)
    ensures s.applied <= StepUser(s, a).applied && s.stores <= StepUser(s, a).stores
  {
    hide Erase, Get;
  }

  lemma HistoriesGrow(s: State, a: Action)
    ensures s.applied <= Step(s, a).applied && s.stores <= Step(s, a).stores
  {
    hide StepKernel, StepUser, StepToggle;
    KernelHistoriesGrow(s);
    UserHistoriesGrow(s, a);
    ToggleFrame(s, a);
  }

  lemma NewVisitOk(s: State, ev: nat, j: nat)
    requires QueueInv(s) && TableInv(s) && FlagInv(s) && j < |Get(s.table, ev)|
    ensures var h := Get(s.table, ev)[j];
            VisitOk(Visit(h, h.ptr in s.active, |s.applied|, |s.stores|), s.applied, s.stores)
  {
    SanePrefix(s.pushed, |s.applied|);
    assert s.pushed[..|s.applied|] == s.applied;
    RegisteredExactly(s.applied, ev);
    assert s.applied[..|s.applied|] == s.applied && s.stores[..|s.stores|] == s.stores;
    assert Get(s.table, ev)[j] in Registered(s.applied, ev);
  }

  lemma PassOne(table: map<nat, seq<Handler>>, events: seq<nat>, i: nat, j: nat)
    requires i < |events| && j <= |Get(table, events[i])|
    ensures j < |Get(table, events[i])| ==>
              Passed(table, events, i, j + 1) == Passed(table, events, i, j) + [Get(table, events[i])[j]]
    ensures j == |Get(table, events[i])| ==> Passed(table, events, i + 1, 0) == Passed(table, events, i, j)
  {
    var hs := Get(table, events[i]);
    if j < |hs| {
      assert hs[..j + 1] == hs[..j] + [hs[j]];
    } else {
      assert hs[..j] == hs;
      assert events[..i + 1][..i] == events[..i];
    }
  }

  lemma DispatchStep(s: State)
    requires QueueInv(s) && TableInv(s) && FlagInv(s) && VisitInv(s) && s.kernel.Dispatch?
    ensures VisitInv(StepKernel(s))
  {
    hide QueueInv, TableInv, FlagInv, VisitOk, Passed;
    var Dispatch(events, i, j) := s.kernel;
    if i < |events| {
      PassOne(s.table, events, i, j);
      var hs := Get(s.table, events[i]);
      if j < |hs| {
        NewVisitOk(s, events[i], j);
        var v := Visit(hs[j], hs[j].ptr in s.active, |s.applied|, |s.stores|);
        assert (s.visits + [v])[s.from..] == s.visits[s.from..] + [v];
        assert Visited(s.visits[s.from..] + [v]) == Visited(s.visits[s.from..]) + [hs[j]];
      }
    }
  }

  lemma PacketStarts(s: State, events: seq<nat>)
    requires VisitInv(s) && s.kernel == Waiting
    ensures VisitInv(Step(s, Packet(events)))
  {
    hide VisitOk;
    assert s.visits[|s.visits|..] == [];
    assert events[..0] == [];
  }

  lemma VisitStep(s: State, a: Action)
    requires QueueInv(s) && TableInv(s) && FlagInv(s) && VisitInv(s)
    ensures VisitInv(Step(s, a))
  {
    if a.KernelStep? && s.kernel.Dispatch? {
      DispatchStep(s);
    } else if a.Packet? && s.kernel == Waiting {
      PacketStarts(s, a.events);
    } else {
      hide VisitOk, QueueInv, TableInv, FlagInv, Passed, Visited, VisitsOk, Step;
      HistoriesGrow(s, a);
      OtherStep(s, a);
      VisitsLater(s, Step(s, a));
    }
  }

  /** A step leaves the visits alone, and the table under a dispatch. */
  predicate OffDispatch(s: State, r: State) {
    r.visits == s.visits && r.from == s.from && (r.kernel.Dispatch? ==> r.kernel == s.kernel && r.table == s.table)
  }

  lemma UserOffDispatch(s: State, a: Action)
    ensures OffDispatch(s, StepUser(s, a))
  {
    hide Erase, Get;
  }

  lemma KernelOffDispatch(s: State)
    requires !s.kernel.Dispatch?
    ensures OffDispatch(s, StepKernel(s))
  {
    hide Erase, Get, StepPull;
    PullFrame(s);
  }

  lemma OtherStep(s: State, a: Action)
    requires !(a.KernelStep? && s.kernel.Dispatch?) && !(a.Packet? && s.kernel == Waiting)
    ensures OffDispatch(s, Step(s, a))
  {
    hide StepUser, StepToggle, StepKernel;
    UserOffDispatch(s, a);
    ToggleFrame(s, a);
    if a.KernelStep? {
      KernelOffDispatch(s);
    }
  }

  // ---------------------------------------------------------------- whole runs

  ghost predicate Inv(s: State) {
    QueueInv(s) && TableInv(s) && FlagInv(s) && VisitInv(s)
  }

  lemma StepInv(s: State, a: Action)
    requires Inv(s)
    ensures Inv(Step(s, a))
  {
    hide QueueInv, TableInv, FlagInv, VisitInv, Step;
    QueueStep(s, a);
    TableStep(s, a);
    FlagStep(s, a);
    VisitStep(s, a);
  }

  lemma {:induction false} RunInv(actions: seq<Action>)
    ensures Inv(Run(actions))
  {
    if actions != [] {
      var n := |actions| - 1;
      RunInv(actions[..n]);
      hide Inv, Step;
      StepInv(Run(actions[..n]), actions[n]);
    }
  }

  /**
   In every interleaving: requests take effect in push order; pull never finds the queue
   empty; each handler is listed at most once, and exactly while it has been added and not deleted.
   */
  lemma {:induction false} TableFollowsRequests(actions: seq<Action>, ev: nat)
    ensures var s := Run(actions);
            && s.applied <= s.pushed && !s.kernel.Failed?
            && (s.kernel.Pop? ==> s.queue != [])
            && Once(Get(s.table, ev))
            && forall h :: h in Get(s.table, ev) <==> h.ev == ev && Add(h) in s.applied && Delete(h) !in s.applied
  {
    hide Run, VisitInv, FlagInv;
    RunInv(actions);
    var s := Run(actions);
    SanePrefix(s.pushed, |s.applied|);
    assert s.pushed[..|s.applied|] == s.applied;
    RegisteredExactly(s.applied, ev);
  }

  /** While events are dispatched no step of any thread changes the table. */
  lemma DispatchIsStable(s: State, a: Action)
    requires s.kernel.Dispatch?
    ensures Step(s, a).table == s.table && Step(s, a).applied == s.applied
  {
  }

  /**
   When a step ends the dispatch of a packet, every handler of every event was visited once, in order;
   and in every visit the callback ran exactly when the last store to the handler's flag was `true`.
   */
  lemma {:induction false} EveryHandlerVisited(actions: seq<Action>, a: Action)
    ensures var s := Run(actions);
            && (s.kernel.Dispatch? && !Step(s, a).kernel.Dispatch? ==>
                  s.from <= |s.visits| && Visited(s.visits[s.from..]) == Lists(s.table, s.kernel.events))
            && forall i :: 0 <= i < |s.visits| ==>
                 var v := s.visits[i];
                 v.stamp <= |s.stores| && (v.ran <==> FlagAfter(s.stores[..v.stamp], v.h.ptr))
  {
    hide Run, QueueInv, TableInv, FlagInv;
    RunInv(actions);
    var s := Run(actions);
    if s.kernel.Dispatch? && !Step(s, a).kernel.Dispatch? {
      assert s.kernel.events[..s.kernel.i] == s.kernel.events;
    }
    assert forall i :: 0 <= i < |s.visits| ==> VisitOk(s.visits[i], s.applied, s.stores);
  }

  /** Once its delete request was applied a handler is not visited any more. */
  lemma {:induction false} NeverCalledAfterDelete(actions: seq<Action>, h: Handler, k: nat)
    requires k < |Run(actions).applied| && Run(actions).applied[k] == Delete(h)
    ensures var s := Run(actions);
            forall i :: 0 <= i < |s.visits| && s.visits[i].h == h ==> s.visits[i].after <= k
  {
    hide Run, QueueInv, TableInv, FlagInv;
    RunInv(actions);
    var s := Run(actions);
    assert forall i :: 0 <= i < |s.visits| ==> VisitOk(s.visits[i], s.applied, s.stores);
  }

  // ---------------------------------------------------------------- when a removed handler stays inactive

  /** An activate that has passed the destroyed test and may still store. */
  predicate Activating(s: State, ptr: nat) {
    Toggle(ptr, true, Compare) in s.toggles || Toggle(ptr, true, Write) in s.toggles
  }

  /** Destroyed, inactive, and no activate on its way. */
  ghost predicate Gone(s: State, ptr: nat) {
    ptr in s.destroyed && ptr !in s.active && !Activating(s, ptr)
  }

  lemma ToggleGone(s: State, a: Action, ptr: nat)
    requires Gone(s, ptr)
    ensures Gone(StepToggle(s, a), ptr)
  {
  }

  lemma UserGone(s: State, a: Action, ptr: nat)
    requires Gone(s, ptr) && ptr < |s.made|
    ensures Gone(StepUser(s, a), ptr)
  {
    hide Erase, Get;
  }

  lemma KernelGone(s: State, ptr: nat)
    requires Gone(s, ptr)
    ensures Gone(StepKernel(s), ptr)
  {
    hide Erase, Get, StepVisit, StepPull;
    VisitFrame(s);
    PullFrame(s);
  }

  lemma GoneStep(s: State, a: Action, ptr: nat)
    requires Inv(s) && Gone(s, ptr)
    ensures Gone(Step(s, a), ptr)
  {
    assert ptr < |s.made|;
    hide QueueInv, FlagInv, VisitInv, Registered, Sane, StepUser, StepToggle, StepKernel;
    ToggleGone(s, a, ptr);
    UserGone(s, a, ptr);
    KernelGone(s, ptr);
  }

  lemma {:induction false} GoneForGood(actions: seq<Action>, more: seq<Action>, ptr: nat)
    requires Gone(Run(actions), ptr)
    ensures Gone(Run(actions + more), ptr)
    decreases |more|
  {
    hide Gone, Inv, Step, RunFrom;
    if more == [] {
      assert actions + more == actions;
    } else {
      var n := |more| - 1;
      GoneForGood(actions, more[..n], ptr);
      RunInv(actions + more[..n]);
      GoneStep(Run(actions + more[..n]), more[n], ptr);
      RunOne(actions + more[..n], more[n]);
      assert actions + more[..n] + [more[n]] == actions + more;
    }
  }

  lemma RunOne(actions: seq<Action>, a: Action)
    ensures Run(actions + [a]) == Step(Run(actions), a)
  {
    assert (actions + [a])[..|actions|] == actions;
  }

  /** An activate on its way can make an inactive handler active, destroyed or not. */
  lemma ActivateLands(actions: seq<Action>, ptr: nat) returns (more: seq<Action>)
    requires ptr in Run(actions).active || Activating(Run(actions), ptr)
    ensures ptr in Run(actions + more).active
  {
    hide RunFrom;
    var s := Run(actions);
    if ptr in s.active {
      more := [];
      assert actions + more == actions;
    } else if Toggle(ptr, true, Write) in s.toggles {
      more := [Finish(ptr, true)];
      RunOne(actions, more[0]);
    } else {
      more := [Look(ptr, true), Finish(ptr, true)];
      RunOne(actions, more[0]);
      RunOne(actions + [more[0]], more[1]);
      assert actions + [more[0]] + [more[1]] == actions + more;
    }
  }

  /** The flag is clear from here on, whatever any thread does. */
  ghost predicate InactiveForever(actions: seq<Action>, ptr: nat) {
    forall more :: ptr !in Run(actions + more).active
  }

  /**
   A handler whose delete was applied is inactive from then on exactly if it is inactive now and
   no activate that passed the destroyed test is still on its way.
   */
  lemma {:induction false} InactiveForeverIff(actions: seq<Action>, h: Handler)
    requires Delete(h) in Run(actions).applied
    ensures InactiveForever(actions, h.ptr) <==> h.ptr !in Run(actions).active && !Activating(Run(actions), h.ptr)
  {
    hide RunFrom, QueueInv, TableInv, VisitInv;
    RunInv(actions);
    var s := Run(actions);
    if h.ptr !in s.active && !Activating(s, h.ptr) {
      forall more
        ensures h.ptr !in Run(actions + more).active
      {
        GoneForGood(actions, more, h.ptr);
      }
    } else {
      var more := ActivateLands(actions, h.ptr);
    }
  }

  const THE_HANDLER := Handler(0, 1, 0)

  /** Registered before the start, deactivated, and an activate past both its tests. */
  const ACTIVATING := State([], false, Free, Waiting, map[0 := [THE_HANDLER]], [THE_HANDLER], {}, {}, {},
                            multiset{Toggle(0, true, Write)}, [Add(THE_HANDLER)], [Add(THE_HANDLER)],
                            [Store(0, true), Store(0, false)], [], 0)

  lemma Do(actions: seq<Action>, s: State, a: Action) returns (more: seq<Action>, r: State)
    requires s == Run(actions)
    ensures r == Step(s, a) == Run(more)
  {
    more, r := actions + [a], Step(s, a);
    RunOne(actions, a);
  }

  /** Registered before the start. */
  function Started(): State {
    ACTIVATING.(active := {0}, toggles := multiset{}, stores := [Store(0, true)])
  }

  lemma RunToStarted() returns (actions: seq<Action>)
    ensures Run(actions) == Started()
  {
    hide RunFrom, StepKernel, StepToggle;
    RunNone();
    var s;
    actions, s := Do([], INIT, Create(1, 0));
    assert s == INIT.(made := [THE_HANDLER], unpushed := {THE_HANDLER}, active := {0}, stores := [Store(0, true)]);
    actions, s := Do(actions, s, PushAdd(THE_HANDLER));
    assert [] + [THE_HANDLER] == [THE_HANDLER];
    assert s.table == map[0 := [THE_HANDLER]] && s.unpushed == {};
    actions, s := Do(actions, s, Start);
  }

  lemma RunToInactive() returns (actions: seq<Action>)
    ensures Run(actions) == ACTIVATING.(toggles := multiset{})
  {
    hide RunFrom, StepKernel, StepUser;
    actions := RunToStarted();
    var s := Started();
    actions, s := Do(actions, s, Begin(0, false));
    assert s == Started().(toggles := multiset{Toggle(0, false, Compare)});
    actions, s := Do(actions, s, Look(0, false));
    assert s == Started().(toggles := multiset{Toggle(0, false, Write)});
    actions, s := Do(actions, s, Finish(0, false));
    assert s.toggles == multiset{} && s.active == {};
  }

  lemma RunToActivating() returns (actions: seq<Action>)
    ensures Run(actions) == ACTIVATING
  {
    hide RunFrom, StepKernel, StepUser;
    actions := RunToInactive();
    var s := ACTIVATING.(toggles := multiset{});
    actions, s := Do(actions, s, Begin(0, true));
    assert s == ACTIVATING.(toggles := multiset{Toggle(0, true, Compare)});
    actions, s := Do(actions, s, Look(0, true));
    assert s.toggles == multiset{Toggle(0, true, Write)};
  }

  lemma RunNone()
    ensures Run([]) == INIT
  {
  }

  /** The state in which the kernel has the delete request in hand. */
  function DeletePulled(): State {
    ACTIVATING.(kernel := Apply(Delete(THE_HANDLER)), pushed := [Add(THE_HANDLER), Delete(THE_HANDLER)])
  }

  /** The delete request pushed, flag and lock settled. */
  function DeletePushed(): State {
    ACTIVATING.(queue := [Delete(THE_HANDLER)], hasMsg := true, pushed := [Add(THE_HANDLER), Delete(THE_HANDLER)])
  }

  lemma RunToPushed() returns (actions: seq<Action>)
    ensures Run(actions) == DeletePushed()
  {
    hide RunFrom, StepKernel, StepToggle;
    actions := RunToActivating();
    var s := ACTIVATING;
    assert s.pushed[0] == Add(THE_HANDLER);
    actions, s := Do(actions, s, Clear(THE_HANDLER));
    actions, s := Do(actions, s, RaiseFlag);
    actions, s := Do(actions, s, Unlock);
  }

  lemma RunToDelete() returns (actions: seq<Action>)
    ensures Run(actions) == DeletePulled()
  {
    hide RunFrom, Erase, Get, StepToggle, StepUser;
    actions := RunToPushed();
    var s := DeletePushed();
    actions, s := Do(actions, s, Packet([]));
    actions, s := Do(actions, s, KernelStep);
    actions, s := Do(actions, s, KernelStep);
    actions, s := Do(actions, s, KernelStep);
    assert s == DeletePushed().(lock := ByKernel, kernel := Pop);
    actions, s := Do(actions, s, KernelStep);
    assert s == DeletePushed().(queue := [], lock := ByKernel, kernel := Flag(Delete(THE_HANDLER)));
    actions, s := Do(actions, s, KernelStep);
    actions, s := Do(actions, s, KernelStep);
  }

  /**
   The condition is needed: an activate that passed its tests before the kernel destroyed the
   handler stores after it, and the removed handler is active.
   */
  lemma RemovedYetActive() returns (actions: seq<Action>)
    ensures var s := Run(actions);
            Delete(THE_HANDLER) in s.applied && THE_HANDLER.ptr in s.destroyed && THE_HANDLER.ptr in s.active
  {
    hide RunFrom, StepUser;
    actions := RunToDelete();
    var s := DeletePulled();
    actions, s := Do(actions, s, KernelStep);
    assert s.kernel == Retire(THE_HANDLER);
    actions, s := Do(actions, s, KernelStep);
    actions, s := Do(actions, s, KernelStep);
    assert s.kernel == Unlink(THE_HANDLER);
    actions, s := Do(actions, s, KernelStep);
    actions, s := Do(actions, s, Finish(0, true));
  }
}
