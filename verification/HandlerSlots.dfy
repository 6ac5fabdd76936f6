/**
 BoundedHandlerSlots.cs under arbitrary interleavings: requests take a slot, register their id, run a
 handler, may stop waiting for it (a timeout), and give the slot back once the handler has ended.
 Request ids need not be distinct.
 */
module HandlerSlots {
  import opened Counting

  /** The semaphore count and the registered ids. */
  datatype Table = Table(free: nat, ids: set<string>)

  datatype Phase =
    | Arrived
    | Counted            // took a count of the semaphore, id not added yet
    | Collided           // the id was taken: the count has to go back
    | Refused
    | Active             // registered; the request is being served
    | Leaving            // ReleaseWhenCompleted was called; waiting for the handler
    | Removed            // id removed, count not given back yet
    | Finished
    | DoubleRelease      // the release found no id: it throws

  datatype Handler = NotStarted | Running | Ended

  datatype Request = Request(id: string, phase: Phase, handler: Handler)

  datatype State = State(capacity: nat, table: Table, requests: seq<Request>)

  datatype Action =
    | Arrive(id: string)
    | Wait(i: nat) | Add(i: nat) | GiveBack(i: nat)
    | StartHandler(i: nat) | EndHandler(i: nat)
    | Leave(i: nat)
    | Remove(i: nat) | Release(i: nat)

  function Index(a: Action): nat { if a.Arrive? then 0 else a.i }

  function Start(capacity: nat): State {
    State(capacity, Table(capacity, {}), [])
  }

  /** The atomic operations of the semaphore and of the id map. */
  function Taken(t: Table): Table
    requires t.free > 0
  {
    t.(free := t.free - 1)
  }

  function GivenBack(t: Table): Table { t.(free := t.free + 1) }

  /** The next step of one request, with its effect on the table. */
  function Move(t: Table, r: Request, a: Action): (Table, Request) {
    match a
    case Arrive(_) => (t, r)
    case Wait(_) =>
      if !r.phase.Arrived? then (t, r)
      else if t.free > 0 then (Taken(t), r.(phase := Counted)) else (t, r.(phase := Refused))
    case Add(_) =>
      if !r.phase.Counted? then (t, r)
      else if r.id in t.ids then (t, r.(phase := Collided))
      else (t.(ids := t.ids + {r.id}), r.(phase := Active))
    case GiveBack(_) => if r.phase.Collided? then (GivenBack(t), r.(phase := Refused)) else (t, r)
    case StartHandler(_) =>
      (t, if r.phase.Active? && r.handler.NotStarted? then r.(handler := Running) else r)
    case EndHandler(_) => (t, if r.handler.Running? then r.(handler := Ended) else r)
    case Leave(_) => (t, if r.phase.Active? then r.(phase := Leaving) else r)
    case Remove(_) =>
      if !r.phase.Leaving? || r.handler.Running? then (t, r)
      else if r.id in t.ids then (t.(ids := t.ids - {r.id}), r.(phase := Removed))
      else (t, r.(phase := DoubleRelease))
    case Release(_) => if r.phase.Removed? then (GivenBack(t), r.(phase := Finished)) else (t, r)
  }

  function Step(s: State, a: Action): State {
    if a.Arrive? then s.(requests := s.requests + [Request(a.id, Arrived, NotStarted)])
    else if Index(a) < |s.requests| then
      var (table, request) := Move(s.table, s.requests[Index(a)], a);
      s.(table := table, requests := s.requests[Index(a) := request])
    else s
  }

  function Run(s: State, actions: seq<Action>): State
    decreases |actions|
  {
    if actions == [] then s else Run(Step(s, actions[0]), actions[1..])
  }

  // ---- counting ------------------------------------------------------------------------------

  /** The request has its id in the map. */
  predicate Registered(r: Request) { r.phase.Active? || r.phase.Leaving? }

  /** The request holds a count of the semaphore without an id in the map. */
  predicate InTransit(r: Request) { r.phase.Counted? || r.phase.Collided? || r.phase.Removed? }

  // ---- what every step keeps -----------------------------------------------------------------

  ghost predicate Conserved(s: State) {
    && s.table.free + |s.table.ids| + Count(s.requests, InTransit) == s.capacity
    && |s.table.ids| == Count(s.requests, Registered)
  }

  /** The registered ids belong to exactly one registered request each. */
  ghost predicate Owned(s: State) {
    && (forall i | 0 <= i < |s.requests| && Registered(s.requests[i]) :: s.requests[i].id in s.table.ids)
    && (forall i, j | 0 <= i < j < |s.requests| && Registered(s.requests[i]) && Registered(s.requests[j]) ::
          s.requests[i].id != s.requests[j].id)
  }

  ghost predicate HandlersHeld(s: State) {
    forall i | 0 <= i < |s.requests| ::
      && !s.requests[i].phase.DoubleRelease?
      && (s.requests[i].handler.Running? ==> Registered(s.requests[i]))
  }

  ghost predicate Inv(s: State) {
    Conserved(s) && Owned(s) && HandlersHeld(s)
  }

  lemma MoveConserves(s: State, a: Action)
    requires Inv(s) && !a.Arrive? && Index(a) < |s.requests|
    ensures Conserved(Step(s, a))
  {
    var i := Index(a);
    var moved := Move(s.table, s.requests[i], a).1;
    CountUpdate(s.requests, InTransit, i, moved);
    CountUpdate(s.requests, Registered, i, moved);
  }

  lemma StepKeepsOwned(s: State, a: Action)
    requires Owned(s)
    ensures Owned(Step(s, a))
  {
  }

  lemma StepKeepsHandlers(s: State, a: Action)
    requires Owned(s) && HandlersHeld(s)
    ensures HandlersHeld(Step(s, a))
  {
  }

  lemma StepConserves(s: State, a: Action)
    requires Inv(s)
    ensures Conserved(Step(s, a))
  {
    if a.Arrive? {
      CountAppend(s.requests, InTransit, Request(a.id, Arrived, NotStarted));
      CountAppend(s.requests, Registered, Request(a.id, Arrived, NotStarted));
    } else if Index(a) < |s.requests| {
      MoveConserves(s, a);
    }
  }

  lemma StepKeeps(s: State, a: Action)
    requires Inv(s)
    ensures Inv(Step(s, a))
  {
    StepConserves(s, a);
    StepKeepsOwned(s, a);
    StepKeepsHandlers(s, a);
  }

  lemma {:induction false} RunKeeps(s: State, actions: seq<Action>)
    requires Inv(s)
    ensures Inv(Run(s, actions)) && Run(s, actions).capacity == s.capacity
    decreases |actions|
  {
    if actions != [] {
      StepKeeps(s, actions[0]);
      RunKeeps(Step(s, actions[0]), actions[1..]);
    }
  }

  // ---- results -------------------------------------------------------------------------------

  predicate HandlerRuns(r: Request) { r.handler.Running? }

  /**
   In every interleaving no slot is lost or invented, running handlers never exceed the capacity, even
   those whose requests have given up on them, and no release ever fails.
   */
  lemma SlotsAreConserved(capacity: nat, actions: seq<Action>)
    ensures var s := Run(Start(capacity), actions);
      && s.table.free + |s.table.ids| + Count(s.requests, InTransit) == capacity
      && |s.table.ids| == Count(s.requests, Registered)
      && Count(s.requests, HandlerRuns) <= |s.table.ids| <= capacity
      && (forall i | 0 <= i < |s.requests| :: !s.requests[i].phase.DoubleRelease?)
  {
    RunKeeps(Start(capacity), actions);
    var s := Run(Start(capacity), actions);
    CountAtMost(s.requests, HandlerRuns, Registered);
  }

  /** Giving a count back never exceeds the maximum the semaphore was created with. */
  lemma GivingBackFits(capacity: nat, actions: seq<Action>, i: nat)
    requires var s := Run(Start(capacity), actions);
      i < |s.requests| && (s.requests[i].phase.Collided? || s.requests[i].phase.Removed?)
    ensures Run(Start(capacity), actions).table.free < capacity
  {
    SlotsAreConserved(capacity, actions);
    CountPositive(Run(Start(capacity), actions).requests, InTransit, i);
  }

  predicate HoldsSlot(r: Request) { Registered(r) || InTransit(r) }

  lemma {:induction false} HoldersAdd(requests: seq<Request>)
    ensures Count(requests, HoldsSlot) == Count(requests, Registered) + Count(requests, InTransit)
    decreases |requests|
  {
    if requests != [] {
      HoldersAdd(requests[..|requests| - 1]);
    }
  }

  /** A request that asks for a slot is turned away exactly when as many requests as the capacity hold one. */
  lemma BusyIffFull(capacity: nat, actions: seq<Action>, i: nat)
    requires var s := Run(Start(capacity), actions); i < |s.requests| && s.requests[i].phase.Arrived?
    ensures var s := Run(Start(capacity), actions);
      Step(s, Wait(i)).requests[i].phase.Refused? <==> Count(s.requests, HoldsSlot) == capacity
  {
    SlotsAreConserved(capacity, actions);
    HoldersAdd(Run(Start(capacity), actions).requests);
  }

  // ---- distinct ids --------------------------------------------------------------------------

  /** Every arriving id is new, as fresh GUIDs are. */
  ghost predicate FreshIds(s: State, actions: seq<Action>)
    decreases |actions|
  {
    actions != [] ==>
      && (actions[0].Arrive? ==> actions[0].id !in s.table.ids)
      && (actions[0].Arrive? ==> forall i | 0 <= i < |s.requests| :: s.requests[i].id != actions[0].id)
      && FreshIds(Step(s, actions[0]), actions[1..])
  }

  ghost predicate Distinct(s: State) {
    && (forall i, j | 0 <= i < j < |s.requests| :: s.requests[i].id != s.requests[j].id)
    && (forall i | 0 <= i < |s.requests| :: s.requests[i].id in s.table.ids <==> Registered(s.requests[i]))
    && (forall i | 0 <= i < |s.requests| :: !s.requests[i].phase.Collided?)
  }

  lemma StepStaysDistinct(s: State, a: Action)
    requires Inv(s) && Distinct(s)
    requires a.Arrive? ==> a.id !in s.table.ids && forall i | 0 <= i < |s.requests| :: s.requests[i].id != a.id
    ensures Distinct(Step(s, a))
  {
  }

  lemma {:induction false} RunStaysDistinct(s: State, actions: seq<Action>)
    requires Inv(s) && Distinct(s) && FreshIds(s, actions)
    ensures Distinct(Run(s, actions))
    decreases |actions|
  {
    if actions != [] {
      StepKeeps(s, actions[0]);
      StepStaysDistinct(s, actions[0]);
      RunStaysDistinct(Step(s, actions[0]), actions[1..]);
    }
  }

  /** With fresh ids the id map never refuses, so a request is turned away only for want of a slot. */
  lemma FreshIdsNeverCollide(capacity: nat, actions: seq<Action>, i: nat)
    requires FreshIds(Start(capacity), actions) && i < |Run(Start(capacity), actions).requests|
    ensures var r := Run(Start(capacity), actions).requests[i];
      !r.phase.Collided? && (r.id in Run(Start(capacity), actions).table.ids <==> Registered(r))
  {
    RunStaysDistinct(Start(capacity), actions);
  }

  // ---- the object ----------------------------------------------------------------------------

  class BoundedHandlerSlots {
    var slots: nat
    var requestIds: set<string>

    function View(): Table
      reads this
    {
      Table(slots, requestIds)
    }

    constructor (capacity: nat)
      ensures View() == Start(capacity).table
    {
      slots, requestIds := capacity, {};
    }

    /** One atomic operation on behalf of a request. */
    method Advance(r: Request, a: Action) returns (after: Request)
      modifies this
      ensures (View(), after) == Move(old(View()), r, a)
    {
      after := r;
      match a
      case Wait(_) =>
        if r.phase.Arrived? {
          if slots == 0 {
            after := r.(phase := Refused);
          } else {
            slots := slots - 1;
            after := r.(phase := Counted);
          }
        }
      case Add(_) =>
        if r.phase.Counted? {
          if r.id in requestIds {
            after := r.(phase := Collided);
          } else {
            requestIds := requestIds + {r.id};
            after := r.(phase := Active);
          }
        }
      case GiveBack(_) =>
        if r.phase.Collided? {
          slots := slots + 1;
          after := r.(phase := Refused);
        }
      case StartHandler(_) =>
        if r.phase.Active? && r.handler.NotStarted? { after := r.(handler := Running); }
      case EndHandler(_) =>
        if r.handler.Running? { after := r.(handler := Ended); }
      case Leave(_) =>
        if r.phase.Active? { after := r.(phase := Leaving); }
      case Remove(_) =>
        if r.phase.Leaving? && !r.handler.Running? {
          if r.id !in requestIds {
            after := r.(phase := DoubleRelease);
          } else {
            requestIds := requestIds - {r.id};
            after := r.(phase := Removed);
          }
        }
      case Release(_) =>
        if r.phase.Removed? {
          slots := slots + 1;
          after := r.(phase := Finished);
        }
      case Arrive(_) =>
    }

    /** `TryAcquire`, when nothing comes between its operations. */
    method TryAcquire(id: string) returns (acquired: bool)
      modifies this
      ensures acquired == (old(slots) > 0 && id !in old(requestIds))
      ensures View() == if acquired then Table(old(slots) - 1, old(requestIds) + {id}) else old(View())
    {
      var request := Advance(Request(id, Arrived, NotStarted), Wait(0));
      if request.phase.Refused? {
        return false;
      }
      request := Advance(request, Add(0));
      if request.phase.Active? {
        return true;
      }
      request := Advance(request, GiveBack(0));
      return false;
    }

    /** `ReleaseWhenCompleted`: nothing yet while the handler runs, else the slot of `TryAcquire` comes back. */
    method ReleaseWhenCompleted(id: string, handler: Handler) returns (released: bool)
      requires id in requestIds
      modifies this
      ensures released == !handler.Running?
      ensures View() == if released then Table(old(slots) + 1, old(requestIds) - {id}) else old(View())
    {
      var request := Advance(Request(id, Active, handler), Leave(0));
      request := Advance(request, Remove(0));
      request := Advance(request, Release(0));
      released := request.phase.Finished?;
    }
  }
}
