/**
 The stale-context protocol of ReluEmbeddedBridgeHost.cs: `NotifyContextChangedAsync` against
 `ExecuteAsync`. Every await splits an operation into steps; any number of operations interleave
 step by step, and any of them may be abandoned at any step.
 */
module ContextHost {
  import opened Optional
  import opened JsonTree

  const LONG_MAX: int := 0x7FFF_FFFF_FFFF_FFFF

  /**
   What the protocol calls: the projection of a usable context, the binding of a projection, equality
   of projections, and conformance to a capability's schema.
   */
  datatype Service = Service(
    project: Json -> Option<Json>, binding: Json -> string, same: (Json, Json) -> bool, conforms: (Json, Json) -> bool)

  // ---- state ---------------------------------------------------------------------------------

  /** A moment: how many updates were announced, how many changes were not, which context was current. */
  datatype Mark = Mark(announced: nat, silent: nat, version: nat)

  ghost predicate Before(a: Mark, b: Mark) {
    a.announced <= b.announced && a.silent <= b.silent && a.version <= b.version
  }

  datatype Phase =
    | Submitted | Leased
    | FirstGate | FirstChecked | FirstRead
    | Bound | Handling | Handled
    | SecondGate | SecondChecked | SecondRead
    | Returned | Failed

  datatype Capability = Capability(input: Json, output: Json)

  datatype Execute = Execute(
    phase: Phase, capability: Capability, parameters: Json, supplied: string,
    generation: int, leased: Mark,
    context: Json, projection: Json, first: Mark,
    seen: Json, result: Json,
    current: Json, currentProjection: Json, second: Mark, end: Mark)

  datatype UpdatePhase = Waiting | Entered | Updated | Announced | Thrown | Left

  datatype Holder = Nobody | Request(i: nat) | Update(j: nat)

  datatype State = State(
    context: Json, generation: int, gate: Holder, executes: seq<Execute>, updates: seq<UpdatePhase>,
    log: seq<Json>, announced: nat, silent: nat)

  datatype RequestAction =
    | Lease
    | EnterFirst | CheckFirst | ReadFirst | Bind
    | StartHandler | FinishHandler(result: Json)
    | EnterSecond | CheckSecond | ReadSecond | Return
    | Abort

  datatype UpdateAction = EnterUpdate | RunUpdate(context: Json, throws: bool) | Announce | LeaveUpdate

  datatype Action =
    | Submit(capability: Capability, parameters: Json, supplied: string)
    | Notify
    | ChangeOutside(context: Json)
    | OfRequest(i: nat, request: RequestAction)
    | OfUpdate(j: nat, update: UpdateAction)

  function Start(context: Json): State {
    State(context, 0, Nobody, [], [], [context], 0, 0)
  }

  function NewExecute(capability: Capability, parameters: Json, supplied: string): Execute {
    var zero := Mark(0, 0, 0);
    Execute(Submitted, capability, parameters, supplied, 0, zero, Null, Null, zero, Null, Null, Null, Null, zero, zero)
  }

  function Following(generation: int): int {
    if generation == LONG_MAX then 1 else generation + 1
  }

  predicate InGate(p: Phase) {
    p.FirstGate? || p.FirstChecked? || p.FirstRead? || p.SecondGate? || p.SecondChecked? || p.SecondRead?
  }

  // ---- steps ---------------------------------------------------------------------------------

  predicate At(s: State, i: nat, p: Phase) {
    i < |s.executes| && s.executes[i].phase == p
  }

  predicate UpdateAt(s: State, j: nat, p: UpdatePhase) {
    j < |s.updates| && s.updates[j] == p
  }

  function Now(s: State): Mark
  {
    Mark(s.announced, s.silent, if |s.log| == 0 then 0 else |s.log| - 1)
  }

  /**
   The record of a request after its next step. A step that throws leaves it failed; a step that has
   to wait, or is not the next one, leaves it as it is.
   */
  function Advance(service: Service, s: State, e: Execute, a: RequestAction): Execute
  {
    var failed := e.(phase := Failed);
    match a
    case Lease =>
      if e.phase.Submitted? then e.(phase := Leased, generation := s.generation, leased := Now(s)) else e
    case EnterFirst => if e.phase.Leased? && s.gate.Nobody? then e.(phase := FirstGate) else e
    case CheckFirst =>
      if !e.phase.FirstGate? then e
      else if e.generation == s.generation then e.(phase := FirstChecked) else failed
    case ReadFirst =>
      if !e.phase.FirstChecked? then e
      else
        var projection := service.project(s.context);
        if projection.None? then failed
        else e.(phase := FirstRead, context := s.context, projection := projection.value, first := Now(s))
    case Bind =>
      if !e.phase.FirstRead? then e
      else if e.supplied == service.binding(e.projection) then e.(phase := Bound) else failed
    case StartHandler =>
      if !e.phase.Bound? then e
      else if service.conforms(e.parameters, e.capability.input) then e.(phase := Handling, seen := e.context)
      else failed
    case FinishHandler(result) =>
      if !e.phase.Handling? then e
      else if service.conforms(result, e.capability.output) then e.(phase := Handled, result := result)
      else failed
    case EnterSecond => if e.phase.Handled? && s.gate.Nobody? then e.(phase := SecondGate) else e
    case CheckSecond =>
      if !e.phase.SecondGate? then e
      else if e.generation == s.generation then e.(phase := SecondChecked) else failed
    case ReadSecond =>
      if !e.phase.SecondChecked? then e
      else
        var projection := service.project(s.context);
        if projection.None? then failed
        else e.(phase := SecondRead, current := s.context, currentProjection := projection.value, second := Now(s))
    case Return =>
      if !e.phase.SecondRead? then e
      else if service.same(e.projection, e.currentProjection) && e.supplied == service.binding(e.currentProjection)
      then e.(phase := Returned, end := Now(s))
      else failed
    case Abort => if e.phase.Returned? || e.phase.Failed? then e else failed
  }

  /** One step of `ExecuteAsync`: entering takes the gate, and the `finally` blocks give it back. */
  function ExecuteStep(service: Service, s: State, i: nat, a: RequestAction): State
    requires i < |s.executes|
  {
    var e := s.executes[i];
    var after := Advance(service, s, e, a);
    s.(executes := s.executes[i := after],
       gate := if InGate(after.phase) == InGate(e.phase) then s.gate
               else if InGate(after.phase) then Request(i) else Nobody)
  }

  /** One step of `NotifyContextChangedAsync` for update j; a callback may change the context and then throw. */
  function UpdateStep(s: State, j: nat, a: UpdateAction): State
    requires j < |s.updates|
  {
    match (a, s.updates[j])
    case (EnterUpdate, Waiting) =>
      if s.gate.Nobody? then s.(updates := s.updates[j := Entered], gate := Update(j)) else s
    case (RunUpdate(context, throws), Entered) =>
      s.(updates := s.updates[j := if throws then Thrown else Updated], context := context,
         log := s.log + [context], silent := s.silent + if throws then 1 else 0)
    case (Announce, Updated) =>
      s.(updates := s.updates[j := Announced], generation := Following(s.generation), announced := s.announced + 1)
    case (LeaveUpdate, Announced) => s.(updates := s.updates[j := Left], gate := Nobody)
    case (LeaveUpdate, Thrown) => s.(updates := s.updates[j := Left], gate := Nobody)
    case _ => s
  }

  /** One step of the system; an action that is not possible leaves the state as it is. */
  function Step(service: Service, s: State, a: Action): State
  {
    match a
    case Submit(capability, parameters, supplied) =>
      s.(executes := s.executes + [NewExecute(capability, parameters, supplied)])
    case Notify => s.(updates := s.updates + [Waiting])
    case ChangeOutside(context) => s.(context := context, log := s.log + [context], silent := s.silent + 1)
    case OfRequest(i, r) => if i < |s.executes| then ExecuteStep(service, s, i, r) else s
    case OfUpdate(j, u) => if j < |s.updates| then UpdateStep(s, j, u) else s
  }

  function Run(service: Service, s: State, actions: seq<Action>): State
    decreases |actions|
  {
    if actions == [] then s else Run(service, Step(service, s, actions[0]), actions[1..])
  }

  // ---- generations ---------------------------------------------------------------------------

  /** The generation after a number of announcements. */
  function Generation(announced: nat): int {
    if announced == 0 then 0 else Following(Generation(announced - 1))
  }

  /** It runs through 0, then 1 to the largest long, over and over. */
  lemma {:induction false} GenerationCycles(n: nat)
    requires n > 0
    ensures Generation(n) == (n - 1) % LONG_MAX + 1
  {
    if n > 1 {
      GenerationCycles(n - 1);
      var q, r := (n - 2) / LONG_MAX, (n - 2) % LONG_MAX;
      assert n - 2 == q * LONG_MAX + r;
      if r + 1 == LONG_MAX {
        assert n - 1 == (q + 1) * LONG_MAX;
      } else {
        assert n - 1 == q * LONG_MAX + (r + 1);
      }
    }
  }

  /** A generation comes back exactly after whole rounds of 2^63 - 1 announcements. */
  lemma GenerationRepeats(earlier: nat, later: nat)
    requires earlier <= later
    ensures Generation(earlier) == Generation(later)
      <==> earlier == later || (earlier > 0 && (later - earlier) % LONG_MAX == 0)
  {
    if 0 < later {
      GenerationCycles(later);
    }
    if 0 < earlier < later {
      PositiveRepeats(earlier, later);
    }
  }

  lemma PositiveRepeats(earlier: nat, later: nat)
    requires 0 < earlier < later
    ensures Generation(earlier) == Generation(later) <==> (later - earlier) % LONG_MAX == 0
  {
    var a, b := earlier - 1, later - 1;
    GenerationCycles(earlier);
    GenerationCycles(later);
    assert Generation(earlier) == Generation(later) <==> a % LONG_MAX == b % LONG_MAX;
    SameRemainder(a, b);
    assert b - a == later - earlier;
  }

  lemma SameRemainder(a: nat, b: nat)
    requires a <= b
    ensures a % LONG_MAX == b % LONG_MAX <==> (b - a) % LONG_MAX == 0
  {
    var p, q, d := a / LONG_MAX, b / LONG_MAX, (b - a) / LONG_MAX;
    assert a == p * LONG_MAX + a % LONG_MAX;
    assert b == q * LONG_MAX + b % LONG_MAX;
    assert b - a == d * LONG_MAX + (b - a) % LONG_MAX;
    assert b - a == (q - p) * LONG_MAX + (b % LONG_MAX - a % LONG_MAX);
  }

  // ---- what every step keeps -----------------------------------------------------------------

  function Rank(p: Phase): int {
    match p
    case Submitted => 0 case Leased => 1 case FirstGate => 2 case FirstChecked => 3 case FirstRead => 4
    case Bound => 5 case Handling => 6 case Handled => 7 case SecondGate => 8 case SecondChecked => 9
    case SecondRead => 10 case Returned => 11 case Failed => -1
  }

  /** A moment at which no update was half done and the lease was current. */
  ghost predicate Settled(m: Mark, generation: int) {
    m.version == m.announced + m.silent && Generation(m.announced) == generation
  }

  ghost predicate LeaseOk(s: State, e: Execute) {
    Generation(e.leased.announced) == e.generation && Before(e.leased, Now(s))
  }

  ghost predicate FirstOk(service: Service, s: State, e: Execute)
  {
    && Before(e.leased, e.first) && Before(e.first, Now(s)) && Settled(e.first, e.generation)
    && e.first.version < |s.log| && s.log[e.first.version] == e.context
    && service.project(e.context) == Some(e.projection)
  }

  ghost predicate SecondOk(service: Service, s: State, e: Execute)
  {
    && Before(e.first, e.second) && Before(e.second, Now(s)) && Settled(e.second, e.generation)
    && e.second.version < |s.log| && s.log[e.second.version] == e.current
    && service.project(e.current) == Some(e.currentProjection)
  }

  ghost predicate ReturnOk(service: Service, s: State, e: Execute) {
    && Before(e.second, e.end) && Before(e.end, Now(s)) && Settled(e.end, e.generation)
    && service.same(e.projection, e.currentProjection)
    && e.supplied == service.binding(e.currentProjection)
  }

  ghost predicate ExecuteOk(service: Service, s: State, e: Execute)
  {
    var r := Rank(e.phase);
    && (r >= 1 ==> LeaseOk(s, e))
    && (InGate(e.phase) && !e.phase.FirstGate? && !e.phase.SecondGate? ==> e.generation == s.generation)
    && (r >= 4 ==> FirstOk(service, s, e))
    && (r >= 5 ==> e.supplied == service.binding(e.projection))
    && (r >= 6 ==> e.seen == e.context && service.conforms(e.parameters, e.capability.input))
    && (r >= 7 ==> service.conforms(e.result, e.capability.output))
    && (r >= 10 ==> SecondOk(service, s, e))
    && (r >= 11 ==> ReturnOk(service, s, e))
  }

  /** The gate has one holder, and only that holder is between taking it and giving it back. */
  ghost predicate GateOk(s: State) {
    && (forall i: nat | i < |s.executes| :: InGate(s.executes[i].phase) <==> s.gate == Request(i))
    && (forall j: nat | j < |s.updates| :: !(s.updates[j].Waiting? || s.updates[j].Left?) <==> s.gate == Update(j))
    && (s.gate.Request? ==> s.gate.i < |s.executes|)
    && (s.gate.Update? ==> s.gate.j < |s.updates|)
  }

  /** One when an update has changed the context but not announced it yet. */
  function Unfinished(s: State): nat {
    if s.gate.Update? && UpdateAt(s, s.gate.j, Updated) then 1 else 0
  }

  ghost predicate HistoryOk(s: State) {
    && |s.log| == s.announced + s.silent + Unfinished(s) + 1
    && s.log[|s.log| - 1] == s.context
    && s.generation == Generation(s.announced)
  }

  ghost predicate Inv(service: Service, s: State)
  {
    && GateOk(s) && HistoryOk(s)
    && (forall i: nat | i < |s.executes| :: ExecuteOk(service, s, s.executes[i]))
  }

  ghost predicate Extends(s: State, t: State) {
    |s.log| > 0 && s.log <= t.log && s.announced <= t.announced && s.silent <= t.silent
  }

  lemma FirstCarries(service: Service, s: State, t: State, e: Execute)
    requires Extends(s, t) && FirstOk(service, s, e)
    ensures FirstOk(service, t, e)
  {
  }

  lemma SecondCarries(service: Service, s: State, t: State, e: Execute)
    requires Extends(s, t) && SecondOk(service, s, e)
    ensures SecondOk(service, t, e)
  {
  }

  /** What a request has recorded stays true while the history grows. */
  lemma Carries(service: Service, s: State, t: State, e: Execute)
    requires ExecuteOk(service, s, e) && Extends(s, t)
    requires s.generation == t.generation || !InGate(e.phase)
    ensures ExecuteOk(service, t, e)
  {
    if Rank(e.phase) >= 4 { FirstCarries(service, s, t, e); }
    if Rank(e.phase) >= 10 { SecondCarries(service, s, t, e); }
  }

  lemma OthersCarry(service: Service, s: State, t: State, k: int)
    requires Inv(service, s)
    requires Extends(s, t) && (s.generation == t.generation || s.gate.Update?)
    requires |t.executes| == |s.executes|
    requires forall i: nat | i < |s.executes| && i != k :: t.executes[i] == s.executes[i]
    ensures forall i: nat | i < |s.executes| && i != k :: ExecuteOk(service, t, t.executes[i])
  {
    forall i: nat | i < |s.executes| && i != k ensures ExecuteOk(service, t, t.executes[i]) {
      Carries(service, s, t, s.executes[i]);
    }
  }

  lemma UpdateKeeps(service: Service, s: State, j: nat, a: UpdateAction)
    requires Inv(service, s) && j < |s.updates|
    ensures Inv(service, UpdateStep(s, j, a))
  {
    var t := UpdateStep(s, j, a);
    OthersCarry(service, s, t, -1);
  }

  lemma FailedIsOk(service: Service, s: State, e: Execute)
    ensures ExecuteOk(service, s, e.(phase := Failed))
  {
  }

  lemma FirstReadIsOk(service: Service, s: State, e: Execute, r: Execute)
    requires ExecuteOk(service, s, e) && HistoryOk(s) && Unfinished(s) == 0 && e.phase.FirstChecked?
    requires service.project(s.context).Some?
    requires r == e.(phase := FirstRead, context := s.context, projection := service.project(s.context).value,
                     first := Now(s))
    ensures ExecuteOk(service, s, r)
  {
    assert Settled(Now(s), e.generation);
    assert FirstOk(service, s, r);
  }

  lemma SecondReadIsOk(service: Service, s: State, e: Execute, r: Execute)
    requires ExecuteOk(service, s, e) && HistoryOk(s) && Unfinished(s) == 0 && e.phase.SecondChecked?
    requires service.project(s.context).Some?
    requires r == e.(phase := SecondRead, current := s.context,
                     currentProjection := service.project(s.context).value, second := Now(s))
    ensures ExecuteOk(service, s, r)
  {
    assert Settled(Now(s), e.generation);
    assert FirstOk(service, s, r) && SecondOk(service, s, r);
  }

  lemma ReadingKeeps(service: Service, s: State, e: Execute, a: RequestAction)
    requires ExecuteOk(service, s, e) && HistoryOk(s) && (InGate(e.phase) ==> Unfinished(s) == 0)
    requires a.ReadFirst? || a.ReadSecond?
    ensures ExecuteOk(service, s, Advance(service, s, e, a))
  {
    var r := Advance(service, s, e, a);
    FailedIsOk(service, s, e);
    if service.project(s.context).Some? {
      if a.ReadFirst? && e.phase.FirstChecked? {
        FirstReadIsOk(service, s, e, r);
      } else if a.ReadSecond? && e.phase.SecondChecked? {
        SecondReadIsOk(service, s, e, r);
      }
    }
  }

  /** A request that enters the gate or passes a generation check keeps all it has recorded. */
  lemma MovedIsOk(service: Service, s: State, e: Execute, phase: Phase)
    requires ExecuteOk(service, s, e)
    requires || (e.phase.Leased? && phase.FirstGate?) || (e.phase.Handled? && phase.SecondGate?)
             || (e.generation == s.generation
                 && ((e.phase.FirstGate? && phase.FirstChecked?) || (e.phase.SecondGate? && phase.SecondChecked?)))
    ensures ExecuteOk(service, s, e.(phase := phase))
  {
    assert Rank(e.phase) >= 4 ==> FirstOk(service, s, e.(phase := phase));
  }

  lemma LeasedIsOk(service: Service, s: State, e: Execute)
    requires HistoryOk(s) && e.phase.Submitted?
    ensures ExecuteOk(service, s, e.(phase := Leased, generation := s.generation, leased := Now(s)))
  {
  }

  lemma GateActionKeeps(service: Service, s: State, e: Execute, a: RequestAction)
    requires ExecuteOk(service, s, e) && HistoryOk(s)
    requires a.Lease? || a.EnterFirst? || a.CheckFirst? || a.EnterSecond? || a.CheckSecond? || a.Abort?
    ensures ExecuteOk(service, s, Advance(service, s, e, a))
  {
    var r := Advance(service, s, e, a);
    FailedIsOk(service, s, e);
    if e.phase.Submitted? {
      LeasedIsOk(service, s, e);
    } else if r != e && !r.phase.Failed? {
      MovedIsOk(service, s, e, r.phase);
    }
  }

  lemma HandledIsOk(service: Service, s: State, e: Execute, a: RequestAction)
    requires ExecuteOk(service, s, e)
    requires || (a.Bind? && e.phase.FirstRead?) || (a.StartHandler? && e.phase.Bound?)
             || (a.FinishHandler? && e.phase.Handling?)
    requires !Advance(service, s, e, a).phase.Failed?
    ensures ExecuteOk(service, s, Advance(service, s, e, a))
  {
    assert FirstOk(service, s, Advance(service, s, e, a));
  }

  lemma HandlerActionKeeps(service: Service, s: State, e: Execute, a: RequestAction)
    requires ExecuteOk(service, s, e) && (a.Bind? || a.StartHandler? || a.FinishHandler?)
    ensures ExecuteOk(service, s, Advance(service, s, e, a))
  {
    var r := Advance(service, s, e, a);
    FailedIsOk(service, s, e);
    if r != e && !r.phase.Failed? {
      HandledIsOk(service, s, e, a);
    }
  }

  lemma ReturningKeeps(service: Service, s: State, e: Execute)
    requires ExecuteOk(service, s, e) && HistoryOk(s) && (InGate(e.phase) ==> Unfinished(s) == 0)
    ensures ExecuteOk(service, s, Advance(service, s, e, Return))
  {
    var r := Advance(service, s, e, Return);
    FailedIsOk(service, s, e);
    if r != e && !r.phase.Failed? {
      ReturnedIsOk(service, s, e, r);
    }
  }

  lemma ReturnedIsOk(service: Service, s: State, e: Execute, r: Execute)
    requires ExecuteOk(service, s, e) && HistoryOk(s) && Unfinished(s) == 0
    requires e.phase.SecondRead? && r == e.(phase := Returned, end := Now(s))
    requires service.same(e.projection, e.currentProjection)
    requires e.supplied == service.binding(e.currentProjection)
    ensures ExecuteOk(service, s, r)
  {
    assert FirstOk(service, s, r) && SecondOk(service, s, r);
    assert Settled(Now(s), e.generation);
    assert ReturnOk(service, s, r);
  }

  /** The step of the request that moves keeps what it has recorded. */
  lemma AdvanceKeeps(service: Service, s: State, e: Execute, a: RequestAction)
    requires ExecuteOk(service, s, e) && HistoryOk(s) && (InGate(e.phase) ==> Unfinished(s) == 0)
    ensures ExecuteOk(service, s, Advance(service, s, e, a))
  {
    match a
    case ReadFirst => ReadingKeeps(service, s, e, a);
    case ReadSecond => ReadingKeeps(service, s, e, a);
    case Bind => HandlerActionKeeps(service, s, e, a);
    case StartHandler => HandlerActionKeeps(service, s, e, a);
    case FinishHandler(_) => HandlerActionKeeps(service, s, e, a);
    case Return => ReturningKeeps(service, s, e);
    case _ => GateActionKeeps(service, s, e, a);
  }

  lemma ExecuteKeeps(service: Service, s: State, i: nat, a: RequestAction)
    requires Inv(service, s) && i < |s.executes|
    ensures Inv(service, ExecuteStep(service, s, i, a))
  {
    var t := ExecuteStep(service, s, i, a);
    AdvanceKeeps(service, s, s.executes[i], a);
    Carries(service, s, t, t.executes[i]);
    OthersCarry(service, s, t, i);
  }

  lemma ArrivalKeeps(service: Service, s: State, a: Action)
    requires Inv(service, s) && (a.Submit? || a.Notify? || a.ChangeOutside?)
    ensures Inv(service, Step(service, s, a))
  {
    var t := Step(service, s, a);
    forall i: nat | i < |s.executes| ensures ExecuteOk(service, t, s.executes[i]) {
      Carries(service, s, t, s.executes[i]);
    }
    assert a.Submit? ==> ExecuteOk(service, t, t.executes[|s.executes|]);
  }

  lemma StepKeeps(service: Service, s: State, a: Action)
    requires Inv(service, s)
    ensures Inv(service, Step(service, s, a))
  {
    match a
    case OfRequest(i, r) => if i < |s.executes| { ExecuteKeeps(service, s, i, r); }
    case OfUpdate(j, u) => if j < |s.updates| { UpdateKeeps(service, s, j, u); }
    case _ => ArrivalKeeps(service, s, a);
  }

  lemma {:induction false} RunKeeps(service: Service, s: State, actions: seq<Action>)
    requires Inv(service, s)
    ensures Inv(service, Run(service, s, actions))
    decreases |actions|
  {
    if actions != [] {
      StepKeeps(service, s, actions[0]);
      RunKeeps(service, Step(service, s, actions[0]), actions[1..]);
    }
  }

  // ---- what a returned result means ----------------------------------------------------------

  /**
   In every interleaving: a request that returned had shown its handler the context of its first
   gated read; that context and the one of its second read project to equal values, both with the
   caller's binding; and parameters and result conform to the capability.
   */
  lemma ReturnedResult(service: Service, initial: Json, actions: seq<Action>, i: nat)
    requires At(Run(service, Start(initial), actions), i, Returned)
    ensures var s := Run(service, Start(initial), actions); var e := s.executes[i];
      && e.first.version <= e.second.version <= e.end.version < |s.log|
      && e.seen == s.log[e.first.version] && e.current == s.log[e.second.version]
      && service.project(e.seen) == Some(e.projection)
      && service.project(e.current) == Some(e.currentProjection)
      && service.same(e.projection, e.currentProjection)
      && service.binding(e.projection) == e.supplied == service.binding(e.currentProjection)
      && service.conforms(e.parameters, e.capability.input) && service.conforms(e.result, e.capability.output)
  {
    RunKeeps(service, Start(initial), actions);
    assert ExecuteOk(service, Run(service, Start(initial), actions), Run(service, Start(initial), actions).executes[i]);
  }

  lemma ReturnIsSettled(service: Service, initial: Json, actions: seq<Action>, i: nat)
    requires At(Run(service, Start(initial), actions), i, Returned)
    ensures var s := Run(service, Start(initial), actions); var e := s.executes[i];
      && Before(e.leased, e.first) && Before(e.first, e.end) && Before(e.end, Now(s))
      && Generation(e.leased.announced) == Generation(e.end.announced)
      && e.first.version == e.first.announced + e.first.silent && e.end.version == e.end.announced + e.end.silent
  {
    RunKeeps(service, Start(initial), actions);
    assert ExecuteOk(service, Run(service, Start(initial), actions), Run(service, Start(initial), actions).executes[i]);
  }

  /**
   Between its lease and its return the generation either stayed or went round completely. If it
   stayed, the context changed since the first gated read by exactly the changes nobody announced.
   */
  lemma OnlySilentChanges(service: Service, initial: Json, actions: seq<Action>, i: nat)
    requires At(Run(service, Start(initial), actions), i, Returned)
    ensures var e := Run(service, Start(initial), actions).executes[i];
      && e.leased.announced <= e.first.announced <= e.end.announced
      && (e.leased.announced != e.end.announced ==>
            e.leased.announced > 0 && (e.end.announced - e.leased.announced) % LONG_MAX == 0)
      && (e.leased.announced == e.end.announced ==>
            e.end.version - e.first.version == e.end.silent - e.first.silent)
  {
    ReturnIsSettled(service, initial, actions, i);
    var e := Run(service, Start(initial), actions).executes[i];
    GenerationRepeats(e.leased.announced, e.end.announced);
  }

  /** Every change goes through an update whose callback does not throw. */
  ghost predicate ChangesAnnounced(actions: seq<Action>) {
    forall a | a in actions :: !a.ChangeOutside? && (a.OfUpdate? && a.update.RunUpdate? ==> !a.update.throws)
  }

  lemma {:induction false} NothingSilent(service: Service, s: State, actions: seq<Action>)
    requires ChangesAnnounced(actions)
    ensures Run(service, s, actions).silent == s.silent
    decreases |actions|
  {
    if actions != [] {
      assert actions[0] in actions;
      NothingSilent(service, Step(service, s, actions[0]), actions[1..]);
    }
  }

  lemma NoShortRound(earlier: nat, later: nat)
    requires earlier <= later < LONG_MAX && (earlier != later ==> earlier > 0 && (later - earlier) % LONG_MAX == 0)
    ensures earlier == later
  {
  }

  /** No stale result: with announced changes only, the context stays the one the handler saw. */
  lemma NoStaleResult(service: Service, initial: Json, actions: seq<Action>, i: nat)
    requires ChangesAnnounced(actions) && Run(service, Start(initial), actions).announced < LONG_MAX
    requires At(Run(service, Start(initial), actions), i, Returned)
    ensures var s := Run(service, Start(initial), actions); var e := s.executes[i];
      && e.first.version == e.end.version < |s.log| && s.log[e.end.version] == e.seen
      && service.project(e.seen) == Some(e.projection) && service.binding(e.projection) == e.supplied
  {
    NothingSilent(service, Start(initial), actions);
    ReturnIsSettled(service, initial, actions, i);
    ReturnedResult(service, initial, actions, i);
    OnlySilentChanges(service, initial, actions, i);
    var s := Run(service, Start(initial), actions);
    var e := s.executes[i];
    assert e.end.announced <= s.announced && e.end.silent <= s.silent == 0;
    NoShortRound(e.leased.announced, e.end.announced);
    assert e.first.version == e.end.version;
  }

  // ---- the exception -------------------------------------------------------------------------

  lemma {:induction false} RunExtends(service: Service, s: State, actions: seq<Action>, a: Action)
    ensures Run(service, s, actions + [a]) == Step(service, Run(service, s, actions), a)
    decreases |actions|
  {
    if actions == [] {
      assert ([] + [a])[1..] == [];
    } else {
      assert (actions + [a])[1..] == actions[1..] + [a];
      RunExtends(service, Step(service, s, actions[0]), actions[1..], a);
    }
  }

  /** A lone request on the first context, in a given phase and holding the gate or not. */
  ghost predicate AloneIn(service: Service, s: State, phase: Phase, projection: Json) {
    && At(s, 0, phase) && s.gate == (if InGate(phase) then Request(0) else Nobody)
    && var e := s.executes[0];
    && e.generation == s.generation && e.projection == projection && e.supplied == service.binding(projection)
  }

  /** Two more steps of request 0. */
  function Twice(service: Service, s: State, a: RequestAction, b: RequestAction): State
    requires 0 < |s.executes|
  {
    ExecuteStep(service, ExecuteStep(service, s, 0, a), 0, b)
  }

  lemma RunsTwice(service: Service, start: State, actions: seq<Action>, a: RequestAction, b: RequestAction)
    requires 0 < |Run(service, start, actions).executes|
    ensures Run(service, start, actions + [OfRequest(0, a)] + [OfRequest(0, b)])
      == Twice(service, Run(service, start, actions), a, b)
  {
    var s, first, second := Run(service, start, actions), OfRequest(0, a), OfRequest(0, b);
    RunExtends(service, start, actions, first);
    assert Step(service, s, first) == ExecuteStep(service, s, 0, a);
    RunExtends(service, start, actions + [first], second);
  }

  lemma TakesLease(service: Service, seen: Json, capability: Capability, parameters: Json, supplied: string)
    ensures var s := Step(service, Start(seen), Submit(capability, parameters, supplied));
            var t := Twice(service, s, Lease, EnterFirst);
      && At(t, 0, FirstGate) && t.gate == Request(0) && t.generation == 0 && t.context == seen && t.updates == []
      && t.executes[0].generation == 0 && t.executes[0].supplied == supplied
      && t.executes[0].parameters == parameters && t.executes[0].capability == capability
  {
  }

  lemma ReadsFirst(service: Service, s: State)
    requires At(s, 0, FirstGate) && s.gate == Request(0) && s.executes[0].generation == s.generation
    requires service.project(s.context).Some?
    requires s.executes[0].supplied == service.binding(service.project(s.context).value)
    ensures var e := s.executes[0];
            var t := ExecuteStep(service, Twice(service, s, CheckFirst, ReadFirst), 0, Bind);
      && AloneIn(service, t, Bound, service.project(s.context).value) && t.updates == s.updates
      && t.executes[0].context == s.context && t.executes[0].supplied == e.supplied
      && t.executes[0].parameters == e.parameters && t.executes[0].capability == e.capability
      && t.generation == s.generation
  {
  }

  lemma RunsToBound(service: Service, seen: Json, capability: Capability, parameters: Json)
      returns (actions: seq<Action>)
    requires service.project(seen).Some?
    ensures var s := Run(service, Start(seen), actions);
      && AloneIn(service, s, Bound, service.project(seen).value) && s.updates == []
      && s.executes[0].context == seen
      && s.executes[0].parameters == parameters && s.executes[0].capability == capability
  {
    var supplied := service.binding(service.project(seen).value);
    actions := [Submit(capability, parameters, supplied)];
    RunsOne(service, Start(seen), actions[0]);
    TakesLease(service, seen, capability, parameters, supplied);
    RunsTwice(service, Start(seen), actions, Lease, EnterFirst);
    actions := actions + [OfRequest(0, Lease)] + [OfRequest(0, EnterFirst)];
    ReadsFirst(service, Run(service, Start(seen), actions));
    RunsTwice(service, Start(seen), actions, CheckFirst, ReadFirst);
    actions := actions + [OfRequest(0, CheckFirst)] + [OfRequest(0, ReadFirst)];
    RunExtends(service, Start(seen), actions, OfRequest(0, Bind));
    actions := actions + [OfRequest(0, Bind)];
  }

  lemma RunsOne(service: Service, s: State, a: Action)
    ensures Run(service, s, [a]) == Step(service, s, a)
  {
    assert [a][1..] == [];
  }

  lemma Handles(service: Service, s: State, projection: Json, result: Json)
    requires AloneIn(service, s, Bound, projection)
    requires service.conforms(s.executes[0].parameters, s.executes[0].capability.input)
    requires service.conforms(result, s.executes[0].capability.output)
    ensures var t := Twice(service, s, StartHandler, FinishHandler(result));
      && AloneIn(service, t, Handled, projection) && t.updates == s.updates
      && t.executes[0].seen == s.executes[0].context
  {
  }

  lemma RunsToHandled(service: Service, seen: Json, capability: Capability, parameters: Json, result: Json)
      returns (actions: seq<Action>)
    requires service.project(seen).Some?
    requires service.conforms(parameters, capability.input) && service.conforms(result, capability.output)
    ensures var s := Run(service, Start(seen), actions);
      AloneIn(service, s, Handled, service.project(seen).value) && s.updates == [] && s.executes[0].seen == seen
  {
    actions := RunsToBound(service, seen, capability, parameters);
    Handles(service, Run(service, Start(seen), actions), service.project(seen).value, result);
    RunsTwice(service, Start(seen), actions, StartHandler, FinishHandler(result));
    actions := actions + [OfRequest(0, StartHandler)] + [OfRequest(0, FinishHandler(result))];
  }

  /** An update whose callback changes the context and then throws. */
  function SilentUpdate(next: Json): seq<Action> {
    [Notify, OfUpdate(0, EnterUpdate), OfUpdate(0, RunUpdate(next, true)), OfUpdate(0, LeaveUpdate)]
  }

  lemma SilentUpdateRuns(service: Service, s: State, next: Json)
    requires s.gate.Nobody? && s.updates == []
    ensures Run(service, s, SilentUpdate(next))
      == s.(context := next, log := s.log + [next], silent := s.silent + 1, updates := [Left])
  {
    var all := SilentUpdate(next);
    var s1 := Step(service, s, all[0]);
    var s2 := Step(service, s1, all[1]);
    var s3 := Step(service, s2, all[2]);
    assert all[1..][1..] == all[2..] && all[2..][1..] == all[3..] && all[3..][1..] == [];
    assert Run(service, s3, all[3..]) == Step(service, s3, all[3]);
    assert Run(service, s2, all[2..]) == Run(service, s3, all[3..]);
    assert Run(service, s1, all[1..]) == Run(service, s2, all[2..]);
  }

  lemma {:induction false} RunConcat(service: Service, s: State, a: seq<Action>, b: seq<Action>)
    ensures Run(service, s, a + b) == Run(service, Run(service, s, a), b)
    decreases |a|
  {
    if a == [] {
      assert a + b == b;
    } else {
      assert (a + b)[1..] == a[1..] + b;
      RunConcat(service, Step(service, s, a[0]), a[1..], b);
    }
  }

  /**
   A callback that throws after changing the context goes unnoticed: the request still returns, after
   its handler saw the old context, exactly when the two contexts project alike.
   */
  lemma ThrowingUpdateSlipsThrough(service: Service, seen: Json, later: Json, capability: Capability,
                                   parameters: Json, result: Json)
      returns (actions: seq<Action>)
    requires service.project(seen).Some? && service.project(later).Some?
    requires service.conforms(parameters, capability.input) && service.conforms(result, capability.output)
    ensures var s := Run(service, Start(seen), actions);
            var before, after := service.project(seen).value, service.project(later).value;
      && s.context == later && 0 < |s.executes| && s.executes[0].seen == seen
      && (At(s, 0, Returned) <==> service.same(before, after) && service.binding(before) == service.binding(after))
  {
    var prefix := RunsToHandled(service, seen, capability, parameters, result);
    SilentUpdateRuns(service, Run(service, Start(seen), prefix), later);
    RunConcat(service, Start(seen), prefix, SilentUpdate(later));
    var before := service.project(seen).value;
    actions := SecondEntry(service, Start(seen), prefix + SilentUpdate(later), before);
    actions := Finish(service, Start(seen), actions, before);
  }

  lemma ChecksAgain(service: Service, s: State, projection: Json)
    requires AloneIn(service, s, Handled, projection)
    ensures var t := Twice(service, s, EnterSecond, CheckSecond);
      && AloneIn(service, t, SecondChecked, projection) && t.context == s.context
      && t.executes[0].seen == s.executes[0].seen
  {
  }

  lemma SecondEntry(service: Service, start: State, actions: seq<Action>, projection: Json)
      returns (entered: seq<Action>)
    requires AloneIn(service, Run(service, start, actions), Handled, projection)
    ensures AloneIn(service, Run(service, start, entered), SecondChecked, projection)
    ensures Run(service, start, entered).context == Run(service, start, actions).context
    ensures Run(service, start, entered).executes[0].seen == Run(service, start, actions).executes[0].seen
  {
    ChecksAgain(service, Run(service, start, actions), projection);
    RunsTwice(service, start, actions, EnterSecond, CheckSecond);
    entered := actions + [OfRequest(0, EnterSecond)] + [OfRequest(0, CheckSecond)];
  }

  lemma ReturnsIfAlike(service: Service, s: State, before: Json)
    requires AloneIn(service, s, SecondChecked, before) && service.project(s.context).Some?
    ensures var t := Twice(service, s, ReadSecond, Return); var after := service.project(s.context).value;
      && t.context == s.context && 0 < |t.executes| && t.executes[0].seen == s.executes[0].seen
      && (At(t, 0, Returned) <==> service.same(before, after) && service.binding(before) == service.binding(after))
  {
  }

  /** The rest of a lone request, once its handler has finished. */
  lemma Finish(service: Service, start: State, actions: seq<Action>, before: Json) returns (finished: seq<Action>)
    requires AloneIn(service, Run(service, start, actions), SecondChecked, before)
    requires service.project(Run(service, start, actions).context).Some?
    ensures var s := Run(service, start, actions); var t := Run(service, start, finished);
            var after := service.project(s.context).value;
      && t.context == s.context && 0 < |t.executes| && t.executes[0].seen == s.executes[0].seen
      && (At(t, 0, Returned) <==> service.same(before, after) && service.binding(before) == service.binding(after))
  {
    ReturnsIfAlike(service, Run(service, start, actions), before);
    RunsTwice(service, start, actions, ReadSecond, Return);
    finished := actions + [OfRequest(0, ReadSecond)] + [OfRequest(0, Return)];
  }

  // ---- where the result comes from -----------------------------------------------------------

  /** Action k of the run was the end of request i's handler, with that result. */
  ghost predicate ProducedAt(service: Service, initial: Json, actions: seq<Action>, k: nat, i: nat, result: Json) {
    && k < |actions| && actions[k] == OfRequest(i, FinishHandler(result))
    && At(Run(service, Start(initial), actions[..k]), i, Handling)
  }

  /** Action k of the run submitted request i, with those arguments. */
  ghost predicate SubmittedAt(service: Service, initial: Json, actions: seq<Action>, k: nat, i: nat, e: Execute) {
    && k < |actions| && actions[k] == Submit(e.capability, e.parameters, e.supplied)
    && |Run(service, Start(initial), actions[..k]).executes| == i
  }

  /** A request has a result only from its handler, and its arguments only from its submission. */
  lemma StepRecords(service: Service, s: State, a: Action, i: nat)
    requires i < |Step(service, s, a).executes|
    ensures var e := Step(service, s, a).executes[i];
      && (Rank(e.phase) >= 7 ==>
            || (i < |s.executes| && Rank(s.executes[i].phase) >= 7 && s.executes[i].result == e.result)
            || (a == OfRequest(i, FinishHandler(e.result)) && At(s, i, Handling)))
      && (if i < |s.executes| then
            && s.executes[i].capability == e.capability && s.executes[i].parameters == e.parameters
            && s.executes[i].supplied == e.supplied
          else i == |s.executes| && a == Submit(e.capability, e.parameters, e.supplied))
  {
    if a.OfRequest? && a.i == i && i < |s.executes| {
      AdvanceRecords(service, s, s.executes[i], a.request);
    }
  }

  lemma AdvanceRecords(service: Service, s: State, e: Execute, a: RequestAction)
    ensures var r := Advance(service, s, e, a);
      && r.capability == e.capability && r.parameters == e.parameters && r.supplied == e.supplied
      && (Rank(r.phase) >= 7 ==>
            (Rank(e.phase) >= 7 && r.result == e.result) || (a == FinishHandler(r.result) && e.phase.Handling?))
  {
  }

  lemma {:induction false} HandlerProduced(service: Service, initial: Json, actions: seq<Action>, i: nat)
    requires var s := Run(service, Start(initial), actions); i < |s.executes| && Rank(s.executes[i].phase) >= 7
    ensures var e := Run(service, Start(initial), actions).executes[i];
      exists k: nat :: ProducedAt(service, initial, actions, k, i, e.result)
    decreases |actions|
  {
    if actions != [] {
      var n := |actions| - 1;
      var before := actions[..n];
      assert before + [actions[n]] == actions;
      RunExtends(service, Start(initial), before, actions[n]);
      var s := Run(service, Start(initial), before);
      StepRecords(service, s, actions[n], i);
      var e := Run(service, Start(initial), actions).executes[i];
      if i < |s.executes| && Rank(s.executes[i].phase) >= 7 && s.executes[i].result == e.result {
        HandlerProduced(service, initial, before, i);
        var k: nat :| ProducedAt(service, initial, before, k, i, e.result);
        assert before[..k] == actions[..k] && before[k] == actions[k];
        assert ProducedAt(service, initial, actions, k, i, e.result);
      } else {
        assert ProducedAt(service, initial, actions, n, i, e.result);
      }
    }
  }

  lemma {:induction false} WasSubmitted(service: Service, initial: Json, actions: seq<Action>, i: nat)
    requires i < |Run(service, Start(initial), actions).executes|
    ensures var e := Run(service, Start(initial), actions).executes[i];
      exists k: nat :: SubmittedAt(service, initial, actions, k, i, e)
    decreases |actions|
  {
    if actions != [] {
      var n := |actions| - 1;
      var before := actions[..n];
      assert before + [actions[n]] == actions;
      RunExtends(service, Start(initial), before, actions[n]);
      var s := Run(service, Start(initial), before);
      StepRecords(service, s, actions[n], i);
      var e := Run(service, Start(initial), actions).executes[i];
      if i < |s.executes| {
        WasSubmitted(service, initial, before, i);
        var k: nat :| SubmittedAt(service, initial, before, k, i, s.executes[i]);
        assert before[..k] == actions[..k] && before[k] == actions[k];
        assert SubmittedAt(service, initial, actions, k, i, e);
      } else {
        assert SubmittedAt(service, initial, actions, n, i, e);
      }
    }
  }

  /**
   What a request returns is what its own handler produced while it ran, for the capability, the parameters
   and the binding that the request was submitted with.
   */
  lemma ReturnsWhatTheHandlerProduced(service: Service, initial: Json, actions: seq<Action>, i: nat)
    requires At(Run(service, Start(initial), actions), i, Returned)
    ensures var e := Run(service, Start(initial), actions).executes[i];
      && (exists k: nat :: ProducedAt(service, initial, actions, k, i, e.result))
      && (exists k: nat :: SubmittedAt(service, initial, actions, k, i, e))
  {
    HandlerProduced(service, initial, actions, i);
    WasSubmitted(service, initial, actions, i);
  }

  // ---- the sections under the gate, uninterrupted --------------------------------------------

  /** The request's lease is current, and the context's projection has the binding it was given. */
  ghost predicate Passes(service: Service, s: State, e: Execute) {
    && e.generation == s.generation && service.project(s.context).Some?
    && e.supplied == service.binding(service.project(s.context).value)
  }

  /** Nothing but request i changed, and the gate is free. */
  ghost predicate OnlyRequest(s: State, t: State, i: nat) {
    && i < |s.executes| == |t.executes|
    && t == s.(executes := s.executes[i := t.executes[i]], gate := Nobody)
  }

  /** Request i was bound to the context, if it passes. */
  ghost predicate BoundTo(service: Service, s: State, t: State, i: nat) {
    && OnlyRequest(s, t, i)
    && t.executes[i].phase == (if Passes(service, s, s.executes[i]) then Bound else Failed)
    && (t.executes[i].phase.Bound? ==>
          t.executes[i].context == s.context && service.project(s.context) == Some(t.executes[i].projection))
  }

  /** Request i returned, if it passes and the context projects alike. */
  ghost predicate Delivered(service: Service, s: State, t: State, i: nat) {
    && OnlyRequest(s, t, i)
    && (t.executes[i].phase.Returned? <==>
          && Passes(service, s, s.executes[i])
          && service.same(s.executes[i].projection, service.project(s.context).value))
    && (!t.executes[i].phase.Returned? ==> t.executes[i].phase.Failed?)
  }

  /** One step of request i, and then one more unless it failed. */
  function Then(service: Service, s: State, i: nat, a: RequestAction, b: RequestAction): State
    requires i < |s.executes|
  {
    var t := ExecuteStep(service, s, i, a);
    if t.executes[i].phase.Failed? then t else ExecuteStep(service, t, i, b)
  }

  function FirstSection(service: Service, s: State, i: nat): State
    requires i < |s.executes|
  {
    var t := Then(service, s, i, EnterFirst, CheckFirst);
    if t.executes[i].phase.Failed? then t else Then(service, t, i, ReadFirst, Bind)
  }

  function SecondSection(service: Service, s: State, i: nat): State
    requires i < |s.executes|
  {
    var t := Then(service, s, i, EnterSecond, CheckSecond);
    if t.executes[i].phase.Failed? then t else Then(service, t, i, ReadSecond, Return)
  }

  lemma ThenKeeps(service: Service, s: State, i: nat, a: RequestAction, b: RequestAction)
    requires Inv(service, s) && i < |s.executes|
    ensures Inv(service, Then(service, s, i, a, b))
  {
    ExecuteKeeps(service, s, i, a);
    ExecuteKeeps(service, ExecuteStep(service, s, i, a), i, b);
  }

  /** What entering the gate and checking the generation comes to. */
  function Checked(s: State, i: nat, phase: Phase): State
    requires i < |s.executes|
  {
    var current := s.executes[i].generation == s.generation;
    s.(executes := s.executes[i := s.executes[i].(phase := if current then phase else Failed)],
       gate := if current then Request(i) else Nobody)
  }

  lemma EntersAndChecks(service: Service, s: State, i: nat)
    requires i < |s.executes| && s.gate.Nobody?
    ensures s.executes[i].phase.Leased? ==>
      Then(service, s, i, EnterFirst, CheckFirst) == Checked(s, i, FirstChecked)
    ensures s.executes[i].phase.Handled? ==>
      Then(service, s, i, EnterSecond, CheckSecond) == Checked(s, i, SecondChecked)
  {
  }

  lemma ReadsAndBinds(service: Service, s: State, i: nat)
    requires i < |s.executes| && s.gate == Request(i) && s.executes[i].phase.FirstChecked?
    requires s.executes[i].generation == s.generation
    ensures BoundTo(service, s, Then(service, s, i, ReadFirst, Bind), i)
  {
  }

  lemma ReadsAndReturns(service: Service, s: State, i: nat)
    requires i < |s.executes| && s.gate == Request(i) && s.executes[i].phase.SecondChecked?
    requires s.executes[i].generation == s.generation
    ensures Delivered(service, s, Then(service, s, i, ReadSecond, Return), i)
  {
  }

  lemma FirstSectionBinds(service: Service, s: State, i: nat)
    requires Inv(service, s) && i < |s.executes| && s.executes[i].phase.Leased? && s.gate.Nobody?
    ensures Inv(service, FirstSection(service, s, i)) && BoundTo(service, s, FirstSection(service, s, i), i)
  {
    var t := Checked(s, i, FirstChecked);
    EntersAndChecks(service, s, i);
    ThenKeeps(service, s, i, EnterFirst, CheckFirst);
    if t.executes[i].phase.FirstChecked? {
      ThenKeeps(service, t, i, ReadFirst, Bind);
      ReadsAndBinds(service, t, i);
    }
  }

  lemma SecondSectionReturns(service: Service, s: State, i: nat)
    requires Inv(service, s) && i < |s.executes| && s.executes[i].phase.Handled? && s.gate.Nobody?
    ensures Inv(service, SecondSection(service, s, i)) && Delivered(service, s, SecondSection(service, s, i), i)
  {
    var t := Checked(s, i, SecondChecked);
    EntersAndChecks(service, s, i);
    ThenKeeps(service, s, i, EnterSecond, CheckSecond);
    if t.executes[i].phase.SecondChecked? {
      ThenKeeps(service, t, i, ReadSecond, Return);
      ReadsAndReturns(service, t, i);
    }
  }

  /** `NotifyContextChangedAsync`. */
  function WholeUpdate(service: Service, s: State, next: Json, throws: bool): State {
    var j, t := |s.updates|, Step(service, s, Notify);
    var changed := Step(service, Step(service, t, OfUpdate(j, EnterUpdate)), OfUpdate(j, RunUpdate(next, throws)));
    Step(service, if throws then changed else Step(service, changed, OfUpdate(j, Announce)), OfUpdate(j, LeaveUpdate))
  }

  lemma UpdateMeans(service: Service, s: State, next: Json, throws: bool)
    requires Inv(service, s) && s.gate.Nobody?
    ensures var t := WholeUpdate(service, s, next, throws);
      && Inv(service, t) && t.gate.Nobody? && t.context == next && t.executes == s.executes
      && t.generation == if throws then s.generation else Following(s.generation)
  {
    UpdateKeepsAll(service, s, next, throws);
  }

  lemma UpdateKeepsAll(service: Service, s: State, next: Json, throws: bool)
    requires Inv(service, s)
    ensures Inv(service, WholeUpdate(service, s, next, throws))
  {
    var j, t := |s.updates|, Step(service, s, Notify);
    StepKeeps(service, s, Notify);
    var entered := Step(service, t, OfUpdate(j, EnterUpdate));
    StepKeeps(service, t, OfUpdate(j, EnterUpdate));
    var changed := Step(service, entered, OfUpdate(j, RunUpdate(next, throws)));
    StepKeeps(service, entered, OfUpdate(j, RunUpdate(next, throws)));
    var announced := if throws then changed else Step(service, changed, OfUpdate(j, Announce));
    StepKeeps(service, changed, OfUpdate(j, Announce));
    StepKeeps(service, announced, OfUpdate(j, LeaveUpdate));
  }

  // ---- the host object -----------------------------------------------------------------------

  /**
   The host's fields, with one method for each stretch of code between two awaits. The last three
   fields are the history that the statements above speak of; the host does not keep it.
   */
  class EmbeddedBridgeHost {
    const service: Service
    var context: Json
    var contextGeneration: int
    var contextGate: Holder
    var executes: seq<Execute>
    var updates: seq<UpdatePhase>
    var log: seq<Json>
    var announced: nat
    var silent: nat

    function View(): State
      reads this
    {
      State(context, contextGeneration, contextGate, executes, updates, log, announced, silent)
    }

    constructor (service: Service, context: Json)
      ensures View() == Start(context) && this.service == service
    {
      this.service, this.context := service, context;
      contextGeneration, contextGate, executes, updates := 0, Nobody, [], [];
      log, announced, silent := [context], 0, 0;
    }

    /** Throwing: the request fails, and its `finally` block gives the gate back. */
    method Throw(i: nat)
      requires i < |executes|
      modifies this`executes, this`contextGate
      ensures executes == old(executes)[i := old(executes[i]).(phase := Failed)]
      ensures contextGate == if InGate(old(executes[i].phase)) then Nobody else old(contextGate)
    {
      if InGate(executes[i].phase) {
        contextGate := Nobody;
      }
      executes := executes[i := executes[i].(phase := Failed)];
    }

    method Submit(capability: Capability, parameters: Json, supplied: string) returns (i: nat)
      modifies this`executes
      ensures i == old(|executes|) && |executes| == i + 1
      ensures View() == Step(service, old(View()), Action.Submit(capability, parameters, supplied))
    {
      i := |executes|;
      executes := executes + [NewExecute(capability, parameters, supplied)];
    }

    method TakeLease(i: nat)
      requires i < |executes| && executes[i].phase.Submitted?
      modifies this`executes
      ensures View() == Step(service, old(View()), OfRequest(i, Lease))
    {
      executes := executes[i := executes[i].(phase := Leased, generation := contextGeneration, leased := Now(View()))];
    }

    method EnterFirstGate(i: nat)
      requires i < |executes| && executes[i].phase.Leased? && contextGate.Nobody?
      modifies this`executes, this`contextGate
      ensures View() == Step(service, old(View()), OfRequest(i, EnterFirst))
    {
      executes, contextGate := executes[i := executes[i].(phase := FirstGate)], Request(i);
    }

    method CheckFirstGeneration(i: nat)
      requires i < |executes| && executes[i].phase.FirstGate?
      modifies this`executes, this`contextGate
      ensures View() == Step(service, old(View()), OfRequest(i, CheckFirst))
    {
      if executes[i].generation != contextGeneration {
        Throw(i);
      } else {
        executes := executes[i := executes[i].(phase := FirstChecked)];
      }
    }

    method ReadFirstContext(i: nat)
      requires i < |executes| && executes[i].phase.FirstChecked?
      modifies this`executes, this`contextGate
      ensures View() == Step(service, old(View()), OfRequest(i, ReadFirst))
    {
      var projection := service.project(context);
      if projection.None? {
        Throw(i);
      } else {
        executes := executes[i := executes[i].(
          phase := FirstRead, context := context, projection := projection.value, first := Now(View()))];
      }
    }

    method CheckBinding(i: nat)
      requires i < |executes| && executes[i].phase.FirstRead?
      modifies this`executes, this`contextGate
      ensures View() == Step(service, old(View()), OfRequest(i, Bind))
    {
      if executes[i].supplied != service.binding(executes[i].projection) {
        Throw(i);
      } else {
        executes, contextGate := executes[i := executes[i].(phase := Bound)], Nobody;
      }
    }

    method CallHandler(i: nat)
      requires i < |executes| && executes[i].phase.Bound?
      modifies this`executes, this`contextGate
      ensures View() == Step(service, old(View()), OfRequest(i, StartHandler))
    {
      if !service.conforms(executes[i].parameters, executes[i].capability.input) {
        Throw(i);
      } else {
        executes := executes[i := executes[i].(phase := Handling, seen := executes[i].context)];
      }
    }

    method TakeResult(i: nat, result: Json)
      requires i < |executes| && executes[i].phase.Handling?
      modifies this`executes, this`contextGate
      ensures View() == Step(service, old(View()), OfRequest(i, FinishHandler(result)))
    {
      if !service.conforms(result, executes[i].capability.output) {
        Throw(i);
      } else {
        executes := executes[i := executes[i].(phase := Handled, result := result)];
      }
    }

    method EnterSecondGate(i: nat)
      requires i < |executes| && executes[i].phase.Handled? && contextGate.Nobody?
      modifies this`executes, this`contextGate
      ensures View() == Step(service, old(View()), OfRequest(i, EnterSecond))
    {
      executes, contextGate := executes[i := executes[i].(phase := SecondGate)], Request(i);
    }

    method CheckSecondGeneration(i: nat)
      requires i < |executes| && executes[i].phase.SecondGate?
      modifies this`executes, this`contextGate
      ensures View() == Step(service, old(View()), OfRequest(i, CheckSecond))
    {
      if executes[i].generation != contextGeneration {
        Throw(i);
      } else {
        executes := executes[i := executes[i].(phase := SecondChecked)];
      }
    }

    method ReadSecondContext(i: nat)
      requires i < |executes| && executes[i].phase.SecondChecked?
      modifies this`executes, this`contextGate
      ensures View() == Step(service, old(View()), OfRequest(i, ReadSecond))
    {
      var projection := service.project(context);
      if projection.None? {
        Throw(i);
      } else {
        executes := executes[i := executes[i].(
          phase := SecondRead, current := context, currentProjection := projection.value, second := Now(View()))];
      }
    }

    method ReturnResult(i: nat)
      requires i < |executes| && executes[i].phase.SecondRead?
      modifies this`executes, this`contextGate
      ensures View() == Step(service, old(View()), OfRequest(i, Return))
    {
      var e := executes[i];
      if !service.same(e.projection, e.currentProjection) {
        Throw(i);
      } else if e.supplied != service.binding(e.currentProjection) {
        Throw(i);
      } else {
        executes, contextGate := executes[i := e.(phase := Returned, end := Now(View()))], Nobody;
      }
    }

    /** Cancellation, a timeout, a failing provider or a failing handler. */
    method Cancel(i: nat)
      requires i < |executes| && !executes[i].phase.Returned? && !executes[i].phase.Failed?
      modifies this`executes, this`contextGate
      ensures View() == Step(service, old(View()), OfRequest(i, Abort))
    {
      Throw(i);
    }

    method NotifyContextChanged() returns (j: nat)
      modifies this`updates
      ensures j == old(|updates|) && |updates| == j + 1 && View() == Step(service, old(View()), Notify)
    {
      j := |updates|;
      updates := updates + [Waiting];
    }

    method EnterGateForUpdate(j: nat)
      requires j < |updates| && updates[j].Waiting? && contextGate.Nobody?
      modifies this`updates, this`contextGate
      ensures View() == Step(service, old(View()), OfUpdate(j, EnterUpdate))
    {
      updates, contextGate := updates[j := Entered], Update(j);
    }

    method UpdateContext(j: nat, next: Json, throws: bool)
      requires j < |updates| && updates[j].Entered?
      modifies this`updates, this`context, this`log, this`silent
      ensures View() == Step(service, old(View()), OfUpdate(j, RunUpdate(next, throws)))
    {
      context, log := next, log + [next];
      if throws {
        silent := silent + 1;
        updates := updates[j := Thrown];
      } else {
        updates := updates[j := Updated];
      }
    }

    method AdvanceGeneration(j: nat)
      requires j < |updates| && updates[j].Updated?
      modifies this`updates, this`contextGeneration, this`announced
      ensures View() == Step(service, old(View()), OfUpdate(j, Announce))
    {
      contextGeneration := if contextGeneration == LONG_MAX then 1 else contextGeneration + 1;
      announced := announced + 1;
      updates := updates[j := Announced];
    }

    method LeaveGateAfterUpdate(j: nat)
      requires j < |updates| && (updates[j].Announced? || updates[j].Thrown?)
      modifies this`updates, this`contextGate
      ensures View() == Step(service, old(View()), OfUpdate(j, LeaveUpdate))
    {
      updates, contextGate := updates[j := Left], Nobody;
    }

    // ---- whole sections under the gate, and what they amount to ------------------------------

    ghost predicate Valid()
      reads this
    {
      Inv(service, View())
    }

    /**
     The first section under the gate. The request passes exactly if no update was announced since its lease,
     the context projects and the binding is the projection's; the gate is free again in any case.
     */
    method BindUnderGate(i: nat)
      requires Valid() && i < |executes| && executes[i].phase.Leased? && contextGate.Nobody?
      modifies this`executes, this`contextGate
      ensures Valid() && BoundTo(service, old(View()), View(), i)
    {
      FirstSectionBinds(service, View(), i);
      RunFirstSection(i);
    }

    method RunFirstSection(i: nat)
      requires i < |executes| && executes[i].phase.Leased? && contextGate.Nobody?
      modifies this`executes, this`contextGate
      ensures View() == FirstSection(service, old(View()), i)
    {
      EnterFirstGate(i);
      CheckFirstGeneration(i);
      if !executes[i].phase.Failed? {
        ReadAndBind(i);
      }
    }

    method ReadAndBind(i: nat)
      requires i < |executes| && executes[i].phase.FirstChecked?
      modifies this`executes, this`contextGate
      ensures View() == Then(service, old(View()), i, ReadFirst, Bind)
    {
      ReadFirstContext(i);
      if !executes[i].phase.Failed? {
        CheckBinding(i);
      }
    }

    /**
     The second section under the gate. The result is returned exactly if no update was announced since the
     lease and the context still projects alike, with the same binding.
     */
    method ReturnUnderGate(i: nat)
      requires Valid() && i < |executes| && executes[i].phase.Handled? && contextGate.Nobody?
      modifies this`executes, this`contextGate
      ensures Valid() && Delivered(service, old(View()), View(), i)
    {
      SecondSectionReturns(service, View(), i);
      RunSecondSection(i);
    }

    method RunSecondSection(i: nat)
      requires i < |executes| && executes[i].phase.Handled? && contextGate.Nobody?
      modifies this`executes, this`contextGate
      ensures View() == SecondSection(service, old(View()), i)
    {
      EnterSecondGate(i);
      CheckSecondGeneration(i);
      if !executes[i].phase.Failed? {
        ReadAndReturn(i);
      }
    }

    method ReadAndReturn(i: nat)
      requires i < |executes| && executes[i].phase.SecondChecked?
      modifies this`executes, this`contextGate
      ensures View() == Then(service, old(View()), i, ReadSecond, Return)
    {
      ReadSecondContext(i);
      if !executes[i].phase.Failed? {
        ReturnResult(i);
      }
    }

    /** A whole update: unless its callback throws, no request that leased before it can pass. */
    method ChangeContext(next: Json, throws: bool)
      requires Valid() && contextGate.Nobody?
      modifies this`context, this`contextGeneration, this`contextGate, this`updates,
        this`log, this`announced, this`silent
      ensures Valid() && contextGate.Nobody? && context == next
      ensures contextGeneration == if throws then old(contextGeneration) else Following(old(contextGeneration))
      ensures !throws ==> contextGeneration != old(contextGeneration)
    {
      UpdateMeans(service, View(), next, throws);
      RunUpdateSection(next, throws);
    }

    method RunUpdateSection(next: Json, throws: bool)
      requires contextGate.Nobody?
      modifies this`context, this`contextGeneration, this`contextGate, this`updates,
        this`log, this`announced, this`silent
      ensures View() == WholeUpdate(service, old(View()), next, throws)
    {
      var j := NotifyContextChanged();
      EnterGateForUpdate(j);
      UpdateContext(j, next, throws);
      if !throws {
        AdvanceGeneration(j);
      }
      LeaveGateAfterUpdate(j);
    }
  }
}
