/**
 The stdio session of ReluMcpStdioEntryPoint.cs: one read loop, one task for each admitted request, a
 table of pending requests, a semaphore of request slots and a gate around the writer. The loop and the
 tasks interleave step by step.
 */
module StdioSession {
  import opened Optional
  import opened JsonTree
  import opened Counting

  const MAXIMUM_CONCURRENT_REQUESTS: nat := 16

  /** What one line of input amounts to. */
  datatype Message =
    | Unreadable(code: int)
    | Invalid(id: Option<Json>)
    | Initialized(valid: bool)
    | Cancelled(target: Option<Json>)
    | OtherNotification
    | MisusedNotification(id: Option<Json>)
    | Initialize(requestId: Json, valid: bool)
    | Call(requestId: Json, name: string, valid: bool)

  datatype Answer = Success | Failure(code: int)

  datatype Session = AwaitingInitialize | AwaitingInitializedNotification | Operational

  /** `PendingRequest._state`. */
  datatype Status = Active | ResponseCommitted | RequestCancelled

  datatype Phase =
    | Unstarted | Queued | Calling | Answering | AtGate | Writing | Leaving | KeyRemoved | Done | Refused

  datatype Task = Task(id: Json, key: string, name: string, status: Status, phase: Phase)

  datatype Loop =
    | Reading
    | Admitting(i: nat) | Refusing(i: nat)
    | Cancelling(i: nat)
    | Replying(id: Option<Json>, answer: Answer, opens: bool)
    | ReplyAtGate(id: Option<Json>, answer: Answer, opens: bool)
    | Closed

  datatype Gate = Free | HeldByLoop | HeldBy(i: nat)

  /** A response on the output; `task` is the request that wrote it, if it was not the loop. */
  datatype Response = Response(id: Option<Json>, task: Option<nat>)

  datatype Event = InitializeAnswered | InitializedReceived | Dispatched(name: string)

  datatype State = State(
    session: Session, loop: Loop, pending: map<string, nat>, slots: nat, tasks: seq<Task>, gate: Gate,
    shutdown: bool, output: seq<Response>, log: seq<Event>)

  datatype LoopAction =
    | Receive(message: Message) | EndOfInput
    | TryAdmit | RemoveRefused | CancelFound
    | EnterGateToReply | WriteReply | ReplyFails
    | Sweep(key: string)

  datatype TaskAction =
    | Dispatch | FinishCall | DropCall | EnterGate | QuitGate | Commit | Write | WriteFails | RemoveKey | ReleaseSlot

  datatype Action = OfLoop(loop: LoopAction) | OfTask(i: nat, task: TaskAction) | Shutdown

  function Start(): State {
    State(AwaitingInitialize, Reading, map[], MAXIMUM_CONCURRENT_REQUESTS, [], Free, false, [], [])
  }

  function Reply(s: State, id: Option<Json>, code: int): State {
    s.(loop := Replying(id, Failure(code), false))
  }

  /** `Cancel`: only an active request becomes cancelled. */
  function CancelTask(s: State, i: nat): State {
    if i < |s.tasks| && s.tasks[i].status.Active? then
      s.(tasks := s.tasks[i := s.tasks[i].(status := RequestCancelled)])
    else s
  }

  /** The branches of the read loop. */
  function Handle(keyOf: Json -> string, s: State, m: Message): State {
    match m
    case Unreadable(code) => Reply(s, None, code)
    case Invalid(id) => Reply(s, id, -32600)
    case Initialized(valid) =>
      if s.session.AwaitingInitializedNotification? && valid then
        s.(session := Operational, log := s.log + [InitializedReceived])
      else s
    case Cancelled(target) =>
      if target.Some? && keyOf(target.value) in s.pending then s.(loop := Cancelling(s.pending[keyOf(target.value)]))
      else s
    case OtherNotification => s
    case MisusedNotification(id) => Reply(s, id, -32600)
    case Initialize(id, valid) =>
      if keyOf(id) in s.pending then Reply(s, Some(id), -32600)
      else if !s.session.AwaitingInitialize? then Reply(s, Some(id), -32600)
      else if !valid then Reply(s, Some(id), -32602)
      else s.(loop := Replying(Some(id), Success, true))
    case Call(id, name, valid) =>
      if !s.session.Operational? && name != "ping" then Reply(s, Some(id), -32002)
      else if !valid then Reply(s, Some(id), -32602)
      else if keyOf(id) in s.pending then Reply(s, Some(id), -32600)
      else
        s.(pending := s.pending[keyOf(id) := |s.tasks|],
           tasks := s.tasks + [Task(id, keyOf(id), name, Active, Unstarted)],
           loop := Admitting(|s.tasks|))
  }

  function LoopStep(keyOf: Json -> string, s: State, a: LoopAction): State {
    match a
    case Receive(m) => if s.loop.Reading? && !s.shutdown then Handle(keyOf, s, m) else s
    case EndOfInput => if s.loop.Reading? then s.(loop := Closed, shutdown := true) else s
    case TryAdmit =>
      if !s.loop.Admitting? || s.loop.i >= |s.tasks| then s
      else if s.slots == 0 then s.(loop := Refusing(s.loop.i))
      else
        s.(slots := s.slots - 1, tasks := s.tasks[s.loop.i := s.tasks[s.loop.i].(phase := Queued)], loop := Reading)
    case RemoveRefused =>
      if !s.loop.Refusing? || s.loop.i >= |s.tasks| then s
      else
        var t := s.tasks[s.loop.i];
        Reply(s.(pending := s.pending - {t.key}, tasks := s.tasks[s.loop.i := t.(phase := Refused)]),
              Some(t.id), -32000)
    case CancelFound => if s.loop.Cancelling? then CancelTask(s, s.loop.i).(loop := Reading) else s
    case EnterGateToReply =>
      if s.loop.Replying? && s.gate.Free? then
        s.(loop := ReplyAtGate(s.loop.id, s.loop.answer, s.loop.opens), gate := HeldByLoop)
      else s
    case WriteReply =>
      if !s.loop.ReplyAtGate? then s
      else
        var written := s.(output := s.output + [Response(s.loop.id, None)], gate := Free, loop := Reading);
        if s.loop.opens then
          written.(session := AwaitingInitializedNotification, log := s.log + [InitializeAnswered])
        else written
    case ReplyFails =>
      if s.loop.Replying? then s.(loop := Closed, shutdown := true)
      else if s.loop.ReplyAtGate? then s.(loop := Closed, shutdown := true, gate := Free)
      else s
    case Sweep(key) => if s.loop.Closed? && key in s.pending then CancelTask(s, s.pending[key]) else s
  }

  function Moved(s: State, i: nat, p: Phase): State
    requires i < |s.tasks|
  {
    s.(tasks := s.tasks[i := s.tasks[i].(phase := p)])
  }

  /** `ProcessRequestAsync`. */
  function TaskStep(s: State, i: nat, a: TaskAction): State
    requires i < |s.tasks|
  {
    var t := s.tasks[i];
    match a
    case Dispatch =>
      if t.phase.Queued? then
        Moved(s, i, if t.name == "tools/call" then Calling else Answering).(log := s.log + [Dispatched(t.name)])
      else s
    case FinishCall => if t.phase.Calling? then Moved(s, i, Answering) else s
    case DropCall =>
      if t.phase.Calling? && (t.status.RequestCancelled? || s.shutdown) then Moved(s, i, Leaving) else s
    case EnterGate => if t.phase.Answering? && s.gate.Free? then Moved(s, i, AtGate).(gate := HeldBy(i)) else s
    case QuitGate => if t.phase.Answering? && s.shutdown then Moved(s, i, Leaving) else s
    case Commit =>
      if !t.phase.AtGate? then s
      else if t.status.Active? then s.(tasks := s.tasks[i := t.(status := ResponseCommitted, phase := Writing)])
      else Moved(s, i, Leaving).(gate := Free)
    case Write =>
      if t.phase.Writing? then
        Moved(s, i, Leaving).(output := s.output + [Response(Some(t.id), Some(i))], gate := Free)
      else s
    case WriteFails => if t.phase.Writing? then Moved(s, i, Leaving).(gate := Free, shutdown := true) else s
    case RemoveKey =>
      if t.phase.Leaving? then Moved(s, i, KeyRemoved).(pending := s.pending - {t.key}) else s
    case ReleaseSlot => if t.phase.KeyRemoved? then Moved(s, i, Done).(slots := s.slots + 1) else s
  }

  function Step(keyOf: Json -> string, s: State, a: Action): State {
    match a
    case OfLoop(l) => LoopStep(keyOf, s, l)
    case OfTask(i, t) => if i < |s.tasks| then TaskStep(s, i, t) else s
    case Shutdown => s.(shutdown := true)
  }

  function Run(keyOf: Json -> string, s: State, actions: seq<Action>): State
    decreases |actions|
  {
    if actions == [] then s else Run(keyOf, Step(keyOf, s, actions[0]), actions[1..])
  }

  // ---- keys ----------------------------------------------------------------------------------

  /** The request is in the table of pending requests. */
  predicate Live(t: Task) { !t.phase.KeyRemoved? && !t.phase.Done? && !t.phase.Refused? }

  /** The table holds exactly the live requests, each under its own key. */
  ghost predicate KeysOk(s: State) {
    && (forall k | k in s.pending ::
          s.pending[k] < |s.tasks| && s.tasks[s.pending[k]].key == k && Live(s.tasks[s.pending[k]]))
    && (forall i | 0 <= i < |s.tasks| && Live(s.tasks[i]) ::
          s.tasks[i].key in s.pending && s.pending[s.tasks[i].key] == i)
  }

  /** No task joins or leaves the table. */
  ghost predicate SameTable(s: State, t: State) {
    && t.pending == s.pending && |t.tasks| == |s.tasks|
    && (forall i | 0 <= i < |s.tasks| :: t.tasks[i].key == s.tasks[i].key && Live(t.tasks[i]) == Live(s.tasks[i]))
  }

  lemma SameTableKeepsKeys(s: State, t: State)
    requires KeysOk(s) && SameTable(s, t)
    ensures KeysOk(t)
  {
  }

  lemma RemovalKeepsKeys(s: State, t: State, i: nat)
    requires KeysOk(s) && i < |s.tasks| == |t.tasks| && Live(s.tasks[i]) && !Live(t.tasks[i])
    requires t.pending == s.pending - {s.tasks[i].key} && t.tasks == s.tasks[i := t.tasks[i]]
    ensures KeysOk(t)
  {
  }

  lemma AdditionKeepsKeys(s: State, t: State, added: Task)
    requires KeysOk(s) && added.key !in s.pending && Live(added)
    requires t.pending == s.pending[added.key := |s.tasks|] && t.tasks == s.tasks + [added]
    ensures KeysOk(t)
  {
  }

  lemma HandleKeepsKeys(keyOf: Json -> string, s: State, m: Message)
    requires KeysOk(s)
    ensures KeysOk(Handle(keyOf, s, m))
  {
    var t := Handle(keyOf, s, m);
    if |t.tasks| > |s.tasks| {
      AdditionKeepsKeys(s, t, t.tasks[|s.tasks|]);
    } else {
      assert t.tasks == s.tasks && t.pending == s.pending;
      SameTableKeepsKeys(s, t);
    }
  }

  lemma LoopKeepsKeys(keyOf: Json -> string, s: State, a: LoopAction)
    requires KeysOk(s) && LoopOk(s)
    ensures KeysOk(LoopStep(keyOf, s, a))
  {
    var t := LoopStep(keyOf, s, a);
    if a.Receive? {
      HandleKeepsKeys(keyOf, s, a.message);
    } else if a.RemoveRefused? && s.loop.Refusing? {
      RemovalKeepsKeys(s, t, s.loop.i);
    } else {
      LoopKeepsTable(keyOf, s, a);
      SameTableKeepsKeys(s, t);
    }
  }

  lemma LoopKeepsTable(keyOf: Json -> string, s: State, a: LoopAction)
    requires LoopOk(s) && !a.Receive? && !(a.RemoveRefused? && s.loop.Refusing?)
    ensures SameTable(s, LoopStep(keyOf, s, a))
  {
    match a
    case Sweep(key) => if key in s.pending { CancelKeepsTable(s, s.pending[key]); }
    case CancelFound => if s.loop.Cancelling? { CancelKeepsTable(s, s.loop.i); }
    case _ =>
  }

  lemma CancelKeepsTable(s: State, i: nat)
    ensures SameTable(s, CancelTask(s, i))
  {
  }

  lemma TaskKeepsKeys(s: State, i: nat, a: TaskAction)
    requires KeysOk(s) && i < |s.tasks|
    ensures KeysOk(TaskStep(s, i, a))
  {
    TaskMovesOne(s, i, a);
    MoveKeepsKeys(s, TaskStep(s, i, a), i);
  }

  /** Task i moves on, and leaves the table exactly if it stops being live. */
  ghost predicate MovesOne(s: State, t: State, i: nat) {
    && i < |s.tasks| == |t.tasks| && t.tasks == s.tasks[i := t.tasks[i]]
    && t.tasks[i].key == s.tasks[i].key && (Live(t.tasks[i]) ==> Live(s.tasks[i]))
    && t.pending == if Live(s.tasks[i]) && !Live(t.tasks[i]) then s.pending - {s.tasks[i].key} else s.pending
  }

  lemma TaskMovesOne(s: State, i: nat, a: TaskAction)
    requires i < |s.tasks|
    ensures MovesOne(s, TaskStep(s, i, a), i)
  {
  }

  lemma MoveKeepsKeys(s: State, t: State, i: nat)
    requires KeysOk(s) && MovesOne(s, t, i)
    ensures KeysOk(t)
  {
    if Live(s.tasks[i]) && !Live(t.tasks[i]) {
      RemovalKeepsKeys(s, t, i);
    } else {
      SameTableKeepsKeys(s, t);
    }
  }

  /** The loop is busy with a request that has not started, and with no other. */
  ghost predicate LoopOk(s: State) {
    && (s.loop.Admitting? || s.loop.Refusing? ==> s.loop.i < |s.tasks|)
    && (forall i | 0 <= i < |s.tasks| ::
          s.tasks[i].phase.Unstarted? <==> (s.loop.Admitting? || s.loop.Refusing?) && s.loop.i == i)
  }

  lemma LoopKeepsLoop(keyOf: Json -> string, s: State, a: LoopAction)
    requires LoopOk(s)
    ensures LoopOk(LoopStep(keyOf, s, a))
  {
  }

  // ---- slots ---------------------------------------------------------------------------------

  predicate HoldsSlot(t: Task) { !t.phase.Unstarted? && !t.phase.Done? && !t.phase.Refused? }

  ghost predicate SlotsOk(s: State) {
    s.slots + Count(s.tasks, HoldsSlot) == MAXIMUM_CONCURRENT_REQUESTS
  }

  lemma CancelKeepsSlots(s: State, i: nat)
    requires SlotsOk(s)
    ensures SlotsOk(CancelTask(s, i))
  {
    if i < |s.tasks| { CountUpdate(s.tasks, HoldsSlot, i, s.tasks[i].(status := RequestCancelled)); }
  }

  lemma LoopKeepsSlots(keyOf: Json -> string, s: State, a: LoopAction)
    requires SlotsOk(s) && LoopOk(s)
    ensures SlotsOk(LoopStep(keyOf, s, a))
  {
    match a
    case Receive(m) =>
      if m.Call? { CountAppend(s.tasks, HoldsSlot, Task(m.requestId, keyOf(m.requestId), m.name, Active, Unstarted)); }
    case TryAdmit =>
      if s.loop.Admitting? { CountUpdate(s.tasks, HoldsSlot, s.loop.i, s.tasks[s.loop.i].(phase := Queued)); }
    case RemoveRefused =>
      if s.loop.Refusing? { CountUpdate(s.tasks, HoldsSlot, s.loop.i, s.tasks[s.loop.i].(phase := Refused)); }
    case CancelFound => if s.loop.Cancelling? { CancelKeepsSlots(s, s.loop.i); }
    case Sweep(key) => if key in s.pending { CancelKeepsSlots(s, s.pending[key]); }
    case _ =>
  }

  lemma TaskKeepsSlots(s: State, i: nat, a: TaskAction)
    requires SlotsOk(s) && i < |s.tasks|
    ensures SlotsOk(TaskStep(s, i, a))
  {
    TaskMovesOne(s, i, a);
    TaskMovesSlot(s, i, a);
    MoveKeepsSlots(s, TaskStep(s, i, a), i);
  }

  function SlotOf(t: Task): nat { if HoldsSlot(t) then 1 else 0 }

  lemma TaskMovesSlot(s: State, i: nat, a: TaskAction)
    requires i < |s.tasks|
    ensures var t := TaskStep(s, i, a); t.slots + SlotOf(t.tasks[i]) == s.slots + SlotOf(s.tasks[i])
  {
  }

  lemma MoveKeepsSlots(s: State, t: State, i: nat)
    requires SlotsOk(s) && MovesOne(s, t, i) && t.slots + SlotOf(t.tasks[i]) == s.slots + SlotOf(s.tasks[i])
    ensures SlotsOk(t)
  {
    CountUpdate(s.tasks, HoldsSlot, i, t.tasks[i]);
  }

  // ---- responses -----------------------------------------------------------------------------

  predicate PastWriting(t: Task) { t.phase.Leaving? || t.phase.KeyRemoved? || t.phase.Done? }

  /** Only a committed request is ever written, and each at most once. */
  ghost predicate ResponsesOk(s: State) {
    && (forall i | 0 <= i < |s.tasks| :: s.tasks[i].phase.Writing? ==> s.tasks[i].status.ResponseCommitted?)
    && (forall a | 0 <= a < |s.output| && s.output[a].task.Some? ::
          && s.output[a].task.value < |s.tasks|
          && s.tasks[s.output[a].task.value].status.ResponseCommitted?
          && PastWriting(s.tasks[s.output[a].task.value])
          && s.output[a].id == Some(s.tasks[s.output[a].task.value].id))
    && (forall a, b | 0 <= a < b < |s.output| && s.output[a].task.Some? :: s.output[a].task != s.output[b].task)
  }

  /** Nothing was written for a task, and what was committed stays committed. */
  ghost predicate NothingWritten(s: State, t: State) {
    && s.output <= t.output
    && (forall a | |s.output| <= a < |t.output| :: t.output[a].task.None?)
    && |s.tasks| <= |t.tasks|
    && (forall i | 0 <= i < |s.tasks| ::
          && t.tasks[i].id == s.tasks[i].id
          && (s.tasks[i].status.ResponseCommitted? ==> t.tasks[i].status.ResponseCommitted?)
          && (PastWriting(s.tasks[i]) ==> PastWriting(t.tasks[i])))
    && (forall i | 0 <= i < |t.tasks| :: t.tasks[i].phase.Writing? ==> t.tasks[i].status.ResponseCommitted?)
  }

  lemma NothingWrittenKeepsResponses(s: State, t: State)
    requires ResponsesOk(s) && NothingWritten(s, t)
    ensures ResponsesOk(t)
  {
    forall a | 0 <= a < |t.output| && t.output[a].task.Some? ensures a < |s.output| && t.output[a] == s.output[a] {}
  }

  lemma LoopKeepsResponses(keyOf: Json -> string, s: State, a: LoopAction)
    requires ResponsesOk(s) && LoopOk(s)
    ensures ResponsesOk(LoopStep(keyOf, s, a))
  {
    LoopWritesNothing(keyOf, s, a);
    NothingWrittenKeepsResponses(s, LoopStep(keyOf, s, a));
  }

  lemma HandleWritesNothing(keyOf: Json -> string, s: State, m: Message)
    requires ResponsesOk(s)
    ensures NothingWritten(s, Handle(keyOf, s, m))
  {
  }

  lemma LoopWritesNothing(keyOf: Json -> string, s: State, a: LoopAction)
    requires ResponsesOk(s) && LoopOk(s)
    ensures NothingWritten(s, LoopStep(keyOf, s, a))
  {
    if a.Receive? && s.loop.Reading? {
      HandleWritesNothing(keyOf, s, a.message);
    }
  }

  lemma TaskKeepsResponses(s: State, i: nat, a: TaskAction)
    requires ResponsesOk(s) && i < |s.tasks|
    ensures ResponsesOk(TaskStep(s, i, a))
  {
    if !(a.Write? && s.tasks[i].phase.Writing?) {
      NothingWrittenKeepsResponses(s, TaskStep(s, i, a));
    }
  }

  // ---- order ---------------------------------------------------------------------------------

  ghost predicate AnsweredBefore(log: seq<Event>, p: nat)
    requires p <= |log|
  {
    exists q | 0 <= q < p :: log[q].InitializeAnswered?
  }

  /** Before position p, initialize was answered and, after that, the client confirmed it. */
  ghost predicate OpenedBefore(log: seq<Event>, p: nat)
    requires p <= |log|
  {
    exists r | 0 <= r < p :: log[r].InitializedReceived? && AnsweredBefore(log, r)
  }

  ghost predicate OrderOk(s: State) {
    && (!s.session.AwaitingInitialize? <==> AnsweredBefore(s.log, |s.log|))
    && (s.session.Operational? ==> OpenedBefore(s.log, |s.log|))
    && AdmissionOk(s)
    && (forall p | 0 <= p < |s.log| && s.log[p].Dispatched? :: s.log[p].name == "ping" || OpenedBefore(s.log, p))
    && (forall p, q | 0 <= p < q < |s.log| && s.log[p].InitializeAnswered? :: !s.log[q].InitializeAnswered?)
  }

  lemma PrefixOrder(log: seq<Event>, longer: seq<Event>, p: nat)
    requires log <= longer && p <= |log|
    ensures AnsweredBefore(log, p) <==> AnsweredBefore(longer, p)
    ensures OpenedBefore(log, p) ==> OpenedBefore(longer, p)
  {
    if AnsweredBefore(log, p) {
      var q :| 0 <= q < p && log[q].InitializeAnswered?;
      assert longer[q].InitializeAnswered?;
    }
    if OpenedBefore(log, p) {
      var r :| 0 <= r < p && log[r].InitializedReceived? && AnsweredBefore(log, r);
      PrefixOrder(log, longer, r);
      assert longer[r].InitializedReceived?;
    }
  }

  /** Appending an event keeps what the log says so far. */
  lemma LogGrows(s: State, t: State, e: Event)
    requires OrderOk(s) && t.log == s.log + [e]
    ensures forall p | 0 <= p < |s.log| && t.log[p].Dispatched? ::
      t.log[p].name == "ping" || OpenedBefore(t.log, p)
    ensures AnsweredBefore(s.log, |s.log|) ==> AnsweredBefore(t.log, |s.log|) && AnsweredBefore(t.log, |t.log|)
    ensures OpenedBefore(s.log, |s.log|) ==> OpenedBefore(t.log, |s.log|) && OpenedBefore(t.log, |t.log|)
    ensures AnsweredBefore(t.log, |t.log|) ==> AnsweredBefore(s.log, |s.log|) || e.InitializeAnswered?
  {
    PrefixOrder(s.log, t.log, |s.log|);
    forall p | 0 <= p < |s.log| && t.log[p].Dispatched?
      ensures t.log[p].name == "ping" || OpenedBefore(t.log, p)
    {
      assert t.log[p] == s.log[p];
      PrefixOrder(s.log, t.log, p);
    }
  }

  /** What the order of events needs that the log does not show. */
  ghost predicate AdmissionOk(s: State) {
    && ((s.loop.Replying? || s.loop.ReplyAtGate?) && s.loop.opens ==> s.session.AwaitingInitialize?)
    && (forall i | 0 <= i < |s.tasks| :: s.tasks[i].name == "ping" || s.session.Operational?)
  }

  lemma SameLogKeepsOrder(s: State, t: State)
    requires OrderOk(s) && t.log == s.log && t.session == s.session && AdmissionOk(t)
    ensures OrderOk(t)
  {
  }

  lemma OpeningKeepsOrder(s: State, t: State)
    requires OrderOk(s) && s.session.AwaitingInitializedNotification? && AdmissionOk(t)
    requires t.log == s.log + [InitializedReceived] && t.session.Operational?
    ensures OrderOk(t)
  {
    LogGrows(s, t, InitializedReceived);
    assert t.log[|s.log|].InitializedReceived?;
  }

  lemma AnsweringKeepsOrder(s: State, t: State)
    requires OrderOk(s) && s.session.AwaitingInitialize? && AdmissionOk(t)
    requires t.log == s.log + [InitializeAnswered] && t.session.AwaitingInitializedNotification?
    ensures OrderOk(t)
  {
    LogGrows(s, t, InitializeAnswered);
    assert t.log[|s.log|].InitializeAnswered?;
  }

  lemma DispatchKeepsOrder(s: State, t: State, called: string)
    requires OrderOk(s) && (called == "ping" || s.session.Operational?) && AdmissionOk(t)
    requires t.log == s.log + [Dispatched(called)] && t.session == s.session
    ensures OrderOk(t)
  {
    LogGrows(s, t, Dispatched(called));
  }

  lemma HandleKeepsOrder(keyOf: Json -> string, s: State, m: Message)
    requires OrderOk(s) && s.loop.Reading?
    ensures OrderOk(Handle(keyOf, s, m))
  {
    var t := Handle(keyOf, s, m);
    if m.Initialized? && t != s {
      OpeningKeepsOrder(s, t);
    } else {
      SameLogKeepsOrder(s, t);
    }
  }

  lemma LoopKeepsOrder(keyOf: Json -> string, s: State, a: LoopAction)
    requires OrderOk(s) && LoopOk(s)
    ensures OrderOk(LoopStep(keyOf, s, a))
  {
    var t := LoopStep(keyOf, s, a);
    if a.Receive? {
      if s.loop.Reading? { HandleKeepsOrder(keyOf, s, a.message); }
    } else if a.WriteReply? && s.loop.ReplyAtGate? && s.loop.opens {
      AnsweringKeepsOrder(s, t);
    } else {
      SameLogKeepsOrder(s, t);
    }
  }

  lemma TaskKeepsOrder(s: State, i: nat, a: TaskAction)
    requires OrderOk(s) && i < |s.tasks|
    ensures OrderOk(TaskStep(s, i, a))
  {
    var t := TaskStep(s, i, a);
    assert AdmissionOk(t);
    if a.Dispatch? && s.tasks[i].phase.Queued? {
      DispatchKeepsOrder(s, t, s.tasks[i].name);
    } else {
      SameLogKeepsOrder(s, t);
    }
  }

  // ---- the writer's gate ---------------------------------------------------------------------

  /** Whoever is between taking the gate and giving it back holds it, so responses do not mix. */
  ghost predicate GateOk(s: State) {
    && (s.gate.HeldByLoop? <==> s.loop.ReplyAtGate?)
    && (s.gate.HeldBy? ==> s.gate.i < |s.tasks|)
    && (forall i | 0 <= i < |s.tasks| :: s.gate == HeldBy(i) <==> s.tasks[i].phase.AtGate? || s.tasks[i].phase.Writing?)
  }

  lemma HandleKeepsGate(keyOf: Json -> string, s: State, m: Message)
    requires GateOk(s) && s.loop.Reading?
    ensures GateOk(Handle(keyOf, s, m))
  {
  }

  lemma CancelKeepsGate(s: State, i: nat)
    requires GateOk(s)
    ensures GateOk(CancelTask(s, i))
  {
  }

  lemma LoopKeepsGate(keyOf: Json -> string, s: State, a: LoopAction)
    requires GateOk(s) && LoopOk(s)
    ensures GateOk(LoopStep(keyOf, s, a))
  {
    match a
    case Receive(m) => if s.loop.Reading? { HandleKeepsGate(keyOf, s, m); }
    case CancelFound => if s.loop.Cancelling? { CancelKeepsGate(s, s.loop.i); }
    case Sweep(key) => if key in s.pending { CancelKeepsGate(s, s.pending[key]); }
    case _ =>
  }

  lemma TaskKeepsGate(s: State, i: nat, a: TaskAction)
    requires GateOk(s) && i < |s.tasks|
    ensures GateOk(TaskStep(s, i, a))
  {
  }

  // ---- all runs ------------------------------------------------------------------------------

  ghost predicate Inv(keyOf: Json -> string, s: State) {
    && KeysOk(s) && LoopOk(s) && SlotsOk(s) && ResponsesOk(s) && OrderOk(s) && GateOk(s)
    && (forall i | 0 <= i < |s.tasks| :: s.tasks[i].key == keyOf(s.tasks[i].id))
  }

  lemma TaskKeepsLoop(s: State, i: nat, a: TaskAction)
    requires LoopOk(s) && i < |s.tasks|
    ensures LoopOk(TaskStep(s, i, a))
  {
  }

  /** A task keeps its id and its key, and once it is committed or cancelled it stays so. */
  ghost predicate Continues(s: State, t: State) {
    |s.tasks| <= |t.tasks| && forall i | 0 <= i < |s.tasks| ::
      && t.tasks[i].id == s.tasks[i].id && t.tasks[i].key == s.tasks[i].key && t.tasks[i].name == s.tasks[i].name
      && (s.tasks[i].status.Active? || t.tasks[i].status == s.tasks[i].status)
  }

  lemma LoopKeepsIds(keyOf: Json -> string, s: State, a: LoopAction)
    ensures Continues(s, LoopStep(keyOf, s, a))
    ensures forall i | |s.tasks| <= i < |LoopStep(keyOf, s, a).tasks| ::
      && LoopStep(keyOf, s, a).tasks[i].key == keyOf(LoopStep(keyOf, s, a).tasks[i].id)
      && a.Receive? && a.message.Call? && LoopStep(keyOf, s, a).tasks[i].id == a.message.requestId
      && LoopStep(keyOf, s, a).tasks[i].name == a.message.name
  {
  }

  lemma TaskKeepsIds(s: State, i: nat, a: TaskAction)
    requires i < |s.tasks|
    ensures Continues(s, TaskStep(s, i, a)) && |TaskStep(s, i, a).tasks| == |s.tasks|
  {
  }

  lemma StepKeeps(keyOf: Json -> string, s: State, a: Action)
    requires Inv(keyOf, s)
    ensures Inv(keyOf, Step(keyOf, s, a)) && Continues(s, Step(keyOf, s, a))
  {
    match a
    case OfLoop(l) =>
      LoopKeepsKeys(keyOf, s, l);
      LoopKeepsLoop(keyOf, s, l);
      LoopKeepsSlots(keyOf, s, l);
      LoopKeepsResponses(keyOf, s, l);
      LoopKeepsOrder(keyOf, s, l);
      LoopKeepsGate(keyOf, s, l);
      LoopKeepsIds(keyOf, s, l);
    case OfTask(i, t) =>
      if i < |s.tasks| {
        TaskKeeps(keyOf, s, i, t);
        TaskKeepsIds(s, i, t);
      }
    case Shutdown =>
  }

  lemma {:induction false} RunKeeps(keyOf: Json -> string, s: State, actions: seq<Action>)
    requires Inv(keyOf, s)
    ensures Inv(keyOf, Run(keyOf, s, actions)) && Continues(s, Run(keyOf, s, actions))
    decreases |actions|
  {
    if actions != [] {
      StepKeeps(keyOf, s, actions[0]);
      RunKeeps(keyOf, Step(keyOf, s, actions[0]), actions[1..]);
    }
  }

  /** No two live requests have ids with the same key. */
  lemma LiveKeysDiffer(keyOf: Json -> string, actions: seq<Action>, i: nat, j: nat)
    requires var s := Run(keyOf, Start(), actions);
      i < j < |s.tasks| && Live(s.tasks[i]) && Live(s.tasks[j])
    ensures var s := Run(keyOf, Start(), actions); keyOf(s.tasks[i].id) != keyOf(s.tasks[j].id)
  {
    RunKeeps(keyOf, Start(), actions);
  }

  /** No slot is lost or invented, and at most 16 requests hold one. */
  lemma SlotsAreConserved(keyOf: Json -> string, actions: seq<Action>)
    ensures var s := Run(keyOf, Start(), actions);
      s.slots + Count(s.tasks, HoldsSlot) == MAXIMUM_CONCURRENT_REQUESTS
  {
    RunKeeps(keyOf, Start(), actions);
  }

  /** A response of a request on the output has the request's id, and no other is there for it. */
  lemma OneResponseEach(keyOf: Json -> string, actions: seq<Action>, a: nat)
    requires var s := Run(keyOf, Start(), actions); a < |s.output| && s.output[a].task.Some?
    ensures var s := Run(keyOf, Start(), actions);
      && s.output[a].task.value < |s.tasks|
      && s.output[a].id == Some(s.tasks[s.output[a].task.value].id)
      && s.tasks[s.output[a].task.value].status.ResponseCommitted?
      && (forall b | 0 <= b < |s.output| && b != a :: s.output[b].task != s.output[a].task)
  {
    RunKeeps(keyOf, Start(), actions);
  }

  lemma {:induction false} RunConcat(keyOf: Json -> string, s: State, a: seq<Action>, b: seq<Action>)
    ensures Run(keyOf, s, a + b) == Run(keyOf, Run(keyOf, s, a), b)
    decreases |a|
  {
    if a == [] {
      assert a + b == b;
    } else {
      assert (a + b)[1..] == a[1..] + b;
      RunConcat(keyOf, Step(keyOf, s, a[0]), a[1..], b);
    }
  }

  /** Once a cancellation has won, no response of that request is ever written, before or after. */
  lemma CancelledIsSilent(keyOf: Json -> string, actions: seq<Action>, more: seq<Action>, i: nat, a: nat)
    requires var s := Run(keyOf, Start(), actions); i < |s.tasks| && s.tasks[i].status.RequestCancelled?
    requires a < |Run(keyOf, Start(), actions + more).output|
    ensures Run(keyOf, Start(), actions + more).output[a].task != Some(i)
  {
    RunKeeps(keyOf, Start(), actions);
    RunConcat(keyOf, Start(), actions, more);
    RunKeeps(keyOf, Run(keyOf, Start(), actions), more);
  }

  /** Nothing but a ping is dispatched before initialize was answered and then confirmed. */
  lemma DispatchedAfterHandshake(keyOf: Json -> string, actions: seq<Action>, p: nat)
    requires var log := Run(keyOf, Start(), actions).log;
      p < |log| && log[p].Dispatched? && log[p].name != "ping"
    ensures var log := Run(keyOf, Start(), actions).log;
      exists q, r | 0 <= q < r < p :: log[q].InitializeAnswered? && log[r].InitializedReceived?
  {
    RunKeeps(keyOf, Start(), actions);
    var log := Run(keyOf, Start(), actions).log;
    assert OpenedBefore(log, p);
    var r :| 0 <= r < p && log[r].InitializedReceived? && AnsweredBefore(log, r);
    var q :| 0 <= q < r && log[q].InitializeAnswered?;
  }

  /** Initialize is answered with success at most once. */
  lemma InitializedOnce(keyOf: Json -> string, actions: seq<Action>, p: nat, q: nat)
    requires var log := Run(keyOf, Start(), actions).log; p < q < |log| && log[p].InitializeAnswered?
    ensures !Run(keyOf, Start(), actions).log[q].InitializeAnswered?
  {
    RunKeeps(keyOf, Start(), actions);
  }

  /** The finishing steps of a request never find its key gone or taken over, nor the semaphore full. */
  lemma CleanupFindsItsOwn(keyOf: Json -> string, actions: seq<Action>, i: nat)
    requires i < |Run(keyOf, Start(), actions).tasks|
    ensures var s := Run(keyOf, Start(), actions); var t := s.tasks[i];
      && (t.phase.Leaving? || t.phase.Unstarted? ==> t.key in s.pending && s.pending[t.key] == i)
      && (t.phase.KeyRemoved? ==> s.slots < MAXIMUM_CONCURRENT_REQUESTS)
  {
    RunKeeps(keyOf, Start(), actions);
    var s := Run(keyOf, Start(), actions);
    if s.tasks[i].phase.KeyRemoved? {
      CountPositive(s.tasks, HoldsSlot, i);
    }
  }

  // ---- the end of a request, uninterrupted ---------------------------------------------------

  /** From the ready response to the last line of `ProcessRequestAsync`. */
  function Respond(s: State, i: nat): State
    requires i < |s.tasks|
  {
    TaskStep(TaskStep(TaskStep(s, i, EnterGate), i, Commit), i, Write)
  }

  function CleanUp(s: State, i: nat): State
    requires i < |s.tasks|
  {
    TaskStep(TaskStep(s, i, RemoveKey), i, ReleaseSlot)
  }

  /** The request wrote its response exactly if it was not cancelled, and gave the gate back. */
  ghost predicate AnsweredTo(s: State, t: State, i: nat) {
    && i < |s.tasks|
    && var e := s.tasks[i];
    && t.tasks == s.tasks[i := e.(
         phase := Leaving, status := if e.status.Active? then ResponseCommitted else e.status)]
    && t == s.(tasks := t.tasks, gate := Free,
               output := if e.status.Active? then s.output + [Response(Some(e.id), Some(i))] else s.output)
  }

  lemma RespondMeans(s: State, i: nat)
    requires i < |s.tasks| && s.tasks[i].phase.Answering? && s.gate.Free?
    ensures AnsweredTo(s, Respond(s, i), i)
  {
  }

  lemma AnswerWrites(keyOf: Json -> string, s: State, i: nat)
    requires Inv(keyOf, s) && i < |s.tasks| && s.tasks[i].phase.Answering? && s.gate.Free?
    ensures Inv(keyOf, Respond(s, i)) && AnsweredTo(s, Respond(s, i), i)
  {
    RespondMeans(s, i);
    TaskKeeps(keyOf, s, i, EnterGate);
    TaskKeeps(keyOf, TaskStep(s, i, EnterGate), i, Commit);
    TaskKeeps(keyOf, TaskStep(TaskStep(s, i, EnterGate), i, Commit), i, Write);
  }

  lemma TaskKeeps(keyOf: Json -> string, s: State, i: nat, a: TaskAction)
    requires Inv(keyOf, s) && i < |s.tasks|
    ensures Inv(keyOf, TaskStep(s, i, a)) && |TaskStep(s, i, a).tasks| == |s.tasks|
  {
    TaskKeepsKeys(s, i, a);
    TaskKeepsLoop(s, i, a);
    TaskKeepsSlots(s, i, a);
    TaskKeepsResponses(s, i, a);
    TaskKeepsOrder(s, i, a);
    TaskKeepsGate(s, i, a);
    TaskKeepsIds(s, i, a);
  }

  /** The request's own key and slot are given back, and the slot fits. */
  ghost predicate CleanedUp(s: State, t: State, i: nat) {
    && i < |s.tasks|
    && s.tasks[i].key in s.pending && s.pending[s.tasks[i].key] == i
    && t == s.(tasks := s.tasks[i := s.tasks[i].(phase := Done)], pending := s.pending - {s.tasks[i].key},
               slots := s.slots + 1)
    && t.slots <= MAXIMUM_CONCURRENT_REQUESTS
  }

  lemma CleanUpGivesBack(keyOf: Json -> string, s: State, i: nat)
    requires Inv(keyOf, s) && i < |s.tasks| && s.tasks[i].phase.Leaving?
    ensures Inv(keyOf, CleanUp(s, i)) && CleanedUp(s, CleanUp(s, i), i)
  {
    CleanUpMeans(s, i);
    TaskKeeps(keyOf, s, i, RemoveKey);
    TaskKeeps(keyOf, TaskStep(s, i, RemoveKey), i, ReleaseSlot);
  }

  lemma CleanUpMeans(s: State, i: nat)
    requires KeysOk(s) && SlotsOk(s) && i < |s.tasks| && s.tasks[i].phase.Leaving?
    ensures CleanedUp(s, CleanUp(s, i), i)
  {
    CountPositive(s.tasks, HoldsSlot, i);
  }

  // ---- no request is lost --------------------------------------------------------------------

  ghost predicate HasResponse(s: State, i: nat) {
    exists a | 0 <= a < |s.output| :: s.output[a].task == Some(i)
  }

  /** A request that is past writing was cancelled or has its response, as long as the session is not shut down. */
  ghost predicate NoneLost(s: State) {
    && (forall i | 0 <= i < |s.tasks| && s.tasks[i].status.ResponseCommitted? ::
          s.tasks[i].phase.Writing? || PastWriting(s.tasks[i]))
    && (!s.shutdown ==>
          forall i: nat | i < |s.tasks| && PastWriting(s.tasks[i]) ::
            s.tasks[i].status.RequestCancelled? || HasResponse(s, i))
  }

  lemma ResponsesRemain(s: State, t: State, i: nat)
    requires s.output <= t.output && HasResponse(s, i)
    ensures HasResponse(t, i)
  {
    var a :| 0 <= a < |s.output| && s.output[a].task == Some(i);
    assert t.output[a] == s.output[a];
  }

  /** Whatever the loop does, it takes no request past writing. */
  ghost predicate NonePassed(s: State, t: State) {
    && s.output <= t.output && (s.shutdown ==> t.shutdown) && |s.tasks| <= |t.tasks|
    && (forall i | 0 <= i < |t.tasks| && PastWriting(t.tasks[i]) ::
          i < |s.tasks| && PastWriting(s.tasks[i])
          && (s.tasks[i].status.RequestCancelled? ==> t.tasks[i].status.RequestCancelled?))
    && (forall i | 0 <= i < |t.tasks| && t.tasks[i].status.ResponseCommitted? ::
          i < |s.tasks| && s.tasks[i].status.ResponseCommitted? && t.tasks[i].phase == s.tasks[i].phase)
  }

  lemma NonePassedKeeps(s: State, t: State)
    requires NoneLost(s) && NonePassed(s, t)
    ensures NoneLost(t)
  {
    if !t.shutdown {
      forall i: nat | i < |t.tasks| && PastWriting(t.tasks[i])
        ensures t.tasks[i].status.RequestCancelled? || HasResponse(t, i)
      {
        if !s.tasks[i].status.RequestCancelled? {
          ResponsesRemain(s, t, i);
        }
      }
    }
  }

  lemma LoopPassesNone(keyOf: Json -> string, s: State, a: LoopAction)
    requires LoopOk(s) && NoneLost(s)
    ensures NonePassed(s, LoopStep(keyOf, s, a))
  {
    if a.Receive? && s.loop.Reading? {
      HandlePassesNone(keyOf, s, a.message);
    }
  }

  lemma HandlePassesNone(keyOf: Json -> string, s: State, m: Message)
    requires NoneLost(s)
    ensures NonePassed(s, Handle(keyOf, s, m))
  {
  }

  /** What a step of request i does to it, and to the output. */
  lemma TaskMovesOn(s: State, i: nat, a: TaskAction)
    requires i < |s.tasks| && NoneLost(s)
    ensures var t := TaskStep(s, i, a); var e, r := s.tasks[i], t.tasks[i];
      && t.tasks == s.tasks[i := r] && s.output <= t.output && (s.shutdown ==> t.shutdown)
      && (r.status.ResponseCommitted? ==> r.phase.Writing? || PastWriting(r))
      && (PastWriting(r) && !t.shutdown ==>
            || r.status.RequestCancelled?
            || (PastWriting(e) && !e.status.RequestCancelled?)
            || (|t.output| == |s.output| + 1 && t.output[|s.output|].task == Some(i)))
      && (e.status.RequestCancelled? ==> r.status.RequestCancelled?)
  {
  }

  lemma TaskLosesNone(s: State, i: nat, a: TaskAction)
    requires i < |s.tasks| && NoneLost(s) && ResponsesOk(s)
    ensures NoneLost(TaskStep(s, i, a))
  {
    var t := TaskStep(s, i, a);
    TaskMovesOn(s, i, a);
    if !t.shutdown {
      forall k: nat | k < |t.tasks| && PastWriting(t.tasks[k])
        ensures t.tasks[k].status.RequestCancelled? || HasResponse(t, k)
      {
        if k == i && |t.output| == |s.output| + 1 && t.output[|s.output|].task == Some(i) {
          assert HasResponse(t, i);
        } else if !t.tasks[k].status.RequestCancelled? {
          ResponsesRemain(s, t, k);
        }
      }
    }
  }

  lemma {:induction false} RunLosesNone(keyOf: Json -> string, s: State, actions: seq<Action>)
    requires Inv(keyOf, s) && NoneLost(s)
    ensures NoneLost(Run(keyOf, s, actions))
    decreases |actions|
  {
    if actions != [] {
      var t := Step(keyOf, s, actions[0]);
      StepKeeps(keyOf, s, actions[0]);
      match actions[0] {
        case OfLoop(l) =>
          LoopPassesNone(keyOf, s, l);
          NonePassedKeeps(s, t);
        case OfTask(i, a) => if i < |s.tasks| { TaskLosesNone(s, i, a); }
        case Shutdown =>
      }
      RunLosesNone(keyOf, t, actions[1..]);
    }
  }

  /** Until the session shuts down, every request that is through was either cancelled or answered. */
  lemma EveryRequestIsAnswered(keyOf: Json -> string, actions: seq<Action>, i: nat)
    requires var s := Run(keyOf, Start(), actions); !s.shutdown && i < |s.tasks| && PastWriting(s.tasks[i])
    ensures var s := Run(keyOf, Start(), actions);
      s.tasks[i].status.RequestCancelled? || exists a | 0 <= a < |s.output| :: s.output[a].task == Some(i)
  {
    RunLosesNone(keyOf, Start(), actions);
    assert HasResponse(Run(keyOf, Start(), actions), i)
      || Run(keyOf, Start(), actions).tasks[i].status.RequestCancelled?;
  }

  // ---- what a message leads to ----------------------------------------------------------------

  /** A request is admitted to the table, or answered with an error that has its id; nothing else happens. */
  lemma CallIsAdmittedOrRefused(keyOf: Json -> string, s: State, id: Json, name: string, valid: bool)
    ensures var t := Handle(keyOf, s, Call(id, name, valid));
            var open := s.session.Operational? || name == "ping";
            var n := |s.tasks|;
      if open && valid && keyOf(id) !in s.pending then
        && |t.tasks| == n + 1 && t.tasks[..n] == s.tasks
        && t.tasks[n].id == id && t.tasks[n].key == keyOf(id) && t.tasks[n].name == name
        && t.tasks[n].status.Active? && t.tasks[n].phase.Unstarted?
        && t == s.(tasks := t.tasks, pending := s.pending[keyOf(id) := n], loop := Admitting(n))
      else
        t == s.(loop := Replying(
          Some(id), Failure(if !open then -32002 else if !valid then -32602 else -32600), false))
  {
  }

  /** Only a valid confirmation, after initialize, opens the session; what is not a request never enters the table. */
  lemma OthersAreAnswered(keyOf: Json -> string, s: State, id: Option<Json>, code: int, valid: bool)
    ensures Handle(keyOf, s, Initialized(valid)) ==
      if valid && s.session.AwaitingInitializedNotification?
      then s.(session := Operational, log := s.log + [InitializedReceived]) else s
    ensures Handle(keyOf, s, Unreadable(code)) == s.(loop := Replying(None, Failure(code), false))
    ensures Handle(keyOf, s, Invalid(id)) == s.(loop := Replying(id, Failure(-32600), false))
    ensures Handle(keyOf, s, MisusedNotification(id)) == s.(loop := Replying(id, Failure(-32600), false))
    ensures Handle(keyOf, s, OtherNotification) == s
  {
  }

  /** Initialize is answered with success exactly if it is the first, well formed, and its id is free. */
  lemma InitializeIsAnswered(keyOf: Json -> string, s: State, id: Json, valid: bool)
    ensures var t := Handle(keyOf, s, Initialize(id, valid));
            var taken := keyOf(id) in s.pending || !s.session.AwaitingInitialize?;
      t == s.(loop := if !taken && valid then Replying(Some(id), Success, true)
                      else Replying(Some(id), Failure(if taken then -32600 else -32602), false))
  {
  }

  /** An admitted request waits for nothing: it gets a slot, or is refused exactly if 16 requests hold one. */
  lemma RefusedIffFull(keyOf: Json -> string, actions: seq<Action>)
    requires Run(keyOf, Start(), actions).loop.Admitting?
    ensures var s := Run(keyOf, Start(), actions); var i := s.loop.i;
            var t := Step(keyOf, s, OfLoop(TryAdmit));
      && i < |s.tasks|
      && (Count(s.tasks, HoldsSlot) == 16 ==> t == s.(loop := Refusing(i)))
      && (Count(s.tasks, HoldsSlot) != 16 ==>
            t.slots == s.slots - 1 && t.loop.Reading? && t.tasks == s.tasks[i := s.tasks[i].(phase := Queued)])
  {
    RunKeeps(keyOf, Start(), actions);
  }

  /** A refused request leaves the table and is answered with the busy error. */
  lemma RefusalIsAnswered(keyOf: Json -> string, actions: seq<Action>)
    requires Run(keyOf, Start(), actions).loop.Refusing?
    ensures var s := Run(keyOf, Start(), actions); var i := s.loop.i;
            var t := Step(keyOf, s, OfLoop(RemoveRefused));
      && i < |s.tasks| && s.tasks[i].key in s.pending && s.pending[s.tasks[i].key] == i
      && t.pending == s.pending - {s.tasks[i].key} && t.slots == s.slots
      && t.loop == Replying(Some(s.tasks[i].id), Failure(-32000), false)
  {
    RunKeeps(keyOf, Start(), actions);
  }

  /** A cancellation reaches the live request with its key, and no other; without one it changes nothing. */
  lemma CancellationReaches(keyOf: Json -> string, actions: seq<Action>, target: Json, i: nat)
    requires var s := Run(keyOf, Start(), actions); s.loop.Reading? && !s.shutdown
    ensures var s := Run(keyOf, Start(), actions);
            var found := Step(keyOf, s, OfLoop(Receive(Cancelled(Some(target)))));
            var t := Step(keyOf, found, OfLoop(CancelFound));
      && (i < |s.tasks| && Live(s.tasks[i]) && s.tasks[i].key == keyOf(target) ==>
            && |t.tasks| == |s.tasks|
            && t == s.(tasks := s.tasks[i := s.tasks[i].(
                 status := if s.tasks[i].status.Active? then RequestCancelled else s.tasks[i].status)]))
      && ((forall k | 0 <= k < |s.tasks| && Live(s.tasks[k]) :: s.tasks[k].key != keyOf(target)) ==> t == s)
  {
    RunKeeps(keyOf, Start(), actions);
    var s := Run(keyOf, Start(), actions);
    if i < |s.tasks| && Live(s.tasks[i]) && s.tasks[i].key == keyOf(target) {
      CancelStops(keyOf, s, target, i);
    }
  }

  lemma CancelStops(keyOf: Json -> string, s: State, target: Json, i: nat)
    requires s.loop.Reading? && !s.shutdown && i < |s.tasks|
    requires keyOf(target) in s.pending && s.pending[keyOf(target)] == i
    ensures Step(keyOf, Step(keyOf, s, OfLoop(Receive(Cancelled(Some(target))))), OfLoop(CancelFound))
      == s.(tasks := s.tasks[i := s.tasks[i].(
           status := if s.tasks[i].status.Active? then RequestCancelled else s.tasks[i].status)])
  {
    var e := s.tasks[i];
    assert !e.status.Active? ==> s.tasks[i := e.(status := e.status)] == s.tasks;
  }

  // ---- the session object --------------------------------------------------------------------

  /** The local variables of `RunAsync` that the read loop and the request tasks share. */
  class StdioMcpSession {
    const keyOf: Json -> string
    var sessionState: Session
    var loop: Loop
    var pending: map<string, nat>
    var requestSlots: nat
    var tasks: seq<Task>
    var writerGate: Gate
    var shutdown: bool
    var output: seq<Response>
    var log: seq<Event>

    function View(): State
      reads this
    {
      State(sessionState, loop, pending, requestSlots, tasks, writerGate, shutdown, output, log)
    }

    constructor (keyOf: Json -> string)
      ensures View() == Start() && this.keyOf == keyOf
    {
      this.keyOf := keyOf;
      sessionState, loop, pending, requestSlots := AwaitingInitialize, Reading, map[], MAXIMUM_CONCURRENT_REQUESTS;
      tasks, writerGate, shutdown, output, log := [], Free, false, [], [];
    }

    method Fail(id: Option<Json>, code: int)
      modifies this`loop
      ensures loop == Replying(id, Failure(code), false)
    {
      loop := Replying(id, Failure(code), false);
    }

    method Cancel(i: nat)
      modifies this`tasks
      ensures View() == CancelTask(old(View()), i)
    {
      if i < |tasks| && tasks[i].status.Active? {
        tasks := tasks[i := tasks[i].(status := RequestCancelled)];
      }
    }

    method ReceiveInitialize(id: Json, valid: bool)
      modifies this`loop
      ensures View() == Handle(keyOf, old(View()), Initialize(id, valid))
    {
      if keyOf(id) in pending {
        Fail(Some(id), -32600);
      } else if sessionState != AwaitingInitialize {
        Fail(Some(id), -32600);
      } else if !valid {
        Fail(Some(id), -32602);
      } else {
        loop := Replying(Some(id), Success, true);
      }
    }

    method ReceiveCall(id: Json, name: string, valid: bool)
      modifies this`loop, this`pending, this`tasks
      ensures View() == Handle(keyOf, old(View()), Call(id, name, valid))
    {
      if sessionState != Operational && name != "ping" {
        Fail(Some(id), -32002);
        return;
      }
      if !valid {
        Fail(Some(id), -32602);
        return;
      }
      var requestKey := keyOf(id);
      if requestKey in pending {
        Fail(Some(id), -32600);
        return;
      }
      pending := pending[requestKey := |tasks|];
      loop := Admitting(|tasks|);
      tasks := tasks + [Task(id, requestKey, name, Active, Unstarted)];
    }

    method Receive(m: Message)
      modifies this
      ensures View() == Handle(keyOf, old(View()), m)
    {
      match m
      case Unreadable(code) => Fail(None, code);
      case Invalid(id) => Fail(id, -32600);
      case MisusedNotification(id) => Fail(id, -32600);
      case Initialized(valid) =>
        if sessionState == AwaitingInitializedNotification && valid {
          sessionState, log := Operational, log + [InitializedReceived];
        }
      case Cancelled(target) =>
        if target.Some? && keyOf(target.value) in pending {
          loop := Cancelling(pending[keyOf(target.value)]);
        }
      case OtherNotification =>
      case Initialize(id, valid) => ReceiveInitialize(id, valid);
      case Call(id, name, valid) => ReceiveCall(id, name, valid);
    }

    /** The rest of the read loop's step for a request that has just been added to the table. */
    method Admit()
      requires loop.Admitting? && loop.i < |tasks|
      modifies this`loop, this`requestSlots, this`tasks
      ensures View() == LoopStep(keyOf, old(View()), TryAdmit)
    {
      if requestSlots == 0 {
        loop := Refusing(loop.i);
      } else {
        requestSlots := requestSlots - 1;
        tasks := tasks[loop.i := tasks[loop.i].(phase := Queued)];
        loop := Reading;
      }
    }

    method Refuse()
      requires loop.Refusing? && loop.i < |tasks|
      modifies this`loop, this`pending, this`tasks
      ensures View() == LoopStep(keyOf, old(View()), RemoveRefused)
    {
      var task := tasks[loop.i];
      pending := pending - {task.key};
      tasks := tasks[loop.i := task.(phase := Refused)];
      Fail(Some(task.id), -32000);
    }

    method WriteResponse()
      requires loop.ReplyAtGate?
      modifies this`loop, this`writerGate, this`output, this`sessionState, this`log
      ensures View() == LoopStep(keyOf, old(View()), WriteReply)
    {
      output := output + [Response(loop.id, None)];
      writerGate := Free;
      if loop.opens {
        sessionState, log := AwaitingInitializedNotification, log + [InitializeAnswered];
      }
      loop := Reading;
    }

    method Move(i: nat, phase: Phase)
      requires i < |tasks|
      modifies this`tasks
      ensures tasks == old(tasks)[i := old(tasks)[i].(phase := phase)]
    {
      tasks := tasks[i := tasks[i].(phase := phase)];
    }

    /** `ProcessRequestAsync` up to the point where the response is ready. */
    method DispatchRequest(i: nat)
      requires i < |tasks| && tasks[i].phase.Queued?
      modifies this`tasks, this`log
      ensures View() == TaskStep(old(View()), i, Dispatch)
    {
      log := log + [Dispatched(tasks[i].name)];
      if tasks[i].name == "tools/call" {
        Move(i, Calling);
      } else {
        Move(i, Answering);
      }
    }

    /** `WritePendingResponseAsync` once it holds the gate: nothing is written unless the commit wins. */
    method TryCommitResponse(i: nat) returns (committed: bool)
      requires i < |tasks| && tasks[i].phase.AtGate?
      modifies this`tasks, this`writerGate
      ensures committed == old(tasks[i].status.Active?)
      ensures View() == TaskStep(old(View()), i, Commit)
    {
      committed := tasks[i].status.Active?;
      if committed {
        tasks := tasks[i := tasks[i].(status := ResponseCommitted, phase := Writing)];
      } else {
        Move(i, Leaving);
        writerGate := Free;
      }
    }

    method WritePendingResponse(i: nat)
      requires i < |tasks| && tasks[i].phase.Writing?
      modifies this`tasks, this`writerGate, this`output
      ensures View() == TaskStep(old(View()), i, Write)
    {
      output := output + [Response(Some(tasks[i].id), Some(i))];
      Move(i, Leaving);
      writerGate := Free;
    }

    /** The `finally` block: the key first, then the slot. */
    method RemoveRequest(i: nat)
      requires i < |tasks| && tasks[i].phase.Leaving?
      modifies this`tasks, this`pending
      ensures View() == TaskStep(old(View()), i, RemoveKey)
    {
      pending := pending - {tasks[i].key};
      Move(i, KeyRemoved);
    }

    method ReleaseRequestSlot(i: nat)
      requires i < |tasks| && tasks[i].phase.KeyRemoved?
      modifies this`tasks, this`requestSlots
      ensures View() == TaskStep(old(View()), i, ReleaseSlot)
    {
      requestSlots := requestSlots + 1;
      Move(i, Done);
    }

    ghost predicate Valid()
      reads this
    {
      Inv(keyOf, View())
    }

    method AcquireWriter(i: nat)
      requires i < |tasks| && tasks[i].phase.Answering? && writerGate.Free?
      modifies this`tasks, this`writerGate
      ensures View() == TaskStep(old(View()), i, EnterGate)
    {
      writerGate := HeldBy(i);
      Move(i, AtGate);
    }

    /** `WritePendingResponseAsync`, with no other step in between. */
    method RespondUnderGate(i: nat)
      requires Valid() && i < |tasks| && tasks[i].phase.Answering? && writerGate.Free?
      modifies this`tasks, this`writerGate, this`output
      ensures Valid() && AnsweredTo(old(View()), View(), i)
    {
      AnswerWrites(keyOf, View(), i);
      RunResponse(i);
    }

    method RunResponse(i: nat)
      requires i < |tasks| && tasks[i].phase.Answering? && writerGate.Free?
      modifies this`tasks, this`writerGate, this`output
      ensures View() == Respond(old(View()), i)
    {
      AcquireWriter(i);
      var committed := TryCommitResponse(i);
      if committed {
        WritePendingResponse(i);
      }
    }

    /** The whole `finally` block: it always finds the request's own key, and the semaphore never overflows. */
    method FinishRequest(i: nat)
      requires Valid() && i < |tasks| && tasks[i].phase.Leaving?
      modifies this`tasks, this`pending, this`requestSlots
      ensures Valid() && CleanedUp(old(View()), View(), i)
    {
      CleanUpGivesBack(keyOf, View(), i);
      RunCleanUp(i);
    }

    method RunCleanUp(i: nat)
      requires i < |tasks| && tasks[i].phase.Leaving?
      modifies this`tasks, this`pending, this`requestSlots
      ensures View() == CleanUp(old(View()), i)
    {
      RemoveRequest(i);
      ReleaseRequestSlot(i);
    }
  }
}
