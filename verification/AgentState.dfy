/**
 The state of the agent broker of src/agents.mjs, what each operation does to it, and the form in
 which it survives a restart. Prime ids are those that `prime` looks up, cut to their length limit.
 */
module AgentState {
  import opened Optional
  import opened Searching
  import opened DecimalOrder

  const MAXIMUM_COMMANDS: nat := 2000
  const MAX_SAFE_INTEGER: nat := 0x1F_FFFF_FFFF_FFFF

  datatype WorkerStatus = Starting | Working | Sleeping | WorkerFailed | Retired

  datatype Worker = Worker(
    status: WorkerStatus, conversation: Option<string>, conversationKey: Option<string>, restored: bool)

  datatype Prime = Prime(id: Option<string>, workers: map<string, Worker>)

  datatype CommandStatus = Pending | Cancelled | Acknowledged | CommandFailed

  datatype Command = Command(
    id: string, cursor: nat, status: CommandStatus, target: Option<string>, primeId: Option<string>)

  datatype Broker = Broker(nextCursor: nat, commands: seq<Command>, primes: map<string, Prime>)

  /** The configuration; the two keys are keyed hashes of what they identify. */
  datatype Config = Config(
    privateMode: bool, multiAgent: bool, maxWorkers: nat,
    primeKey: string -> string, conversationKey: string -> string)

  datatype Outcome<+T> = Ok(value: T) | Failed

  function Empty(): Broker { Broker(1, [], map[]) }

  predicate ValidWorkerId(id: string) {
    && 1 <= |id| <= 64 && id != "__proto__" && id != "constructor" && id != "prototype"
    && forall i | 0 <= i < |id| ::
         'a' <= id[i] <= 'z' || 'A' <= id[i] <= 'Z' || '0' <= id[i] <= '9' || id[i] == '_' || id[i] == '-'
  }

  predicate Active(w: Worker) { w.status.Starting? || w.status.Working? }

  /** The workers of a broker, by prime and id, that are starting or working. */
  function ActiveWorkers(b: Broker): set<(string, string)> {
    set k, w | k in b.primes && w in b.primes[k].workers && Active(b.primes[k].workers[w]) :: (k, w)
  }

  function StorageKey(config: Config, primeId: string): string {
    if config.privateMode then config.primeKey(primeId) else primeId
  }

  /** `prime`: finds or creates the prime, and notes its id. */
  function WithPrime(config: Config, b: Broker, primeId: string): (r: Broker)
    ensures StorageKey(config, primeId) in r.primes
  {
    var key := StorageKey(config, primeId);
    var workers := if key in b.primes then b.primes[key].workers else map[];
    b.(primes := b.primes[key := Prime(Some(primeId), workers)])
  }

  function Workers(config: Config, b: Broker, primeId: string): map<string, Worker> {
    var key := StorageKey(config, primeId);
    if key in b.primes then b.primes[key].workers else map[]
  }

  function WithWorker(config: Config, b: Broker, primeId: string, workerId: string, w: Worker): Broker {
    var key := StorageKey(config, primeId);
    b.(primes := b.primes[key := Prime(Some(primeId), Workers(config, b, primeId)[workerId := w])])
  }

  /** `enqueueUnlocked`. */
  function Enqueued(b: Broker, id: string, target: Option<string>, primeId: Option<string>): Broker {
    b.(nextCursor := b.nextCursor + 1,
       commands := b.commands + [Command(id, b.nextCursor, Pending, target, primeId)])
  }

  datatype Operation =
    | Enqueue(id: string, target: Option<string>)
    | Spawn(id: string, primeId: string, wanted: Option<string>, hasTask: bool, target: Option<string>)
    | SendMessage(id: string, primeId: string, workerId: string, approved: bool, target: Option<string>)
    | Register(primeId: string, workerId: string, conversation: Option<string>)
    | Report(primeId: string, workerId: string, approved: bool, failed: bool)
    | Clear(primeId: string, approved: bool)
    | Acknowledge(id: string, failed: bool)

  function SpawnedId(config: Config, b: Broker, op: Operation): string
    requires op.Spawn?
  {
    if op.wanted.Some? then op.wanted.value
    else "worker-" + NatText(|Workers(config, b, op.primeId)| + 1)
  }

  /** A worker that an operation may still change. */
  predicate Usable(config: Config, b: Broker, primeId: string, workerId: string) {
    workerId in Workers(config, b, primeId) && !Workers(config, b, primeId)[workerId].status.Retired?
  }

  function RetireAll(workers: map<string, Worker>): map<string, Worker> {
    map w | w in workers :: workers[w].(status := Retired)
  }

  function CancelPending(commands: seq<Command>, primeId: string): (r: seq<Command>)
    ensures |r| == |commands|
  {
    seq(|commands|, i requires 0 <= i < |commands| =>
      if commands[i].primeId == Some(primeId) && commands[i].status.Pending?
      then commands[i].(status := Cancelled) else commands[i])
  }

  /** The index of the first command with an id; the length if there is none. */
  function Find(commands: seq<Command>, id: string): (i: nat)
    ensures i <= |commands|
    ensures i < |commands| ==> commands[i].id == id
    ensures forall k | 0 <= k < i :: commands[k].id != id
  {
    FirstIndex(commands, (c: Command) => c.id == id)
  }

  /** What an operation makes of the state, or that it throws. */
  function Apply(config: Config, b: Broker, op: Operation): Outcome<Broker> {
    match op
    case Enqueue(id, target) => Ok(Enqueued(b, id, target, None))
    case Spawn(id, primeId, wanted, hasTask, target) =>
      var workerId := SpawnedId(config, b, op);
      if !config.multiAgent || |ActiveWorkers(b)| >= config.maxWorkers then Failed
      else if !ValidWorkerId(workerId) || workerId in Workers(config, b, primeId) || !hasTask then Failed
      else
        Ok(Enqueued(WithWorker(config, b, primeId, workerId, Worker(Starting, None, None, false)),
                    id, target, Some(primeId)))
    case SendMessage(id, primeId, workerId, approved, target) =>
      if !config.multiAgent || !approved || !Usable(config, b, primeId, workerId) then Failed
      else
        var w := Workers(config, b, primeId)[workerId];
        if config.privateMode && w.restored && w.conversation.None? then Failed
        else if !Active(w) && |ActiveWorkers(b)| >= config.maxWorkers then Failed
        else
          Ok(Enqueued(WithWorker(config, b, primeId, workerId, w.(status := Working)), id, target, Some(primeId)))
    case Register(primeId, workerId, conversation) =>
      if !Usable(config, b, primeId, workerId) then Failed
      else
        var key := if config.privateMode && conversation.Some? then Some(config.conversationKey(conversation.value))
                   else None;
        Ok(WithWorker(config, b, primeId, workerId, Worker(Working, conversation, key, false)))
    case Report(primeId, workerId, approved, failed) =>
      if !approved || !Usable(config, b, primeId, workerId) then Failed
      else
        var w := Workers(config, b, primeId)[workerId];
        Ok(WithWorker(config, b, primeId, workerId, w.(status := if failed then WorkerFailed else Sleeping)))
    case Clear(primeId, approved) =>
      if !approved then Failed
      else
        var key := StorageKey(config, primeId);
        Ok(b.(primes := b.primes[key := Prime(Some(primeId), RetireAll(Workers(config, b, primeId)))],
              commands := CancelPending(b.commands, primeId)))
    case Acknowledge(id, failed) =>
      var i := Find(b.commands, id);
      if i == |b.commands| then Failed
      else
        Ok(b.(commands := b.commands[i := b.commands[i].(status := if failed then CommandFailed else Acknowledged)]))
  }

  /** `persist` first keeps only the latest commands. */
  function Trimmed(b: Broker): Broker {
    if |b.commands| <= MAXIMUM_COMMANDS then b
    else b.(commands := b.commands[|b.commands| - MAXIMUM_COMMANDS..])
  }

  // ---- files ---------------------------------------------------------------------------------

  datatype DurableWorker = DurableWorker(status: WorkerStatus, conversationKey: Option<string>)

  /** agents.json, with or without the payloads. */
  datatype File =
    | PrivateFile(nextCursor: nat, primeWorkers: map<string, map<string, DurableWorker>>)
    | RecordedFile(broker: Broker)

  function DurableOf(config: Config, w: Worker): DurableWorker {
    DurableWorker(
      w.status, if w.conversation.Some? then Some(config.conversationKey(w.conversation.value)) else w.conversationKey)
  }

  function DurableWorkers(config: Config, workers: map<string, Worker>): map<string, DurableWorker> {
    map w | w in workers && ValidWorkerId(w) :: DurableOf(config, workers[w])
  }

  /** What `persist` writes. */
  function ToFile(config: Config, b: Broker): File {
    if config.privateMode then
      PrivateFile(b.nextCursor, map k | k in b.primes :: DurableWorkers(config, b.primes[k].workers))
    else RecordedFile(b)
  }

  /** `validCursor`. */
  function ValidCursor(n: nat): nat { if 1 <= n <= MAX_SAFE_INTEGER then n else 1 }

  function Restored(w: DurableWorker): Worker {
    Worker(if w.status.Starting? || w.status.Working? then Sleeping else w.status, None, w.conversationKey, true)
  }

  function RestoredWorkers(workers: map<string, DurableWorker>): map<string, Worker> {
    map w | w in workers && ValidWorkerId(w) :: Restored(workers[w])
  }

  /** What `initialize` makes of a file written in the same mode. */
  function FromFile(file: File): Broker {
    match file
    case PrivateFile(nextCursor, primes) =>
      Broker(ValidCursor(nextCursor), [], map k | k in primes :: Prime(None, RestoredWorkers(primes[k])))
    case RecordedFile(b) => Trimmed(b.(nextCursor := ValidCursor(b.nextCursor)))
  }

  // ---- what holds of every state -------------------------------------------------------------

  ghost predicate CursorsOk(b: Broker) {
    && b.nextCursor >= 1
    && (forall i, j | 0 <= i < j < |b.commands| :: b.commands[i].cursor < b.commands[j].cursor)
    && (forall i | 0 <= i < |b.commands| :: b.commands[i].cursor < b.nextCursor)
  }

  ghost predicate IdsOk(b: Broker) {
    forall k, w | k in b.primes && w in b.primes[k].workers :: ValidWorkerId(w)
  }

  /** Every worker of `a` is still one of `b`, and if it was retired it still is. */
  ghost predicate Succeeds(a: Broker, b: Broker) {
    forall k | k in a.primes :: k in b.primes && WorkersSucceed(a.primes[k].workers, b.primes[k].workers)
  }

  ghost predicate WorkersSucceed(a: map<string, Worker>, b: map<string, Worker>) {
    forall w | w in a :: w in b && (a[w].status.Retired? ==> b[w].status.Retired?)
  }

  /** Commands keep their place and identity; new ones get new cursors, in order. */
  ghost predicate CommandsContinue(a: Broker, b: Broker) {
    && a.nextCursor <= b.nextCursor && |a.commands| <= |b.commands|
    && (forall i | 0 <= i < |a.commands| ::
          && b.commands[i].cursor == a.commands[i].cursor && b.commands[i].id == a.commands[i].id
          && b.commands[i].target == a.commands[i].target
          && (b.commands[i].status.Pending? ==> a.commands[i].status.Pending?))
    && (forall i | |a.commands| <= i < |b.commands| :: b.commands[i].cursor >= a.nextCursor)
  }

  lemma ApplyContinues(config: Config, b: Broker, op: Operation)
    requires CursorsOk(b) && Apply(config, b, op).Ok?
    ensures CommandsContinue(b, Apply(config, b, op).value) && CursorsOk(Apply(config, b, op).value)
    ensures Apply(config, b, op).value.nextCursor <= b.nextCursor + 1
  {
  }

  lemma WithWorkerSucceeds(config: Config, b: Broker, primeId: string, workerId: string, w: Worker)
    requires IdsOk(b) && ValidWorkerId(workerId)
    requires workerId in Workers(config, b, primeId) ==> Usable(config, b, primeId, workerId)
    ensures Succeeds(b, WithWorker(config, b, primeId, workerId, w))
    ensures IdsOk(WithWorker(config, b, primeId, workerId, w))
  {
  }

  /** An operation takes no worker away and brings no retired worker back. */
  lemma ApplySucceeds(config: Config, b: Broker, op: Operation)
    requires IdsOk(b) && Apply(config, b, op).Ok?
    ensures Succeeds(b, Apply(config, b, op).value) && IdsOk(Apply(config, b, op).value)
  {
    match op
    case Spawn(_, primeId, _, _, _) =>
      WithWorkerSucceeds(config, b, primeId, SpawnedId(config, b, op), Worker(Starting, None, None, false));
    case SendMessage(_, primeId, workerId, _, _) =>
      WithWorkerSucceeds(config, b, primeId, workerId, Workers(config, b, primeId)[workerId].(status := Working));
    case Register(primeId, workerId, _) =>
      var after := Apply(config, b, op).value;
      WithWorkerSucceeds(config, b, primeId, workerId, after.primes[StorageKey(config, primeId)].workers[workerId]);
    case Report(primeId, workerId, _, _) =>
      var after := Apply(config, b, op).value;
      WithWorkerSucceeds(config, b, primeId, workerId, after.primes[StorageKey(config, primeId)].workers[workerId]);
    case _ =>
  }

  lemma SucceedsIsTransitive(a: Broker, b: Broker, c: Broker)
    requires Succeeds(a, b) && Succeeds(b, c)
    ensures Succeeds(a, c)
  {
  }

  /** An id that a prime has used cannot be spawned there in a state that succeeds. */
  lemma UsedIdIsRefused(config: Config, a: Broker, b: Broker, op: Operation)
    requires Succeeds(a, b) && op.Spawn? && SpawnedId(config, b, op) in Workers(config, a, op.primeId)
    ensures Apply(config, b, op).Failed?
  {
    assert StorageKey(config, op.primeId) in a.primes;
  }

  lemma RetiredIsRefused(config: Config, a: Broker, b: Broker, op: Operation)
    requires Succeeds(a, b) && (op.SendMessage? || op.Register? || op.Report?)
    requires op.workerId in Workers(config, a, op.primeId)
    requires Workers(config, a, op.primeId)[op.workerId].status.Retired?
    ensures Apply(config, b, op).Failed?
  {
    assert StorageKey(config, op.primeId) in a.primes;
  }

  // ---- what each operation does --------------------------------------------------------------

  /** The prime's worker, if it has one of that id. */
  function WorkerOf(config: Config, b: Broker, primeId: string, id: string): Option<Worker> {
    var key := StorageKey(config, primeId);
    if key in b.primes && id in b.primes[key].workers then Some(b.primes[key].workers[id]) else None
  }

  /** All other workers, and all primes but one, are as they were. */
  ghost predicate OnlyWorker(config: Config, b: Broker, c: Broker, primeId: string, id: string) {
    var key := StorageKey(config, primeId);
    && key in c.primes && c.primes[key].id == Some(primeId)
    && (forall w | w != id :: WorkerOf(config, c, primeId, w) == WorkerOf(config, b, primeId, w))
    && (forall k | k != key :: (k in c.primes <==> k in b.primes) && (k in b.primes ==> c.primes[k] == b.primes[k]))
  }

  /** One new, pending command with the next cursor. */
  ghost predicate Enqueues(b: Broker, c: Broker, id: string, target: Option<string>, primeId: Option<string>) {
    && c.nextCursor == b.nextCursor + 1 && |c.commands| == |b.commands| + 1
    && (forall i | 0 <= i < |b.commands| :: c.commands[i] == b.commands[i])
    && var last := c.commands[|b.commands|];
    && last.id == id && last.cursor == b.nextCursor && last.target == target && last.primeId == primeId
    && last.status.Pending?
  }

  ghost predicate SameCommands(b: Broker, c: Broker) { c.commands == b.commands && c.nextCursor == b.nextCursor }

  /** What an operation is allowed to work on: room, approval, and a worker that is there and not retired. */
  ghost predicate Allowed(config: Config, b: Broker, op: Operation) {
    match op
    case Enqueue(_, _) => true
    case Spawn(_, primeId, _, hasTask, _) =>
      && config.multiAgent && hasTask && |ActiveWorkers(b)| < config.maxWorkers
      && ValidWorkerId(SpawnedId(config, b, op)) && WorkerOf(config, b, primeId, SpawnedId(config, b, op)).None?
    case SendMessage(_, primeId, workerId, approved, _) =>
      var w := WorkerOf(config, b, primeId, workerId);
      && config.multiAgent && approved && w.Some? && !w.value.status.Retired?
      && (config.privateMode && w.value.restored ==> w.value.conversation.Some?)
      && (w.value.status.Starting? || w.value.status.Working? || |ActiveWorkers(b)| < config.maxWorkers)
    case Register(primeId, workerId, _) =>
      var w := WorkerOf(config, b, primeId, workerId);
      w.Some? && !w.value.status.Retired?
    case Report(primeId, workerId, approved, _) =>
      var w := WorkerOf(config, b, primeId, workerId);
      approved && w.Some? && !w.value.status.Retired?
    case Clear(_, approved) => approved
    case Acknowledge(id, _) => exists i | 0 <= i < |b.commands| :: b.commands[i].id == id
  }

  /** An operation is refused exactly when it is not allowed. */
  lemma AppliesIfAllowed(config: Config, b: Broker, op: Operation)
    ensures Apply(config, b, op).Ok? <==> Allowed(config, b, op)
  {
    if op.Acknowledge? {
      var i := Find(b.commands, op.id);
      assert i < |b.commands| ==> b.commands[i].id == op.id;
    }
  }

  /** Spawning starts a worker and messaging puts it to work, each with one new command. */
  lemma SendingMeans(config: Config, b: Broker, op: Operation)
    requires (op.Spawn? || op.SendMessage?) && Apply(config, b, op).Ok?
    ensures var c := Apply(config, b, op).value;
            var id := if op.Spawn? then SpawnedId(config, b, op) else op.workerId;
            var before, after := WorkerOf(config, b, op.primeId, id), WorkerOf(config, c, op.primeId, id);
      && OnlyWorker(config, b, c, op.primeId, id) && Enqueues(b, c, op.id, op.target, Some(op.primeId))
      && (op.Spawn? ==> before.None? && after == Some(Worker(Starting, None, None, false)))
      && (op.SendMessage? ==> before.Some? && after == Some(before.value.(status := Working)))
  {
  }

  /** Registering binds a worker and puts it to work; a report puts it to sleep, or marks it failed. */
  lemma BindingMeans(config: Config, b: Broker, op: Operation)
    requires (op.Register? || op.Report?) && Apply(config, b, op).Ok?
    ensures var c := Apply(config, b, op).value;
            var before := WorkerOf(config, b, op.primeId, op.workerId);
            var after := WorkerOf(config, c, op.primeId, op.workerId);
      && OnlyWorker(config, b, c, op.primeId, op.workerId) && SameCommands(b, c)
      && before.Some? && after.Some?
      && (op.Register? ==>
            && after.value.status.Working? && !after.value.restored && after.value.conversation == op.conversation
            && after.value.conversationKey ==
               if config.privateMode && op.conversation.Some? then Some(config.conversationKey(op.conversation.value))
               else None)
      && (op.Report? ==> after.value == before.value.(status := if op.failed then WorkerFailed else Sleeping))
  {
  }

  /** Clearing retires every worker of the prime and cancels its pending commands, and touches nothing else. */
  lemma ClearMeans(config: Config, b: Broker, op: Operation)
    requires op.Clear? && Apply(config, b, op).Ok?
    ensures var c := Apply(config, b, op).value; var key := StorageKey(config, op.primeId);
      && (forall id ::
            var before, after := WorkerOf(config, b, op.primeId, id), WorkerOf(config, c, op.primeId, id);
            if before.None? then after.None? else after == Some(before.value.(status := Retired)))
      && (forall k | k != key :: (k in c.primes <==> k in b.primes) && (k in b.primes ==> c.primes[k] == b.primes[k]))
      && c.nextCursor == b.nextCursor && |c.commands| == |b.commands|
      && (forall i | 0 <= i < |b.commands| ::
            if b.commands[i].status.Pending? && b.commands[i].primeId == Some(op.primeId)
            then c.commands[i] == b.commands[i].(status := Cancelled)
            else c.commands[i] == b.commands[i])
  {
  }

  /** Enqueuing adds a command; acknowledging settles the first one with the id, and touches nothing else. */
  lemma CommandMeans(config: Config, b: Broker, op: Operation)
    requires (op.Enqueue? || op.Acknowledge?) && Apply(config, b, op).Ok?
    ensures var c := Apply(config, b, op).value;
      && c.primes == b.primes
      && (op.Enqueue? ==> Enqueues(b, c, op.id, op.target, None))
      && (op.Acknowledge? ==>
            && c.nextCursor == b.nextCursor && |c.commands| == |b.commands|
            && exists i | 0 <= i < |b.commands| ::
                 && b.commands[i].id == op.id && (forall k | 0 <= k < i :: b.commands[k].id != op.id)
                 && c.commands[i] == b.commands[i].(status := if op.failed then CommandFailed else Acknowledged)
                 && forall k | 0 <= k < |b.commands| && k != i :: c.commands[k] == b.commands[k])
  {
    if op.Acknowledge? {
      var i := Find(b.commands, op.id);
      assert b.commands[i].id == op.id;
    }
  }

  // ---- capacity ------------------------------------------------------------------------------

  lemma ActiveAfter(config: Config, b: Broker, primeId: string, workerId: string, w: Worker)
    ensures var key := StorageKey(config, primeId);
      ActiveWorkers(WithWorker(config, b, primeId, workerId, w))
      == if Active(w) then ActiveWorkers(b) + {(key, workerId)} else ActiveWorkers(b) - {(key, workerId)}
  {
  }

  /** Spawning and messaging never take the number of active workers past the limit. */
  lemma LimitIsKept(config: Config, b: Broker, op: Operation)
    requires (op.Spawn? || op.SendMessage?) && Apply(config, b, op).Ok?
    ensures |ActiveWorkers(Apply(config, b, op).value)| <= config.maxWorkers
            || |ActiveWorkers(Apply(config, b, op).value)| == |ActiveWorkers(b)|
  {
    var workerId := if op.Spawn? then SpawnedId(config, b, op) else op.workerId;
    var w := if op.Spawn? then Worker(Starting, None, None, false)
             else Workers(config, b, op.primeId)[workerId].(status := Working);
    ActiveAfter(config, b, op.primeId, workerId, w);
    assert ActiveWorkers(Apply(config, b, op).value) == ActiveWorkers(WithWorker(config, b, op.primeId, workerId, w));
    var key := StorageKey(config, op.primeId);
    if (key, workerId) in ActiveWorkers(b) {
      assert ActiveWorkers(b) + {(key, workerId)} == ActiveWorkers(b);
    }
  }

  /** Registering does not look at the limit: it adds an active worker exactly when the worker was idle. */
  lemma RegisteringIgnoresLimit(config: Config, b: Broker, op: Operation)
    requires op.Register? && Apply(config, b, op).Ok?
    ensures |ActiveWorkers(Apply(config, b, op).value)| == |ActiveWorkers(b)|
      + if Active(Workers(config, b, op.primeId)[op.workerId]) then 0 else 1
  {
    var key := StorageKey(config, op.primeId);
    var after := Apply(config, b, op).value;
    ActiveAfter(config, b, op.primeId, op.workerId, after.primes[key].workers[op.workerId]);
    if Active(Workers(config, b, op.primeId)[op.workerId]) {
      assert (key, op.workerId) in ActiveWorkers(b);
      assert ActiveWorkers(b) + {(key, op.workerId)} == ActiveWorkers(b);
    } else {
      assert (key, op.workerId) !in ActiveWorkers(b);
    }
  }

  // ---- surviving a restart -------------------------------------------------------------------

  /** What a restart keeps of a worker when payloads are private. */
  ghost predicate Survives(config: Config, before: Worker, after: Worker) {
    && after.status == (if Active(before) then Sleeping else before.status)
    && after.conversation.None? && after.restored
    && after.conversationKey ==
       if before.conversation.Some? then Some(config.conversationKey(before.conversation.value))
       else before.conversationKey
  }

  ghost predicate SurvivesAll(config: Config, before: map<string, Worker>, after: map<string, Worker>) {
    after.Keys == before.Keys && forall w | w in before :: Survives(config, before[w], after[w])
  }

  lemma WorkersRoundTrip(config: Config, workers: map<string, Worker>)
    requires forall w | w in workers :: ValidWorkerId(w)
    ensures SurvivesAll(config, workers, RestoredWorkers(DurableWorkers(config, workers)))
  {
    var after := RestoredWorkers(DurableWorkers(config, workers));
    forall w | w in workers ensures w in after && Survives(config, workers[w], after[w]) {
      assert DurableWorkers(config, workers)[w] == DurableOf(config, workers[w]);
    }
    assert after.Keys == workers.Keys;
  }

  /** Reading back what was written: everything, or with private payloads the cursor and every worker. */
  lemma FileRoundTrip(config: Config, b: Broker)
    requires IdsOk(b) && 1 <= b.nextCursor <= MAX_SAFE_INTEGER && |b.commands| <= MAXIMUM_COMMANDS
    ensures var r := FromFile(ToFile(config, b));
      && r.nextCursor == b.nextCursor
      && (!config.privateMode ==> r == b)
      && (config.privateMode ==>
            && r.commands == [] && r.primes.Keys == b.primes.Keys
            && forall k | k in b.primes :: SurvivesAll(config, b.primes[k].workers, r.primes[k].workers))
  {
    if config.privateMode {
      var r := FromFile(ToFile(config, b));
      forall k | k in b.primes
        ensures k in r.primes && SurvivesAll(config, b.primes[k].workers, r.primes[k].workers)
      {
        WorkersRoundTrip(config, b.primes[k].workers);
      }
      assert r.primes.Keys == b.primes.Keys;
    }
  }

  lemma RestartSucceeds(config: Config, b: Broker)
    requires IdsOk(b) && 1 <= b.nextCursor <= MAX_SAFE_INTEGER && |b.commands| <= MAXIMUM_COMMANDS
    ensures var r := FromFile(ToFile(config, b)); Succeeds(b, r) && IdsOk(r) && r.nextCursor == b.nextCursor
  {
    FileRoundTrip(config, b);
    var r := FromFile(ToFile(config, b));
    if config.privateMode {
      forall k | k in b.primes ensures k in r.primes && WorkersSucceed(b.primes[k].workers, r.primes[k].workers) {
        assert SurvivesAll(config, b.primes[k].workers, r.primes[k].workers);
      }
      forall k, w | k in r.primes && w in r.primes[k].workers ensures ValidWorkerId(w) {
        assert SurvivesAll(config, b.primes[k].workers, r.primes[k].workers);
        assert w in b.primes[k].workers;
      }
    }
  }

  // ---- polling -------------------------------------------------------------------------------

  predicate Offered(c: Command, clientId: string, after: int) {
    c.cursor > after && c.status.Pending? && (c.target.None? || c.target == Some(clientId))
  }

  function Filter(commands: seq<Command>, clientId: string, after: int): (r: seq<Command>)
    ensures |r| <= |commands|
  {
    if commands == [] then []
    else (if Offered(commands[0], clientId, after) then [commands[0]] else []) + Filter(commands[1..], clientId, after)
  }

  function Poll(b: Broker, clientId: string, after: int): seq<Command> {
    var offered := Filter(b.commands, clientId, after);
    if |offered| <= 50 then offered else offered[..50]
  }

  ghost predicate Increasing(commands: seq<Command>) {
    forall i, j | 0 <= i < j < |commands| :: commands[i].cursor < commands[j].cursor
  }

  lemma {:induction false} FilterIsExact(commands: seq<Command>, clientId: string, after: int)
    requires Increasing(commands)
    ensures Increasing(Filter(commands, clientId, after))
    ensures forall c :: c in Filter(commands, clientId, after) <==> c in commands && Offered(c, clientId, after)
    decreases |commands|
  {
    if commands != [] {
      var rest := Filter(commands[1..], clientId, after);
      FilterIsExact(commands[1..], clientId, after);
      forall i | 0 <= i < |rest| ensures commands[0].cursor < rest[i].cursor {
        assert rest[i] in commands[1..];
      }
    }
  }

  /** A client's cursor after a poll: the largest it was given. */
  function CursorAfter(b: Broker, clientId: string, after: nat): nat {
    var given := Poll(b, clientId, after);
    if given == [] then after else given[|given| - 1].cursor
  }

  /** The first commands of an increasing list are those up to the last of them. */
  lemma PrefixIsUpTo(offered: seq<Command>, n: nat, c: Command)
    requires Increasing(offered) && 0 < n <= |offered|
    ensures c in offered[..n] <==> c in offered && c.cursor <= offered[n - 1].cursor
  {
    if c in offered {
      var i :| 0 <= i < |offered| && offered[i] == c;
      if i < n {
        assert offered[..n][i] == c;
      }
    }
  }

  /** A poll gives new offered commands in order, and passes over none that it could have given. */
  lemma PollIsExact(b: Broker, clientId: string, after: nat)
    requires CursorsOk(b)
    ensures var given := Poll(b, clientId, after); var next := CursorAfter(b, clientId, after);
      && Increasing(given) && after <= next
      && (forall c :: c in given <==>
            && c in b.commands && c.status.Pending? && (c.target == None || c.target == Some(clientId))
            && after < c.cursor <= next)
      && (given != [] ==> next == given[|given| - 1].cursor) && (given == [] ==> next == after)
      && |given| <= 50
      && (|given| < 50 ==> forall c | c in b.commands && Offered(c, clientId, after) :: c in given)
  {
    FilterIsExact(b.commands, clientId, after);
    var offered, given := Filter(b.commands, clientId, after), Poll(b, clientId, after);
    assert given == offered[..|given|];
    if given != [] {
      assert given[|given| - 1] in offered;
      forall c ensures c in given <==> c in offered && c.cursor <= CursorAfter(b, clientId, after) {
        PrefixIsUpTo(offered, |given|, c);
      }
    }
  }
}
