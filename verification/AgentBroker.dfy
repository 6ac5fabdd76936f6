/**
 The agent broker of src/agents.mjs over whole histories: mutations whose writes may fail, restarts in the
 same mode, and a client that polls with the largest cursor it has seen.
 */
module AgentBroker {
  import opened Optional
  import opened AgentState
  import opened DecimalOrder

  /** What is remembered of a command that was ever visible. */
  datatype Seen = Seen(id: string, target: Option<string>)

  /**
   `visible` is what `poll` and `status` read, `writing` what a mutation is persisting, `saved` the state
   agents.json was written from. The rest is history. Of the commands ever visible, by cursor: those that
   were `settled` (cancelled, acknowledged or failed), those that were `trimmed` while pending to keep the
   latest ones, and those that a restart `dropped` although the file had been written while they were
   pending. Of one client: its cursor and what it was given.
   */
  datatype System = System(
    visible: Broker, writing: Option<Broker>, saved: Broker, seen: map<nat, Seen>,
    settled: set<nat>, trimmed: set<nat>, dropped: set<nat>, after: nat, received: set<nat>)

  datatype Action =
    | Begin(op: Operation)
    | WriteSucceeds
    | WriteFails(landed: bool)      // the file may have been replaced nevertheless
    | Restart(landed: bool)         // possibly in the middle of a write
    | PollAgain

  function Note(seen: map<nat, Seen>, commands: seq<Command>): (r: map<nat, Seen>)
    ensures forall c | c in seen :: c in r && r[c] == seen[c]
    ensures forall i | 0 <= i < |commands| :: commands[i].cursor in r
    ensures forall c | c in r && c !in seen ::
      exists i | 0 <= i < |commands| :: commands[i].cursor == c && r[c] == Seen(commands[i].id, commands[i].target)
    decreases |commands|
  {
    if commands == [] then seen
    else
      var last := commands[|commands| - 1];
      var rest := Note(seen, commands[..|commands| - 1]);
      if last.cursor in rest then rest else rest[last.cursor := Seen(last.id, last.target)]
  }

  predicate Present(b: Broker, cursor: nat) {
    exists i | 0 <= i < |b.commands| :: b.commands[i].cursor == cursor
  }

  predicate Available(b: Broker, cursor: nat) {
    exists i | 0 <= i < |b.commands| :: b.commands[i].cursor == cursor && b.commands[i].status.Pending?
  }

  /** The state `b`, written or read back as `source`, becomes visible. */
  function Show(s: System, source: Broker, b: Broker): System {
    var seen := Note(s.seen, b.commands);
    s.(visible := b, writing := None, saved := b, seen := seen,
       settled := s.settled + (set c | c in seen && Present(source, c) && !Available(source, c)),
       trimmed := s.trimmed + (set c | c in s.seen && Available(s.visible, c) && !Present(source, c)),
       dropped := s.dropped
         + (set c | c in s.seen && Available(s.visible, c) && Available(source, c) && !Available(b, c)))
  }

  function Cursors(commands: seq<Command>): set<nat> {
    set i | 0 <= i < |commands| :: commands[i].cursor
  }

  function PollStep(s: System, clientId: string): System {
    s.(after := CursorAfter(s.visible, clientId, s.after),
       received := s.received + Cursors(Poll(s.visible, clientId, s.after)))
  }

  /** The state that the file holds at a restart. */
  function Written(s: System, landed: bool): Broker {
    if landed && s.writing.Some? then s.writing.value else s.saved
  }

  function Reread(config: Config, b: Broker): Broker { FromFile(ToFile(config, b)) }

  function Step(config: Config, clientId: string, s: System, a: Action): System {
    match a
    case Begin(op) =>
      var result := Apply(config, s.visible, op);
      if s.writing.Some? || result.Failed? then s else s.(writing := Some(Trimmed(result.value)))
    case WriteSucceeds => if s.writing.Some? then Show(s, s.writing.value, s.writing.value) else s
    case WriteFails(landed) =>
      if s.writing.None? then s
      else s.(writing := None, saved := if landed then s.writing.value else s.saved)
    case Restart(landed) => Show(s, Written(s, landed), Reread(config, Written(s, landed)))
    case PollAgain => PollStep(s, clientId)
  }

  function Run(config: Config, clientId: string, s: System, actions: seq<Action>): System
    decreases |actions|
  {
    if actions == [] then s else Run(config, clientId, Step(config, clientId, s, actions[0]), actions[1..])
  }

  function Start(): System {
    System(Empty(), None, Empty(), map[], {}, {}, {}, 0, {})
  }

  // ---- what every step keeps -----------------------------------------------------------------

  ghost predicate BrokerOk(b: Broker, n: nat) {
    CursorsOk(b) && IdsOk(b) && |b.commands| <= MAXIMUM_COMMANDS && b.nextCursor <= n
  }

  /** The commands of `b` are the ones seen with their cursors, or come after everything visible. */
  ghost predicate Follows(s: System, b: Broker) {
    && (forall c | c in s.seen :: c < b.nextCursor)
    && s.visible.nextCursor <= b.nextCursor
    && (forall i | 0 <= i < |b.commands| :: Recalled(s, b.commands[i]))
    && Succeeds(s.visible, b)
  }

  /** A command is new, or known by its cursor and pending only if it is visibly pending. */
  ghost predicate Recalled(s: System, c: Command) {
    if c.cursor in s.seen then
      && s.seen[c.cursor] == Seen(c.id, c.target)
      && (c.status.Pending? ==> Available(s.visible, c.cursor))
    else c.cursor >= s.visible.nextCursor
  }

  /** `b` holds as many commands as there may be, all of them later than the cursor. */
  ghost predicate Cut(b: Broker, cursor: nat) {
    |b.commands| == MAXIMUM_COMMANDS && forall i | 0 <= i < |b.commands| :: b.commands[i].cursor > cursor
  }

  /** What is visible is still in `b`, unless it had to make room. */
  ghost predicate Keeps(a: Broker, b: Broker) {
    forall i | 0 <= i < |a.commands| :: Present(b, a.commands[i].cursor) || Cut(b, a.commands[i].cursor)
  }

  ghost predicate Known(s: System, b: Broker) { Follows(s, b) && Keeps(s.visible, b) }

  ghost predicate StatesOk(s: System, n: nat) {
    && BrokerOk(s.visible, n) && BrokerOk(s.saved, n) && (s.writing.Some? ==> BrokerOk(s.writing.value, n))
    && (forall i | 0 <= i < |s.visible.commands| :: s.visible.commands[i].cursor in s.seen)
    && Known(s, s.visible) && Known(s, s.saved) && (s.writing.Some? ==> Known(s, s.writing.value))
  }

  predicate Lost(s: System, cursor: nat) { cursor in s.settled || cursor in s.trimmed || cursor in s.dropped }

  /** A command that was ever visible is available, or it is known why it is not. */
  ghost predicate LossesOk(s: System) {
    && (forall c | c in s.seen :: Explained(s, c))
    && (forall c | c in s.trimmed :: c + MAXIMUM_COMMANDS < s.visible.nextCursor)
    && (forall c | Lost(s, c) :: c in s.seen)
  }

  ghost predicate Explained(s: System, cursor: nat) { Available(s.visible, cursor) <==> !Lost(s, cursor) }

  predicate MeantFor(seen: Seen, clientId: string) { seen.target.None? || seen.target == Some(clientId) }

  ghost predicate ClientOk(s: System, clientId: string) {
    && s.after < s.visible.nextCursor
    && (forall c | c in s.received :: c in s.seen && c <= s.after)
    && (forall c | c in s.seen && c <= s.after && MeantFor(s.seen[c], clientId) :: c in s.received || Lost(s, c))
  }

  ghost predicate Inv(clientId: string, s: System, n: nat) {
    StatesOk(s, n) && LossesOk(s) && ClientOk(s, clientId)
  }

  lemma TrimmedIsTail(b: Broker)
    requires CursorsOk(b) && IdsOk(b)
    ensures CursorsOk(Trimmed(b)) && IdsOk(Trimmed(b)) && |Trimmed(b).commands| <= MAXIMUM_COMMANDS
    ensures Trimmed(b).nextCursor == b.nextCursor && Trimmed(b).primes == b.primes
    ensures forall i | 0 <= i < |Trimmed(b).commands| :: Trimmed(b).commands[i] in b.commands
    ensures forall i | 0 <= i < |b.commands| ::
      Present(Trimmed(b), b.commands[i].cursor) || Cut(Trimmed(b), b.commands[i].cursor)
  {
    var cut, t := |b.commands| - MAXIMUM_COMMANDS, Trimmed(b);
    forall i | 0 <= i < |b.commands| ensures Present(t, b.commands[i].cursor) || Cut(t, b.commands[i].cursor) {
      if cut <= i {
        assert t.commands[if cut > 0 then i - cut else i] == b.commands[i];
      }
    }
  }

  /** What follows from the visible state by an operation is known, also once it is trimmed. */
  lemma SuccessorIsKnown(s: System, b: Broker)
    requires Follows(s, s.visible) && CommandsContinue(s.visible, b) && Succeeds(s.visible, b)
    requires CursorsOk(b) && IdsOk(b)
    requires forall i | 0 <= i < |s.visible.commands| :: s.visible.commands[i].cursor in s.seen
    ensures Known(s, Trimmed(b))
  {
    var a := s.visible;
    TrimmedIsTail(b);
    forall i | 0 <= i < |b.commands| ensures Recalled(s, b.commands[i]) {
      if i < |a.commands| {
        assert a.commands[i].cursor == b.commands[i].cursor;
        assert Recalled(s, a.commands[i]);
      }
    }
    forall i | 0 <= i < |a.commands|
      ensures Present(Trimmed(b), a.commands[i].cursor) || Cut(Trimmed(b), a.commands[i].cursor)
    {
      assert a.commands[i].cursor == b.commands[i].cursor;
    }
  }

  lemma BeginKeeps(config: Config, clientId: string, s: System, op: Operation, n: nat)
    requires Inv(clientId, s, n) && s.writing.None? && Apply(config, s.visible, op).Ok?
    ensures Inv(clientId, Step(config, clientId, s, Begin(op)), n + 1)
  {
    var b := Apply(config, s.visible, op).value;
    ApplyContinues(config, s.visible, op);
    ApplySucceeds(config, s.visible, op);
    SuccessorIsKnown(s, b);
    TrimmedIsTail(b);
    WritingKeeps(clientId, s, Trimmed(b), n);
  }

  lemma WritingKeeps(clientId: string, s: System, b: Broker, n: nat)
    requires Inv(clientId, s, n) && BrokerOk(b, n + 1) && Known(s, b)
    ensures Inv(clientId, s.(writing := Some(b)), n + 1)
  {
    var t := s.(writing := Some(b));
    assert Known(t, b) && Known(t, s.visible) && Known(t, s.saved);
  }

  /** What is shown is all that was written, or none of the commands. */
  ghost predicate Rereads(source: Broker, b: Broker) {
    && b.nextCursor == source.nextCursor && Succeeds(source, b)
    && (b.commands == source.commands || b.commands == [])
  }

  lemma ShownIsRecalled(s: System, source: Broker, b: Broker, i: nat)
    requires Follows(s, source) && Rereads(source, b) && CursorsOk(b) && i < |b.commands|
    ensures var t := Show(s, source, b); b.commands[i].cursor in t.seen && Recalled(t, b.commands[i])
  {
    var seen, c := Note(s.seen, b.commands), b.commands[i].cursor;
    assert Recalled(s, b.commands[i]);
    if c !in s.seen {
      var j :| 0 <= j < |b.commands| && b.commands[j].cursor == c
        && seen[c] == Seen(b.commands[j].id, b.commands[j].target);
      assert i == j;
    }
  }

  /** Making a known state visible changes the command of no cursor. */
  lemma ShowKeepsStates(s: System, source: Broker, b: Broker, n: nat)
    requires StatesOk(s, n) && BrokerOk(b, n) && Known(s, source) && Rereads(source, b)
    ensures StatesOk(Show(s, source, b), n)
  {
    var t := Show(s, source, b);
    forall i | 0 <= i < |b.commands| ensures b.commands[i].cursor in t.seen && Recalled(t, b.commands[i]) {
      ShownIsRecalled(s, source, b, i);
    }
    assert Follows(t, b) by {
      ShownIsBelow(s, source, b);
    }
    assert Keeps(b, b);
  }

  lemma ShownIsBelow(s: System, source: Broker, b: Broker)
    requires Follows(s, source) && Rereads(source, b) && CursorsOk(b)
    ensures forall c | c in Show(s, source, b).seen :: c < b.nextCursor
  {
  }

  lemma NewlySeen(s: System, source: Broker, b: Broker, c: nat)
    requires Follows(s, source) && Rereads(source, b)
    requires c in Show(s, source, b).seen && c !in s.seen
    ensures s.visible.nextCursor <= c && Present(source, c) && b.commands == source.commands
  {
    var i :| 0 <= i < |b.commands| && b.commands[i].cursor == c;
    assert Recalled(s, b.commands[i]);
  }

  lemma {:induction false} CursorsSpread(commands: seq<Command>, i: nat)
    requires Increasing(commands) && i < |commands|
    ensures commands[i].cursor >= commands[0].cursor + i
  {
    if i > 0 {
      CursorsSpread(commands, i - 1);
    }
  }

  /** Whatever is trimmed is older than the latest commands there may be. */
  lemma CutIsOld(b: Broker, c: nat)
    requires CursorsOk(b) && Cut(b, c)
    ensures c + MAXIMUM_COMMANDS < b.nextCursor
  {
    CursorsSpread(b.commands, MAXIMUM_COMMANDS - 1);
  }

  /** A command that is pending in a known state is visibly pending, unless it is new. */
  lemma PendingIsVisible(s: System, b: Broker, c: nat)
    requires Follows(s, b) && c in s.seen && Available(b, c)
    ensures Available(s.visible, c)
  {
    var i :| 0 <= i < |b.commands| && b.commands[i].cursor == c && b.commands[i].status.Pending?;
    assert Recalled(s, b.commands[i]);
  }

  lemma ShowKeepsLosses(s: System, source: Broker, b: Broker, n: nat)
    requires StatesOk(s, n) && LossesOk(s) && BrokerOk(b, n) && CursorsOk(source)
    requires Known(s, source) && Rereads(source, b)
    ensures LossesOk(Show(s, source, b))
  {
    var t := Show(s, source, b);
    forall c | c in t.seen ensures Explained(t, c) {
      if c in s.seen {
        OldLosses(s, source, b, c);
      } else {
        NewLosses(s, source, b, n, c);
      }
    }
    forall c | c in t.trimmed ensures c + MAXIMUM_COMMANDS < t.visible.nextCursor {
      TrimmedIsOld(s, source, b, c);
    }
    forall c | Lost(t, c) ensures c in t.seen {
      LostWasSeen(s, source, b, c);
    }
  }

  lemma LostWasSeen(s: System, source: Broker, b: Broker, c: nat)
    requires LossesOk(s) && Lost(Show(s, source, b), c)
    ensures c in Show(s, source, b).seen
  {
    assert Lost(s, c) || c in s.seen || c in Show(s, source, b).seen;
  }

  lemma TrimmedIsOld(s: System, source: Broker, b: Broker, c: nat)
    requires LossesOk(s) && CursorsOk(source) && Known(s, source) && Rereads(source, b)
    requires c in Show(s, source, b).trimmed
    ensures c + MAXIMUM_COMMANDS < b.nextCursor
  {
    if c !in s.trimmed {
      TrimmedIsCut(s, source, c);
      CutIsOld(source, c);
    }
  }

  lemma TrimmedIsCut(s: System, b: Broker, c: nat)
    requires Keeps(s.visible, b) && Available(s.visible, c) && !Present(b, c)
    ensures Cut(b, c)
  {
    var i :| 0 <= i < |s.visible.commands| && s.visible.commands[i].cursor == c;
    assert Present(b, s.visible.commands[i].cursor) || Cut(b, s.visible.commands[i].cursor);
  }

  lemma OldLosses(s: System, source: Broker, b: Broker, c: nat)
    requires LossesOk(s) && Follows(s, source) && Rereads(source, b) && c in s.seen
    ensures Explained(Show(s, source, b), c)
  {
    var t := Show(s, source, b);
    assert Available(b, c) ==> Available(source, c) && Present(source, c);
    if Available(source, c) {
      PendingIsVisible(s, source, c);
    }
    assert c in t.settled <==> c in s.settled || (Present(source, c) && !Available(source, c));
    assert c in t.trimmed <==> c in s.trimmed || (Available(s.visible, c) && !Present(source, c));
    assert c in t.dropped <==>
      c in s.dropped || (Available(s.visible, c) && Available(source, c) && !Available(b, c));
  }

  lemma NewLosses(s: System, source: Broker, b: Broker, n: nat, c: nat)
    requires StatesOk(s, n) && LossesOk(s) && Follows(s, source) && Rereads(source, b)
    requires c in Show(s, source, b).seen && c !in s.seen
    ensures Explained(Show(s, source, b), c)
  {
    var t := Show(s, source, b);
    NewlySeen(s, source, b, c);
    assert c in t.settled <==> !Available(source, c);
  }

  lemma ShowKeeps(clientId: string, s: System, source: Broker, b: Broker, n: nat)
    requires Inv(clientId, s, n) && BrokerOk(b, n) && CursorsOk(source)
    requires Known(s, source) && Rereads(source, b)
    ensures Inv(clientId, Show(s, source, b), n)
  {
    var t := Show(s, source, b);
    ShowKeepsStates(s, source, b, n);
    ShowKeepsLosses(s, source, b, n);
    forall c | c in t.seen && c <= t.after && MeantFor(t.seen[c], clientId) ensures c in t.received || Lost(t, c) {
      if c !in s.seen {
        NewlySeen(s, source, b, c);
      }
    }
  }

  lemma RereadIsFaithful(config: Config, b: Broker, n: nat)
    requires BrokerOk(b, n) && n <= MAX_SAFE_INTEGER
    ensures Rereads(b, Reread(config, b)) && BrokerOk(Reread(config, b), n)
    ensures config.privateMode ==> Reread(config, b).commands == []
    ensures !config.privateMode ==> Reread(config, b) == b
  {
    RestartSucceeds(config, b);
    FileRoundTrip(config, b);
  }

  lemma RestartKeeps(config: Config, clientId: string, s: System, source: Broker, n: nat)
    requires Inv(clientId, s, n) && n <= MAX_SAFE_INTEGER && BrokerOk(source, n) && Known(s, source)
    ensures Inv(clientId, Show(s, source, Reread(config, source)), n)
  {
    RereadIsFaithful(config, source, n);
    ShowKeeps(clientId, s, source, Reread(config, source), n);
  }

  lemma PollKeeps(clientId: string, s: System, n: nat)
    requires Inv(clientId, s, n)
    ensures Inv(clientId, PollStep(s, clientId), n)
  {
    var t := PollStep(s, clientId);
    GivenAreSeen(clientId, s, n);
    forall c | c in t.seen && c <= t.after && MeantFor(t.seen[c], clientId) ensures c in t.received || Lost(t, c) {
      if c > s.after && !Lost(s, c) {
        AvailableIsGiven(clientId, s, n, c);
      }
    }
    assert Known(t, t.visible) && Known(t, t.saved) && (t.writing.Some? ==> Known(t, t.writing.value));
  }

  lemma GivenAreSeen(clientId: string, s: System, n: nat)
    requires StatesOk(s, n) && s.after < s.visible.nextCursor
    ensures var next := CursorAfter(s.visible, clientId, s.after);
      && s.after <= next < s.visible.nextCursor
      && forall c | c in Cursors(Poll(s.visible, clientId, s.after)) :: c in s.seen && c <= next
  {
    PollIsExact(s.visible, clientId, s.after);
    var given := Poll(s.visible, clientId, s.after);
    forall i | 0 <= i < |given|
      ensures given[i] in s.visible.commands && given[i].cursor in s.seen
      ensures given[i].cursor <= CursorAfter(s.visible, clientId, s.after)
    {
      assert given[i] in given;
    }
  }

  lemma AvailableIsGiven(clientId: string, s: System, n: nat, c: nat)
    requires StatesOk(s, n) && c in s.seen && MeantFor(s.seen[c], clientId) && Available(s.visible, c)
    requires s.after < c <= CursorAfter(s.visible, clientId, s.after)
    ensures c in Cursors(Poll(s.visible, clientId, s.after))
  {
    PollIsExact(s.visible, clientId, s.after);
    var given := Poll(s.visible, clientId, s.after);
    var i :| 0 <= i < |s.visible.commands| && s.visible.commands[i].cursor == c
      && s.visible.commands[i].status.Pending?;
    assert Recalled(s, s.visible.commands[i]);
    assert s.visible.commands[i] in given;
    var k :| 0 <= k < |given| && given[k] == s.visible.commands[i];
  }

  lemma FailureKeeps(clientId: string, s: System, saved: Broker, n: nat)
    requires Inv(clientId, s, n) && BrokerOk(saved, n) && Known(s, saved)
    ensures Inv(clientId, s.(writing := None, saved := saved), n)
  {
    var t := s.(writing := None, saved := saved);
    assert Known(t, t.visible) && Known(t, saved);
  }

  lemma InvGrows(clientId: string, s: System, n: nat)
    requires Inv(clientId, s, n)
    ensures Inv(clientId, s, n + 1)
  {
  }

  lemma StepKeeps(config: Config, clientId: string, s: System, a: Action, n: nat)
    requires Inv(clientId, s, n) && n < MAX_SAFE_INTEGER
    ensures Inv(clientId, Step(config, clientId, s, a), n + 1)
  {
    InvGrows(clientId, s, n);
    match a
    case Begin(op) =>
      if s.writing.None? && Apply(config, s.visible, op).Ok? { BeginKeeps(config, clientId, s, op, n); }
    case WriteSucceeds =>
      if s.writing.Some? { ShowKeeps(clientId, s, s.writing.value, s.writing.value, n + 1); }
    case WriteFails(landed) =>
      if s.writing.Some? { FailureKeeps(clientId, s, if landed then s.writing.value else s.saved, n + 1); }
    case Restart(landed) => RestartKeeps(config, clientId, s, Written(s, landed), n + 1);
    case PollAgain => PollKeeps(clientId, s, n + 1);
  }

  lemma {:induction false} RunKeeps(config: Config, clientId: string, s: System, actions: seq<Action>, n: nat)
    requires Inv(clientId, s, n) && n + |actions| <= MAX_SAFE_INTEGER
    ensures Inv(clientId, Run(config, clientId, s, actions), n + |actions|)
    decreases |actions|
  {
    if actions != [] {
      StepKeeps(config, clientId, s, actions[0], n);
      RunKeeps(config, clientId, Step(config, clientId, s, actions[0]), actions[1..], n + 1);
    }
  }

  lemma {:induction false} RunThenStep(config: Config, clientId: string, s: System, actions: seq<Action>, a: Action)
    ensures Run(config, clientId, s, actions + [a]) == Step(config, clientId, Run(config, clientId, s, actions), a)
    decreases |actions|
  {
    var all := actions + [a];
    if actions != [] {
      assert all[0] == actions[0] && all[1..] == actions[1..] + [a];
      RunThenStep(config, clientId, Step(config, clientId, s, actions[0]), actions[1..], a);
    } else {
      assert all[0] == a && all[1..] == [];
    }
  }

  // ---- results -------------------------------------------------------------------------------

  /**
   In every history shorter than the safe integers, a cursor that was ever visible belongs to the same
   command for ever, across failed writes and restarts; visible cursors increase strictly; and the next
   command gets a cursor that was never visible.
   */
  lemma CursorsAreNeverReused(config: Config, clientId: string, actions: seq<Action>, more: seq<Action>)
    requires |actions| + |more| < MAX_SAFE_INTEGER
    ensures var s := Run(config, clientId, Start(), actions); var t := Run(config, clientId, s, more);
      && (forall c | c in s.seen :: c in t.seen && t.seen[c] == s.seen[c] && c < t.visible.nextCursor)
      && (forall i | 0 <= i < |t.visible.commands| :: t.visible.commands[i].cursor in t.seen
            && t.seen[t.visible.commands[i].cursor] == Seen(t.visible.commands[i].id, t.visible.commands[i].target))
      && Increasing(t.visible.commands)
  {
    var s := Run(config, clientId, Start(), actions);
    var t := Run(config, clientId, s, more);
    RunKeeps(config, clientId, Start(), actions, 1);
    RunKeeps(config, clientId, s, more, 1 + |actions|);
    SeenGrows(config, clientId, s, more);
    forall i | 0 <= i < |t.visible.commands|
      ensures t.visible.commands[i].cursor in t.seen
        && t.seen[t.visible.commands[i].cursor] == Seen(t.visible.commands[i].id, t.visible.commands[i].target)
    {
      assert Recalled(t, t.visible.commands[i]);
    }
  }

  lemma {:induction false} SeenGrows(config: Config, clientId: string, s: System, actions: seq<Action>)
    ensures var t := Run(config, clientId, s, actions);
      forall c | c in s.seen :: c in t.seen && t.seen[c] == s.seen[c]
    decreases |actions|
  {
    if actions != [] {
      SeenGrows(config, clientId, Step(config, clientId, s, actions[0]), actions[1..]);
    }
  }

  /**
   A client that polls with the largest cursor it was given gets every command at most once. Of the commands
   meant for it that its cursor has passed it missed only those settled, those trimmed to make room for as
   many later ones as the broker holds, and those that a restart dropped.
   */
  lemma ClientMissesNothing(config: Config, clientId: string, actions: seq<Action>)
    requires |actions| < MAX_SAFE_INTEGER
    ensures var s := Run(config, clientId, Start(), actions); var given := Poll(s.visible, clientId, s.after);
      && (forall c | c in given :: c.cursor !in s.received)
      && Increasing(given)
      && (forall c | c in s.seen && c <= s.after && MeantFor(s.seen[c], clientId) ::
            c in s.received || c in s.settled || c in s.trimmed || c in s.dropped)
      && (forall c | c in s.seen ::
            Available(s.visible, c) <==> c !in s.settled && c !in s.trimmed && c !in s.dropped)
      && (forall c | c in s.trimmed :: c + MAXIMUM_COMMANDS < s.visible.nextCursor)
  {
    RunKeeps(config, clientId, Start(), actions, 1);
    var s := Run(config, clientId, Start(), actions);
    PollIsExact(s.visible, clientId, s.after);
    forall c | c in s.seen
      ensures Available(s.visible, c) <==> c !in s.settled && c !in s.trimmed && c !in s.dropped
    {
      assert Explained(s, c);
    }
  }

  /** A restart with private payloads finds a command pending, both visibly and in what the file was written from. */
  ghost predicate Drops(config: Config, s: System, a: Action, c: nat) {
    a.Restart? && config.privateMode && Available(s.visible, c) && Available(Written(s, a.landed), c)
  }

  lemma StepDrops(config: Config, clientId: string, s: System, a: Action, c: nat, n: nat)
    requires Inv(clientId, s, n) && n <= MAX_SAFE_INTEGER
    ensures c in Step(config, clientId, s, a).dropped <==> c in s.dropped || Drops(config, s, a, c)
  {
    if a.Restart? {
      var source := Written(s, a.landed);
      RereadIsFaithful(config, source, n);
      if Available(s.visible, c) {
        var i :| 0 <= i < |s.visible.commands| && s.visible.commands[i].cursor == c;
      }
    }
  }

  /** A command is dropped exactly when a restart with private payloads meets it while it is pending. */
  lemma {:induction false} DroppedByPrivateRestart(config: Config, clientId: string, actions: seq<Action>, c: nat)
    requires |actions| < MAX_SAFE_INTEGER
    ensures c in Run(config, clientId, Start(), actions).dropped <==>
      exists i | 0 <= i < |actions| :: Drops(config, Run(config, clientId, Start(), actions[..i]), actions[i], c)
    decreases |actions|
  {
    if actions != [] {
      var n := |actions| - 1;
      var before := actions[..n];
      assert before + [actions[n]] == actions;
      RunThenStep(config, clientId, Start(), before, actions[n]);
      RunKeeps(config, clientId, Start(), before, 1);
      StepDrops(config, clientId, Run(config, clientId, Start(), before), actions[n], c, 1 + n);
      DroppedByPrivateRestart(config, clientId, before, c);
      assert forall i | 0 <= i < n :: before[..i] == actions[..i] && before[i] == actions[i];
    }
  }

  /** With payloads recorded, or without restarts, the client misses only what was settled or trimmed. */
  lemma NothingDropped(config: Config, clientId: string, actions: seq<Action>)
    requires |actions| < MAX_SAFE_INTEGER
    requires !config.privateMode || forall i | 0 <= i < |actions| :: !actions[i].Restart?
    ensures Run(config, clientId, Start(), actions).dropped == {}
  {
    forall c ensures c !in Run(config, clientId, Start(), actions).dropped {
      DroppedByPrivateRestart(config, clientId, actions, c);
    }
  }

  const DROPPING: seq<Action> := [
    Begin(Enqueue("a", None)), WriteSucceeds, Restart(false),
    Begin(Enqueue("b", None)), WriteSucceeds, PollAgain]

  const ONLY_A: Broker := Broker(2, [Command("a", 1, Pending, None, None)], map[])
  const ONLY_B: Broker := Broker(3, [Command("b", 2, Pending, None, None)], map[])

  const SHOWN_A: System := System(ONLY_A, None, ONLY_A, map[1 := Seen("a", None)], {}, {}, {}, 0, {})

  const RESTARTED: System :=
    SHOWN_A.(visible := Broker(2, [], map[]), saved := Broker(2, [], map[]), dropped := {1})

  const SHOWN_B: System :=
    System(ONLY_B, None, ONLY_B, map[1 := Seen("a", None), 2 := Seen("b", None)], {}, {}, {1}, 0, {})

  /** Two commands with a restart between them: with private payloads the client never gets the first. */
  lemma PrivateRestartDropsPending(config: Config, clientId: string)
    requires config.privateMode
    ensures var s := Run(config, clientId, Start(), DROPPING);
      && 1 in s.seen && MeantFor(s.seen[1], clientId) && 1 <= s.after == 2
      && s.received == {2} && s.settled == {} && s.trimmed == {} && s.dropped == {1}
  {
    UpToRestart(config, clientId);
    FromRestart(config, clientId);
    GivenB(clientId);
    assert DROPPING == DROPPING[..3] + DROPPING[3..];
    RunInTwo(config, clientId, Start(), DROPPING[..3], DROPPING[3..]);
  }

  lemma {:induction false} RunInTwo(
    config: Config, clientId: string, s: System, actions: seq<Action>, more: seq<Action>)
    ensures Run(config, clientId, s, actions + more) ==
      Run(config, clientId, Run(config, clientId, s, actions), more)
    decreases |more|
  {
    if more == [] {
      assert actions + more == actions;
    } else {
      var n := |more| - 1;
      assert (actions + more[..n]) + [more[n]] == actions + more && more[..n] + [more[n]] == more;
      RunInTwo(config, clientId, s, actions, more[..n]);
      RunThenStep(config, clientId, s, actions + more[..n], more[n]);
      RunThenStep(config, clientId, Run(config, clientId, s, actions), more[..n], more[n]);
    }
  }

  lemma UpToRestart(config: Config, clientId: string)
    requires config.privateMode
    ensures Run(config, clientId, Start(), DROPPING[..3]) == RESTARTED
  {
    var enqueued := Start().(writing := Some(ONLY_A));
    EnqueueStep(config, clientId, Start(), "a");
    assert Enqueued(Empty(), "a", None, None) == ONLY_A;
    ShowOnly(enqueued, ONLY_A, map[1 := Seen("a", None)]);
    assert Reread(config, ONLY_A) == RESTARTED.visible;
    ShowNone(SHOWN_A);
    RunOfThree(config, clientId, Start(), DROPPING[..3]);
  }

  lemma FromRestart(config: Config, clientId: string)
    ensures Run(config, clientId, RESTARTED, DROPPING[3..]) == PollStep(SHOWN_B, clientId)
  {
    var enqueued := RESTARTED.(writing := Some(ONLY_B));
    EnqueueStep(config, clientId, RESTARTED, "b");
    assert Enqueued(RESTARTED.visible, "b", None, None) == ONLY_B;
    ShowOnly(enqueued, ONLY_B, SHOWN_B.seen);
    RunOfThree(config, clientId, RESTARTED, DROPPING[3..]);
  }

  lemma RunOfThree(config: Config, clientId: string, s: System, actions: seq<Action>)
    requires |actions| == 3
    ensures Run(config, clientId, s, actions) ==
      Step(config, clientId, Step(config, clientId, Step(config, clientId, s, actions[0]), actions[1]), actions[2])
  {
    var t := Step(config, clientId, s, actions[0]);
    assert Run(config, clientId, t, actions[1..]) ==
      Run(config, clientId, Step(config, clientId, t, actions[1]), actions[1..][1..]);
  }

  lemma GivenB(clientId: string)
    ensures PollStep(SHOWN_B, clientId) == SHOWN_B.(after := 2, received := {2})
  {
    assert Filter(ONLY_B.commands, clientId, 0) == ONLY_B.commands;
    assert Cursors(ONLY_B.commands) == {2};
  }

  lemma EnqueueStep(config: Config, clientId: string, s: System, id: string)
    requires s.writing.None? && |s.visible.commands| < MAXIMUM_COMMANDS
    ensures Step(config, clientId, s, Begin(Enqueue(id, None)))
      == s.(writing := Some(Enqueued(s.visible, id, None, None)))
  {
  }

  /** A first, pending command becomes visible. */
  lemma ShowOnly(s: System, b: Broker, seen: map<nat, Seen>)
    requires s.visible.commands == [] && |b.commands| == 1 && b.commands[0].status.Pending?
    requires var c := b.commands[0]; c.cursor !in s.seen && seen == s.seen[c.cursor := Seen(c.id, c.target)]
    requires forall c | c in s.seen :: c < b.commands[0].cursor
    ensures Show(s, b, b) == s.(visible := b, writing := None, saved := b, seen := seen)
  {
    assert b.commands[..0] == [];
    assert Note(s.seen, b.commands) == seen;
    assert Show(s, b, b).settled == s.settled;
  }

  /** The only, pending command is not read back. */
  lemma ShowNone(s: System)
    requires s.saved == s.visible == ONLY_A && s.writing.None? && s.seen.Keys == {1}
    requires s.settled == s.trimmed == s.dropped == {}
    ensures Show(s, ONLY_A, RESTARTED.visible) ==
      s.(visible := RESTARTED.visible, saved := RESTARTED.visible, dropped := {1})
  {
    var t := Show(s, ONLY_A, RESTARTED.visible);
    assert ONLY_A.commands[0].cursor == 1;
    assert t.settled == {} && t.trimmed == {};
    assert t.dropped == {1};
  }

  lemma StepSucceeds(config: Config, clientId: string, s: System, a: Action, n: nat)
    requires Inv(clientId, s, n) && n <= MAX_SAFE_INTEGER
    ensures Succeeds(s.visible, Step(config, clientId, s, a).visible)
  {
    if a.Restart? {
      var source := Written(s, a.landed);
      RereadIsFaithful(config, source, n);
      SucceedsIsTransitive(s.visible, source, Reread(config, source));
    }
  }

  lemma {:induction false} RunSucceeds(config: Config, clientId: string, s: System, actions: seq<Action>, n: nat)
    requires Inv(clientId, s, n) && n + |actions| <= MAX_SAFE_INTEGER
    ensures Succeeds(s.visible, Run(config, clientId, s, actions).visible)
    decreases |actions|
  {
    if actions != [] {
      var t := Step(config, clientId, s, actions[0]);
      StepSucceeds(config, clientId, s, actions[0], n);
      StepKeeps(config, clientId, s, actions[0], n);
      RunSucceeds(config, clientId, t, actions[1..], n + 1);
      SucceedsIsTransitive(s.visible, t.visible, Run(config, clientId, t, actions[1..]).visible);
    }
  }

  lemma LaterSucceeds(config: Config, clientId: string, actions: seq<Action>, more: seq<Action>)
    requires |actions| + |more| < MAX_SAFE_INTEGER
    ensures var s := Run(config, clientId, Start(), actions);
      Succeeds(s.visible, Run(config, clientId, s, more).visible)
  {
    RunKeeps(config, clientId, Start(), actions, 1);
    RunSucceeds(config, clientId, Run(config, clientId, Start(), actions), more, 1 + |actions|);
  }

  /** Over every later history workers stay known to their prime, and retired ones stay retired. */
  lemma WorkersStay(config: Config, clientId: string, actions: seq<Action>, more: seq<Action>, key: string, id: string)
    requires |actions| + |more| < MAX_SAFE_INTEGER
    requires var b := Run(config, clientId, Start(), actions).visible; key in b.primes && id in b.primes[key].workers
    ensures var s := Run(config, clientId, Start(), actions); var t := Run(config, clientId, s, more).visible;
      && key in t.primes && id in t.primes[key].workers
      && (s.visible.primes[key].workers[id].status.Retired? ==> t.primes[key].workers[id].status.Retired?)
  {
    LaterSucceeds(config, clientId, actions, more);
  }

  /** An id once used in a prime cannot be spawned there again, whatever happens in between. */
  lemma UsedIdsStayReserved(
    config: Config, clientId: string, actions: seq<Action>, more: seq<Action>, op: Operation)
    requires |actions| + |more| < MAX_SAFE_INTEGER && op.Spawn?
    requires var s := Run(config, clientId, Start(), actions); var t := Run(config, clientId, s, more);
      SpawnedId(config, t.visible, op) in Workers(config, s.visible, op.primeId)
    ensures var s := Run(config, clientId, Start(), actions); var t := Run(config, clientId, s, more);
      Step(config, clientId, t, Begin(op)) == t
  {
    var s := Run(config, clientId, Start(), actions);
    LaterSucceeds(config, clientId, actions, more);
    UsedIdIsRefused(config, s.visible, Run(config, clientId, s, more).visible, op);
  }

  /** Once a worker is retired, nothing sent to it, registered for it or reported by it is accepted again. */
  lemma RetiredStaysRetired(
    config: Config, clientId: string, actions: seq<Action>, more: seq<Action>, op: Operation)
    requires |actions| + |more| < MAX_SAFE_INTEGER && (op.SendMessage? || op.Register? || op.Report?)
    requires var b := Run(config, clientId, Start(), actions).visible;
      && op.workerId in Workers(config, b, op.primeId)
      && Workers(config, b, op.primeId)[op.workerId].status.Retired?
    ensures var s := Run(config, clientId, Start(), actions); var t := Run(config, clientId, s, more);
      Step(config, clientId, t, Begin(op)) == t
  {
    var s := Run(config, clientId, Start(), actions);
    LaterSucceeds(config, clientId, actions, more);
    RetiredIsRefused(config, s.visible, Run(config, clientId, s, more).visible, op);
  }

  // ---- clearing is for good ------------------------------------------------------------------

  /** What was lost stays lost. */
  lemma {:induction false} LossesStay(config: Config, clientId: string, s: System, actions: seq<Action>, c: nat)
    requires Lost(s, c)
    ensures Lost(Run(config, clientId, s, actions), c)
    decreases |actions|
  {
    if actions != [] {
      LossesStay(config, clientId, Step(config, clientId, s, actions[0]), actions[1..], c);
    }
  }

  lemma LostIsNotOffered(config: Config, clientId: string, s: System, n: nat, c: nat, other: string, after: nat)
    requires Inv(clientId, s, n) && Lost(s, c)
    ensures forall command | command in Poll(s.visible, other, after) :: command.cursor != c
  {
    assert c in s.seen && Explained(s, c);
    PollIsExact(s.visible, other, after);
    forall command | command in Poll(s.visible, other, after) ensures command.cursor != c {
      assert command in s.visible.commands && command.status.Pending?;
      var i :| 0 <= i < |s.visible.commands| && s.visible.commands[i] == command;
      assert command.cursor == c ==> Available(s.visible, c);
    }
  }

  /** The two steps of a successful clear. */
  function Cleared(primeId: string): seq<Action> { [Begin(Clear(primeId, true)), WriteSucceeds] }

  lemma ClearSteps(config: Config, clientId: string, s: System, primeId: string, n: nat)
    requires Inv(clientId, s, n) && n + 2 <= MAX_SAFE_INTEGER && s.writing.None?
    ensures var t := Run(config, clientId, s, Cleared(primeId));
      Inv(clientId, t, n + 2) && t.visible == Apply(config, s.visible, Clear(primeId, true)).value
      && forall c | c in s.seen :: c in t.seen
  {
    var b := Apply(config, s.visible, Clear(primeId, true)).value;
    ClearMeans(config, s.visible, Clear(primeId, true));
    assert Trimmed(b) == b;
    assert Cleared(primeId)[1..] == [WriteSucceeds] && [WriteSucceeds][1..] == [];
    RunKeeps(config, clientId, s, Cleared(primeId), n);
    var begun := s.(writing := Some(b));
    assert Step(config, clientId, s, Cleared(primeId)[0]) == begun;
    assert Run(config, clientId, begun, [WriteSucceeds]) == Show(begun, b, b);
  }

  /** A command of the prime that was pending is lost by the clear. */
  lemma ClearLoses(config: Config, clientId: string, s: System, primeId: string, n: nat, i: nat)
    requires Inv(clientId, s, n) && n + 2 <= MAX_SAFE_INTEGER && s.writing.None?
    requires i < |s.visible.commands| && s.visible.commands[i].status.Pending?
    requires s.visible.commands[i].primeId == Some(primeId)
    ensures Lost(Run(config, clientId, s, Cleared(primeId)), s.visible.commands[i].cursor)
  {
    var t, c := Run(config, clientId, s, Cleared(primeId)), s.visible.commands[i].cursor;
    ClearSteps(config, clientId, s, primeId, n);
    ClearMeans(config, s.visible, Clear(primeId, true));
    assert t.visible.commands[i] == s.visible.commands[i].(status := Cancelled);
    SettledIsLost(clientId, t, n + 2, i);
  }

  lemma SettledIsLost(clientId: string, s: System, n: nat, i: nat)
    requires Inv(clientId, s, n) && i < |s.visible.commands| && !s.visible.commands[i].status.Pending?
    ensures Lost(s, s.visible.commands[i].cursor)
  {
    assert Explained(s, s.visible.commands[i].cursor);
  }

  lemma ClearedWorkers(
    config: Config, clientId: string, s: System, n: nat, more: seq<Action>, primeId: string, op: Operation)
    requires Inv(clientId, s, n) && n + 2 + |more| <= MAX_SAFE_INTEGER && s.writing.None?
    requires (op.SendMessage? || op.Register? || op.Report?) && op.primeId == primeId
    requires WorkerOf(config, s.visible, primeId, op.workerId).Some?
    ensures Apply(config, Run(config, clientId, Run(config, clientId, s, Cleared(primeId)), more).visible, op).Failed?
  {
    var t := Run(config, clientId, s, Cleared(primeId));
    ClearSteps(config, clientId, s, primeId, n);
    ClearMeans(config, s.visible, Clear(primeId, true));
    RunSucceeds(config, clientId, t, more, n + 2);
    RetiredWorkerIsRefused(config, t.visible, Run(config, clientId, t, more).visible, op);
  }

  lemma ClearedCommands(
    config: Config, clientId: string, s: System, n: nat, more: seq<Action>, primeId: string, i: nat,
    other: string, after: nat)
    requires Inv(clientId, s, n) && n + 2 + |more| <= MAX_SAFE_INTEGER && s.writing.None?
    requires i < |s.visible.commands| && s.visible.commands[i].status.Pending?
    requires s.visible.commands[i].primeId == Some(primeId)
    ensures var u := Run(config, clientId, Run(config, clientId, s, Cleared(primeId)), more);
      forall command | command in Poll(u.visible, other, after) :: command.cursor != s.visible.commands[i].cursor
  {
    var t, c := Run(config, clientId, s, Cleared(primeId)), s.visible.commands[i].cursor;
    ClearSteps(config, clientId, s, primeId, n);
    ClearLoses(config, clientId, s, primeId, n, i);
    RunKeeps(config, clientId, t, more, n + 2);
    LossesStay(config, clientId, t, more, c);
    LostIsNotOffered(config, clientId, Run(config, clientId, t, more), n + 2 + |more|, c, other, after);
  }

  /** After a clear no worker the prime had takes a message, a registration or a report again. */
  lemma ClearedWorkersStayRetired(
    config: Config, clientId: string, actions: seq<Action>, more: seq<Action>, primeId: string, op: Operation)
    requires |actions| + |more| + 2 < MAX_SAFE_INTEGER
    requires Run(config, clientId, Start(), actions).writing.None?
    requires (op.SendMessage? || op.Register? || op.Report?) && op.primeId == primeId
    requires WorkerOf(config, Run(config, clientId, Start(), actions).visible, primeId, op.workerId).Some?
    ensures var s := Run(config, clientId, Start(), actions);
            var u := Run(config, clientId, Run(config, clientId, s, Cleared(primeId)), more);
      Step(config, clientId, u, Begin(op)) == u
  {
    var s := Run(config, clientId, Start(), actions);
    RunKeeps(config, clientId, Start(), actions, 1);
    ClearedWorkers(config, clientId, s, 1 + |actions|, more, primeId, op);
  }

  /** And no command that the prime had pending is offered again, to anybody, over all later histories. */
  lemma ClearedCommandsStayCancelled(
    config: Config, clientId: string, actions: seq<Action>, more: seq<Action>, primeId: string, i: nat,
    other: string, after: nat)
    requires |actions| + |more| + 2 < MAX_SAFE_INTEGER
    requires var s := Run(config, clientId, Start(), actions);
      && s.writing.None? && i < |s.visible.commands| && s.visible.commands[i].status.Pending?
      && s.visible.commands[i].primeId == Some(primeId)
    ensures var s := Run(config, clientId, Start(), actions);
            var u := Run(config, clientId, Run(config, clientId, s, Cleared(primeId)), more);
      forall command | command in Poll(u.visible, other, after) :: command.cursor != s.visible.commands[i].cursor
  {
    var s := Run(config, clientId, Start(), actions);
    RunKeeps(config, clientId, Start(), actions, 1);
    ClearedCommands(config, clientId, s, 1 + |actions|, more, primeId, i, other, after);
  }

  lemma RetiredWorkerIsRefused(config: Config, a: Broker, b: Broker, op: Operation)
    requires Succeeds(a, b) && (op.SendMessage? || op.Register? || op.Report?)
    requires var w := WorkerOf(config, a, op.primeId, op.workerId); w.Some? && w.value.status.Retired?
    ensures Apply(config, b, op).Failed?
  {
    RetiredIsRefused(config, a, b, op);
  }

  // ---- the broker object ---------------------------------------------------------------------

  class AgentBroker {
    const config: Config
    var state: Broker
    var visibleState: Broker
    var file: File

    constructor (config: Config)
      ensures this.config == config && state == visibleState == Empty() && file == ToFile(config, Empty())
    {
      this.config, state, visibleState := config, Empty(), Empty();
      file := ToFile(config, Empty());
    }

    /** `initialize`: reads the file of an earlier process in the same mode and writes it back. */
    method Initialize()
      modifies this
      ensures state == visibleState == Trimmed(FromFile(old(file))) && file == ToFile(config, state)
    {
      state := FromFile(file);
      var persisted := Persist(true, true);
    }

    /** Whether the write succeeds is up to the file system; a failed one may have replaced the file. */
    method Persist(written: bool, landed: bool) returns (ok: bool)
      modifies this
      ensures ok == written && state == Trimmed(old(state))
      ensures visibleState == if written then state else old(visibleState)
      ensures file == if written || landed then ToFile(config, state) else old(file)
    {
      if |state.commands| > MAXIMUM_COMMANDS {
        state := state.(commands := state.commands[|state.commands| - MAXIMUM_COMMANDS..]);
      }
      var runtimeSnapshot := state;
      if written || landed {
        file := ToFile(config, state);
      }
      if written {
        visibleState := runtimeSnapshot;
      }
      ok := written;
    }

    method EnqueueUnlocked(id: string, target: Option<string>, primeId: Option<string>)
      modifies this`state
      ensures state == Enqueued(old(state), id, target, primeId)
    {
      var item := Command(id, state.nextCursor, Pending, target, primeId);
      state := state.(nextCursor := state.nextCursor + 1);
      state := state.(commands := state.commands + [item]);
    }

    /** The prime's workers, once the prime exists and has its id. */
    method FindPrime(primeId: string) returns (workers: map<string, Worker>)
      modifies this`state
      ensures state == WithPrime(config, old(state), primeId)
      ensures workers == Workers(config, old(state), primeId)
    {
      var storageKey := if config.privateMode then config.primeKey(primeId) else primeId;
      if storageKey !in state.primes {
        state := state.(primes := state.primes[storageKey := Prime(None, map[])]);
      }
      workers := state.primes[storageKey].workers;
      state := state.(primes := state.primes[storageKey := Prime(Some(primeId), workers)]);
    }

    method PutWorker(primeId: string, workerId: string, w: Worker)
      requires StorageKey(config, primeId) in state.primes
      modifies this`state
      ensures state == WithWorker(config, old(state), primeId, workerId, w)
    {
      var storageKey := StorageKey(config, primeId);
      state := state.(primes :=
        state.primes[storageKey := Prime(Some(primeId), state.primes[storageKey].workers[workerId := w])]);
    }

    method SpawnUnlocked(op: Operation) returns (ok: bool)
      requires op.Spawn?
      modifies this`state
      ensures ok == Apply(config, old(state), op).Ok?
      ensures ok ==> state == Apply(config, old(state), op).value
    {
      if !config.multiAgent || |ActiveWorkers(state)| >= config.maxWorkers {
        return false;
      }
      var workers := FindPrime(op.primeId);
      var workerId := if op.wanted.Some? then op.wanted.value else "worker-" + NatText(|workers| + 1);
      if !ValidWorkerId(workerId) || workerId in workers || !op.hasTask {
        return false;
      }
      PutWorker(op.primeId, workerId, Worker(Starting, None, None, false));
      EnqueueUnlocked(op.id, op.target, Some(op.primeId));
      return true;
    }

    method MessageUnlocked(op: Operation) returns (ok: bool)
      requires op.SendMessage?
      modifies this`state
      ensures ok == Apply(config, old(state), op).Ok?
      ensures ok ==> state == Apply(config, old(state), op).value
    {
      if !config.multiAgent || !op.approved {
        return false;
      }
      ghost var before := state;
      var workers := FindPrime(op.primeId);
      if op.workerId !in workers || workers[op.workerId].status.Retired? {
        return false;
      }
      var worker := workers[op.workerId];
      if config.privateMode && worker.restored && worker.conversation.None? {
        return false;
      }
      SameActive(config, before, op.primeId);
      if !Active(worker) && |ActiveWorkers(state)| >= config.maxWorkers {
        return false;
      }
      PutWorker(op.primeId, op.workerId, worker.(status := Working));
      EnqueueUnlocked(op.id, op.target, Some(op.primeId));
      return true;
    }

    method RegisterUnlocked(op: Operation) returns (ok: bool)
      requires op.Register?
      modifies this`state
      ensures ok == Apply(config, old(state), op).Ok?
      ensures ok ==> state == Apply(config, old(state), op).value
    {
      var workers := FindPrime(op.primeId);
      if op.workerId !in workers || workers[op.workerId].status.Retired? {
        return false;
      }
      var key := None;
      if config.privateMode && op.conversation.Some? {
        key := Some(config.conversationKey(op.conversation.value));
      }
      PutWorker(op.primeId, op.workerId, Worker(Working, op.conversation, key, false));
      return true;
    }

    method ReportUnlocked(op: Operation) returns (ok: bool)
      requires op.Report?
      modifies this`state
      ensures ok == Apply(config, old(state), op).Ok?
      ensures ok ==> state == Apply(config, old(state), op).value
    {
      if !op.approved {
        return false;
      }
      var workers := FindPrime(op.primeId);
      if op.workerId !in workers || workers[op.workerId].status.Retired? {
        return false;
      }
      var status := if op.failed then WorkerFailed else Sleeping;
      PutWorker(op.primeId, op.workerId, workers[op.workerId].(status := status));
      return true;
    }

    method ClearUnlocked(op: Operation) returns (ok: bool)
      requires op.Clear?
      modifies this`state
      ensures ok == Apply(config, old(state), op).Ok?
      ensures ok ==> state == Apply(config, old(state), op).value
    {
      if !op.approved {
        return false;
      }
      var workers := FindPrime(op.primeId);
      var storageKey := StorageKey(config, op.primeId);
      state := state.(primes := state.primes[storageKey := Prime(Some(op.primeId), RetireAll(workers))]);
      ghost var before := state.commands;
      var i := 0;
      while i < |state.commands|
        invariant 0 <= i <= |state.commands| == |before|
        invariant state == old(state).(primes := state.primes, commands := state.commands)
        invariant state.primes == old(state).primes[storageKey := Prime(Some(op.primeId), RetireAll(workers))]
        invariant forall k | 0 <= k < i :: state.commands[k] == CancelPending(before, op.primeId)[k]
        invariant forall k | i <= k < |before| :: state.commands[k] == before[k]
      {
        var command := state.commands[i];
        if command.primeId == Some(op.primeId) && command.status.Pending? {
          state := state.(commands := state.commands[i := command.(status := Cancelled)]);
        }
        i := i + 1;
      }
      assert state.commands == CancelPending(before, op.primeId);
      return true;
    }

    method AcknowledgeUnlocked(op: Operation) returns (ok: bool)
      requires op.Acknowledge?
      modifies this`state
      ensures ok == Apply(config, old(state), op).Ok?
      ensures ok ==> state == Apply(config, old(state), op).value
    {
      var i := Find(state.commands, op.id);
      if i == |state.commands| {
        return false;
      }
      var status := if op.failed then CommandFailed else Acknowledged;
      state := state.(commands := state.commands[i := state.commands[i].(status := status)]);
      return true;
    }

    method Perform(op: Operation) returns (ok: bool)
      modifies this`state
      ensures ok == Apply(config, old(state), op).Ok?
      ensures ok ==> state == Apply(config, old(state), op).value
    {
      match op
      case Enqueue(id, target) =>
        EnqueueUnlocked(id, target, None);
        ok := true;
      case Spawn(_, _, _, _, _) => ok := SpawnUnlocked(op);
      case SendMessage(_, _, _, _, _) => ok := MessageUnlocked(op);
      case Register(_, _, _) => ok := RegisterUnlocked(op);
      case Report(_, _, _, _) => ok := ReportUnlocked(op);
      case Clear(_, _) => ok := ClearUnlocked(op);
      case Acknowledge(_, _) => ok := AcknowledgeUnlocked(op);
    }

    /** `mutate`: all or nothing. A mutation that throws, or whose write fails, changes neither state. */
    method Mutate(op: Operation, written: bool, landed: bool) returns (ok: bool)
      modifies this
      ensures ok == (Apply(config, old(state), op).Ok? && written)
      ensures ok ==> state == visibleState == Trimmed(Apply(config, old(state), op).value)
      ensures ok ==> file == ToFile(config, state)
      ensures !ok ==> state == old(state) && visibleState == old(visibleState)
      ensures Apply(config, old(state), op).Failed? || !(written || landed) ==> file == old(file)
    {
      var before := state;
      ok := Perform(op);
      if ok {
        ok := Persist(written, landed);
      }
      if !ok {
        state := before;
      }
    }
  }

  /** Looking a prime up makes no worker active. */
  lemma SameActive(config: Config, b: Broker, primeId: string)
    ensures ActiveWorkers(WithPrime(config, b, primeId)) == ActiveWorkers(b)
  {
  }
}
