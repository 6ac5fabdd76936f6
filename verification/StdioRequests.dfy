/**
 From a line of input to a message of the stdio session: envelopes, ids and request keys of
 ReluMcpStdioEntryPoint.cs, and what the session guarantees about ids as a client sees them.
 */
module StdioRequests {
  import opened Optional
  import opened Decimal
  import opened DecimalOrder
  import opened JsonTree
  import opened OrdinalOrder
  import opened StdioSession

  /** Shape checks on parameters that nothing here depends on. */
  datatype Checks = Checks(initialize: Json -> bool, initialized: Json -> bool, parameters: (Json, string) -> bool)

  predicate IsNumberId(v: Json) { v.Num? && TryNormalize(v.raw).Some? }

  predicate ValidId(v: Json) {
    (v.Str? && |Utf16(v.text)| <= 200) || IsNumberId(v)
  }

  predicate IsText(v: Option<Json>, text: string) { v == Some(Str(text)) }

  datatype Envelope = Malformed(readable: Option<Json>) | Notification(name: string) | Request(id: Json, name: string)

  /** `TryReadEnvelope`. */
  function ReadEnvelope(root: Json): Envelope {
    if !root.Obj? then Malformed(None)
    else
      var id := Lookup(root, "id");
      var valid := if id.Some? && ValidId(id.value) then id else None;
      var name := Lookup(root, "method");
      if || !IsText(Lookup(root, "jsonrpc"), "2.0") || valid != id
         || name.None? || !name.value.Str? || name.value.text == "" || |Utf16(name.value.text)| > 200
      then Malformed(valid)
      else if id.None? then Notification(name.value.text)
      else Request(id.value, name.value.text)
  }

  predicate IsBoundedString(v: Json, maximumRunes: nat) { v.Str? && |v.text| <= maximumRunes }

  /** The id a cancellation names, if the notification is well formed. */
  function CancelTarget(root: Json): Option<Json> {
    var parameters := Lookup(root, "params");
    if parameters.None? || !parameters.value.Obj? then None
    else
      var id := Lookup(parameters.value, "requestId");
      var reason := Lookup(parameters.value, "reason");
      var metadata := Lookup(parameters.value, "_meta");
      if || id.None? || !(IsBoundedString(id.value, 200) || IsNumberId(id.value))
         || (reason.Some? && !IsBoundedString(reason.value, 2048))
         || (metadata.Some? && !metadata.value.Obj?)
      then None
      else id
  }

  predicate IsNotificationName(name: string) { "notifications/" <= name }

  /** What the read loop makes of a parsed line. */
  function Classify(checks: Checks, root: Json): Message {
    match ReadEnvelope(root)
    case Malformed(id) => Invalid(id)
    case Notification(name) =>
      if name == "notifications/initialized" then Initialized(checks.initialized(root))
      else if name == "notifications/cancelled" then Cancelled(CancelTarget(root))
      else OtherNotification
    case Request(id, name) =>
      if IsNotificationName(name) then MisusedNotification(Some(id))
      else if name == "initialize" then Initialize(id, checks.initialize(root))
      else Call(id, name, checks.parameters(root, name))
  }

  /** `RequestKey`; an id that is neither a string nor a readable number never gets this far. */
  function RequestKey(id: Json): string {
    match id
    case Str(text) => "s:" + text
    case Num(raw) => if TryNormalize(raw).Some? then "n:" + Key(TryNormalize(raw).value) else ""
    case _ => ""
  }

  /** Ids have the same key exactly when they are equal as JSON values: 1, 1.0 and 10e-1 are one id. */
  lemma RequestKeysDecide(a: Json, b: Json)
    requires ValidId(a) && ValidId(b)
    ensures Accepted(a) && Accepted(b)
    ensures RequestKey(a) == RequestKey(b) <==> SemanticallyEquals(a, b)
  {
    match (a, b)
    case (Str(s), Str(t)) =>
      assert ("s:" + s)[2..] == s && ("s:" + t)[2..] == t;
    case (Num(x), Num(y)) =>
      KeysDecideEquality(x, y);
      CompareNumbersIsTotalOrder(x, y, y);
      var k, l := Key(TryNormalize(x).value), Key(TryNormalize(y).value);
      assert ("n:" + k)[2..] == k && ("n:" + l)[2..] == l;
    case (Str(s), Num(y)) =>
      assert ("s:" + s)[0] == 's' && ("n:" + Key(TryNormalize(y).value))[0] == 'n';
    case (Num(x), Str(t)) =>
      assert ("s:" + t)[0] == 's' && ("n:" + Key(TryNormalize(x).value))[0] == 'n';
  }

  /** The messages of a run are those of parsed lines. */
  ghost predicate FromLines(checks: Checks, actions: seq<Action>) {
    forall a | a in actions && a.OfLoop? && a.loop.Receive? && a.loop.message.Call? ::
      exists root :: a.loop.message == Classify(checks, root)
  }

  ghost predicate ServesRequests(s: State) {
    forall i | 0 <= i < |s.tasks| ::
      ValidId(s.tasks[i].id) && s.tasks[i].name != "initialize" && !IsNotificationName(s.tasks[i].name)
  }

  lemma ClassifiedCall(checks: Checks, root: Json)
    requires Classify(checks, root).Call?
    ensures var m := Classify(checks, root);
      ValidId(m.requestId) && m.name != "initialize" && !IsNotificationName(m.name)
  {
  }

  lemma StepServes(checks: Checks, s: State, a: Action)
    requires ServesRequests(s) && FromLines(checks, [a])
    ensures ServesRequests(Step(RequestKey, s, a))
  {
    match a
    case OfLoop(l) =>
      LoopKeepsIds(RequestKey, s, l);
      if l.Receive? && l.message.Call? {
        assert a in [a];
        var root :| l.message == Classify(checks, root);
        ClassifiedCall(checks, root);
      }
    case OfTask(i, t) => if i < |s.tasks| { TaskKeepsIds(s, i, t); }
    case Shutdown =>
  }

  /** Only requests with valid ids are served, and neither initialize nor a notification is among them. */
  lemma {:induction false} RunServes(checks: Checks, s: State, actions: seq<Action>)
    requires ServesRequests(s) && FromLines(checks, actions)
    ensures ServesRequests(Run(RequestKey, s, actions))
    decreases |actions|
  {
    if actions != [] {
      assert actions[0] in actions;
      StepServes(checks, s, actions[0]);
      RunServes(checks, Step(RequestKey, s, actions[0]), actions[1..]);
    }
  }

  /** No two requests that are being served have ids that denote the same string or the same number. */
  lemma LiveIdsDiffer(checks: Checks, actions: seq<Action>, i: nat, j: nat)
    requires FromLines(checks, actions)
    requires var s := Run(RequestKey, Start(), actions);
      i < j < |s.tasks| && Live(s.tasks[i]) && Live(s.tasks[j])
    ensures var s := Run(RequestKey, Start(), actions);
      && Accepted(s.tasks[i].id) && Accepted(s.tasks[j].id)
      && !SemanticallyEquals(s.tasks[i].id, s.tasks[j].id)
  {
    var s := Run(RequestKey, Start(), actions);
    RunServes(checks, Start(), actions);
    LiveKeysDiffer(RequestKey, actions, i, j);
    RequestKeysDecide(s.tasks[i].id, s.tasks[j].id);
  }

  /** A message of version 2.0 with a name of 1 to 200 units. */
  ghost predicate Named(root: Json, name: string) {
    && Lookup(root, "jsonrpc") == Some(Str("2.0")) && Lookup(root, "method") == Some(Str(name))
    && 1 <= |Utf16(name)| <= 200
  }

  /** Without an id a message is a notification, with a valid one a request; anything else is invalid. */
  lemma ClassifyMeans(checks: Checks, root: Json, name: string)
    ensures Named(root, name) && Lookup(root, "id").None? ==>
      Classify(checks, root) ==
        if name == "notifications/initialized" then Initialized(checks.initialized(root))
        else if name == "notifications/cancelled" then Cancelled(CancelTarget(root))
        else OtherNotification
    ensures Named(root, name) && Lookup(root, "id").Some? && ValidId(Lookup(root, "id").value) ==>
      Classify(checks, root) ==
        if "notifications/" <= name then MisusedNotification(Lookup(root, "id"))
        else if name == "initialize" then Initialize(Lookup(root, "id").value, checks.initialize(root))
        else Call(Lookup(root, "id").value, name, checks.parameters(root, name))
    ensures (forall n: string :: !Named(root, n)) ==> Classify(checks, root).Invalid?
    ensures Lookup(root, "id").Some? && !ValidId(Lookup(root, "id").value) ==> Classify(checks, root).Invalid?
  {
    if Named(root, name) {
      assert root.Obj? && name != "";
    }
    if forall n: string :: !Named(root, n) {
      NotNamed(root);
    }
  }

  lemma NotNamed(root: Json)
    requires forall n: string :: !Named(root, n)
    ensures ReadEnvelope(root).Malformed?
  {
    match Lookup(root, "method")
    case Some(Str(text)) =>
      assert !Named(root, text);
      if text != "" {
        assert Utf16(text) == Units(text[0]) + Utf16(text[1..]);
      }
    case _ =>
  }

  /** A cancellation with an id equal to a live request's, as JSON values, cancels that request. */
  lemma CancellationFindsEqualId(checks: Checks, actions: seq<Action>, root: Json, target: Json, i: nat)
    requires FromLines(checks, actions) && Classify(checks, root) == Cancelled(Some(target))
    requires var s := Run(RequestKey, Start(), actions);
      && s.loop.Reading? && !s.shutdown && i < |s.tasks| && Live(s.tasks[i]) && s.tasks[i].status.Active?
      && Accepted(target) && Accepted(s.tasks[i].id) && SemanticallyEquals(target, s.tasks[i].id)
    ensures var s := Run(RequestKey, Start(), actions);
            var found := Step(RequestKey, s, OfLoop(Receive(Classify(checks, root))));
            var t := Step(RequestKey, found, OfLoop(CancelFound));
      t == s.(tasks := s.tasks[i := s.tasks[i].(status := RequestCancelled)])
  {
    var s := Run(RequestKey, Start(), actions);
    RunServes(checks, Start(), actions);
    RunKeeps(RequestKey, Start(), actions);
    EqualIdsShareKey(target, s.tasks[i].id);
    CancellationReaches(RequestKey, actions, target, i);
  }

  lemma EqualIdsShareKey(a: Json, b: Json)
    requires Accepted(a) && Accepted(b) && SemanticallyEquals(a, b) && (a.Str? || a.Num?)
    ensures RequestKey(a) == RequestKey(b)
  {
    if a.Num? {
      KeysDecideEquality(a.raw, b.raw);
      CompareNumbersIsTotalOrder(a.raw, b.raw, b.raw);
    }
  }
}
