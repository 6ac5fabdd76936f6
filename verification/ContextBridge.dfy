/**
 The protocol of the context host over real contexts: projections, canonical bindings and schemas.
 */
module ContextBridge {
  import opened Optional
  import opened JsonTree
  import opened JsonSchema
  import opened CanonicalText
  import opened ContextBinding
  import opened ContextHost

  /** The guard field projection of a context, where `ReadContextAsync` lets the context through. */
  function GuardedProjection(fields: seq<string>, context: Json): Option<Json> {
    if Accepted(context) then Project(context, fields) else None
  }

  function BindingOf(encode: Encoder, hash: string -> string, projection: Json): string {
    if Accepted(projection) then hash(CanonicalTextOf(encode, projection)) else ""
  }

  predicate SameValue(left: Json, right: Json) {
    Accepted(left) && Accepted(right) && SemanticallyEquals(left, right)
  }

  predicate Conforms(v: Json, schema: Json) {
    Accepted(v) && Accepted(schema) && SchemaOk(schema) && Matches(v, schema)
  }

  function Bridge(fields: seq<string>, encode: Encoder, hash: string -> string): Service {
    Service(context => GuardedProjection(fields, context),
            projection => BindingOf(encode, hash, projection),
            (left, right) => SameValue(left, right),
            (v, schema) => Conforms(v, schema))
  }

  predicate Usable(fields: seq<string>, context: Json) {
    Accepted(context) && HasFields(context, fields)
  }

  /** The binding that `get_context` hands out with a context. */
  function BindingFor(fields: seq<string>, encode: Encoder, hash: string -> string, context: Json): string
    requires FieldsDistinct(fields) && Usable(fields, context)
  {
    ProjectionIsAccepted(context, fields);
    hash(CanonicalTextOf(encode, Project(context, fields).value))
  }

  /** The hash does not confuse the canonical projections of two contexts. */
  ghost predicate Distinguishes(fields: seq<string>, encode: Encoder, hash: string -> string, a: Json, b: Json)
    requires FieldsDistinct(fields) && Usable(fields, a) && Usable(fields, b)
  {
    ProjectionIsAccepted(a, fields);
    ProjectionIsAccepted(b, fields);
    var s, t := CanonicalTextOf(encode, Project(a, fields).value), CanonicalTextOf(encode, Project(b, fields).value);
    hash(s) == hash(t) ==> s == t
  }

  lemma BindingsDecideAgreement(fields: seq<string>, encode: Encoder, hash: string -> string, a: Json, b: Json)
    requires FieldsDistinct(fields) && Faithful(encode) && Usable(fields, a) && Usable(fields, b)
    ensures AgreeOn(a, b, fields) ==> BindingFor(fields, encode, hash, a) == BindingFor(fields, encode, hash, b)
    ensures Distinguishes(fields, encode, hash, a, b) ==>
      (BindingFor(fields, encode, hash, a) == BindingFor(fields, encode, hash, b) ==> AgreeOn(a, b, fields))
  {
    ProjectionTextDecides(encode, a, b, fields);
  }

  /**
   A client that passes the binding it was given with one context only ever gets results computed on a
   context that agrees with it on every guard field, and still agrees when the result is returned.
   */
  lemma ResultsAgreeWithTheCaller(
      fields: seq<string>, encode: Encoder, hash: string -> string, given: Json, initial: Json,
      actions: seq<Action>, i: nat)
    requires FieldsDistinct(fields) && Faithful(encode) && Usable(fields, given)
    requires At(Run(Bridge(fields, encode, hash), Start(initial), actions), i, Returned)
    requires var e := Run(Bridge(fields, encode, hash), Start(initial), actions).executes[i];
      && e.supplied == BindingFor(fields, encode, hash, given)
      && (Usable(fields, e.seen) ==> Distinguishes(fields, encode, hash, given, e.seen))
    ensures var e := Run(Bridge(fields, encode, hash), Start(initial), actions).executes[i];
      && Usable(fields, e.seen) && Usable(fields, e.current)
      && AgreeOn(given, e.seen, fields) && AgreeOn(e.seen, e.current, fields)
  {
    var service := Bridge(fields, encode, hash);
    ReturnedResult(service, initial, actions, i);
    var e := Run(service, Start(initial), actions).executes[i];
    assert GuardedProjection(fields, e.seen) == Some(e.projection);
    assert GuardedProjection(fields, e.current) == Some(e.currentProjection);
    assert SameValue(e.projection, e.currentProjection);
    assert BindingOf(encode, hash, e.projection) == e.supplied;
    BindingsDecideAgreement(fields, encode, hash, given, e.seen);
    ProjectionTextDecides(encode, e.seen, e.current, fields);
  }

  /** A returned result has, at every depth, only properties its output schema declares. */
  lemma ResultsAreClosed(fields: seq<string>, encode: Encoder, hash: string -> string, initial: Json,
                         actions: seq<Action>, i: nat)
    requires At(Run(Bridge(fields, encode, hash), Start(initial), actions), i, Returned)
    ensures var e := Run(Bridge(fields, encode, hash), Start(initial), actions).executes[i];
      && Closed(e.result, e.capability.output) && Closed(e.parameters, e.capability.input)
  {
    var service := Bridge(fields, encode, hash);
    ReturnedResult(service, initial, actions, i);
    var e := Run(service, Start(initial), actions).executes[i];
    assert Conforms(e.result, e.capability.output) && Conforms(e.parameters, e.capability.input);
    MatchesAreClosed(e.result, e.capability.output);
    MatchesAreClosed(e.parameters, e.capability.input);
  }

  /**
   After a callback that changes the context and throws, a waiting request returns a result computed on
   the old context exactly when old and new agree on the guard fields.
   */
  lemma ThrowingUpdateHiddenIffGuarded(
      fields: seq<string>, encode: Encoder, hash: string -> string, seen: Json, later: Json, capability: Capability,
      parameters: Json, result: Json) returns (actions: seq<Action>)
    requires FieldsDistinct(fields) && Faithful(encode) && Usable(fields, seen) && Usable(fields, later)
    requires Conforms(parameters, capability.input) && Conforms(result, capability.output)
    ensures var s := Run(Bridge(fields, encode, hash), Start(seen), actions);
      && s.context == later && 0 < |s.executes| && s.executes[0].seen == seen
      && (At(s, 0, Returned) <==> AgreeOn(seen, later, fields))
  {
    var service := Bridge(fields, encode, hash);
    actions := ThrowingUpdateSlipsThrough(service, seen, later, capability, parameters, result);
    ProjectionTextDecides(encode, seen, later, fields);
    BindingsDecideAgreement(fields, encode, hash, seen, later);
    var p, q := Project(seen, fields).value, Project(later, fields).value;
    assert service.same(p, q) == SameValue(p, q);
    assert service.binding(p) == BindingFor(fields, encode, hash, seen);
    assert service.binding(q) == BindingFor(fields, encode, hash, later);
  }
}
