/**
 The web connector of sdk/relu-web-connector.js. Its asynchronous functions are split at every await;
 API calls, timers, socket events and continuations come in any order.
 */
module WebConnector {
  import opened Optional

  const MAX_RESET_RECONNECTS: nat := 1

  datatype Status =
    | Stopped | Connecting | Disconnected | Reconnecting | Authenticating | Connected | Resetting | Rejected

  datatype Stage = AwaitChallenge | AwaitAck

  /** A handshake object; its index in the list stands for its fresh client nonce. */
  datatype Handshake = Handshake(stage: Stage, socket: nat)

  datatype Progress = Proving | Signing | Over

  /** A run of `handleAuthChallenge` that awaits the server's proof or its own. */
  datatype Challenge = Challenge(socket: nat, handshake: nat, serverNonce: string, proof: string, progress: Progress)

  datatype Ack = Accept | RequireReset | Refuse

  datatype Message =
    | AuthChallenge(serverNonce: string, proof: string)
    | HelloAck(ack: Ack)
    | Operational        // a ping or request that is handled without an exception
    | Malformed

  datatype Event =
    | Started
    | Accepted(handshake: nat)
    | ResetRequired
    | AuthResponse(handshake: nat, serverNonce: string, proof: string)

  datatype State = State(
    status: Status, stopped: bool, authRejected: bool, resetReconnects: nat, resetReconnectPending: bool,
    reconnectTimer: bool, connecting: nat, socket: Option<nat>, sockets: nat,
    handshake: Option<nat>, handshakes: seq<Handshake>, challenges: seq<Challenge>,
    faulted: set<nat>, log: seq<Event>)

  datatype Action =
    | Start | Stop
    | ContextFails | ContextReady(created: bool)
    | TimerFires
    | Open(socket: nat) | Close(socket: nat, code: int)
    | Receive(socket: nat, message: Message)
    | ProofDone(k: nat, computed: bool) | SignatureDone(k: nat, computed: bool, open: bool)
    | RejectProtocol(socket: nat)

  function Initial(): State {
    State(Stopped, true, false, 0, false, false, 0, None, 0, None, [], [], {}, [])
  }

  /** `connect` up to its await. */
  function Connect(s: State): State {
    if s.stopped || s.authRejected then s else s.(status := Connecting, connecting := s.connecting + 1)
  }

  function ScheduleReconnect(s: State): State {
    if s.stopped || s.authRejected || s.reconnectTimer then s else s.(status := Reconnecting, reconnectTimer := true)
  }

  function StartStep(s: State): State {
    if !s.stopped then s
    else
      Connect(s.(stopped := false, authRejected := false, resetReconnects := 0, resetReconnectPending := false,
                 log := s.log + [Started]))
  }

  function StopStep(s: State): State {
    s.(status := Stopped, stopped := true, authRejected := false, resetReconnectPending := false,
       reconnectTimer := false, socket := None, handshake := None)
  }

  /** `connect` after its await: `created` says whether the WebSocket constructor succeeded. */
  function ContextStep(s: State, failed: bool, created: bool): State {
    if s.connecting == 0 then s
    else
      var t := s.(connecting := s.connecting - 1);
      if s.stopped || (s.authRejected && !failed) then t
      else if failed || !created then ScheduleReconnect(t.(status := Disconnected))
      else t.(socket := Some(s.sockets), sockets := s.sockets + 1)
  }

  function OpenStep(s: State, socket: nat): State {
    if s.socket != Some(socket) || s.stopped || s.status != Connecting then s
    else
      s.(status := Authenticating, handshake := Some(|s.handshakes|),
         handshakes := s.handshakes + [Handshake(AwaitChallenge, socket)])
  }

  function CloseStep(s: State, socket: nat, code: int): State {
    if s.socket != Some(socket) then s
    else
      var t := s.(socket := None, handshake := None);
      if s.stopped then t
      else if s.resetReconnectPending then ScheduleReconnect(t.(resetReconnectPending := false))
      else if s.authRejected || s.status == Rejected then t.(status := Rejected)
      else if s.status == Authenticating && (code == 1008 || code == 4003) then
        t.(status := Rejected, authRejected := true)
      else ScheduleReconnect(t.(status := Disconnected))
  }

  /** An exception inside `handleMessage`: the socket will be rejected. */
  function Fault(s: State, socket: nat): State { s.(faulted := s.faulted + {socket}) }

  function Reject(s: State): State {
    s.(status := Rejected, authRejected := true, resetReconnectPending := false, handshake := None)
  }

  function AckStep(s: State, h: nat, ack: Ack): State {
    match ack
    case Accept =>
      s.(status := Connected, authRejected := false, resetReconnects := 0, handshake := None,
         log := s.log + [Accepted(h)])
    case RequireReset =>
      if s.resetReconnects >= MAX_RESET_RECONNECTS then Reject(s)
      else
        s.(status := Resetting, resetReconnects := s.resetReconnects + 1, resetReconnectPending := true,
           handshake := None, log := s.log + [ResetRequired])
    case Refuse => Reject(s)
  }

  /** `handleHelloAck`: for the current socket, while its handshake waits for the acknowledgement. */
  function HelloAckStep(s: State, socket: nat, ack: Ack): State {
    if s.socket == Some(socket) && s.status == Authenticating && s.handshake.Some?
      && s.handshake.value < |s.handshakes| && s.handshakes[s.handshake.value].stage == AwaitAck
    then AckStep(s, s.handshake.value, ack)
    else Fault(s, socket)
  }

  function ReceiveStep(s: State, socket: nat, m: Message): State {
    if s.socket != Some(socket) then s
    else if s.status == Authenticating && s.handshake.Some? && s.handshake.value < |s.handshakes| then
      match (s.handshakes[s.handshake.value].stage, m)
      case (AwaitChallenge, AuthChallenge(serverNonce, proof)) =>
        s.(challenges := s.challenges + [Challenge(socket, s.handshake.value, serverNonce, proof, Proving)])
      case (AwaitAck, HelloAck(ack)) => HelloAckStep(s, socket, ack)
      case _ => Fault(s, socket)
    else if s.status == Connected && m.Operational? then s
    else Fault(s, socket)
  }

  /** The check after each await: the same socket, the same handshake, still waiting for its challenge. */
  predicate StillWanted(s: State, c: Challenge) {
    && s.socket == Some(c.socket) && s.handshake == Some(c.handshake) && s.status == Authenticating
    && c.handshake < |s.handshakes| && s.handshakes[c.handshake].stage == AwaitChallenge
  }

  function Proceed(s: State, k: nat, p: Progress): State
    requires k < |s.challenges|
  {
    s.(challenges := s.challenges[k := s.challenges[k].(progress := p)])
  }

  /** The server's proof has been computed, or computing it failed. */
  function ProofStep(serverProof: (nat, string) -> string, s: State, k: nat, computed: bool): State
    requires k < |s.challenges|
  {
    var c := s.challenges[k];
    if !c.progress.Proving? then s
    else if !computed then Fault(Proceed(s, k, Over), c.socket)
    else if !StillWanted(s, c) then Proceed(s, k, Over)
    else if c.proof != serverProof(c.handshake, c.serverNonce) then Fault(Proceed(s, k, Over), c.socket)
    else Proceed(s, k, Signing)
  }

  /** The registration has been signed, or signing it failed; `open` says whether the socket can still send. */
  function SignatureStep(s: State, k: nat, computed: bool, open: bool): State
    requires k < |s.challenges|
  {
    var c := s.challenges[k];
    if !c.progress.Signing? then s
    else if !computed then Fault(Proceed(s, k, Over), c.socket)
    else if !StillWanted(s, c) then Proceed(s, k, Over)
    else
      var t := Proceed(s, k, Over).(
        handshakes := s.handshakes[c.handshake := s.handshakes[c.handshake].(stage := AwaitAck)]);
      if open then t.(log := s.log + [AuthResponse(c.handshake, c.serverNonce, c.proof)]) else Fault(t, c.socket)
  }

  function Step(serverProof: (nat, string) -> string, s: State, a: Action): State {
    match a
    case Start => StartStep(s)
    case Stop => StopStep(s)
    case ContextFails => ContextStep(s, true, false)
    case ContextReady(created) => ContextStep(s, false, created)
    case TimerFires => if s.reconnectTimer then Connect(s.(reconnectTimer := false)) else s
    case Open(socket) => OpenStep(s, socket)
    case Close(socket, code) => CloseStep(s, socket, code)
    case Receive(socket, message) => ReceiveStep(s, socket, message)
    case ProofDone(k, computed) => if k < |s.challenges| then ProofStep(serverProof, s, k, computed) else s
    case SignatureDone(k, computed, open) => if k < |s.challenges| then SignatureStep(s, k, computed, open) else s
    case RejectProtocol(socket) => if socket in s.faulted && s.socket == Some(socket) then Reject(s) else s
  }

  function Run(serverProof: (nat, string) -> string, s: State, actions: seq<Action>): State
    decreases |actions|
  {
    if actions == [] then s else Run(serverProof, Step(serverProof, s, actions[0]), actions[1..])
  }

  // ---- one attempt at a time -----------------------------------------------------------------

  /** Connects awaiting the context, an armed timer, a current socket. */
  function Attempts(s: State): nat {
    s.connecting + (if s.reconnectTimer then 1 else 0) + if s.socket.Some? then 1 else 0
  }

  ghost predicate StatusOk(s: State) {
    && (s.stopped <==> s.status == Stopped)
    && (s.authRejected <==> s.status == Rejected)
    && (s.handshake.Some? <==> s.status == Authenticating)
    && (s.resetReconnectPending <==> s.status == Resetting)
    && (s.status == Authenticating || s.status == Connected || s.status == Resetting ==> s.socket.Some?)
    && (s.stopped ==> !s.reconnectTimer && s.socket.None?)
    && (s.authRejected ==> !s.reconnectTimer && s.connecting == 0)
  }

  /** The current handshake belongs to the current socket, and every socket seen so far has a number. */
  ghost predicate HandshakeOk(s: State) {
    && (s.socket.Some? ==> s.socket.value < s.sockets)
    && (s.handshake.Some? ==>
          s.handshake.value < |s.handshakes| && s.socket == Some(s.handshakes[s.handshake.value].socket))
  }

  ghost predicate OneAttempt(s: State) {
    Attempts(s) <= 1 && (!s.stopped && !s.authRejected ==> Attempts(s) == 1)
  }

  /** `start` takes effect only when no earlier `connect` still awaits its context. */
  predicate StartsInTurn(s: State, a: Action) {
    a.Start? && s.stopped ==> s.connecting == 0
  }

  ghost predicate ConnectionOk(s: State) {
    StatusOk(s) && HandshakeOk(s) && OneAttempt(s)
  }

  lemma ReceiveKeepsConnection(s: State, socket: nat, m: Message)
    requires ConnectionOk(s)
    ensures ConnectionOk(ReceiveStep(s, socket, m))
  {
  }

  lemma ProofKeepsConnection(serverProof: (nat, string) -> string, s: State, k: nat, computed: bool)
    requires ConnectionOk(s) && k < |s.challenges|
    ensures ConnectionOk(ProofStep(serverProof, s, k, computed))
  {
  }

  lemma SignatureKeepsConnection(s: State, k: nat, computed: bool, open: bool)
    requires ConnectionOk(s) && k < |s.challenges|
    ensures ConnectionOk(SignatureStep(s, k, computed, open))
  {
  }

  /** Every step keeps at most one attempt going, and exactly one unless stopped or rejected. */
  lemma StepKeepsConnection(serverProof: (nat, string) -> string, s: State, a: Action)
    requires ConnectionOk(s) && StartsInTurn(s, a)
    ensures ConnectionOk(Step(serverProof, s, a))
  {
    match a
    case Receive(socket, m) => ReceiveKeepsConnection(s, socket, m);
    case ProofDone(k, computed) => if k < |s.challenges| { ProofKeepsConnection(serverProof, s, k, computed); }
    case SignatureDone(k, computed, open) =>
      if k < |s.challenges| { SignatureKeepsConnection(s, k, computed, open); }
    case _ =>
  }

  // ---- one response per handshake ------------------------------------------------------------

  /** Whoever signs has verified the server's proof for the handshake's nonce. */
  ghost predicate ChallengesOk(serverProof: (nat, string) -> string, s: State) {
    forall k | 0 <= k < |s.challenges| && s.challenges[k].progress.Signing? ::
      s.challenges[k].proof == serverProof(s.challenges[k].handshake, s.challenges[k].serverNonce)
  }

  /** The handshake has left the stage in which it waits for its challenge. */
  ghost predicate Answered(s: State, h: nat) {
    h < |s.handshakes| && s.handshakes[h].stage == AwaitAck
  }

  /** A response was sent for a verified proof, by a handshake that no longer waits for its challenge. */
  ghost predicate ResponsesOk(serverProof: (nat, string) -> string, s: State) {
    && (forall p | 0 <= p < |s.log| && s.log[p].AuthResponse? ::
          && Answered(s, s.log[p].handshake)
          && s.log[p].proof == serverProof(s.log[p].handshake, s.log[p].serverNonce))
    && (forall p, q | 0 <= p < q < |s.log| && s.log[p].AuthResponse? && s.log[q].AuthResponse? ::
          s.log[p].handshake != s.log[q].handshake)
    && (forall p | 0 <= p < |s.log| && s.log[p].Accepted? :: Answered(s, s.log[p].handshake))
  }

  /** No response is sent, and no handshake goes back to waiting for its challenge. */
  ghost predicate NothingSent(s: State, t: State) {
    && s.log <= t.log
    && (forall p | |s.log| <= p < |t.log| ::
          !t.log[p].AuthResponse? && (t.log[p].Accepted? ==> Answered(t, t.log[p].handshake)))
    && (forall h: nat | Answered(s, h) :: Answered(t, h))
  }

  lemma NothingSentKeepsResponses(serverProof: (nat, string) -> string, s: State, t: State)
    requires ResponsesOk(serverProof, s) && NothingSent(s, t)
    ensures ResponsesOk(serverProof, t)
  {
    forall p | 0 <= p < |s.log| ensures t.log[p] == s.log[p] {}
  }

  lemma SendingKeepsResponses(serverProof: (nat, string) -> string, s: State, t: State, e: Event)
    requires ResponsesOk(serverProof, s) && t.log == s.log + [e]
    requires e.AuthResponse? && e.proof == serverProof(e.handshake, e.serverNonce)
    requires !Answered(s, e.handshake) && Answered(t, e.handshake)
    requires forall h: nat | Answered(s, h) :: Answered(t, h)
    ensures ResponsesOk(serverProof, t)
  {
    forall p | 0 <= p < |s.log| ensures t.log[p] == s.log[p] {}
  }

  lemma SignatureKeepsResponses(
    serverProof: (nat, string) -> string, s: State, k: nat, computed: bool, open: bool)
    requires ResponsesOk(serverProof, s) && ChallengesOk(serverProof, s) && k < |s.challenges|
    ensures ResponsesOk(serverProof, SignatureStep(s, k, computed, open))
  {
    var c, t := s.challenges[k], SignatureStep(s, k, computed, open);
    assert forall h: nat | Answered(s, h) :: Answered(t, h);
    if t.log == s.log {
      NothingSentKeepsResponses(serverProof, s, t);
    } else {
      SendingKeepsResponses(serverProof, s, t, AuthResponse(c.handshake, c.serverNonce, c.proof));
    }
  }

  lemma AckSendsNothing(s: State, h: nat, ack: Ack)
    requires Answered(s, h)
    ensures NothingSent(s, AckStep(s, h, ack))
  {
  }

  lemma ReceiveSendsNothing(s: State, socket: nat, m: Message)
    ensures NothingSent(s, ReceiveStep(s, socket, m))
  {
    if s.handshake.Some? && Answered(s, s.handshake.value) && m.HelloAck? {
      AckSendsNothing(s, s.handshake.value, m.ack);
    }
  }

  lemma StepKeepsResponses(serverProof: (nat, string) -> string, s: State, a: Action)
    requires ResponsesOk(serverProof, s) && ChallengesOk(serverProof, s)
    ensures ResponsesOk(serverProof, Step(serverProof, s, a))
  {
    if a.SignatureDone? && a.k < |s.challenges| {
      SignatureKeepsResponses(serverProof, s, a.k, a.computed, a.open);
    } else {
      OthersSendNothing(serverProof, s, a);
      NothingSentKeepsResponses(serverProof, s, Step(serverProof, s, a));
    }
  }

  lemma OthersSendNothing(serverProof: (nat, string) -> string, s: State, a: Action)
    requires !a.SignatureDone? || a.k >= |s.challenges|
    ensures NothingSent(s, Step(serverProof, s, a))
  {
    if a.Receive? {
      ReceiveSendsNothing(s, a.socket, a.message);
    } else {
      var t := Step(serverProof, s, a);
      assert forall h: nat | Answered(s, h) :: Answered(t, h);
    }
  }

  lemma ReceiveKeepsChallenges(serverProof: (nat, string) -> string, s: State, socket: nat, m: Message)
    requires ChallengesOk(serverProof, s)
    ensures ChallengesOk(serverProof, ReceiveStep(s, socket, m))
  {
  }

  lemma ProofKeepsChallenges(serverProof: (nat, string) -> string, s: State, k: nat, computed: bool)
    requires ChallengesOk(serverProof, s) && k < |s.challenges|
    ensures ChallengesOk(serverProof, ProofStep(serverProof, s, k, computed))
  {
  }

  lemma SignatureKeepsChallenges(
    serverProof: (nat, string) -> string, s: State, k: nat, computed: bool, open: bool)
    requires ChallengesOk(serverProof, s) && k < |s.challenges|
    ensures ChallengesOk(serverProof, SignatureStep(s, k, computed, open))
  {
  }

  lemma StepKeepsChallenges(serverProof: (nat, string) -> string, s: State, a: Action)
    requires ChallengesOk(serverProof, s)
    ensures ChallengesOk(serverProof, Step(serverProof, s, a))
  {
    match a
    case Receive(socket, m) => ReceiveKeepsChallenges(serverProof, s, socket, m);
    case ProofDone(k, computed) => if k < |s.challenges| { ProofKeepsChallenges(serverProof, s, k, computed); }
    case SignatureDone(k, computed, open) =>
      if k < |s.challenges| { SignatureKeepsChallenges(serverProof, s, k, computed, open); }
    case _ => assert Step(serverProof, s, a).challenges == s.challenges;
  }

  /** Some challenge for the handshake carried the proof of a server that knows the token. */
  ghost predicate Proved(serverProof: (nat, string) -> string, challenges: seq<Challenge>, h: nat) {
    exists k | 0 <= k < |challenges| ::
      challenges[k].handshake == h && challenges[k].proof == serverProof(h, challenges[k].serverNonce)
  }

  ghost predicate ProvedOk(serverProof: (nat, string) -> string, s: State) {
    forall h: nat | Answered(s, h) :: Proved(serverProof, s.challenges, h)
  }

  /** Challenges are added, and only their progress changes. */
  ghost predicate ChallengesContinue(s: State, t: State) {
    |s.challenges| <= |t.challenges| && forall k | 0 <= k < |s.challenges| ::
      t.challenges[k] == s.challenges[k].(progress := t.challenges[k].progress)
  }

  lemma ProvedStays(serverProof: (nat, string) -> string, s: State, t: State, h: nat)
    requires ChallengesContinue(s, t) && Proved(serverProof, s.challenges, h)
    ensures Proved(serverProof, t.challenges, h)
  {
    var k :| 0 <= k < |s.challenges| &&
      s.challenges[k].handshake == h && s.challenges[k].proof == serverProof(h, s.challenges[k].serverNonce);
    assert t.challenges[k].handshake == h;
  }

  lemma ReceiveContinues(s: State, socket: nat, m: Message)
    ensures ChallengesContinue(s, ReceiveStep(s, socket, m))
  {
  }

  lemma ProofContinues(serverProof: (nat, string) -> string, s: State, k: nat, computed: bool)
    requires k < |s.challenges|
    ensures ChallengesContinue(s, ProofStep(serverProof, s, k, computed))
  {
  }

  lemma SignatureContinues(s: State, k: nat, computed: bool, open: bool)
    requires k < |s.challenges|
    ensures ChallengesContinue(s, SignatureStep(s, k, computed, open))
  {
  }

  lemma StepContinues(serverProof: (nat, string) -> string, s: State, a: Action)
    ensures ChallengesContinue(s, Step(serverProof, s, a))
  {
    match a
    case Receive(socket, m) => ReceiveContinues(s, socket, m);
    case ProofDone(k, computed) => if k < |s.challenges| { ProofContinues(serverProof, s, k, computed); }
    case SignatureDone(k, computed, open) => if k < |s.challenges| { SignatureContinues(s, k, computed, open); }
    case _ => assert Step(serverProof, s, a).challenges == s.challenges;
  }

  lemma StepAnswers(serverProof: (nat, string) -> string, s: State, a: Action, h: nat)
    requires Answered(Step(serverProof, s, a), h) && !Answered(s, h)
    ensures a.SignatureDone? && a.k < |s.challenges|
            && s.challenges[a.k].handshake == h && s.challenges[a.k].progress.Signing?
  {
    if a.SignatureDone? && a.k < |s.challenges| {
      SignatureAnswers(s, a.k, a.computed, a.open, h);
    } else if a.Receive? {
      ReceiveKeepsHandshakes(s, a.socket, a.message);
    }
  }

  lemma ReceiveKeepsHandshakes(s: State, socket: nat, m: Message)
    ensures ReceiveStep(s, socket, m).handshakes == s.handshakes
  {
  }

  lemma SignatureAnswers(s: State, k: nat, computed: bool, open: bool, h: nat)
    requires k < |s.challenges| && Answered(SignatureStep(s, k, computed, open), h) && !Answered(s, h)
    ensures s.challenges[k].handshake == h && s.challenges[k].progress.Signing?
  {
  }

  lemma StepKeepsProved(serverProof: (nat, string) -> string, s: State, a: Action)
    requires ProvedOk(serverProof, s) && ChallengesOk(serverProof, s)
    ensures ProvedOk(serverProof, Step(serverProof, s, a))
  {
    var t := Step(serverProof, s, a);
    StepContinues(serverProof, s, a);
    forall h: nat | Answered(t, h) ensures Proved(serverProof, t.challenges, h) {
      if !Answered(s, h) {
        StepAnswers(serverProof, s, a, h);
        assert s.challenges[a.k].handshake == h;
      }
      ProvedStays(serverProof, s, t, h);
    }
  }

  // ---- resets --------------------------------------------------------------------------------

  /** An accept or a start between two positions of the log. */
  ghost predicate Renewed(log: seq<Event>, p: nat, q: nat)
    requires q <= |log|
  {
    exists r | p < r < q :: log[r].Accepted? || log[r].Started?
  }

  ghost predicate ResetsOk(s: State) {
    && s.resetReconnects <= MAX_RESET_RECONNECTS
    && (forall p, q | 0 <= p < q < |s.log| && s.log[p].ResetRequired? && s.log[q].ResetRequired? ::
          Renewed(s.log, p, q))
    && (s.resetReconnects == 0 ==>
          forall p | 0 <= p < |s.log| && s.log[p].ResetRequired? :: Renewed(s.log, p, |s.log|))
  }

  lemma RenewedExtends(log: seq<Event>, longer: seq<Event>, p: nat, q: nat)
    requires log <= longer && q <= |log| && Renewed(log, p, q)
    ensures Renewed(longer, p, q)
  {
    var r :| p < r < q && (log[r].Accepted? || log[r].Started?);
    assert longer[r] == log[r];
  }

  lemma LogGrowsKeepsResets(s: State, t: State, e: Event)
    requires ResetsOk(s) && t.log == s.log + [e]
    requires e.ResetRequired? ==> s.resetReconnects == 0 && t.resetReconnects == 1
    requires e.AuthResponse? ==> t.resetReconnects == s.resetReconnects
    requires t.resetReconnects <= 1
    ensures ResetsOk(t)
  {
    var n := |s.log|;
    forall p, q | 0 <= p < q <= n && t.log[p].ResetRequired? && (q == n ==> s.resetReconnects == 0)
                  && (q < n ==> t.log[q].ResetRequired?)
      ensures Renewed(t.log, p, q)
    {
      assert s.log[p] == t.log[p];
      assert Renewed(s.log, p, q);
      RenewedExtends(s.log, t.log, p, q);
    }
    if t.resetReconnects == 0 {
      forall p | 0 <= p < |t.log| && t.log[p].ResetRequired? ensures Renewed(t.log, p, |t.log|) {
        assert t.log[n] == e;
        if e.AuthResponse? {
          assert Renewed(t.log, p, n);
          var r :| p < r < n && (t.log[r].Accepted? || t.log[r].Started?);
        }
      }
    }
  }

  lemma SameLogKeepsResets(s: State, t: State)
    requires ResetsOk(s) && t.log == s.log && t.resetReconnects == s.resetReconnects
    ensures ResetsOk(t)
  {
  }

  lemma AckKeepsResets(s: State, h: nat, ack: Ack)
    requires ResetsOk(s)
    ensures ResetsOk(AckStep(s, h, ack))
  {
    var t := AckStep(s, h, ack);
    if t.log == s.log {
      SameLogKeepsResets(s, t);
    } else {
      LogGrowsKeepsResets(s, t, if ack.Accept? then Accepted(h) else ResetRequired);
    }
  }

  lemma HelloAckKeepsResets(s: State, socket: nat, ack: Ack)
    requires ResetsOk(s)
    ensures ResetsOk(HelloAckStep(s, socket, ack))
  {
    if s.handshake.Some? {
      AckKeepsResets(s, s.handshake.value, ack);
    }
    SameLogKeepsResets(s, Fault(s, socket));
  }

  lemma ReceiveKeepsResets(s: State, socket: nat, m: Message)
    requires ResetsOk(s)
    ensures ResetsOk(ReceiveStep(s, socket, m))
  {
    var t := ReceiveStep(s, socket, m);
    if m.HelloAck? && t == HelloAckStep(s, socket, m.ack) {
      HelloAckKeepsResets(s, socket, m.ack);
    } else {
      assert t.log == s.log && t.resetReconnects == s.resetReconnects;
      SameLogKeepsResets(s, t);
    }
  }

  lemma SignatureKeepsResets(s: State, k: nat, computed: bool, open: bool)
    requires ResetsOk(s) && k < |s.challenges|
    ensures ResetsOk(SignatureStep(s, k, computed, open))
  {
    var t := SignatureStep(s, k, computed, open);
    if t.log == s.log {
      SameLogKeepsResets(s, t);
    } else {
      LogGrowsKeepsResets(s, t, t.log[|s.log|]);
    }
  }

  lemma StepKeepsResets(serverProof: (nat, string) -> string, s: State, a: Action)
    requires ResetsOk(s)
    ensures ResetsOk(Step(serverProof, s, a))
  {
    match a
    case Start => if s.stopped { LogGrowsKeepsResets(s, StartStep(s), Started); }
    case Receive(socket, m) => ReceiveKeepsResets(s, socket, m);
    case SignatureDone(k, computed, open) => if k < |s.challenges| { SignatureKeepsResets(s, k, computed, open); }
    case _ => SameLogKeepsResets(s, Step(serverProof, s, a));
  }

  // ---- all runs ------------------------------------------------------------------------------

  /** Every start of a run takes effect only when no earlier connect still awaits its context. */
  ghost predicate InTurn(serverProof: (nat, string) -> string, s: State, actions: seq<Action>)
    decreases |actions|
  {
    actions == [] ||
    (StartsInTurn(s, actions[0]) && InTurn(serverProof, Step(serverProof, s, actions[0]), actions[1..]))
  }

  ghost predicate Inv(serverProof: (nat, string) -> string, s: State) {
    ResponsesOk(serverProof, s) && ChallengesOk(serverProof, s) && ProvedOk(serverProof, s) && ResetsOk(s)
  }

  lemma {:induction false} RunKeeps(serverProof: (nat, string) -> string, s: State, actions: seq<Action>)
    requires Inv(serverProof, s)
    ensures Inv(serverProof, Run(serverProof, s, actions))
    decreases |actions|
  {
    if actions != [] {
      StepKeepsResponses(serverProof, s, actions[0]);
      StepKeepsChallenges(serverProof, s, actions[0]);
      StepKeepsProved(serverProof, s, actions[0]);
      StepKeepsResets(serverProof, s, actions[0]);
      RunKeeps(serverProof, Step(serverProof, s, actions[0]), actions[1..]);
    }
  }

  lemma {:induction false} RunKeepsConnection(
      serverProof: (nat, string) -> string, s: State, actions: seq<Action>)
    requires ConnectionOk(s) && InTurn(serverProof, s, actions)
    ensures ConnectionOk(Run(serverProof, s, actions))
    decreases |actions|
  {
    if actions != [] {
      StepKeepsConnection(serverProof, s, actions[0]);
      RunKeepsConnection(serverProof, Step(serverProof, s, actions[0]), actions[1..]);
    }
  }

  /**
   As long as starts come in turn there is at most one connect in flight, armed timer or socket; and
   exactly one while the connector is neither stopped nor rejected, so it never stops trying by itself.
   */
  lemma OneAttemptAtATime(serverProof: (nat, string) -> string, actions: seq<Action>)
    requires InTurn(serverProof, Initial(), actions)
    ensures var s := Run(serverProof, Initial(), actions);
      Attempts(s) <= 1 && (s.status != Stopped && s.status != Rejected ==> Attempts(s) == 1)
  {
    RunKeepsConnection(serverProof, Initial(), actions);
  }

  /** A start out of turn is exactly what breaks this. */
  lemma StartOutOfTurn(serverProof: (nat, string) -> string, actions: seq<Action>)
    requires InTurn(serverProof, Initial(), actions) && Run(serverProof, Initial(), actions).stopped
    ensures var s := Run(serverProof, Initial(), actions);
      Attempts(StartStep(s)) <= 1 <==> s.connecting == 0
  {
    RunKeepsConnection(serverProof, Initial(), actions);
  }

  /** It can happen: stopping and starting while the context is awaited leaves two connects in flight. */
  lemma RestartWhileConnecting(serverProof: (nat, string) -> string)
    ensures Run(serverProof, Initial(), [Start, Stop, Start]).connecting == 2
  {
    var s1 := Step(serverProof, Initial(), Start);
    var s2 := Step(serverProof, s1, Stop);
    assert [Start, Stop, Start][1..] == [Stop, Start] && [Stop, Start][1..] == [Start] && [Start][1..] == [];
    assert Run(serverProof, s2, [Start]) == Step(serverProof, s2, Start);
    assert Run(serverProof, s1, [Stop, Start]) == Run(serverProof, s2, [Start]);
  }

  /** A handshake answers at most once, and only a server that proved it knows the token for its nonce. */
  lemma OneVerifiedResponse(serverProof: (nat, string) -> string, actions: seq<Action>, p: nat)
    requires p < |Run(serverProof, Initial(), actions).log| && Run(serverProof, Initial(), actions).log[p].AuthResponse?
    ensures var log := Run(serverProof, Initial(), actions).log;
      && log[p].proof == serverProof(log[p].handshake, log[p].serverNonce)
      && (forall q | 0 <= q < |log| && q != p && log[q].AuthResponse? :: log[q].handshake != log[p].handshake)
  {
    RunKeeps(serverProof, Initial(), actions);
  }

  /** The connector accepts a session only from a server that proved it knows the token for this handshake. */
  lemma AcceptedOnlyWhenProved(serverProof: (nat, string) -> string, actions: seq<Action>, p: nat)
    requires p < |Run(serverProof, Initial(), actions).log| && Run(serverProof, Initial(), actions).log[p].Accepted?
    ensures var s := Run(serverProof, Initial(), actions); var h := s.log[p].handshake;
      exists k | 0 <= k < |s.challenges| ::
        s.challenges[k].handshake == h && s.challenges[k].proof == serverProof(h, s.challenges[k].serverNonce)
  {
    RunKeeps(serverProof, Initial(), actions);
    var s := Run(serverProof, Initial(), actions);
    assert Proved(serverProof, s.challenges, s.log[p].handshake);
  }

  /** Between two resets the bridge accepted the connector or it was started anew. */
  lemma OneResetAtATime(serverProof: (nat, string) -> string, actions: seq<Action>, p: nat, q: nat)
    requires var log := Run(serverProof, Initial(), actions).log;
      p < q < |log| && log[p].ResetRequired? && log[q].ResetRequired?
    ensures var log := Run(serverProof, Initial(), actions).log;
      exists r | p < r < q :: log[r].Accepted? || log[r].Started?
  {
    RunKeeps(serverProof, Initial(), actions);
    assert Renewed(Run(serverProof, Initial(), actions).log, p, q);
  }

  lemma RejectedStep(serverProof: (nat, string) -> string, s: State, a: Action)
    requires ConnectionOk(s) && s.status == Rejected && !a.Stop?
    ensures var t := Step(serverProof, s, a);
      && t.status == Rejected && t.log == s.log && t.sockets == s.sockets && t.handshakes == s.handshakes
      && t.connecting == 0 && !t.reconnectTimer
  {
  }

  lemma {:induction false} RejectedStays(serverProof: (nat, string) -> string, s: State, actions: seq<Action>)
    requires ConnectionOk(s) && s.status == Rejected && Stop !in actions
    ensures var t := Run(serverProof, s, actions);
      && t.status == Rejected && t.log == s.log && t.sockets == s.sockets && t.handshakes == s.handshakes
      && t.connecting == 0 && !t.reconnectTimer
    decreases |actions|
  {
    if actions != [] {
      assert actions[0] in actions;
      RejectedStep(serverProof, s, actions[0]);
      StepKeepsConnection(serverProof, s, actions[0]);
      RejectedStays(serverProof, Step(serverProof, s, actions[0]), actions[1..]);
    }
  }

  /** Rejected is final until `stop`: no connect, no socket, no handshake and no answer after it. */
  lemma RejectedIsFinal(serverProof: (nat, string) -> string, actions: seq<Action>, more: seq<Action>)
    requires InTurn(serverProof, Initial(), actions) && Run(serverProof, Initial(), actions).status == Rejected
    requires Stop !in more
    ensures var s := Run(serverProof, Initial(), actions); var t := Run(serverProof, s, more);
      && t.status == Rejected && t.log == s.log && t.sockets == s.sockets && t.handshakes == s.handshakes
      && t.connecting == 0 && !t.reconnectTimer
  {
    RunKeepsConnection(serverProof, Initial(), actions);
    RejectedStays(serverProof, Run(serverProof, Initial(), actions), more);
  }

  // ---- what an acknowledgement leads to ------------------------------------------------------

  /** The current socket's handshake waits for its acknowledgement. */
  predicate AwaitsAck(s: State, socket: nat) {
    && s.socket == Some(socket) && s.status == Authenticating && s.handshake.Some?
    && s.handshake.value < |s.handshakes| && s.handshakes[s.handshake.value].stage == AwaitAck
  }

  /** The registration is over and the socket rejected; nothing is logged. */
  ghost predicate TurnedAway(s: State, t: State) {
    t == s.(status := Rejected, authRejected := true, resetReconnectPending := false, handshake := None)
  }

  /** Connected, one reset, or rejected for good; out of turn, only a fault. */
  ghost predicate Acknowledged(s: State, t: State, socket: nat, ack: Ack) {
    if !AwaitsAck(s, socket) then t == s.(faulted := s.faulted + {socket})
    else match ack
      case Refuse => TurnedAway(s, t)
      case Accept =>
        t == s.(status := Connected, authRejected := false, resetReconnects := 0, handshake := None,
                log := s.log + [Accepted(s.handshake.value)])
      case RequireReset =>
        if s.resetReconnects >= 1 then TurnedAway(s, t)
        else
          t == s.(status := Resetting, resetReconnects := s.resetReconnects + 1, resetReconnectPending := true,
                  handshake := None, log := s.log + [ResetRequired])
  }

  lemma HelloAckIsAcknowledged(s: State, socket: nat, ack: Ack)
    ensures Acknowledged(s, HelloAckStep(s, socket, ack), socket, ack)
  {
  }

  lemma {:induction false} RunThenStep(
    serverProof: (nat, string) -> string, s: State, actions: seq<Action>, a: Action)
    ensures Run(serverProof, s, actions + [a]) == Step(serverProof, Run(serverProof, s, actions), a)
    decreases |actions|
  {
    var all := actions + [a];
    if actions == [] {
      assert all[0] == a && all[1..] == [];
    } else {
      assert all[0] == actions[0] && all[1..] == actions[1..] + [a];
      RunThenStep(serverProof, Step(serverProof, s, actions[0]), actions[1..], a);
    }
  }

  /** Action k of the run was the bridge's acceptance of handshake h, on the socket that waited for it. */
  ghost predicate AcceptedAt(serverProof: (nat, string) -> string, actions: seq<Action>, k: nat, socket: nat, h: nat) {
    && k < |actions| && actions[k] == Receive(socket, HelloAck(Accept))
    && AwaitsAck(Run(serverProof, Initial(), actions[..k]), socket)
    && Run(serverProof, Initial(), actions[..k]).handshake == Some(h)
  }

  /** Only an acceptance logs one, and only an acceptance connects. */
  lemma StepAccepts(serverProof: (nat, string) -> string, s: State, a: Action, p: nat)
    ensures var t := Step(serverProof, s, a);
      && (p < |t.log| && t.log[p].Accepted? ==>
            || (p < |s.log| && s.log[p] == t.log[p])
            || (a.Receive? && a.message == HelloAck(Accept) && AwaitsAck(s, a.socket)
                && s.handshake == Some(t.log[p].handshake)))
      && (t.status == Connected ==>
            || s.status == Connected
            || (a.Receive? && a.message == HelloAck(Accept) && AwaitsAck(s, a.socket)))
  {
    if a.Receive? {
      ReceiveAccepts(s, a.socket, a.message, p);
      ReceiveConnects(s, a.socket, a.message);
    }
  }

  lemma ReceiveAccepts(s: State, socket: nat, m: Message, p: nat)
    ensures var t := ReceiveStep(s, socket, m);
      p < |t.log| && t.log[p].Accepted? ==>
        || (p < |s.log| && s.log[p] == t.log[p])
        || (m == HelloAck(Accept) && AwaitsAck(s, socket) && s.handshake == Some(t.log[p].handshake))
  {
  }

  lemma ReceiveConnects(s: State, socket: nat, m: Message)
    ensures ReceiveStep(s, socket, m).status == Connected ==>
      s.status == Connected || (m == HelloAck(Accept) && AwaitsAck(s, socket))
  {
  }

  lemma EarlierAcceptance(
    serverProof: (nat, string) -> string, actions: seq<Action>, n: nat, k: nat, socket: nat, h: nat)
    requires n <= |actions| && AcceptedAt(serverProof, actions[..n], k, socket, h)
    ensures AcceptedAt(serverProof, actions, k, socket, h)
  {
    assert actions[..n][..k] == actions[..k];
  }

  /** A session is accepted only by an acceptance from the bridge for its handshake. */
  lemma {:induction false} AcceptedOnlyByTheBridge(serverProof: (nat, string) -> string, actions: seq<Action>, p: nat)
      returns (k: nat, socket: nat)
    requires p < |Run(serverProof, Initial(), actions).log| && Run(serverProof, Initial(), actions).log[p].Accepted?
    ensures AcceptedAt(serverProof, actions, k, socket, Run(serverProof, Initial(), actions).log[p].handshake)
    decreases |actions|
  {
    var n := |actions| - 1;
    var before := actions[..n];
    assert before + [actions[n]] == actions;
    RunThenStep(serverProof, Initial(), before, actions[n]);
    var s := Run(serverProof, Initial(), before);
    StepAccepts(serverProof, s, actions[n], p);
    if p < |s.log| && s.log[p] == Run(serverProof, Initial(), actions).log[p] {
      k, socket := AcceptedOnlyByTheBridge(serverProof, before, p);
      EarlierAcceptance(serverProof, actions, n, k, socket, s.log[p].handshake);
    } else {
      k, socket := n, actions[n].socket;
    }
  }

  lemma ConnectedThroughout(serverProof: (nat, string) -> string, actions: seq<Action>, k: nat)
    requires actions != [] && Run(serverProof, Initial(), actions).status == Connected
    requires var before := actions[..|actions| - 1];
      forall j | k < j <= |before| :: Run(serverProof, Initial(), before[..j]).status == Connected
    ensures forall j | k < j <= |actions| :: Run(serverProof, Initial(), actions[..j]).status == Connected
  {
    var n := |actions| - 1;
    forall j | k < j <= |actions| ensures Run(serverProof, Initial(), actions[..j]).status == Connected {
      if j <= n {
        assert actions[..n][..j] == actions[..j];
      } else {
        assert actions[..j] == actions;
      }
    }
  }

  /** While it is connected, the bridge's acceptance is the last thing that changed the status. */
  lemma {:induction false} ConnectedSinceAccepted(serverProof: (nat, string) -> string, actions: seq<Action>)
      returns (k: nat, socket: nat, h: nat)
    requires Run(serverProof, Initial(), actions).status == Connected
    ensures AcceptedAt(serverProof, actions, k, socket, h)
    ensures forall j | k < j <= |actions| :: Run(serverProof, Initial(), actions[..j]).status == Connected
    decreases |actions|
  {
    var n := |actions| - 1;
    var before := actions[..n];
    assert before + [actions[n]] == actions && actions[..|actions|] == actions;
    RunThenStep(serverProof, Initial(), before, actions[n]);
    var s := Run(serverProof, Initial(), before);
    StepAccepts(serverProof, s, actions[n], 0);
    if s.status == Connected {
      k, socket, h := ConnectedSinceAccepted(serverProof, before);
      EarlierAcceptance(serverProof, actions, n, k, socket, h);
      ConnectedThroughout(serverProof, actions, k);
    } else {
      k, socket, h := n, actions[n].socket, s.handshake.value;
    }
  }

  // ---- how a connection comes about ----------------------------------------------------------

  /** From a start over the context and the socket to a fresh handshake that waits for its challenge. */
  lemma StartLeadsToHandshake(serverProof: (nat, string) -> string, s: State)
    requires s.stopped && s.connecting == 0
    ensures var started := Step(serverProof, s, Start);
            var created := Step(serverProof, started, ContextReady(true));
            var begun := Step(serverProof, created, Open(s.sockets));
            var h := |s.handshakes|;
      && started.status == Connecting && started.connecting == 1 && !started.authRejected
      && started.resetReconnects == 0 && started.log == s.log + [Started]
      && created.socket == Some(s.sockets) && created.sockets == s.sockets + 1 && created.connecting == 0
      && begun.status == Authenticating && begun.handshake == Some(h)
      && begun.handshakes == s.handshakes + [Handshake(AwaitChallenge, s.sockets)]
  {
  }

  /** A context that cannot be read, or a socket that cannot be made, arms the timer; the timer connects again. */
  lemma FailureLeadsToRetry(serverProof: (nat, string) -> string, s: State, failed: bool)
    requires ConnectionOk(s) && !s.stopped && s.connecting == 1
    ensures var t := Step(serverProof, s, if failed then ContextFails else ContextReady(false));
      && t.status == Reconnecting && t.reconnectTimer && t.connecting == 0
      && var again := Step(serverProof, t, TimerFires);
         again.status == Connecting && again.connecting == 1 && !again.reconnectTimer
  {
  }

  // ---- what a close and a stop lead to -------------------------------------------------------

  /** How the connector goes on after the close of its socket. */
  lemma CloseLeads(s: State, socket: nat, code: int)
    requires ConnectionOk(s) && s.socket == Some(socket)
    ensures var t := CloseStep(s, socket, code);
      && t.socket.None? && t.handshake.None? && t.log == s.log && !t.resetReconnectPending
      && (s.status == Rejected || (s.status == Authenticating && (code == 1008 || code == 4003)) ==>
            t.status == Rejected && t.authRejected && !t.reconnectTimer)
      && (s.status == Resetting || s.status == Connected || s.status == Connecting
          || (s.status == Authenticating && code != 1008 && code != 4003) ==>
            t.status == Reconnecting && !t.authRejected && t.reconnectTimer)
  {
  }

  ghost predicate AtRest(s: State) {
    s.status == Stopped && s.stopped && s.socket.None? && s.handshake.None? && !s.reconnectTimer
  }

  lemma {:induction false} RestStays(serverProof: (nat, string) -> string, s: State, actions: seq<Action>)
    requires AtRest(s) && Start !in actions
    ensures var t := Run(serverProof, s, actions);
      AtRest(t) && t.log == s.log && t.sockets == s.sockets && t.handshakes == s.handshakes
    decreases |actions|
  {
    if actions != [] {
      assert actions[0] in actions;
      RestStep(serverProof, s, actions[0]);
      RestStays(serverProof, Step(serverProof, s, actions[0]), actions[1..]);
    }
  }

  lemma RestStep(serverProof: (nat, string) -> string, s: State, a: Action)
    requires AtRest(s) && !a.Start?
    ensures var t := Step(serverProof, s, a);
      AtRest(t) && t.log == s.log && t.sockets == s.sockets && t.handshakes == s.handshakes
  {
  }

  /** Stopping is final until `start`, whatever was in flight: no socket, no handshake, no answer after it. */
  lemma StoppedIsFinal(serverProof: (nat, string) -> string, s: State, more: seq<Action>)
    requires Start !in more
    ensures var stopped := Step(serverProof, s, Stop); var t := Run(serverProof, stopped, more);
      && t.status == Stopped && t.socket.None? && !t.reconnectTimer
      && t.log == s.log && t.sockets == s.sockets && t.handshakes == s.handshakes
  {
    RestStays(serverProof, Step(serverProof, s, Stop), more);
  }

  // ---- a challenge, uninterrupted -------------------------------------------------------------

  /** How the two computations of `handleAuthChallenge` and the sending end. */
  datatype Course = Course(computed: bool, signed: bool, open: bool)

  predicate AwaitsChallenge(s: State, socket: nat) {
    && s.socket == Some(socket) && s.status == Authenticating && s.handshake.Some?
    && s.handshake.value < |s.handshakes| && s.handshakes[s.handshake.value].stage == AwaitChallenge
  }

  /** `handleMessage` for a challenge, with no other step in between. */
  function Challenged(
    serverProof: (nat, string) -> string, s: State, socket: nat, serverNonce: string, proof: string, c: Course): State
    requires AwaitsChallenge(s, socket)
  {
    var k, t := |s.challenges|, ReceiveStep(s, socket, AuthChallenge(serverNonce, proof));
    SignatureStep(ProofStep(serverProof, t, k, c.computed), k, c.signed, c.open)
  }

  /**
   The response is sent exactly if the proof is the server's for this handshake and nothing fails; whatever
   fails rejects the socket, and only a failing send has moved the handshake on.
   */
  ghost predicate Responds(
    serverProof: (nat, string) -> string, s: State, t: State, socket: nat, serverNonce: string, proof: string,
    c: Course)
  {
    && AwaitsChallenge(s, socket)
    && var h := s.handshake.value;
    && var moved := c.computed && proof == serverProof(h, serverNonce) && c.signed;
    && t == s.(
         challenges := s.challenges + [Challenge(socket, h, serverNonce, proof, Over)],
         handshakes := if moved then s.handshakes[h := s.handshakes[h].(stage := AwaitAck)] else s.handshakes,
         faulted := if moved && c.open then s.faulted else s.faulted + {socket},
         log := if moved && c.open then s.log + [AuthResponse(h, serverNonce, proof)] else s.log)
  }

  lemma ChallengedResponds(
    serverProof: (nat, string) -> string, s: State, socket: nat, serverNonce: string, proof: string, c: Course)
    requires AwaitsChallenge(s, socket)
    ensures Responds(
      serverProof, s, Challenged(serverProof, s, socket, serverNonce, proof, c), socket, serverNonce, proof, c)
  {
  }

  lemma RespondingKeeps(
    serverProof: (nat, string) -> string, s: State, t: State, socket: nat, serverNonce: string, proof: string,
    c: Course)
    requires ConnectionOk(s) && Responds(serverProof, s, t, socket, serverNonce, proof, c)
    ensures ConnectionOk(t)
  {
  }

  // ---- the connector object ------------------------------------------------------------------

  class ReluWebConnector {
    const serverProof: (nat, string) -> string
    var state: Status
    var stopped: bool
    var authRejected: bool
    var resetReconnects: nat
    var resetReconnectPending: bool
    var reconnectTimer: bool
    var connecting: nat
    var socket: Option<nat>
    var sockets: nat
    var handshake: Option<nat>
    var handshakes: seq<Handshake>
    var challenges: seq<Challenge>
    var faulted: set<nat>
    var log: seq<Event>

    function View(): State
      reads this
    {
      State(state, stopped, authRejected, resetReconnects, resetReconnectPending, reconnectTimer, connecting,
            socket, sockets, handshake, handshakes, challenges, faulted, log)
    }

    constructor (serverProof: (nat, string) -> string)
      ensures View() == Initial() && this.serverProof == serverProof
    {
      this.serverProof := serverProof;
      state, stopped, authRejected, resetReconnects, resetReconnectPending := Stopped, true, false, 0, false;
      reconnectTimer, connecting, socket, sockets, handshake := false, 0, None, 0, None;
      handshakes, challenges, faulted, log := [], [], {}, [];
    }

    method BeginConnect()
      modifies this`state, this`connecting
      ensures View() == Connect(old(View()))
    {
      if stopped || authRejected {
        return;
      }
      state := Connecting;
      connecting := connecting + 1;
    }

    method ScheduleReconnection()
      modifies this`state, this`reconnectTimer
      ensures View() == ScheduleReconnect(old(View()))
    {
      if stopped || authRejected || reconnectTimer {
        return;
      }
      state := Reconnecting;
      reconnectTimer := true;
    }

    method StartConnector()
      modifies this
      ensures View() == Step(serverProof, old(View()), Start)
    {
      if !stopped {
        return;
      }
      stopped, authRejected, resetReconnects, resetReconnectPending := false, false, 0, false;
      log := log + [Started];
      BeginConnect();
    }

    method StopConnector()
      modifies this
      ensures View() == Step(serverProof, old(View()), Stop)
    {
      stopped, authRejected, resetReconnectPending := true, false, false;
      reconnectTimer, socket, handshake := false, None, None;
      state := Stopped;
    }

    method ContextFailed()
      requires connecting > 0
      modifies this
      ensures View() == Step(serverProof, old(View()), ContextFails)
    {
      connecting := connecting - 1;
      if stopped {
        return;
      }
      state := Disconnected;
      ScheduleReconnection();
    }

    /** The context is there: a socket is created, unless its constructor throws. */
    method ContextArrived(created: bool)
      requires connecting > 0
      modifies this
      ensures View() == Step(serverProof, old(View()), ContextReady(created))
    {
      connecting := connecting - 1;
      if stopped || authRejected {
        return;
      }
      if created {
        socket, sockets := Some(sockets), sockets + 1;
      } else {
        state := Disconnected;
        ScheduleReconnection();
      }
    }

    method ReconnectTimerFired()
      requires reconnectTimer
      modifies this
      ensures View() == Step(serverProof, old(View()), TimerFires)
    {
      reconnectTimer := false;
      BeginConnect();
    }

    method OnOpen(source: nat)
      modifies this
      ensures View() == Step(serverProof, old(View()), Open(source))
    {
      if socket != Some(source) || stopped || state != Connecting {
        return;
      }
      state := Authenticating;
      handshake := Some(|handshakes|);
      handshakes := handshakes + [Handshake(AwaitChallenge, source)];
    }

    method OnClose(closed: nat, code: int)
      modifies this`state, this`authRejected, this`resetReconnectPending, this`reconnectTimer, this`socket,
        this`handshake
      ensures View() == Step(serverProof, old(View()), Close(closed, code))
    {
      if socket != Some(closed) {
        return;
      }
      var previousState := state;
      socket, handshake := None, None;
      if stopped {
        return;
      }
      if resetReconnectPending {
        resetReconnectPending := false;
        ScheduleReconnection();
      } else if authRejected || previousState == Rejected {
        state := Rejected;
      } else if previousState == Authenticating && (code == 1008 || code == 4003) {
        authRejected, state := true, Rejected;
      } else {
        state := Disconnected;
        ScheduleReconnection();
      }
    }

    method RejectAuthentication()
      modifies this`state, this`authRejected, this`resetReconnectPending, this`handshake
      ensures View() == Reject(old(View()))
    {
      authRejected, resetReconnectPending, handshake, state := true, false, None, Rejected;
    }

    method HandleHelloAck(ack: Ack, source: nat)
      modifies this`state, this`authRejected, this`resetReconnects, this`resetReconnectPending, this`handshake,
        this`faulted, this`log
      ensures View() == HelloAckStep(old(View()), source, ack)
    {
      if socket != Some(source) || state != Authenticating || handshake.None?
        || handshake.value >= |handshakes| || handshakes[handshake.value].stage != AwaitAck
      {
        faulted := faulted + {source};
        return;
      }
      Acknowledge(ack);
    }

    method Acknowledge(ack: Ack)
      requires handshake.Some?
      modifies this`state, this`authRejected, this`resetReconnects, this`resetReconnectPending, this`handshake, this`log
      ensures View() == AckStep(old(View()), old(handshake).value, ack)
    {
      match ack
      case Accept =>
        log := log + [Accepted(handshake.value)];
        authRejected, resetReconnects, handshake, state := false, 0, None, Connected;
      case RequireReset =>
        if resetReconnects >= MAX_RESET_RECONNECTS {
          RejectAuthentication();
        } else {
          resetReconnects := resetReconnects + 1;
          handshake, resetReconnectPending, state := None, true, Resetting;
          log := log + [ResetRequired];
        }
      case Refuse => RejectAuthentication();
    }

    method OnMessage(source: nat, m: Message)
      modifies this
      ensures View() == Step(serverProof, old(View()), Receive(source, m))
    {
      if socket != Some(source) {
        return;
      }
      if state == Authenticating && handshake.Some? && handshake.value < |handshakes| {
        var stage := handshakes[handshake.value].stage;
        if stage == AwaitChallenge && m.AuthChallenge? {
          challenges := challenges + [Challenge(source, handshake.value, m.serverNonce, m.proof, Proving)];
          return;
        }
        if stage == AwaitAck && m.HelloAck? {
          HandleHelloAck(m.ack, source);
          return;
        }
      } else if state == Connected && m.Operational? {
        return;
      }
      faulted := faulted + {source};
    }

    method Settle(k: nat, progress: Progress)
      requires k < |challenges|
      modifies this`challenges
      ensures View() == Proceed(old(View()), k, progress)
    {
      challenges := challenges[k := challenges[k].(progress := progress)];
    }

    /** `handleAuthChallenge` after its first await. */
    method VerifyServer(k: nat, computed: bool)
      requires k < |challenges| && challenges[k].progress.Proving?
      modifies this
      ensures View() == Step(serverProof, old(View()), ProofDone(k, computed))
    {
      var c := challenges[k];
      if !computed {
        Settle(k, Over);
        faulted := faulted + {c.socket};
      } else if !StillWanted(View(), c) {
        Settle(k, Over);
      } else if c.proof != serverProof(c.handshake, c.serverNonce) {
        Settle(k, Over);
        faulted := faulted + {c.socket};
      } else {
        Settle(k, Signing);
      }
    }

    /** `handleAuthChallenge` after its last await. */
    method SendAuthResponse(k: nat, computed: bool, open: bool)
      requires k < |challenges| && challenges[k].progress.Signing?
      modifies this
      ensures View() == Step(serverProof, old(View()), SignatureDone(k, computed, open))
    {
      var c := challenges[k];
      if !computed {
        faulted := faulted + {c.socket};
      } else if StillWanted(View(), c) {
        handshakes := handshakes[c.handshake := handshakes[c.handshake].(stage := AwaitAck)];
        if open {
          log := log + [AuthResponse(c.handshake, c.serverNonce, c.proof)];
        } else {
          faulted := faulted + {c.socket};
        }
      }
      Settle(k, Over);
    }

    method RejectProtocolMessage(source: nat)
      requires source in faulted
      modifies this
      ensures View() == Step(serverProof, old(View()), RejectProtocol(source))
    {
      if socket != Some(source) {
        return;
      }
      RejectAuthentication();
    }

    ghost predicate Valid()
      reads this
    {
      ConnectionOk(View())
    }

    /** A challenge that arrives in time, from the check of the server's proof to the response. */
    method AnswerChallenge(source: nat, serverNonce: string, proof: string, c: Course)
      requires Valid() && AwaitsChallenge(View(), source)
      modifies this
      ensures Valid() && Responds(serverProof, old(View()), View(), source, serverNonce, proof, c)
    {
      ChallengedResponds(serverProof, View(), source, serverNonce, proof, c);
      RespondingKeeps(
        serverProof, View(), Challenged(serverProof, View(), source, serverNonce, proof, c), source, serverNonce,
        proof, c);
      RunChallenge(source, serverNonce, proof, c);
    }

    method RunChallenge(source: nat, serverNonce: string, proof: string, c: Course)
      requires AwaitsChallenge(View(), source)
      modifies this
      ensures View() == Challenged(serverProof, old(View()), source, serverNonce, proof, c)
    {
      var k := |challenges|;
      OnMessage(source, AuthChallenge(serverNonce, proof));
      VerifyServer(k, c.computed);
      if challenges[k].progress.Signing? {
        SendAuthResponse(k, c.signed, c.open);
      }
    }
  }
}
