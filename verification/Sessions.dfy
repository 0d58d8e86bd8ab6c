/**
 * The session registry (opcua/session.go; sections 5.7.2 and 5.7.3 of
 * OPC 10000-4): which channel may use a session, what keeps it alive, and how it
 * ends. Each method that holds the registry's lock is one step; the end hook runs
 * after the lock is released and is a step of its own.
 *
 * A token is a random value never issued before, or none when the random read
 * failed. Times and Durations are integers, in nanoseconds.
 */
module Sessions {
  import opened Prelude
  import opened Ints
  import Wire
  import NodeIds

  type Token = string
  type Channel = nat
  type Time = int
  type Ticket = nat

  datatype Mode = ModeNone | Sign | SignAndEncrypt
  datatype Security = Security(mode: Mode, policy: string, anonymousOnly: bool)

  datatype Session = Session(
    id: nat, createdOn: Channel, bound: Channel, security: Security, timeout: int, lastActivity: Time, activated: bool, inFlight: nat)

  datatype Status =
    | Good
    | InternalError
    | LimitsExceeded
    | NonceInvalid
    | TooManySessions
    | SessionIdInvalid
    | SessionClosed
    | ChannelInvalid
    | SecurityChecksFailed
    | IdentityInvalid
    | IdentityRejected

  datatype Limits = Limits(minTimeout: i64, maxTimeout: i64, maxSessions: nat) {
    predicate Valid() { 0 < minTimeout <= maxTimeout && maxSessions > 0 }

    /** reviseTimeout, in whole milliseconds. */
    function ReviseTimeout(requested: Double): int {
      Revised(minTimeout, maxTimeout, requested)
    }
  }

  /** Every revised timeout is greater than zero exactly when the configured minimum is at least a millisecond. */
  lemma TimeoutIsPositiveExactly(l: Limits)
    requires l.Valid()
    ensures (forall requested: Double :: l.ReviseTimeout(requested) > 0) <==> l.minTimeout >= NS_PER_MS
  {
    assert l.ReviseTimeout(Finite(0.0)) == l.minTimeout / NS_PER_MS;
  }

  /** A requested timeout is held between the limits, exactly unless it wraps to something short of the longest and that shows. */
  lemma TimeoutRevisedExactly(l: Limits, requested: Double)
    requires l.Valid()
    ensures l.ReviseTimeout(requested) == Clamped(l.minTimeout, l.maxTimeout, requested)
        <==> || !TooLong(requested)
             || Milliseconds(requested) / NS_PER_MS >= l.maxTimeout / NS_PER_MS
             || l.minTimeout / NS_PER_MS == l.maxTimeout / NS_PER_MS
  {
    hide Clamped, TooLong, Milliseconds;
    RevisedExactly(l.minTimeout, l.maxTimeout, requested);
  }

  /** Asked for three centuries, a session settles on the shortest timeout. */
  lemma LongTimeoutIsRevisedToTheShortest(l: Limits)
    requires l.Valid()
    ensures l.ReviseTimeout(Finite(10_000_000_000_000.0)) == l.minTimeout / NS_PER_MS
  {
  }

  /** The user identity token of a request, the policy the endpoint publishes, and whether a server nonce could be drawn. */
  datatype Identity = Identity(token: NodeIds.ExtensionObject, policyId: Wire.bytes, nonceDrawn: bool)

  const DEFAULT_LIMITS: Wire.Limits := Wire.Limits(0x20_0000, 0x1_0000, 0x4_0000, 4096, 100)

  /** requireAnonymousIdentity: a null token, or an anonymous one naming the published policy; a null name is the empty one. */
  function IdentityStatus(i: Identity): Status {
    var t := i.token;
    if t.typeId == NodeIds.NULL_NODE_ID && t.encoding == 0 then Good
    else if t.typeId != NodeIds.Numeric(0, 321) then IdentityInvalid
    else if t.encoding == 0 then Good
    else if t.encoding != 1 then IdentityInvalid
    else if |t.body| > DEFAULT_LIMITS.maxMessageBytes then LimitsExceeded
    else
      var name := Wire.ReadText(DEFAULT_LIMITS, t.body, 0);
      if name.Err? then IdentityInvalid else if name.value != i.policyId then IdentityRejected else Good
  }

  /**
   * `outstanding` are the requests begun and not yet released. `owed` are the
   * sessions removed under the lock whose hook has not run yet. The rest is
   * history: every token issued, how often each session's ended channel was
   * closed and its hook run, and the channel of its last successful activation.
   */
  datatype World = World(
    sessions: map<Token, Session>, nextId: nat, outstanding: map<Ticket, Token>, owed: multiset<Token>,
    issued: map<Token, Session>, closed: multiset<Token>, reported: multiset<Token>, activations: map<Token, Channel>)

  function Start(): World { World(map[], 0, map[], multiset{}, map[], multiset{}, multiset{}, map[]) }

  // ---------------------------------------------------------------- the operations

  /** A request the server has not answered yet holds the session open. */
  predicate Expired(s: Session, now: Time) {
    s.inFlight == 0 && now >= s.lastActivity + s.timeout
  }

  function Plus(m: multiset<Token>, gone: set<Token>): multiset<Token> { m + multiset(gone) }

  function Without(sessions: map<Token, Session>, gone: set<Token>): map<Token, Session> { sessions - gone }

  /** terminateLocked for a set of live sessions. */
  function Terminate(w: World, gone: set<Token>): World {
    w.(sessions := Without(w.sessions, gone), owed := Plus(w.owed, gone), closed := Plus(w.closed, gone))
  }

  function Update(w: World, token: Token, s: Session): World {
    w.(sessions := w.sessions[token := s])
  }

  const MIN_NONCE := 32
  const MAX_NONCE := 128

  /** checkClientNonce: an absent nonce passes only where no signature could ever cover it. */
  predicate NonceOk(length: nat, security: Security) {
    (length == 0 && security.mode == ModeNone && security.anonymousOnly) || MIN_NONCE <= length <= MAX_NONCE
  }

  function NewSession(l: Limits, id: nat, channel: Channel, security: Security, requested: Double, now: Time): Session {
    Session(id, channel, channel, security, l.ReviseTimeout(requested) * NS_PER_MS, now, false, 0)
  }

  function Create(w: World, l: Limits, drawn: Option<Token>, channel: Channel, security: Security, nonce: nat, requested: Double, now: Time): (World, Status) {
    if !NonceOk(nonce, security) then (w, NonceInvalid)
    else if drawn.None? then (w, InternalError)
    else if |w.sessions| >= l.maxSessions then (w, TooManySessions)
    else
      var token := drawn.value;
      var s := NewSession(l, w.nextId + 1, channel, security, requested, now);
      (w.(sessions := w.sessions[token := s], nextId := w.nextId + 1, issued := w.issued[token := s]), Good)
  }

  /** resolveLocked: an expired session is ended by whoever finds it. */
  function Resolve(w: World, token: Token, now: Time): (World, Status) {
    if token !in w.sessions then (w, SessionIdInvalid)
    else if Expired(w.sessions[token], now) then (Terminate(w, {token}), SessionClosed)
    else (w, Good)
  }

  function LookupLocked(w: World, token: Token, channel: Channel, now: Time): (World, Status) {
    var (v, status) := Resolve(w, token, now);
    if status == Good && w.sessions[token].bound != channel then (v, ChannelInvalid) else (v, status)
  }

  function Lookup(w: World, token: Token, channel: Channel, now: Time): (World, Status) {
    var (v, status) := LookupLocked(w, token, channel, now);
    if status != Good then (v, status) else (Update(v, token, v.sessions[token].(lastActivity := now)), Good)
  }

  /** bindToChannel. */
  function Bind(s: Session, channel: Channel, security: Security): (Session, Status) {
    if !s.activated then
      if channel != s.createdOn then (s, ChannelInvalid) else (s.(bound := channel), Good)
    else if channel == s.bound then (s, Good)
    else if security.mode != s.security.mode || security.policy != s.security.policy then (s, SecurityChecksFailed)
    else if security.anonymousOnly && security.mode == Sign then (s, IdentityRejected)
    else (s.(bound := channel), Good)
  }

  function Activate(w: World, token: Token, channel: Channel, security: Security, identity: Identity, now: Time): (World, Status) {
    if IdentityStatus(identity) != Good then (w, IdentityStatus(identity))
    else if !identity.nonceDrawn then (w, InternalError)
    else
      var (v, status) := Resolve(w, token, now);
      if status != Good then (v, status)
      else
        var (s, bindStatus) := Bind(v.sessions[token], channel, security);
        if bindStatus != Good then (v, bindStatus)
        else
          (Update(v, token, s.(activated := true, lastActivity := now)).(activations := v.activations[token := channel]), Good)
  }

  function Close(w: World, token: Token, channel: Channel, now: Time): (World, Status) {
    var (v, status) := LookupLocked(w, token, channel, now);
    if status != Good then (v, status) else (Terminate(v, {token}), Good)
  }

  function Stale(sessions: map<Token, Session>, now: Time): set<Token> {
    set token | token in sessions && Expired(sessions[token], now)
  }

  function ExpireStale(w: World, now: Time): World { Terminate(w, Stale(w.sessions, now)) }

  function TerminateAll(w: World): World { Terminate(w, w.sessions.Keys) }

  /** BeginRequest: the ticket stands for the release it returns. */
  function Begin(w: World, token: Token, ticket: Ticket): World {
    if token !in w.sessions then w
    else
      var s := w.sessions[token];
      Update(w, token, s.(inFlight := s.inFlight + 1)).(outstanding := w.outstanding[ticket := token])
  }

  /** The release: it runs once, and finds its session dead if that has ended meanwhile. */
  function End(w: World, ticket: Ticket, now: Time): World {
    if ticket !in w.outstanding then w
    else
      var token := w.outstanding[ticket];
      var v := w.(outstanding := w.outstanding - {ticket});
      if token !in w.sessions then v
      else
        var s := w.sessions[token];
        Update(v, token, s.(inFlight := if s.inFlight > 0 then s.inFlight - 1 else 0, lastActivity := now))
  }

  /** notifyEnded, for one session. */
  function Report(w: World, token: Token): World {
    if token !in w.owed then w else w.(owed := w.owed - multiset{token}, reported := w.reported + multiset{token})
  }

  datatype Op =
    | DoCreate(drawn: Option<Token>, channel: Channel, security: Security, nonce: nat, requested: Double, now: Time)
    | DoLookup(token: Token, channel: Channel, now: Time)
    | DoActivate(token: Token, channel: Channel, security: Security, identity: Identity, now: Time)
    | DoClose(token: Token, channel: Channel, now: Time)
    | DoExpire(now: Time)
    | DoTerminateAll
    | DoBegin(token: Token, ticket: Ticket)
    | DoEnd(ticket: Ticket, now: Time)
    | DoReport(token: Token)

  /** Random tokens and release closures are new each time. */
  predicate FreshNames(w: World, op: Op) {
    match op
    case DoCreate(drawn, _, _, _, _, _) => drawn.Some? ==> drawn.value !in w.issued
    case DoBegin(_, ticket) => ticket !in w.outstanding
    case _ => true
  }

  function Apply(w: World, l: Limits, op: Op): World {
    match op
    case DoCreate(drawn, channel, security, nonce, requested, now) => Create(w, l, drawn, channel, security, nonce, requested, now).0
    case DoLookup(token, channel, now) => Lookup(w, token, channel, now).0
    case DoActivate(token, channel, security, identity, now) => Activate(w, token, channel, security, identity, now).0
    case DoClose(token, channel, now) => Close(w, token, channel, now).0
    case DoExpire(now) => ExpireStale(w, now)
    case DoTerminateAll => TerminateAll(w)
    case DoBegin(token, ticket) => Begin(w, token, ticket)
    case DoEnd(ticket, now) => End(w, ticket, now)
    case DoReport(token) => Report(w, token)
  }

  // ---------------------------------------------------------------- the invariant

  /** The channel that last activated the session, or the one it was created on. */
  function Expected(activations: map<Token, Channel>, token: Token, s: Session): Channel {
    if token in activations then activations[token] else s.createdOn
  }

  ghost predicate Bindings(sessions: map<Token, Session>, activations: map<Token, Channel>, issued: map<Token, Session>) {
    forall token <- sessions ::
      && token in issued
      && sessions[token].bound == Expected(activations, token, sessions[token])
      && (sessions[token].activated <==> token in activations)
      && sessions[token].createdOn == issued[token].createdOn && sessions[token].security == issued[token].security
  }

  function Serving(outstanding: map<Ticket, Token>, token: Token): set<Ticket> {
    set k | k in outstanding && outstanding[k] == token
  }

  ghost predicate Counted(sessions: map<Token, Session>, outstanding: map<Ticket, Token>) {
    forall token <- sessions :: sessions[token].inFlight == |Serving(outstanding, token)|
  }

  /** Every token issued is live, or its session was ended once and its hook run, or owed, once. */
  ghost predicate EndedOnce(live: set<Token>, issued: set<Token>, owed: multiset<Token>, reported: multiset<Token>, closed: multiset<Token>) {
    live <= issued && closed == multiset(issued - live) && owed + reported == closed
  }

  ghost predicate Named(activations: map<Token, Channel>, outstanding: map<Ticket, Token>, issued: set<Token>) {
    activations.Keys <= issued && outstanding.Values <= issued
  }

  ghost predicate Inv(w: World, l: Limits) {
    && |w.sessions| <= l.maxSessions
    && Bindings(w.sessions, w.activations, w.issued)
    && Counted(w.sessions, w.outstanding)
    && EndedOnce(w.sessions.Keys, w.issued.Keys, w.owed, w.reported, w.closed)
    && Named(w.activations, w.outstanding, w.issued.Keys)
  }

  lemma EndedTerminate(live: set<Token>, issued: set<Token>, owed: multiset<Token>, reported: multiset<Token>, closed: multiset<Token>, gone: set<Token>)
    requires EndedOnce(live, issued, owed, reported, closed) && gone <= live
    ensures EndedOnce(live - gone, issued, owed + multiset(gone), reported, closed + multiset(gone))
  {
    assert issued - (live - gone) == (issued - live) + gone;
    DisjointMultiset(issued - live, gone);
  }

  lemma TerminateKeeps(w: World, l: Limits, gone: set<Token>)
    requires Inv(w, l) && gone <= w.sessions.Keys
    ensures Inv(Terminate(w, gone), l)
  {
    hide EndedOnce, Named, Serving, Expected;
    FewerSessions(w.sessions, gone);
    EndedTerminate(w.sessions.Keys, w.issued.Keys, w.owed, w.reported, w.closed, gone);
  }

  lemma FewerSessions(sessions: map<Token, Session>, gone: set<Token>)
    requires gone <= sessions.Keys
    ensures |sessions - gone| <= |sessions| && (sessions - gone).Keys == sessions.Keys - gone
  {
    assert (sessions - gone).Keys == sessions.Keys - gone;
  }

  lemma DisjointMultiset<T>(a: set<T>, b: set<T>)
    requires a !! b
    ensures multiset(a + b) == multiset(a) + multiset(b)
  {
  }

  /** A change that touches neither the binding nor the count of requests. */
  lemma TouchKeeps(w: World, l: Limits, token: Token, s: Session)
    requires Inv(w, l) && token in w.sessions && s == w.sessions[token].(lastActivity := s.lastActivity)
    ensures Inv(Update(w, token, s), l)
  {
    hide EndedOnce, Named, Bindings, Counted;
    SameKeys(w.sessions, token, s);
    BindingsSame(w.sessions, w.activations, w.issued, token, s);
    CountedSame(w.sessions, w.outstanding, token, s);
  }

  lemma SameKeys(sessions: map<Token, Session>, token: Token, s: Session)
    requires token in sessions
    ensures sessions[token := s].Keys == sessions.Keys && |sessions[token := s]| == |sessions|
  {
    assert sessions[token := s].Keys == sessions.Keys;
  }

  lemma EndedCreate(live: set<Token>, issued: set<Token>, owed: multiset<Token>, reported: multiset<Token>, closed: multiset<Token>, token: Token)
    requires EndedOnce(live, issued, owed, reported, closed) && token !in issued
    ensures EndedOnce(live + {token}, issued + {token}, owed, reported, closed)
  {
    assert (issued + {token}) - (live + {token}) == issued - live;
  }

  lemma SessionAdded(sessions: map<Token, Session>, issued: map<Token, Session>, activations: map<Token, Channel>, outstanding: map<Ticket, Token>, token: Token, s: Session)
    requires Bindings(sessions, activations, issued) && Counted(sessions, outstanding) && Named(activations, outstanding, issued.Keys)
    requires token !in issued && s.bound == s.createdOn && !s.activated && s.inFlight == 0
    ensures Bindings(sessions[token := s], activations, issued[token := s]) && Counted(sessions[token := s], outstanding)
    ensures Named(activations, outstanding, issued[token := s].Keys) && token !in sessions
  {
    assert Serving(outstanding, token) == {} by {
      assert token !in outstanding.Values;
    }
  }

  lemma CreateKeeps(w: World, l: Limits, drawn: Option<Token>, channel: Channel, security: Security, nonce: nat, requested: Double, now: Time)
    requires Inv(w, l) && (drawn.Some? ==> drawn.value !in w.issued)
    ensures Inv(Create(w, l, drawn, channel, security, nonce, requested, now).0, l)
  {
    hide Inv, NonceOk, NewSession;
    if drawn.Some? && |w.sessions| < l.maxSessions {
      NewSessionIs(l, w.nextId + 1, channel, security, requested, now);
      CreatedKeeps(w, l, drawn.value, NewSession(l, w.nextId + 1, channel, security, requested, now));
    }
  }

  lemma NewSessionIs(l: Limits, id: nat, channel: Channel, security: Security, requested: Double, now: Time)
    ensures var s := NewSession(l, id, channel, security, requested, now); s.bound == s.createdOn && !s.activated && s.inFlight == 0
  {
  }

  lemma CreatedKeeps(w: World, l: Limits, token: Token, s: Session)
    requires Inv(w, l) && token !in w.issued && |w.sessions| < l.maxSessions
    requires s.bound == s.createdOn && !s.activated && s.inFlight == 0
    ensures Inv(w.(sessions := w.sessions[token := s], nextId := w.nextId + 1, issued := w.issued[token := s]), l)
  {
    hide EndedOnce, Named, Bindings, Counted;
    SessionAdded(w.sessions, w.issued, w.activations, w.outstanding, token, s);
    NewKey(w.sessions, token, s);
    NewKey(w.issued, token, s);
    EndedCreate(w.sessions.Keys, w.issued.Keys, w.owed, w.reported, w.closed, token);
  }

  lemma NewKey(m: map<Token, Session>, token: Token, s: Session)
    requires token !in m
    ensures m[token := s].Keys == m.Keys + {token} && |m[token := s]| == |m| + 1
  {
    assert m[token := s].Keys == m.Keys + {token};
  }

  lemma LiveIsIssued(w: World, l: Limits)
    requires Inv(w, l)
    ensures w.sessions.Keys <= w.issued.Keys && w.outstanding.Values <= w.issued.Keys
  {
    hide Bindings, Counted;
  }

  lemma ResolveKeeps(w: World, l: Limits, token: Token, now: Time)
    requires Inv(w, l)
    ensures Inv(Resolve(w, token, now).0, l)
    ensures Resolve(w, token, now).1 == Good ==> Resolve(w, token, now).0 == w && token in w.sessions
  {
    if token in w.sessions {
      TerminateKeeps(w, l, {token});
    }
  }

  lemma LookupKeeps(w: World, l: Limits, token: Token, channel: Channel, now: Time)
    requires Inv(w, l)
    ensures Inv(Lookup(w, token, channel, now).0, l)
  {
    hide Inv;
    ResolveKeeps(w, l, token, now);
    if LookupLocked(w, token, channel, now).1 == Good {
      TouchKeeps(w, l, token, w.sessions[token].(lastActivity := now));
    }
  }

  lemma CloseKeeps(w: World, l: Limits, token: Token, channel: Channel, now: Time)
    requires Inv(w, l)
    ensures Inv(Close(w, token, channel, now).0, l)
  {
    hide Inv;
    ResolveKeeps(w, l, token, now);
    if LookupLocked(w, token, channel, now).1 == Good {
      TerminateKeeps(w, l, {token});
    }
  }

  /** Binding changes the bound channel at most, to the channel that asked. */
  lemma BindEffect(s: Session, channel: Channel, security: Security)
    ensures Bind(s, channel, security).1 == Good ==> Bind(s, channel, security).0 == s.(bound := channel)
  {
  }

  lemma BindingsActivate(sessions: map<Token, Session>, activations: map<Token, Channel>, issued: map<Token, Session>, token: Token, s: Session)
    requires Bindings(sessions, activations, issued) && token in sessions
    requires s.createdOn == sessions[token].createdOn && s.security == sessions[token].security && s.activated
    ensures Bindings(sessions[token := s], activations[token := s.bound], issued)
  {
  }

  lemma CountedSame(sessions: map<Token, Session>, outstanding: map<Ticket, Token>, token: Token, s: Session)
    requires Counted(sessions, outstanding) && token in sessions && s.inFlight == sessions[token].inFlight
    ensures Counted(sessions[token := s], outstanding)
  {
  }

  lemma ActivatedKeeps(w: World, l: Limits, token: Token, channel: Channel, now: Time)
    requires Inv(w, l) && token in w.sessions
    ensures Inv(Update(w, token, w.sessions[token].(bound := channel, activated := true, lastActivity := now))
                  .(activations := w.activations[token := channel]), l)
  {
    LiveIsIssued(w, l);
    hide EndedOnce, Bindings, Counted;
    var s := w.sessions[token].(bound := channel, activated := true, lastActivity := now);
    SameKeys(w.sessions, token, s);
    BindingsActivate(w.sessions, w.activations, w.issued, token, s);
    CountedSame(w.sessions, w.outstanding, token, s);
  }

  lemma ActivateKeeps(w: World, l: Limits, token: Token, channel: Channel, security: Security, identity: Identity, now: Time)
    requires Inv(w, l)
    ensures Inv(Activate(w, token, channel, security, identity, now).0, l)
  {
    hide Inv, Bind;
    ResolveKeeps(w, l, token, now);
    if Resolve(w, token, now).1 == Good {
      ActivatedKeeps(w, l, token, channel, now);
      BindEffect(w.sessions[token], channel, security);
    }
  }

  lemma ServingStep(outstanding: map<Ticket, Token>, ticket: Ticket, token: Token, t: Token)
    requires ticket !in outstanding
    ensures Serving(outstanding[ticket := token], t) == if t == token then Serving(outstanding, t) + {ticket} else Serving(outstanding, t)
    ensures ticket !in Serving(outstanding, t)
  {
  }

  lemma CountedBegin(sessions: map<Token, Session>, outstanding: map<Ticket, Token>, token: Token, ticket: Ticket)
    requires Counted(sessions, outstanding) && token in sessions && ticket !in outstanding
    ensures Counted(sessions[token := sessions[token].(inFlight := sessions[token].inFlight + 1)], outstanding[ticket := token])
  {
    hide Serving;
    forall t: Token ensures Serving(outstanding[ticket := token], t) == if t == token then Serving(outstanding, t) + {ticket} else Serving(outstanding, t) {
      ServingStep(outstanding, ticket, token, t);
    }
    ServingStep(outstanding, ticket, token, token);
  }

  lemma BindingsSame(sessions: map<Token, Session>, activations: map<Token, Channel>, issued: map<Token, Session>, token: Token, s: Session)
    requires Bindings(sessions, activations, issued) && token in sessions
    requires s == sessions[token].(inFlight := s.inFlight, lastActivity := s.lastActivity)
    ensures Bindings(sessions[token := s], activations, issued) && token in issued
  {
  }

  lemma NamedBegin(activations: map<Token, Channel>, outstanding: map<Ticket, Token>, issued: set<Token>, token: Token, ticket: Ticket)
    requires Named(activations, outstanding, issued) && token in issued
    ensures Named(activations, outstanding[ticket := token], issued)
  {
    assert outstanding[ticket := token].Values <= outstanding.Values + {token};
  }

  lemma BeginKeeps(w: World, l: Limits, token: Token, ticket: Ticket)
    requires Inv(w, l) && ticket !in w.outstanding
    ensures Inv(Begin(w, token, ticket), l)
  {
    hide EndedOnce, Bindings, Counted, Named;
    if token in w.sessions {
      var s := w.sessions[token].(inFlight := w.sessions[token].inFlight + 1);
      SameKeys(w.sessions, token, s);
      BindingsSame(w.sessions, w.activations, w.issued, token, s);
      NamedBegin(w.activations, w.outstanding, w.issued.Keys, token, ticket);
      CountedBegin(w.sessions, w.outstanding, token, ticket);
    }
  }

  lemma ServingEnd(outstanding: map<Ticket, Token>, ticket: Ticket, t: Token)
    requires ticket in outstanding
    ensures var after := Serving(outstanding - {ticket}, t);
      if t == outstanding[ticket] then Serving(outstanding, t) == after + {ticket} && ticket !in after else after == Serving(outstanding, t)
  {
  }

  lemma CountedEnd(sessions: map<Token, Session>, outstanding: map<Ticket, Token>, ticket: Ticket, now: Time)
    requires Counted(sessions, outstanding) && ticket in outstanding
    ensures var token := outstanding[ticket];
      token in sessions ==>
        && sessions[token].inFlight > 0
        && Counted(sessions[token := sessions[token].(inFlight := sessions[token].inFlight - 1, lastActivity := now)], outstanding - {ticket})
    ensures outstanding[ticket] !in sessions ==> Counted(sessions, outstanding - {ticket})
  {
    hide Serving;
    var token := outstanding[ticket];
    var less := outstanding - {ticket};
    ServingEnd(outstanding, ticket, token);
    forall t | t in sessions && t != token ensures Serving(less, t) == Serving(outstanding, t) {
      ServingEnd(outstanding, ticket, t);
    }
  }

  lemma NamedEnd(activations: map<Token, Channel>, outstanding: map<Ticket, Token>, issued: set<Token>, ticket: Ticket)
    requires Named(activations, outstanding, issued)
    ensures Named(activations, outstanding - {ticket}, issued)
  {
    assert (outstanding - {ticket}).Values <= outstanding.Values;
  }

  lemma EndKeeps(w: World, l: Limits, ticket: Ticket, now: Time)
    requires Inv(w, l)
    ensures Inv(End(w, ticket, now), l)
  {
    hide EndedOnce, Bindings, Counted, Named;
    if ticket in w.outstanding {
      CountedEnd(w.sessions, w.outstanding, ticket, now);
      NamedEnd(w.activations, w.outstanding, w.issued.Keys, ticket);
      var token := w.outstanding[ticket];
      if token in w.sessions {
        var s := w.sessions[token].(inFlight := w.sessions[token].inFlight - 1, lastActivity := now);
        SameKeys(w.sessions, token, s);
        BindingsSame(w.sessions, w.activations, w.issued, token, s);
      }
    }
  }

  lemma ReportKeeps(w: World, l: Limits, token: Token)
    requires Inv(w, l)
    ensures Inv(Report(w, token), l)
  {
    var v := Report(w, token);
    if token in w.owed {
      assert v.owed + v.reported == w.owed + w.reported;
    }
  }

  lemma StepKeeps(w: World, l: Limits, op: Op)
    requires Inv(w, l) && FreshNames(w, op)
    ensures Inv(Apply(w, l, op), l)
  {
    hide Inv, Create, Lookup, Activate, Close, Begin, End, Report;
    match op
    case DoCreate(drawn, channel, security, nonce, requested, now) => CreateKeeps(w, l, drawn, channel, security, nonce, requested, now);
    case DoLookup(token, channel, now) => LookupKeeps(w, l, token, channel, now);
    case DoActivate(token, channel, security, identity, now) => ActivateKeeps(w, l, token, channel, security, identity, now);
    case DoClose(token, channel, now) => CloseKeeps(w, l, token, channel, now);
    case DoExpire(now) => TerminateKeeps(w, l, Stale(w.sessions, now));
    case DoTerminateAll => TerminateKeeps(w, l, w.sessions.Keys);
    case DoBegin(token, ticket) => BeginKeeps(w, l, token, ticket);
    case DoEnd(ticket, now) => EndKeeps(w, l, ticket, now);
    case DoReport(token) => ReportKeeps(w, l, token);
  }

  // ---------------------------------------------------------------- whole runs

  ghost predicate LegalRun(w: World, l: Limits, ops: seq<Op>)
    decreases |ops|
  {
    ops == [] || (FreshNames(w, ops[0]) && LegalRun(Apply(w, l, ops[0]), l, ops[1..]))
  }

  ghost function Run(w: World, l: Limits, ops: seq<Op>): World
    decreases |ops|
  {
    if ops == [] then w else Run(Apply(w, l, ops[0]), l, ops[1..])
  }

  /** Every run keeps the invariant. */
  lemma {:induction false} RunKeeps(w: World, l: Limits, ops: seq<Op>)
    requires Inv(w, l) && LegalRun(w, l, ops)
    ensures Inv(Run(w, l, ops), l)
    decreases |ops|
  {
    if ops != [] {
      StepKeeps(w, l, ops[0]);
      RunKeeps(Apply(w, l, ops[0]), l, ops[1..]);
    }
  }

  lemma StartIsInv(l: Limits)
    ensures Inv(Start(), l)
  {
  }

  /**
   * In every reachable state a request is let through exactly when its session is
   * live, has a request outstanding or was used less than its timeout ago, and it
   * arrives on the channel of the last successful activation (the creating channel
   * before the first one); so after a move the old channel is refused.
   */
  lemma OnlyTheBoundChannelIsServed(l: Limits, ops: seq<Op>, token: Token, channel: Channel, now: Time)
    requires LegalRun(Start(), l, ops)
    ensures var w := Run(Start(), l, ops);
      Lookup(w, token, channel, now).1 == Good <==>
        && token in w.sessions
        && ((exists k :: k in w.outstanding && w.outstanding[k] == token) || now < w.sessions[token].lastActivity + w.sessions[token].timeout)
        && channel == if token in w.activations then w.activations[token] else w.sessions[token].createdOn
  {
    StartIsInv(l);
    RunKeeps(Start(), l, ops);
    SomeServed(Run(Start(), l, ops).outstanding, token);
  }

  lemma SomeServed(outstanding: map<Ticket, Token>, token: Token)
    ensures |Serving(outstanding, token)| > 0 <==> exists k :: k in outstanding && outstanding[k] == token
  {
    if k :| k in outstanding && outstanding[k] == token {
      assert k in Serving(outstanding, token);
    } else {
      assert Serving(outstanding, token) == {};
    }
  }

  /** The first activation succeeds only on the channel that created the session, whoever holds the token. */
  lemma FirstActivationIsPinned(l: Limits, ops: seq<Op>, token: Token, channel: Channel, security: Security, identity: Identity, now: Time)
    requires LegalRun(Start(), l, ops)
    requires var w := Run(Start(), l, ops); token !in w.activations && Activate(w, token, channel, security, identity, now).1 == Good
    ensures var w := Run(Start(), l, ops); token in w.issued && channel == w.issued[token].createdOn
  {
    StartIsInv(l);
    RunKeeps(Start(), l, ops);
  }

  /** An activation that moves the session does so under the mode and policy it was created with. */
  lemma MovesKeepSecurity(l: Limits, ops: seq<Op>, token: Token, channel: Channel, security: Security, identity: Identity, now: Time)
    requires LegalRun(Start(), l, ops)
    requires var w := Run(Start(), l, ops); Activate(w, token, channel, security, identity, now).1 == Good
    ensures var w := Run(Start(), l, ops);
      && token in w.sessions && token in w.issued
      && (channel != w.sessions[token].bound ==> security.mode == w.issued[token].security.mode && security.policy == w.issued[token].security.policy)
      && (channel != w.sessions[token].bound ==> !(security.anonymousOnly && security.mode == Sign))
  {
    StartIsInv(l);
    RunKeeps(Start(), l, ops);
  }

  /** A session with a request outstanding is ended by no timeout, however late it is. */
  lemma BusySessionsDoNotTimeOut(l: Limits, ops: seq<Op>, ticket: Ticket, now: Time)
    requires LegalRun(Start(), l, ops)
    requires var w := Run(Start(), l, ops); ticket in w.outstanding && w.outstanding[ticket] in w.sessions
    ensures var w := Run(Start(), l, ops); var token := w.outstanding[ticket];
      token in ExpireStale(w, now).sessions && Resolve(w, token, now).1 == Good
  {
    StartIsInv(l);
    RunKeeps(Start(), l, ops);
    var w := Run(Start(), l, ops);
    assert ticket in Serving(w.outstanding, w.outstanding[ticket]);
  }

  /**
   * Every session that left the registry, by whichever route, had its ended
   * channel closed exactly once and its hook run or owed exactly once; a live one
   * neither; and once nothing is owed, every ended session has been reported.
   */
  lemma EveryEndIsReportedOnce(l: Limits, ops: seq<Op>, token: Token)
    requires LegalRun(Start(), l, ops)
    ensures var w := Run(Start(), l, ops);
      && w.closed[token] == (if token in w.issued && token !in w.sessions then 1 else 0)
      && w.owed[token] + w.reported[token] == w.closed[token]
      && (w.owed == multiset{} ==> w.reported[token] == w.closed[token])
  {
    StartIsInv(l);
    RunKeeps(Start(), l, ops);
    var w := Run(Start(), l, ops);
    assert (w.owed + w.reported)[token] == w.owed[token] + w.reported[token];
  }

  // ---------------------------------------------------------------- the registry itself

  /** The state once the call that ended sessions has also run their hooks. */
  ghost function Settled(before: World, after: World): World {
    after.(owed := before.owed, reported := after.reported + (after.owed - before.owed))
  }

  lemma SettledTerminate(w: World, gone: set<Token>)
    ensures Settled(w, Terminate(w, gone)) == w.(sessions := Without(w.sessions, gone), closed := Plus(w.closed, gone), reported := Plus(w.reported, gone))
  {
    assert w.owed + multiset(gone) - w.owed == multiset(gone);
  }

  lemma SettledSame(w: World, v: World)
    requires v.owed == w.owed
    ensures Settled(w, v) == v
  {
    assert v.owed - w.owed == multiset{};
  }

  function StaleOutside(all: map<Token, Session>, now: Time, todo: set<Token>): set<Token> {
    set token | token in all && token !in todo && Expired(all[token], now)
  }

  lemma StaleStart(all: map<Token, Session>, now: Time)
    ensures StaleOutside(all, now, all.Keys) == {} && Without(all, {}) == all
  {
  }

  lemma StaleStep(all: map<Token, Session>, now: Time, todo: set<Token>, key: Token, gone: set<Token>)
    requires key in todo && todo <= all.Keys && gone == StaleOutside(all, now, todo)
    ensures key !in gone && key in all && key in Without(all, gone) && Without(all, gone)[key] == all[key]
    ensures Without(Without(all, gone), {key}) == Without(all, gone + {key})
    ensures StaleOutside(all, now, todo - {key}) == if Expired(all[key], now) then gone + {key} else gone
  {
  }

  lemma NoneGone(m: multiset<Token>)
    ensures Plus(m, {}) == m
  {
  }

  lemma StaleIsGone(all: map<Token, Session>, now: Time, todo: set<Token>, gone: set<Token>)
    requires todo == {} && gone == StaleOutside(all, now, todo)
    ensures gone == Stale(all, now)
  {
  }

  class SessionRegistry {
    const limits: Limits
    var sessions: map<Token, Session>
    var nextId: nat
    var outstanding: map<Ticket, Token>
    ghost var owed: multiset<Token>
    ghost var issued: map<Token, Session>
    ghost var closed: multiset<Token>
    ghost var reported: multiset<Token>
    ghost var activations: map<Token, Channel>

    ghost function Now(): World
      reads this
    {
      World(sessions, nextId, outstanding, owed, issued, closed, reported, activations)
    }

    constructor (limits: Limits)
      ensures Now() == Start() && this.limits == limits
    {
      this.limits := limits;
      sessions, nextId, outstanding := map[], 0, map[];
      owed, issued, closed, reported, activations := multiset{}, map[], multiset{}, multiset{}, map[];
    }

    method CreateSession(drawn: Option<Token>, channel: Channel, security: Security, nonce: nat, requested: Double, now: Time) returns (status: Status)
      modifies this
      ensures (Now(), status) == Create(old(Now()), limits, drawn, channel, security, nonce, requested, now)
    {
      if !NonceOk(nonce, security) {
        return NonceInvalid;
      }
      if drawn.None? {
        return InternalError;
      }
      if |sessions| >= limits.maxSessions {
        return TooManySessions;
      }
      nextId := nextId + 1;
      var s := NewSession(limits, nextId, channel, security, requested, now);
      sessions, issued := sessions[drawn.value := s], issued[drawn.value := s];
      return Good;
    }

    /** Removes one live session, wakes what waits on it and, the lock released, runs its hook. */
    method EndSession(token: Token)
      requires token in sessions
      modifies this
      ensures Now() == Settled(old(Now()), Terminate(old(Now()), {token}))
    {
      SettledTerminate(Now(), {token});
      sessions := sessions - {token};
      closed, reported := Plus(closed, {token}), Plus(reported, {token});
    }

    method Find(token: Token, channel: Option<Channel>, now: Time) returns (status: Status)
      modifies this
      ensures channel.None? ==> (Now(), status) == var (v, s) := Resolve(old(Now()), token, now); (Settled(old(Now()), v), s)
      ensures channel.Some? ==> (Now(), status) == var (v, s) := LookupLocked(old(Now()), token, channel.value, now); (Settled(old(Now()), v), s)
      ensures status == Good ==> Now() == old(Now()) && token in sessions && !Expired(sessions[token], now)
      ensures status == Good && channel.Some? ==> sessions[token].bound == channel.value
    {
      SettledSame(Now(), Now());
      if token !in sessions {
        return SessionIdInvalid;
      }
      if Expired(sessions[token], now) {
        EndSession(token);
        return SessionClosed;
      }
      if channel.Some? && sessions[token].bound != channel.value {
        return ChannelInvalid;
      }
      return Good;
    }

    method LookupSession(token: Token, channel: Channel, now: Time) returns (status: Status)
      modifies this
      ensures (Now(), status) == var (v, s) := Lookup(old(Now()), token, channel, now); (Settled(old(Now()), v), s)
    {
      status := Find(token, Some(channel), now);
      if status == Good {
        sessions := sessions[token := sessions[token].(lastActivity := now)];
        SettledSame(old(Now()), Now());
      }
    }

    method ActivateSession(token: Token, channel: Channel, security: Security, identity: Identity, now: Time) returns (status: Status)
      modifies this
      ensures (Now(), status) == var (v, s) := Activate(old(Now()), token, channel, security, identity, now); (Settled(old(Now()), v), s)
    {
      SettledSame(Now(), Now());
      var known := IdentityStatus(identity);
      if known != Good {
        return known;
      }
      if !identity.nonceDrawn {
        return InternalError;
      }
      status := Find(token, None, now);
      if status != Good {
        return;
      }
      var (s, bindStatus) := Bind(sessions[token], channel, security);
      if bindStatus != Good {
        return bindStatus;
      }
      sessions := sessions[token := s.(activated := true, lastActivity := now)];
      activations := activations[token := channel];
      SettledSame(old(Now()), Now());
      return Good;
    }

    method CloseSession(token: Token, channel: Channel, now: Time) returns (status: Status)
      modifies this
      ensures (Now(), status) == var (v, s) := Close(old(Now()), token, channel, now); (Settled(old(Now()), v), s)
    {
      status := Find(token, Some(channel), now);
      if status == Good {
        EndSession(token);
      }
    }

    /** The loop of ExpireStale: each session of the map is looked at once, in any order. */
    method Expire(now: Time) returns (ended: nat)
      modifies this`sessions, this`closed, this`reported
      ensures Now() == Settled(old(Now()), ExpireStale(old(Now()), now)) && ended == |Stale(old(sessions), now)|
    {
      hide Stale, StaleOutside, Expired, Plus, Settled, Without;
      ghost var (all, before, w) := (sessions, closed, Now());
      var todo := sessions.Keys;
      var gone: set<Token> := {};
      StaleStart(all, now);
      NoneGone(before);
      while todo != {}
        invariant todo <= all.Keys && gone == StaleOutside(all, now, todo)
        invariant sessions == Without(all, gone) && closed == Plus(before, gone) && reported == w.reported
        decreases |todo|
      {
        var key :| key in todo;
        StaleStep(all, now, todo, key, gone);
        todo := todo - {key};
        if Expired(sessions[key], now) {
          ExtendGone(before, gone, key);
          sessions, closed := Without(sessions, {key}), Plus(closed, {key});
          gone := gone + {key};
        }
      }
      ended := |gone|;
      reported := Plus(reported, gone);
      StaleIsGone(all, now, todo, gone);
      SettledTerminate(w, gone);
    }

    method BeginRequest(token: Token, ticket: Ticket) returns (ok: bool)
      modifies this
      ensures Now() == Begin(old(Now()), token, ticket) && ok == (token in old(sessions))
    {
      if token !in sessions {
        return false;
      }
      sessions := sessions[token := sessions[token].(inFlight := sessions[token].inFlight + 1)];
      outstanding := outstanding[ticket := token];
      return true;
    }

    method EndRequest(ticket: Ticket, now: Time)
      modifies this
      ensures Now() == End(old(Now()), ticket, now)
    {
      if ticket !in outstanding {
        return;
      }
      var token := outstanding[ticket];
      outstanding := outstanding - {ticket};
      if token in sessions {
        var s := sessions[token];
        sessions := sessions[token := s.(inFlight := if s.inFlight > 0 then s.inFlight - 1 else 0, lastActivity := now)];
      }
    }
  }

  lemma ExtendGone(closed: multiset<Token>, gone: set<Token>, key: Token)
    requires key !in gone
    ensures Plus(Plus(closed, gone), {key}) == Plus(closed, gone + {key})
  {
    DisjointMultiset(gone, {key});
  }
}
