/**
 * The session registry as its callers see it: every answer it gives follows from
 * the calls and answers that went before, whatever it keeps in its sessions.
 */
module SessionHistory {
  import opened Prelude
  import opened Ints
  import opened Sessions
  import Wire
  import NodeIds

  /** What past calls and their answers say about one token. */
  datatype Standing = Standing(
    live: bool, createdOn: Channel, security: Security, timeout: int, home: Channel, activated: bool, usedAt: Time, requests: set<Ticket>)

  /** No request is waiting for its answer, and the last use is a timeout ago. */
  ghost predicate Idle(p: Standing, now: Time) {
    p.requests == {} && now >= p.usedAt + p.timeout
  }

  /** What the registry answers. */
  ghost function Reply(w: World, l: Limits, op: Op): Status {
    match op
    case DoCreate(drawn, channel, security, nonce, requested, now) => Create(w, l, drawn, channel, security, nonce, requested, now).1
    case DoLookup(token, channel, now) => Lookup(w, token, channel, now).1
    case DoActivate(token, channel, security, identity, now) => Activate(w, token, channel, security, identity, now).1
    case DoClose(token, channel, now) => Close(w, token, channel, now).1
    case DoBegin(token, _) => if token in w.sessions then Good else SessionIdInvalid
    case _ => Good
  }

  /**
   * One more call and its answer. A session is used when it is created, looked up or
   * activated, and when a request of it is answered; it lasts until it is closed,
   * an answer says that it timed out, the sweep comes by while it is idle, or all
   * are ended.
   */
  ghost function After(l: Limits, token: Token, p: Standing, op: Op, reply: Status): Standing {
    match op
    case DoCreate(drawn, channel, security, _, requested, now) =>
      if drawn != Some(token) || reply != Good then p
      else Standing(true, channel, security, l.ReviseTimeout(requested) * NS_PER_MS, channel, false, now, {})
    case DoLookup(t, _, now) =>
      if t != token then p else p.(live := p.live && reply != SessionClosed, usedAt := if reply == Good then now else p.usedAt)
    case DoActivate(t, channel, _, _, now) =>
      if t != token then p
      else if reply == Good then p.(home := channel, activated := true, usedAt := now)
      else p.(live := p.live && reply != SessionClosed)
    case DoClose(t, _, _) => if t == token && (reply == Good || reply == SessionClosed) then p.(live := false) else p
    case DoExpire(now) => if Idle(p, now) then p.(live := false) else p
    case DoTerminateAll => p.(live := false)
    case DoBegin(t, ticket) => if t == token && reply == Good then p.(requests := p.requests + {ticket}) else p
    case DoEnd(ticket, now) => if ticket in p.requests then p.(requests := p.requests - {ticket}, usedAt := now) else p
    case DoReport(_) => p
  }

  ghost function Replay(l: Limits, ops: seq<Op>, token: Token): Standing {
    if ops == [] then Standing(false, 0, Security(ModeNone, "", false), 0, 0, false, 0, {})
    else
      var (before, op) := (ops[..|ops| - 1], ops[|ops| - 1]);
      After(l, token, Replay(l, before, token), op, Reply(Run(Start(), l, before), l, op))
  }

  // ---------------------------------------------------------------- the sessions kept agree

  ghost predicate Agrees(w: World, token: Token, p: Standing) {
    && (token in w.sessions <==> p.live) && Serving(w.outstanding, token) == p.requests
    && (token in w.sessions ==>
         var s := w.sessions[token];
         && s.createdOn == p.createdOn && s.security == p.security && s.timeout == p.timeout && s.bound == p.home
         && s.activated == p.activated && s.lastActivity == p.usedAt && s.inFlight == |p.requests|)
  }

  lemma IdleIsExpired(w: World, token: Token, p: Standing, now: Time)
    requires Agrees(w, token, p) && p.live
    ensures Expired(w.sessions[token], now) <==> Idle(p, now)
  {
  }

  lemma CreateAgrees(w: World, l: Limits, token: Token, p: Standing, op: Op)
    requires Inv(w, l) && FreshNames(w, op) && Agrees(w, token, p) && op.DoCreate?
    ensures Agrees(Apply(w, l, op), token, After(l, token, p, op, Reply(w, l, op)))
  {
    hide Bindings, Counted, EndedOnce;
    if op.drawn == Some(token) {
      NoneServed(w.outstanding, w.issued.Keys, token);
    }
  }

  lemma NoneServed(outstanding: map<Ticket, Token>, issued: set<Token>, token: Token)
    requires outstanding.Values <= issued && token !in issued
    ensures Serving(outstanding, token) == {}
  {
    forall k | k in outstanding ensures outstanding[k] != token {
      assert outstanding[k] in outstanding.Values;
    }
  }

  lemma EndedAgrees(w: World, token: Token, p: Standing, gone: set<Token>)
    requires Agrees(w, token, p)
    ensures Agrees(Terminate(w, gone), token, if token in gone then p.(live := false) else p)
  {
    hide Serving;
  }

  /** One session changed: it is the one asked about, and still agrees, or another. */
  lemma ChangedAgrees(w: World, token: Token, p: Standing, t: Token, s: Session, q: Standing)
    requires Agrees(w, token, p) && t in w.sessions
    requires if t == token then Agrees(w.(sessions := w.sessions[token := s]), token, q) else q == p
    ensures Agrees(Update(w, t, s), token, q)
  {
    hide Serving;
  }

  lemma LookupAgrees(w: World, l: Limits, token: Token, p: Standing, op: Op)
    requires Agrees(w, token, p) && op.DoLookup?
    ensures Agrees(Apply(w, l, op), token, After(l, token, p, op, Reply(w, l, op)))
  {
    hide Serving, Expired, Terminate, Update;
    EndedAgrees(w, token, p, {op.token});
    if Reply(w, l, op) == Good {
      var s := w.sessions[op.token].(lastActivity := op.now);
      ChangedAgrees(w, token, p, op.token, s, if op.token == token then p.(usedAt := op.now) else p);
    }
    hide Agrees;
  }

  lemma IdentityAnswers(i: Identity)
    ensures IdentityStatus(i) in {Good, IdentityInvalid, IdentityRejected, LimitsExceeded}
  {
  }

  lemma ActivateAgrees(w: World, l: Limits, token: Token, p: Standing, op: Op)
    requires Agrees(w, token, p) && op.DoActivate?
    ensures Agrees(Apply(w, l, op), token, After(l, token, p, op, Reply(w, l, op)))
  {
    hide IdentityStatus, Serving, Expired, Terminate, Update;
    IdentityAnswers(op.identity);
    EndedAgrees(w, token, p, {op.token});
    if Reply(w, l, op) == Good {
      var s := Bind(w.sessions[op.token], op.channel, op.security).0.(activated := true, lastActivity := op.now);
      ChangedAgrees(w, token, p, op.token, s, if op.token == token then p.(home := op.channel, activated := true, usedAt := op.now) else p);
    }
  }

  lemma CloseAgrees(w: World, l: Limits, token: Token, p: Standing, op: Op)
    requires Agrees(w, token, p) && op.DoClose?
    ensures Agrees(Apply(w, l, op), token, After(l, token, p, op, Reply(w, l, op)))
  {
    hide Agrees, Expired, Terminate;
    EndedAgrees(w, token, p, {op.token});
  }

  lemma ServingBegins(outstanding: map<Ticket, Token>, ticket: Ticket, t: Token, token: Token)
    requires ticket !in outstanding
    ensures Serving(outstanding[ticket := t], token) == if t == token then Serving(outstanding, token) + {ticket} else Serving(outstanding, token)
  {
  }

  lemma ServingEnds(outstanding: map<Ticket, Token>, ticket: Ticket, token: Token)
    ensures Serving(outstanding - {ticket}, token) == Serving(outstanding, token) - {ticket}
  {
  }

  lemma BeginAgrees(w: World, l: Limits, token: Token, p: Standing, op: Op)
    requires FreshNames(w, op) && Agrees(w, token, p) && op.DoBegin?
    ensures Agrees(Apply(w, l, op), token, After(l, token, p, op, Reply(w, l, op)))
  {
    ServingBegins(w.outstanding, op.ticket, op.token, token);
    var requests := Serving(w.outstanding, token);
    assert op.ticket !in requests;
    hide Serving;
  }

  lemma EndAgrees(w: World, l: Limits, token: Token, p: Standing, op: Op)
    requires Agrees(w, token, p) && op.DoEnd?
    ensures Agrees(Apply(w, l, op), token, After(l, token, p, op, Reply(w, l, op)))
  {
    hide Serving;
    ServingEnds(w.outstanding, op.ticket, token);
    ServedIs(w.outstanding, op.ticket, token);
    OneFewer(p.requests, op.ticket);
    var v := w.(outstanding := w.outstanding - {op.ticket});
    if op.ticket in p.requests && token in w.sessions {
      assert Apply(w, l, op) == Update(v, token, w.sessions[token].(inFlight := |p.requests| - 1, lastActivity := op.now));
    }
  }

  lemma ServedIs(outstanding: map<Ticket, Token>, ticket: Ticket, token: Token)
    ensures ticket in Serving(outstanding, token) <==> ticket in outstanding && outstanding[ticket] == token
  {
  }

  lemma OneFewer(requests: set<Ticket>, ticket: Ticket)
    ensures ticket in requests ==> |requests - {ticket}| == |requests| - 1 && |requests| > 0
    ensures ticket !in requests ==> requests - {ticket} == requests
  {
  }

  lemma SweepAgrees(w: World, l: Limits, token: Token, p: Standing, op: Op)
    requires Agrees(w, token, p) && (op.DoExpire? || op.DoTerminateAll? || op.DoReport?)
    ensures Agrees(Apply(w, l, op), token, After(l, token, p, op, Reply(w, l, op)))
  {
    hide Serving;
    if op.DoExpire? && p.live {
      IdleIsExpired(w, token, p, op.now);
    }
  }

  lemma StepAgrees(w: World, l: Limits, token: Token, p: Standing, op: Op)
    requires Inv(w, l) && FreshNames(w, op) && Agrees(w, token, p)
    ensures Agrees(Apply(w, l, op), token, After(l, token, p, op, Reply(w, l, op)))
  {
    hide Inv, Agrees, Apply, After, Reply, FreshNames;
    match op
    case DoCreate(_, _, _, _, _, _) => CreateAgrees(w, l, token, p, op);
    case DoLookup(_, _, _) => LookupAgrees(w, l, token, p, op);
    case DoActivate(_, _, _, _, _) => ActivateAgrees(w, l, token, p, op);
    case DoClose(_, _, _) => CloseAgrees(w, l, token, p, op);
    case DoBegin(_, _) => BeginAgrees(w, l, token, p, op);
    case DoEnd(_, _) => EndAgrees(w, l, token, p, op);
    case _ => SweepAgrees(w, l, token, p, op);
  }

  lemma {:induction false} LastStep(w: World, l: Limits, ops: seq<Op>)
    requires LegalRun(w, l, ops) && ops != []
    ensures var (before, op) := (ops[..|ops| - 1], ops[|ops| - 1]);
      LegalRun(w, l, before) && FreshNames(Run(w, l, before), op) && Run(w, l, ops) == Apply(Run(w, l, before), l, op)
    decreases |ops|
  {
    hide Apply, FreshNames;
    if |ops| > 1 {
      LastStep(Apply(w, l, ops[0]), l, ops[1..]);
      assert ops[1..][..|ops| - 2] == ops[..|ops| - 1][1..];
    } else {
      assert ops[..0] == [];
    }
  }

  lemma {:induction false} HistoryAgrees(l: Limits, ops: seq<Op>, token: Token)
    requires LegalRun(Start(), l, ops)
    ensures Inv(Run(Start(), l, ops), l) && Agrees(Run(Start(), l, ops), token, Replay(l, ops, token))
  {
    hide Inv, Apply, After, Reply, FreshNames;
    StartIsInv(l);
    RunKeeps(Start(), l, ops);
    if ops != [] {
      LastStep(Start(), l, ops);
      HistoryAgrees(l, ops[..|ops| - 1], token);
      StepAgrees(Run(Start(), l, ops[..|ops| - 1]), l, token, Replay(l, ops[..|ops| - 1], token), ops[|ops| - 1]);
    }
  }

  // ---------------------------------------------------------------- every answer

  /** How a request on `channel` finds its session. */
  ghost function Found(p: Standing, channel: Channel, now: Time): Status {
    if !p.live then SessionIdInvalid
    else if Idle(p, now) then SessionClosed
    else if channel != p.home then ChannelInvalid
    else Good
  }

  /**
   * In every run a session is found exactly while it lasts, not idle, and on the
   * channel it was last activated on, or created on before that; it is answered as
   * timed out exactly if no request of it is outstanding and its last use is the
   * revised timeout ago. Closing it is answered alike.
   */
  lemma LookupExactly(l: Limits, ops: seq<Op>, token: Token, channel: Channel, now: Time)
    requires LegalRun(Start(), l, ops)
    ensures var (w, p) := (Run(Start(), l, ops), Replay(l, ops, token));
      && Reply(w, l, DoLookup(token, channel, now)) == Found(p, channel, now)
      && Reply(w, l, DoClose(token, channel, now)) == Found(p, channel, now)
      && forall ticket :: Reply(w, l, DoBegin(token, ticket)) == Good <==> p.live
  {
    hide Run, Replay, LegalRun, Inv;
    HistoryAgrees(l, ops, token);
    var (w, p) := (Run(Start(), l, ops), Replay(l, ops, token));
    if p.live {
      IdleIsExpired(w, token, p, now);
    }
  }

  /** Whether an activation may bind the session to `channel`. */
  ghost function MayBind(p: Standing, channel: Channel, security: Security): Status {
    if !p.activated then if channel == p.createdOn then Good else ChannelInvalid
    else if channel == p.home then Good
    else if security.mode != p.security.mode || security.policy != p.security.policy then SecurityChecksFailed
    else if security.anonymousOnly && security.mode == Sign then IdentityRejected
    else Good
  }

  /**
   * In every run an activation succeeds exactly if the identity is accepted, a nonce
   * was drawn, the session lasts and is not idle, and it is either the first, on
   * the channel the session was created on; or on the channel of the last; or on
   * another with the mode and policy the session was created with, unless that
   * channel signs without encrypting and only anonymous users are served.
   */
  lemma ActivateExactly(l: Limits, ops: seq<Op>, token: Token, channel: Channel, security: Security, identity: Identity, now: Time)
    requires LegalRun(Start(), l, ops)
    ensures var p := Replay(l, ops, token);
      Reply(Run(Start(), l, ops), l, DoActivate(token, channel, security, identity, now))
      == if IdentityStatus(identity) != Good then IdentityStatus(identity)
         else if !identity.nonceDrawn then InternalError
         else if !p.live then SessionIdInvalid
         else if Idle(p, now) then SessionClosed
         else MayBind(p, channel, security)
  {
    hide Run, Replay, LegalRun, Inv, IdentityStatus;
    HistoryAgrees(l, ops, token);
    var (w, p) := (Run(Start(), l, ops), Replay(l, ops, token));
    if p.live {
      IdleIsExpired(w, token, p, now);
    }
  }

  /**
   * In every run a session is created exactly if the client's nonce has 32 to 128
   * bytes, or is absent on a channel without security where only anonymous users
   * are served; a token was drawn; and fewer sessions last than are allowed.
   */
  lemma CreateExactly(l: Limits, ops: seq<Op>, live: set<Token>, drawn: Option<Token>, channel: Channel, security: Security, nonce: nat, requested: Double, now: Time)
    requires LegalRun(Start(), l, ops) && forall token :: token in live <==> Replay(l, ops, token).live
    ensures Reply(Run(Start(), l, ops), l, DoCreate(drawn, channel, security, nonce, requested, now))
      == if !(32 <= nonce <= 128 || (nonce == 0 && security.mode == ModeNone && security.anonymousOnly)) then NonceInvalid
         else if drawn.None? then InternalError
         else if |live| >= l.maxSessions then TooManySessions
         else Good
  {
    hide Run, Replay, LegalRun, Inv;
    var w := Run(Start(), l, ops);
    forall token ensures token in w.sessions.Keys <==> token in live {
      HistoryAgrees(l, ops, token);
    }
    assert w.sessions.Keys == live;
  }

  /** The sweep ends exactly the sessions that are idle. */
  lemma SweepExactly(l: Limits, ops: seq<Op>, token: Token, now: Time)
    requires LegalRun(Start(), l, ops)
    ensures token in ExpireStale(Run(Start(), l, ops), now).sessions <==> Replay(l, ops, token).live && !Idle(Replay(l, ops, token), now)
  {
    hide Run, Replay, LegalRun, Inv;
    HistoryAgrees(l, ops, token);
    var (w, p) := (Run(Start(), l, ops), Replay(l, ops, token));
    if p.live {
      IdleIsExpired(w, token, p, now);
    }
  }

  // ---------------------------------------------------------------- identifiers

  /** No two sessions ever issued share an identifier, and a session keeps its own. */
  ghost predicate IdsDistinct(w: World) {
    && (forall a <- w.issued :: 1 <= w.issued[a].id <= w.nextId)
    && (forall a, b :: a in w.issued && b in w.issued && a != b ==> w.issued[a].id != w.issued[b].id)
    && (forall a <- w.sessions :: a in w.issued && w.sessions[a].id == w.issued[a].id)
  }

  ghost predicate SameIds(w: World, v: World) {
    && v.issued == w.issued && v.nextId == w.nextId
    && forall token <- v.sessions :: token in w.sessions && v.sessions[token].id == w.sessions[token].id
  }

  lemma LookingUpKeepsIds(w: World, l: Limits, op: Op)
    requires op.DoLookup? || op.DoClose?
    ensures SameIds(w, Apply(w, l, op))
  {
    hide Expired, Plus;
  }

  lemma ActivatingKeepsIds(w: World, l: Limits, op: Op)
    requires op.DoActivate?
    ensures SameIds(w, Apply(w, l, op))
  {
    hide IdentityStatus, Expired, Plus;
  }

  lemma RequestsKeepIds(w: World, l: Limits, op: Op)
    requires op.DoBegin? || op.DoEnd?
    ensures SameIds(w, Apply(w, l, op))
  {
    hide Plus;
  }

  lemma SweepsKeepIds(w: World, l: Limits, op: Op)
    requires op.DoExpire? || op.DoTerminateAll? || op.DoReport?
    ensures SameIds(w, Apply(w, l, op))
  {
    hide Plus;
  }

  lemma CreatingKeepsIds(w: World, l: Limits, op: Op)
    requires IdsDistinct(w) && FreshNames(w, op) && op.DoCreate?
    ensures IdsDistinct(Apply(w, l, op))
  {
    hide NonceOk;
  }

  lemma StepKeepsIds(w: World, l: Limits, op: Op)
    requires IdsDistinct(w) && FreshNames(w, op)
    ensures IdsDistinct(Apply(w, l, op))
  {
    hide Apply, FreshNames;
    match op
    case DoCreate(_, _, _, _, _, _) => CreatingKeepsIds(w, l, op);
    case DoLookup(_, _, _) => LookingUpKeepsIds(w, l, op);
    case DoActivate(_, _, _, _, _) => ActivatingKeepsIds(w, l, op);
    case DoClose(_, _, _) => LookingUpKeepsIds(w, l, op);
    case DoBegin(_, _) => RequestsKeepIds(w, l, op);
    case DoEnd(_, _) => RequestsKeepIds(w, l, op);
    case _ => SweepsKeepIds(w, l, op);
  }

  lemma {:induction false} SessionIdsAreDistinct(l: Limits, ops: seq<Op>)
    requires LegalRun(Start(), l, ops)
    ensures IdsDistinct(Run(Start(), l, ops))
  {
    hide Apply, FreshNames;
    if ops != [] {
      LastStep(Start(), l, ops);
      SessionIdsAreDistinct(l, ops[..|ops| - 1]);
      StepKeepsIds(Run(Start(), l, ops[..|ops| - 1]), l, ops[|ops| - 1]);
    }
  }

  // ---------------------------------------------------------------- identities

  /** A body that starts with this string; null is the empty one. */
  ghost predicate Names(body: Wire.bytes, name: Wire.bytes) {
    || (name == [] && Wire.At(body, 0, [0xFF, 0xFF, 0xFF, 0xFF]))
    || (|name| <= 0x1_0000 && Wire.At(body, 0, Wire.EncI32(|name|).data) && Wire.At(body, 4, name))
  }

  lemma ReadBack(body: Wire.bytes)
    requires Wire.ReadI32(body, 0).Ok?
    ensures Wire.At(body, 0, Wire.EncI32(Wire.ReadI32(body, 0).value).data)
  {
    Wire.Powers();
    Wire.FromLittleEndianRoundTrip(body[0..4]);
  }

  lemma MinusOne()
    ensures Wire.EncI32(-1).data == [0xFF, 0xFF, 0xFF, 0xFF]
  {
    assert Wire.LittleEndian(0xFFFF_FFFF, 4) == [0xFF] + Wire.LittleEndian(0xFF_FFFF, 3);
    assert Wire.LittleEndian(0xFF_FFFF, 3) == [0xFF] + Wire.LittleEndian(0xFFFF, 2);
    assert Wire.LittleEndian(0xFFFF, 2) == [0xFF] + Wire.LittleEndian(0xFF, 1);
  }

  lemma NamedIs(body: Wire.bytes, name: Wire.bytes)
    ensures Names(body, name) <==> Wire.ReadText(DEFAULT_LIMITS, body, 0).Ok? && Wire.ReadText(DEFAULT_LIMITS, body, 0).value == name
  {
    hide Wire.EncI32;
    MinusOne();
    if Names(body, name) {
      if Wire.At(body, 0, [0xFF, 0xFF, 0xFF, 0xFF]) {
        Wire.I32RoundTrip(body, 0, -1);
      }
      if Wire.At(body, 0, Wire.EncI32(|name|).data) && |name| <= 0x1_0000 {
        Wire.I32RoundTrip(body, 0, |name|);
      }
    } else if Wire.ReadText(DEFAULT_LIMITS, body, 0).Ok? {
      ReadBack(body);
    }
  }

  /**
   * An identity is accepted exactly if the token has no body and is null or
   * anonymous, or is anonymous with a body of at most two megabytes that names the
   * policy the endpoint publishes; one that names another is rejected.
   */
  lemma IdentityExactly(i: Identity)
    ensures var t := i.token; var named := t.typeId == NodeIds.Numeric(0, 321) && t.encoding == 1 && |t.body| <= 0x20_0000;
      && (IdentityStatus(i) == Good <==>
            (t.encoding == 0 && (t.typeId == NodeIds.Numeric(0, 0) || t.typeId == NodeIds.Numeric(0, 321))) || (named && Names(t.body, i.policyId)))
      && (IdentityStatus(i) == IdentityRejected <==> named && exists name :: name != i.policyId && Names(t.body, name))
  {
    hide Names, Wire.ReadText;
    NamedIs(i.token.body, i.policyId);
    var name := Wire.ReadText(DEFAULT_LIMITS, i.token.body, 0);
    if name.Ok? {
      NamedIs(i.token.body, name.value);
    }
    forall other: Wire.bytes ensures Names(i.token.body, other) <==> name.Ok? && name.value == other {
      NamedIs(i.token.body, other);
    }
  }
}
