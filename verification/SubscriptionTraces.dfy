/**
 * What connects the subscriptions of the service with the runs of one
 * subscription: how one is made, and that every live one is where some legal run
 * of events from its making has led.
 */
module SubscriptionTraces {
  import opened Prelude
  import opened Ints
  import opened Engine
  import opened EngineRuns
  import opened EnginePublishing
  import opened EnginePacing

  // ---------------------------------------------------------------- making one

  /** Intervals are Durations, in nanoseconds; counts are UInt32. */
  datatype ServiceLimits = ServiceLimits(
    maxSubscriptions: nat,
    maxMonitoredItems: nat,
    minInterval: i64,
    maxInterval: i64,
    minKeepAlive: u32,
    maxKeepAlive: u32,
    publish: Limits)
  {
    predicate Valid() {
      && 0 < maxSubscriptions && 0 < maxMonitoredItems && 0 < minInterval <= maxInterval
      && 0 < minKeepAlive <= maxKeepAlive && publish.Valid()
    }
  }

  datatype SubscriptionRequest = SubscriptionRequest(
    requestedIntervalMs: Double,
    requestedKeepAlive: u32,
    requestedLifetime: u32,
    maxNotifications: nat,
    publishingEnabled: bool,
    priority: nat)

  /** revisePublishingInterval, in whole milliseconds. */
  function ReviseInterval(l: ServiceLimits, requested: Double): (ms: nat)
    requires l.Valid()
    ensures l.minInterval / NS_PER_MS <= ms <= l.maxInterval / NS_PER_MS
  {
    Revised(l.minInterval, l.maxInterval, requested)
  }

  /** A requested interval is held between the limits, exactly unless it wraps to something short of the longest and that shows. */
  lemma IntervalRevisedExactly(l: ServiceLimits, requested: Double)
    requires l.Valid()
    ensures ReviseInterval(l, requested) == Clamped(l.minInterval, l.maxInterval, requested)
        <==> || !TooLong(requested)
             || Milliseconds(requested) / NS_PER_MS >= l.maxInterval / NS_PER_MS
             || l.minInterval / NS_PER_MS == l.maxInterval / NS_PER_MS
  {
    hide Clamped, TooLong, Milliseconds;
    RevisedExactly(l.minInterval, l.maxInterval, requested);
  }

  /** Asked for three centuries, the service settles on its shortest interval. */
  lemma LongIntervalIsRevisedToTheShortest(l: ServiceLimits)
    requires l.Valid()
    ensures ReviseInterval(l, Finite(10_000_000_000_000.0)) == l.minInterval / NS_PER_MS
  {
  }

  /** The revised interval is greater than zero, whatever was requested, exactly when the configured minimum is at least a millisecond. */
  lemma IntervalIsPositiveExactly(l: ServiceLimits)
    requires l.Valid()
    ensures (forall requested: Double :: ReviseInterval(l, requested) > 0) <==> l.minInterval >= NS_PER_MS
  {
    assert ReviseInterval(l, Finite(0.0)) == l.minInterval / NS_PER_MS;
  }

  function ReviseKeepAlive(l: ServiceLimits, requested: u32): (count: u32)
    requires l.Valid()
    ensures l.minKeepAlive <= count <= l.maxKeepAlive
  {
    if requested < l.minKeepAlive then l.minKeepAlive
    else if requested > l.maxKeepAlive then l.maxKeepAlive
    else requested
  }

  /** reviseLifetimeCount: three times the keep-alive count, in 32 bits. */
  function ReviseLifetime(requested: u32, keepAlive: u32): u32 {
    var minimum := (3 * keepAlive) % 0x1_0000_0000;
    if requested < minimum then minimum else requested
  }

  function NewSub(l: ServiceLimits, session: string, r: SubscriptionRequest, now: Time): Sub
    requires l.Valid()
  {
    var keepAlive := ReviseKeepAlive(l, r.requestedKeepAlive);
    Sub(session, r.publishingEnabled, ReviseInterval(l, r.requestedIntervalMs), keepAlive,
        ReviseLifetime(r.requestedLifetime, keepAlive), r.maxNotifications, r.priority,
        map[], 0, map[], [], None, None, 0, [], map[], [], 0, false, now)
  }

  /** lifetimeCount publishing intervals, as an int64 of nanoseconds. */
  function LifetimeNs(s: Sub): i64 {
    Wrap64(s.lifetimeCount * Milliseconds(Finite(s.intervalMs as real)))
  }

  /** The client has been gone for that long. */
  predicate Expired(s: Sub, now: Time) {
    Elapsed(s.lastKeptAlive, now) >= LifetimeNs(s)
  }

  /** A subscription is given up once its lifetime is over, and not before, exactly when the lifetime is an int64 of nanoseconds. */
  lemma LifetimeKeptExactly(s: Sub)
    requires s.intervalMs * NS_PER_MS < TWO_63
    ensures LifetimeKept(s) <==> s.lifetimeCount * (s.intervalMs * NS_PER_MS) < TWO_63
  {
    assert Milliseconds(Finite(s.intervalMs as real)) == s.intervalMs * NS_PER_MS;
    var life := s.lifetimeCount * (s.intervalMs * NS_PER_MS);
    assert LifetimeNs(s) == Wrap64(life);
    if life >= TWO_63 {
      assert Expired(s, s.lastKeptAlive + Wrap64(life));
    } else {
      LifetimeIsNatural(s.lifetimeCount, s.intervalMs * NS_PER_MS);
    }
  }

  lemma LifetimeIsNatural(a: nat, b: nat)
    ensures a * b >= 0
  {
  }

  /**
   * A new subscription is its session's, with the switch, the maximum and the
   * priority its client asked for; it has as many keep-alives as asked for if the
   * limits allow, or the nearest they do; and its lifetime is the one asked for if
   * that is three keep-alives, which it is raised to where 32 bits hold them.
   */
  lemma NewSubAsAsked(l: ServiceLimits, session: string, r: SubscriptionRequest, now: Time)
    requires l.Valid()
    ensures var s := NewSub(l, session, r, now);
      && s.session == session && s.enabled == r.publishingEnabled && s.maxNotifications == r.maxNotifications && s.priority == r.priority
      && s.lastKeptAlive == now && s.intervalMs == ReviseInterval(l, r.requestedIntervalMs)
      && l.minKeepAlive <= s.keepAliveCount <= l.maxKeepAlive
      && (s.keepAliveCount == r.requestedKeepAlive || (r.requestedKeepAlive < l.minKeepAlive == s.keepAliveCount)
          || s.keepAliveCount == l.maxKeepAlive < r.requestedKeepAlive)
      && (r.requestedLifetime >= 3 * s.keepAliveCount ==> s.lifetimeCount == r.requestedLifetime)
      && (r.requestedLifetime < 3 * s.keepAliveCount < 0x1_0000_0000 ==> s.lifetimeCount == 3 * s.keepAliveCount)
  {
  }

  lemma NewSubIsFresh(l: ServiceLimits, session: string, r: SubscriptionRequest, now: Time)
    requires l.Valid()
    ensures var s := NewSub(l, session, r, now); FreshSub(s) && (Expired(s, now) <==> LifetimeNs(s) <= 0)
  {
  }

  // ---------------------------------------------------------------- what a client can ask for

  /**
   * A subscription outlives three keep-alives, whatever its client asks for, exactly
   * when three of the longest keep-alive counts configured are a UInt32.
   */
  lemma LifetimeCountExactly(l: ServiceLimits)
    requires l.Valid()
    ensures (forall r: SubscriptionRequest :: NewSub(l, "", r, 0).lifetimeCount >= 3 * NewSub(l, "", r, 0).keepAliveCount)
        <==> 3 * l.maxKeepAlive < 0x1_0000_0000
  {
    var worst := SubscriptionRequest(Finite(0.0), l.maxKeepAlive, 0, 0, true, 0);
    assert NewSub(l, "", worst, 0).lifetimeCount == (3 * l.maxKeepAlive) % 0x1_0000_0000;
  }

  /** Configured to allow 0x5555_5556 keep-alives, a client that asks for as many gets a lifetime of two cycles. */
  lemma ShortLifetimeCount(l: ServiceLimits, r: SubscriptionRequest)
    requires l.Valid() && l.minKeepAlive <= 0x5555_5556 <= l.maxKeepAlive
    requires r.requestedKeepAlive == 0x5555_5556 && r.requestedLifetime == 0
    ensures var s := NewSub(l, "", r, 0); s.keepAliveCount == 0x5555_5556 && s.lifetimeCount == 2
  {
  }

  /** The subscription is given up once its lifetime is over, and not before. */
  ghost predicate LifetimeKept(s: Sub) {
    forall now: Time :: Expired(s, now) <==> now - s.lastKeptAlive >= s.lifetimeCount * (s.intervalMs * NS_PER_MS)
  }

  /**
   * Every subscription is given up once its lifetime is over and not before,
   * whatever its client asked for, exactly when the longest interval configured, 2^32-1 times, is an
   * int64 of nanoseconds: at most 2147 milliseconds.
   */
  lemma LifetimesKeptExactly(l: ServiceLimits)
    requires l.Valid()
    ensures (forall r: SubscriptionRequest :: LifetimeKept(NewSub(l, "", r, 0))) <==> l.maxInterval / NS_PER_MS <= 2147
  {
    hide LifetimeKept, NewSub;
    forall r: SubscriptionRequest ensures LifetimeKept(NewSub(l, "", r, 0)) <==> ProductFits(NewSub(l, "", r, 0)) {
      KeptIfFits(l, r);
    }
    if l.maxInterval / NS_PER_MS <= 2147 {
      forall r: SubscriptionRequest ensures ProductFits(NewSub(l, "", r, 0)) {
        ShortIntervalsFit(l, r);
      }
    } else {
      var worst := SubscriptionRequest(Finite((l.maxInterval / NS_PER_MS) as real), l.maxKeepAlive, 0xFFFF_FFFF, 0, true, 0);
      LongestDoesNotFit(l, worst);
      assert !LifetimeKept(NewSub(l, "", worst, 0));
    }
  }

  ghost predicate ProductFits(s: Sub) {
    s.lifetimeCount * (s.intervalMs * NS_PER_MS) < TWO_63
  }

  lemma KeptIfFits(l: ServiceLimits, r: SubscriptionRequest)
    requires l.Valid()
    ensures var s := NewSub(l, "", r, 0); LifetimeKept(s) <==> ProductFits(s)
  {
    LifetimeKeptExactly(NewSub(l, "", r, 0));
  }

  lemma ShortIntervalsFit(l: ServiceLimits, r: SubscriptionRequest)
    requires l.Valid() && l.maxInterval / NS_PER_MS <= 2147
    ensures ProductFits(NewSub(l, "", r, 0))
  {
    var s := NewSub(l, "", r, 0);
    AtMost(s.lifetimeCount, 0xFFFF_FFFF, s.intervalMs * NS_PER_MS, 2147 * NS_PER_MS);
  }

  lemma AtMost(a: nat, b: nat, c: nat, d: nat)
    requires a <= b && c <= d
    ensures a * c <= b * d
  {
    assert a * c <= b * c <= b * d;
  }

  lemma LongestDoesNotFit(l: ServiceLimits, worst: SubscriptionRequest)
    requires l.Valid() && l.maxInterval / NS_PER_MS > 2147
    requires worst.requestedIntervalMs == Finite((l.maxInterval / NS_PER_MS) as real) && worst.requestedLifetime == 0xFFFF_FFFF
    ensures !ProductFits(NewSub(l, "", worst, 0))
  {
    var s := NewSub(l, "", worst, 0);
    assert s.lifetimeCount == 0xFFFF_FFFF;
    assert s.intervalMs >= 2148;
  }

  /** The limits the program starts with. */
  const DEFAULT_LIMITS := ServiceLimits(8, 100, 100 * NS_PER_MS, 60_000 * NS_PER_MS, 1, 100, Limits(500, 64))

  /** Under them a client that asks for an interval of a minute and a lifetime of three hundred million gets a subscription already expired. */
  lemma ExpiredAtBirth(session: string, r: SubscriptionRequest, now: Time)
    requires r.requestedIntervalMs == Finite(60_000.0) && r.requestedKeepAlive == 10 && r.requestedLifetime == 300_000_000
    ensures DEFAULT_LIMITS.Valid()
    ensures var s := NewSub(DEFAULT_LIMITS, session, r, now); LifetimeNs(s) == -446_744_073_709_551_616 && Expired(s, now)
  {
    var s := NewSub(DEFAULT_LIMITS, session, r, now);
    assert s.intervalMs == 60_000 && s.lifetimeCount == 300_000_000;
  }

  // ---------------------------------------------------------------- traces

  /** Slots, handles and group of a subscription agree with its items. */
  ghost predicate Healthy(s: Sub) {
    SlotsAgree(s) && GroupAgrees(s)
  }

  /** A subscription as it was made, and everything that has happened to it since. */
  datatype Trace = Trace(origin: Sub, events: seq<Event>)

  ghost function World(t: Trace, limits: Limits): EngineRuns.World
    requires limits.Valid()
  {
    Run(Begin(t.origin), t.events, limits)
  }

  ghost predicate LeadsTo(t: Trace, s: Sub, limits: Limits)
    requires limits.Valid()
  {
    FreshSub(t.origin) && LegalRun(Begin(t.origin), t.events, limits) && World(t, limits).sub == s
  }

  function Recorded(t: Trace, e: Event): Trace {
    t.(events := t.events + [e])
  }

  lemma TraceGrows(t: Trace, s: Sub, e: Event, limits: Limits)
    requires limits.Valid() && LeadsTo(t, s, limits) && Legal(s, e)
    ensures LeadsTo(Recorded(t, e), SubStep(s, e, limits), limits)
  {
    hide Legal, Step, SubStep;
    var es := t.events + [e];
    assert es[..|es| - 1] == t.events && es[|es| - 1] == e;
    StepIsSubStep(World(t, limits), e, limits);
  }

  lemma TraceIsHealthy(t: Trace, s: Sub, limits: Limits)
    requires limits.Valid() && LeadsTo(t, s, limits)
    ensures Healthy(s)
  {
    hide Run, LegalRun, FreshSub, Conserves, TicksCount, QueueOk, SlotsAgree, GroupAgrees;
    RunsKeepPromises(t.origin, t.events, limits);
  }

  /**
   * So everything proved of runs holds of a live subscription and its history:
   * slots and pacing, conservation, keep-alives, retransmission and the group.
   */
  lemma LiveSubscriptionsKeepTheirPromises(t: Trace, s: Sub, limits: Limits)
    requires limits.Valid() && LeadsTo(t, s, limits)
    ensures var w := World(t, limits);
      && w.sub == s && Promises(w, limits) && Paced(w)
      && Carried(w.sent) + s.pending == w.enqueued
      && IsSuffix(s.retransmitOrder, Unacked(|w.sent|, w.acked))
      && (forall n :: n in s.retransmit ==> 1 <= n <= |w.sent| && s.retransmit[n] == w.sent[n - 1])
  {
    hide Run, LegalRun, FreshSub, TicksCount, SlotsAgree, GroupAgrees, Paced;
    RunsKeepPromises(t.origin, t.events, limits);
    RunsKeepSlotsAndPacing(t.origin, t.events, limits);
    PublishConservation(t.origin, t.events, limits);
    RetransmissionQueueIsATail(t.origin, t.events, limits);
  }

  ghost predicate AllTraced(subs: map<nat, Sub>, traces: map<nat, Trace>, next: nat, limits: Limits)
    requires limits.Valid()
  {
    traces.Keys == subs.Keys && forall id :: id in subs ==> id <= next && LeadsTo(traces[id], subs[id], limits)
  }

  lemma TraceOf(subs: map<nat, Sub>, traces: map<nat, Trace>, next: nat, limits: Limits, id: nat)
    requires limits.Valid() && AllTraced(subs, traces, next, limits) && id in subs
    ensures id in traces && id <= next && LeadsTo(traces[id], subs[id], limits) && Healthy(subs[id])
  {
    hide LeadsTo, Healthy;
    TraceIsHealthy(traces[id], subs[id], limits);
  }

  lemma TraceStep(subs: map<nat, Sub>, traces: map<nat, Trace>, next: nat, limits: Limits, id: nat, e: Event)
    requires limits.Valid() && AllTraced(subs, traces, next, limits) && id in subs && Legal(subs[id], e)
    ensures id in traces && AllTraced(subs[id := SubStep(subs[id], e, limits)], traces[id := Recorded(traces[id], e)], next, limits)
  {
    hide LeadsTo, Legal, SubStep;
    TraceGrows(traces[id], subs[id], e, limits);
  }

  lemma TraceStart(subs: map<nat, Sub>, traces: map<nat, Trace>, next: nat, limits: Limits, s: Sub)
    requires limits.Valid() && AllTraced(subs, traces, next, limits) && FreshSub(s)
    ensures AllTraced(subs[next + 1 := s], traces[next + 1 := Trace(s, [])], next + 1, limits) && next + 1 !in subs
  {
    assert LeadsTo(Trace(s, []), s, limits);
  }

  lemma TraceEnd(subs: map<nat, Sub>, traces: map<nat, Trace>, next: nat, limits: Limits, id: nat)
    requires limits.Valid() && AllTraced(subs, traces, next, limits)
    ensures AllTraced(subs - {id}, traces - {id}, next, limits)
  {
    hide LeadsTo;
    assert (traces - {id}).Keys == traces.Keys - {id} && (subs - {id}).Keys == subs.Keys - {id};
  }

  /** Every subscription of the session, kept alive. */
  function Touched(subs: map<nat, Sub>, session: string, now: Time): map<nat, Sub> {
    map id | id in subs :: if subs[id].session == session then subs[id].(lastKeptAlive := now) else subs[id]
  }

  ghost function TouchedTraces(subs: map<nat, Sub>, traces: map<nat, Trace>, session: string, now: Time): map<nat, Trace>
    requires traces.Keys == subs.Keys
  {
    map id | id in traces :: if subs[id].session == session then Recorded(traces[id], Touch(now)) else traces[id]
  }

  lemma TouchingKeepsTraces(subs: map<nat, Sub>, traces: map<nat, Trace>, next: nat, limits: Limits, session: string, now: Time)
    requires limits.Valid() && AllTraced(subs, traces, next, limits)
    ensures AllTraced(Touched(subs, session, now), TouchedTraces(subs, traces, session, now), next, limits)
  {
    hide LeadsTo;
    forall id | id in subs && subs[id].session == session
      ensures LeadsTo(Recorded(traces[id], Touch(now)), subs[id].(lastKeptAlive := now), limits)
    {
      TraceGrows(traces[id], subs[id], Touch(now), limits);
    }
  }
}
