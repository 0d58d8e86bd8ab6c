/**
 * Whole runs of the subscription service: any sequence of calls by any sessions,
 * against a source that grants and refuses groups and delivers values as it
 * likes, and what became of every group it ever granted.
 */
module ServiceRuns {
  import opened Prelude
  import opened Ints
  import opened Engine
  import opened EngineRuns
  import opened SubscriptionTraces
  import opened SubscriptionServices

  /** What the source has for a group when it is polled. */
  datatype Delivery = Gone | Values(values: seq<(string, int, nat)>)

  datatype Call =
    | MakeSubscription(session: string, request: SubscriptionRequest, now: Time)
    | DropSubscriptions(session: string, ids: seq<nat>, now: Time)
    | SwitchPublishing(session: string, ids: seq<nat>, enabled: bool, now: Time)
    | AddMonitored(session: string, id: nat, requests: seq<CreateRequest>, timestampsValid: bool, answer: Answer, now: Time)
    | RemoveMonitored(session: string, id: nat, ids: seq<nat>, answer: Answer, now: Time)
    | Publish(session: string, acks: seq<(nat, nat)>, deliveries: map<nat, Delivery>, now: Time)
    | Republish(session: string, id: nat, number: nat, now: Time)
    | Expire(now: Time)
    | EndSession(session: string)
  {
    /** The group the source stands ready to grant. */
    function Offer(): set<nat> {
      match this
      case AddMonitored(_, _, _, _, Granted(g, _), _) => {g}
      case RemoveMonitored(_, _, _, Granted(g, _), _) => {g}
      case _ => {}
    }
  }

  /** The source names every group it grants anew. */
  ghost predicate FreshOffers(calls: seq<Call>, granted: set<nat>) {
    && (forall k :: 0 <= k < |calls| ==> calls[k].Offer() !! granted)
    && (forall j, k :: 0 <= j < k < |calls| ==> calls[j].Offer() !! calls[k].Offer())
  }

  /** An order a range over the keys may come to them in. */
  method AnyOrder(keys: set<nat>) returns (order: seq<nat>)
    ensures Enumerates(order, keys)
  {
    hide Enumerates;
    order := [];
    var rest := keys;
    RangeBegins(keys);
    while rest != {}
      invariant rest <= keys && Enumerates(order, keys - rest)
      decreases |rest|
    {
      var id :| id in rest;
      RangeStep(order, keys, rest, id);
      rest := rest - {id};
      order := order + [id];
    }
    RangeEnds(order, keys);
  }

  /** What a delivery looks like to one subscription: each lookup ranges over its items anew. */
  method Polled(keys: set<nat>, delivery: Delivery) returns (poll: Poll)
    ensures match poll
      case Invalidated(o) => Enumerates(o, keys)
      case Delivered(us) => forall u :: u in us ==> Enumerates(u.order, keys)
  {
    match delivery
    case Gone =>
      var order := AnyOrder(keys);
      poll := Invalidated(order);
    case Values(values) =>
      var us: seq<Update> := [];
      for k := 0 to |values|
        invariant forall u :: u in us ==> Enumerates(u.order, keys)
      {
        var order := AnyOrder(keys);
        us := us + [Update(values[k].0, values[k].1, values[k].2, order)];
      }
      poll := Delivered(us);
  }

  lemma LegalGather(s: Sub, now: Time, order: seq<nat>, poll: Poll)
    requires Enumerates(order, s.items.Keys)
    requires match poll
      case Invalidated(o) => Enumerates(o, s.items.Keys)
      case Delivered(us) => forall u :: u in us ==> Enumerates(u.order, s.items.Keys)
    ensures Legal(s, Gather(now, order, poll))
  {
  }

  /** Publish: acknowledge, then one publishing cycle. */
  method ServePublish(service: SubscriptionService, session: string, acks: seq<(nat, nat)>, deliveries: map<nat, Delivery>, now: Time)
    requires service.Valid()
    modifies service`subs, service`closed, service`traces
    ensures service.Valid() && old(service.closed) <= service.closed
  {
    hide Accounted, AllTraced, Legal, Engine.Collect, Engine.BuildMessage, Touched, Freed, Foremost, Served, Acknowledged, Enumerates;
    var results := service.AcknowledgeEach(session, acks, now);
    var orders: map<nat, seq<nat>>, polls: map<nat, Poll> := map[], map[];
    var rest := service.subs.Keys;
    while rest != {}
      invariant service.Valid() && service.closed == old(service.closed) && rest <= service.subs.Keys
      invariant forall x :: x in service.subs && x !in rest ==> x in orders && x in polls && Legal(service.subs[x], Gather(now, orders[x], polls[x]))
      decreases |rest|
    {
      var id :| id in rest;
      rest := rest - {id};
      var keys := service.subs[id].items.Keys;
      var order := AnyOrder(keys);
      var poll := Polled(keys, if id in deliveries then deliveries[id] else Values([]));
      LegalGather(service.subs[id], now, order, poll);
      orders, polls := orders[id := order], polls[id := poll];
    }
    var status, id, m, available, more := service.TryPublish(session, now, orders, polls);
  }

  /** A group taken on is the one the source granted. */
  ghost predicate TakenOn(before: Option<Group>, after: Option<Group>, answer: Answer) {
    after == before || after.None? || (answer.Granted? && after.value.id == answer.group)
  }

  lemma TakenOnIsOffered(before: Option<Group>, after: Option<Group>, answer: Answer)
    requires TakenOn(before, after, answer)
    ensures Gained(before, after) <= OfferOf(answer)
  {
  }

  lemma ClosesExtends(subs0: map<nat, Sub>, closed0: seq<nat>, subs1: map<nat, Sub>, closed1: seq<nat>)
    requires Closes(subs0, closed0, subs1, closed1)
    ensures closed0 <= closed1
  {
  }

  lemma NothingTakenOn(da: Option<Group>, answer: Answer)
    ensures TakenOn(da, da, answer) && TakenOn(da, None, answer)
  {
  }

  lemma RebuildTakesOn(s: Sub, answer: Answer)
    ensures TakenOn(s.da, Rebuild(s, answer).0.da, answer)
  {
  }

  lemma CreateTakesOn(s: Sub, rs: seq<CreateRequest>, answer: Answer, now: Time)
    ensures TakenOn(s.da, CreateItems(s.(lastKeptAlive := now), rs, answer).0.da, answer)
  {
    hide PrepareAll, Register, Raised, Rebuild, RaisedResults, FailedResults, TakenOn;
    var s0 := s.(lastKeptAlive := now);
    PreparedFrame(s0, rs);
    var p := PrepareAll(s0, rs);
    RegisterKeepsGroup(p);
    RebuildTakesOn(Register(p.sub, p.accepted), answer);
    NothingTakenOn(s.da, answer);
  }

  lemma DeleteTakesOn(s: Sub, ids: seq<nat>, answer: Answer, now: Time)
    ensures TakenOn(s.da, DeleteItems(s.(lastKeptAlive := now), ids, answer).0.da, answer)
  {
    hide DeleteAll, Rebuild, TakenOn;
    var s0 := s.(lastKeptAlive := now);
    DeletingKeepsGroup(s0, ids);
    RebuildTakesOn(DeleteAll(s0, ids).0, answer);
    NothingTakenOn(s.da, answer);
  }

  ghost function OfferOf(answer: Answer): set<nat> { if answer.Granted? then {answer.group} else {} }

  method ServeAdd(service: SubscriptionService, session: string, id: nat, requests: seq<CreateRequest>, timestampsValid: bool, answer: Answer, now: Time)
    requires service.Valid() && OfferOf(answer) !! service.granted
    modifies service`subs, service`granted, service`closed, service`traces
    ensures service.Valid() && old(service.closed) <= service.closed
    ensures old(service.granted) <= service.granted <= old(service.granted) + OfferOf(answer)
  {
    hide Accounted, AllTraced, CreateItems, Freed, Gained, TakenOn;
    if id in service.subs {
      CreateTakesOn(service.subs[id], requests, answer, now);
      TakenOnIsOffered(service.subs[id].da, CreateItems(service.subs[id].(lastKeptAlive := now), requests, answer).0.da, answer);
    }
    var status, results := service.CreateMonitoredItems(session, id, requests, timestampsValid, answer, now);
  }

  method ServeRemove(service: SubscriptionService, session: string, id: nat, ids: seq<nat>, answer: Answer, now: Time)
    requires service.Valid() && OfferOf(answer) !! service.granted
    modifies service`subs, service`granted, service`closed, service`traces
    ensures service.Valid() && old(service.closed) <= service.closed
    ensures old(service.granted) <= service.granted <= old(service.granted) + OfferOf(answer)
  {
    hide Accounted, AllTraced, DeleteItems, Freed, Gained, TakenOn;
    if id in service.subs {
      DeleteTakesOn(service.subs[id], ids, answer, now);
      TakenOnIsOffered(service.subs[id].da, DeleteItems(service.subs[id].(lastKeptAlive := now), ids, answer).0.da, answer);
    }
    var status, results := service.DeleteMonitoredItems(session, id, ids, answer, now);
  }

  /** One call, whatever it is: the ledger still agrees, it has forgotten nothing, and it gained no group but the one on offer. */
  method Serve(service: SubscriptionService, call: Call)
    requires service.Valid() && call.Offer() !! service.granted
    modifies service
    ensures service.Valid()
    ensures Extends(old(service.granted), old(service.closed), service.granted, service.closed)
    ensures service.granted <= old(service.granted) + call.Offer()
  {
    hide Accounted, AllTraced, NewSub, FreshSub, Expired, LifetimeNs, Remaining, Switched, Closes;
    match call
    case MakeSubscription(session, request, now) =>
      var status, id := service.CreateSubscription(session, request, now);
    case DropSubscriptions(session, ids, now) =>
      var status, results := service.DeleteSubscriptions(session, ids, now);
      ClosesExtends(old(service.subs), old(service.closed), service.subs, service.closed);
    case SwitchPublishing(session, ids, enabled, now) =>
      var status, results := service.SetPublishingMode(session, ids, enabled, now);
    case AddMonitored(session, id, requests, timestampsValid, answer, now) =>
      ServeAdd(service, session, id, requests, timestampsValid, answer, now);
    case RemoveMonitored(session, id, ids, answer, now) =>
      ServeRemove(service, session, id, ids, answer, now);
    case Publish(session, acks, deliveries, now) =>
      ServePublish(service, session, acks, deliveries, now);
    case Republish(session, id, number, now) =>
      var status, m := service.Republish(session, id, number, now);
    case Expire(now) =>
      var count := service.ExpireStale(now);
      ClosesExtends(old(service.subs), old(service.closed), service.subs, service.closed);
    case EndSession(session) =>
      service.ReleaseSession(session);
      ClosesExtends(old(service.subs), old(service.closed), service.subs, service.closed);
  }

  /** The ledger agrees at every moment, and no moment forgets what the one before knew. */
  ghost predicate Sound(run: seq<Moment>) {
    && (forall k :: 0 <= k < |run| ==> Accounted(run[k].subs, run[k].granted, run[k].closed))
    && (forall k :: 0 < k < |run| ==> Extends(run[k - 1].granted, run[k - 1].closed, run[k].granted, run[k].closed))
  }

  /** From moment i on a group granted is held by one subscription and open, or held by none and was unsubscribed once. */
  ghost predicate HeldOrClosed(m: Moment, g: nat) {
    && g in m.granted && multiset(m.closed)[g] <= 1
    && (g in m.closed <==> !exists id :: HoldsGroup(m.subs, id, g))
    && (forall a, b :: HoldsGroup(m.subs, a, g) && HoldsGroup(m.subs, b, g) ==> a == b)
  }

  lemma SoundIsAccountedFor(run: seq<Moment>, i: nat, j: nat, g: nat)
    requires Sound(run) && i <= j < |run| && g in run[i].granted
    ensures HeldOrClosed(run[j], g) && run[i].closed <= run[j].closed
  {
    EveryGroupIsAccountedFor(run, i, j, g);
  }

  lemma SoundGrows(run: seq<Moment>, next: Moment)
    requires Sound(run) && run != [] && Accounted(next.subs, next.granted, next.closed)
    requires Extends(run[|run| - 1].granted, run[|run| - 1].closed, next.granted, next.closed)
    ensures Sound(run + [next])
  {
    hide Accounted, Extends;
  }

  /**
   * A service from its start through any sequence of calls: every group the source
   * ever granted is, at every later moment, held by exactly one live subscription,
   * or held by none and unsubscribed exactly once; and when no subscription is
   * left, exactly the groups granted have been unsubscribed, each once.
   */
  method RunCalls(limits: ServiceLimits, seed: nat, calls: seq<Call>) returns (service: SubscriptionService, ghost run: seq<Moment>)
    requires limits.Valid() && FreshOffers(calls, {})
    ensures service.Valid() && |run| == |calls| + 1 && run[|calls|] == Moment(service.subs, service.granted, service.closed)
    ensures forall i: nat, j: nat, g :: i <= j < |run| && g in run[i].granted ==> HeldOrClosed(run[j], g) && run[i].closed <= run[j].closed
    ensures service.subs == map[] ==> Elements(service.closed) == service.granted && |service.closed| == |service.granted|
  {
    hide Accounted, AllTraced, Extends, HeldOrClosed;
    service := new SubscriptionService(limits, seed);
    run := [Moment(service.subs, service.granted, service.closed)];
    for k := 0 to |calls|
      invariant service.Valid() && Sound(run) && |run| == k + 1
      invariant run[k] == Moment(service.subs, service.granted, service.closed)
      invariant forall j :: k <= j < |calls| ==> calls[j].Offer() !! service.granted
    {
      Serve(service, calls[k]);
      ghost var next := Moment(service.subs, service.granted, service.closed);
      SoundGrows(run, next);
      run := run + [next];
    }
    forall i: nat, j: nat, g | i <= j < |run| && g in run[i].granted ensures HeldOrClosed(run[j], g) && run[i].closed <= run[j].closed {
      SoundIsAccountedFor(run, i, j, g);
    }
    if service.subs == map[] {
      NothingLeftOpen(service.granted, service.closed);
    }
  }
}
