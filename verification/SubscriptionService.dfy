/**
 * The subscription service: many subscriptions behind one lock, each call one
 * atomic step, and the DA groups they hold open on the source. The subscription
 * a call works on is written back to the table in one assignment.
 */
module SubscriptionServices {
  import opened Prelude
  import opened Ints
  import opened Engine
  import opened EngineRuns
  import opened EnginePublishing
  import opened SubscriptionTraces
  import EngineLoops

  // ---------------------------------------------------------------- the ledger

  /** Subscription `id` holds DA group `g` open. */
  ghost predicate HoldsGroup(subs: map<nat, Sub>, id: nat, g: nat) {
    id in subs && subs[id].da.Some? && subs[id].da.value.id == g
  }

  /**
   * Every group ever granted is either held by exactly one live subscription or
   * has been unsubscribed, once.
   */
  ghost predicate Accounted(subs: map<nat, Sub>, granted: set<nat>, closed: seq<nat>) {
    && NoDup(closed)
    && (forall g :: g in closed ==> g in granted)
    && (forall id, g :: HoldsGroup(subs, id, g) ==> g in granted && g !in closed)
    && (forall a, b, g :: HoldsGroup(subs, a, g) && HoldsGroup(subs, b, g) ==> a == b)
    && (forall g :: g in granted && g !in closed ==> exists id :: HoldsGroup(subs, id, g))
  }

  lemma UpdateKeepsAccounts(subs: map<nat, Sub>, granted: set<nat>, closed: seq<nat>, id: nat, s: Sub)
    requires Accounted(subs, granted, closed)
    requires if id in subs then s.da == subs[id].da else s.da.None?
    ensures Accounted(subs[id := s], granted, closed)
  {
    var subs1 := subs[id := s];
    assert forall x, g :: HoldsGroup(subs1, x, g) <==> HoldsGroup(subs, x, g);
  }

  lemma ReleaseKeepsAccounts(subs: map<nat, Sub>, granted: set<nat>, closed: seq<nat>, id: nat, s: Sub)
    requires Accounted(subs, granted, closed)
    requires id in subs && subs[id].da.Some? && s.da.None?
    ensures Accounted(subs[id := s], granted, closed + [subs[id].da.value.id])
  {
    var (subs1, gone) := (subs[id := s], subs[id].da.value.id);
    assert HoldsGroup(subs, id, gone);
    NoDupConcat(closed, [gone]);
    forall x, g ensures HoldsGroup(subs1, x, g) <==> HoldsGroup(subs, x, g) && x != id {
    }
    forall g | g in granted && g !in closed + [gone] ensures exists x :: HoldsGroup(subs1, x, g) {
      assert g !in closed;
      var x :| HoldsGroup(subs, x, g);
      assert g != gone;
      assert HoldsGroup(subs1, x, g);
    }
  }

  lemma GrantKeepsAccounts(subs: map<nat, Sub>, granted: set<nat>, closed: seq<nat>, id: nat, s: Sub)
    requires Accounted(subs, granted, closed)
    requires id in subs && subs[id].da.None? && s.da.Some? && s.da.value.id !in granted
    ensures Accounted(subs[id := s], granted + {s.da.value.id}, closed)
  {
    var (subs1, given) := (subs[id := s], s.da.value.id);
    forall x, g ensures HoldsGroup(subs1, x, g) <==> HoldsGroup(subs, x, g) || (x == id && g == given) {
    }
    assert HoldsGroup(subs1, id, given);
    forall g | g in granted + {given} && g !in closed ensures exists x :: HoldsGroup(subs1, x, g) {
      if g != given {
        var x :| HoldsGroup(subs, x, g);
        assert HoldsGroup(subs1, x, g);
      }
    }
  }

  lemma RemoveKeepsAccounts(subs: map<nat, Sub>, granted: set<nat>, closed: seq<nat>, id: nat)
    requires Accounted(subs, granted, closed)
    requires id in subs && subs[id].da.None?
    ensures Accounted(subs - {id}, granted, closed)
  {
    assert forall x, g :: HoldsGroup(subs - {id}, x, g) <==> HoldsGroup(subs, x, g);
  }

  /** Once every subscription is gone, each group the source ever granted has been unsubscribed exactly once. */
  lemma NothingLeftOpen(granted: set<nat>, closed: seq<nat>)
    requires Accounted(map[], granted, closed)
    ensures Elements(closed) == granted && |closed| == |granted| && NoDup(closed)
  {
    forall g | g in granted ensures g in closed {
      assert forall id :: !HoldsGroup(map[], id, g);
    }
    NoDupCardinality(closed);
  }

  /** The group a change of a subscription gives up, and the one it takes on. */
  ghost function Freed(before: Option<Group>, after: Option<Group>): seq<nat> {
    if before.Some? && after != before then [before.value.id] else []
  }

  ghost function Gained(before: Option<Group>, after: Option<Group>): set<nat> {
    if after.Some? && after != before then {after.value.id} else {}
  }

  /** The groups held by the subscriptions in `ids`. */
  ghost function GroupsOf(subs: map<nat, Sub>, ids: set<nat>): set<nat> {
    set id | id in ids && id in subs && subs[id].da.Some? :: subs[id].da.value.id
  }

  lemma HeldIsGranted(subs: map<nat, Sub>, granted: set<nat>, closed: seq<nat>, id: nat)
    requires Accounted(subs, granted, closed) && id in subs && subs[id].da.Some?
    ensures subs[id].da.value.id in granted
  {
    assert HoldsGroup(subs, id, subs[id].da.value.id);
  }

  /** A moment of the service's life: what lives, what was ever granted, and what was unsubscribed, in order. */
  datatype Moment = Moment(subs: map<nat, Sub>, granted: set<nat>, closed: seq<nat>)

  /** What every call does to the ledger: it forgets nothing. */
  ghost predicate Extends(granted0: set<nat>, closed0: seq<nat>, granted1: set<nat>, closed1: seq<nat>) {
    granted0 <= granted1 && closed0 <= closed1
  }

  /**
   * Over any run of calls: a group granted by moment i is, at every later moment j,
   * held by exactly one live subscription and not unsubscribed, or held by none
   * and unsubscribed exactly once; and once unsubscribed it stays so, at its place.
   */
  lemma {:induction false} EveryGroupIsAccountedFor(run: seq<Moment>, i: nat, j: nat, g: nat)
    requires forall k :: 0 <= k < |run| ==> Accounted(run[k].subs, run[k].granted, run[k].closed)
    requires forall k :: 0 < k < |run| ==> Extends(run[k - 1].granted, run[k - 1].closed, run[k].granted, run[k].closed)
    requires i <= j < |run| && g in run[i].granted
    ensures g in run[j].granted && run[i].closed <= run[j].closed && multiset(run[j].closed)[g] <= 1
    ensures g in run[j].closed <==> !exists id :: HoldsGroup(run[j].subs, id, g)
    ensures forall a, b :: HoldsGroup(run[j].subs, a, g) && HoldsGroup(run[j].subs, b, g) ==> a == b
    decreases j - i
  {
    if i < j {
      EveryGroupIsAccountedFor(run, i, j - 1, g);
      assert Extends(run[j - 1].granted, run[j - 1].closed, run[j].granted, run[j].closed);
    }
    assert Accounted(run[j].subs, run[j].granted, run[j].closed);
    NoDupMultiset(run[j].closed, g);
  }

  lemma {:induction false} NoDupMultiset(s: seq<nat>, x: nat)
    requires NoDup(s)
    ensures multiset(s)[x] <= 1 && (x !in s ==> multiset(s)[x] == 0)
  {
    if s != [] {
      var (init, last) := (s[..|s| - 1], s[|s| - 1]);
      NoDupMultiset(init, x);
      assert s == init + [last] && last !in init;
    }
  }

  // ---------------------------------------------------------------- what calls do to one subscription

  lemma PreparedFrame(s: Sub, rs: seq<CreateRequest>)
    ensures PrepareAll(s, rs).sub.da == s.da
  {
  }

  lemma DeletingKeepsGroup(s: Sub, ids: seq<nat>)
    ensures DeleteAll(s, ids).0.da == s.da
  {
    DeletedItems(s, ids);
  }

  lemma RegisterKeepsGroup(p: Prepared)
    ensures Register(p.sub, p.accepted).da == p.sub.da
  {
  }

  lemma SmallerByOne(subs: map<nat, Sub>, id: nat)
    requires id in subs
    ensures |subs - {id}| == |subs| - 1
  {
  }

  /** Collecting keeps the group unless it was invalidated, and keeps every intermediate held order free of repeats. */
  lemma CollectFrame(s: Sub, now: Time, order: seq<nat>, poll: Poll)
    requires Healthy(s) && NoDup(order)
    ensures var s1 := Engine.HoldUnreadable(s, order);
      && s1.da == s.da && s1.items.Keys == s.items.Keys && NoDup(s1.heldOrder)
      && Engine.FlushHeld(s1, now).da == s.da
      && (poll.Delivered? ==>
            var s2 := Engine.RouteAll(s1, poll.updates);
            s2.da == s.da && NoDup(s2.heldOrder) && Engine.FlushHeld(s2, now).da == s.da)
  {
    HoldUnreadableKeepsSlots(s, order);
    if poll.Delivered? {
      RoutesKeepSlots(Engine.HoldUnreadable(s, order), poll.updates);
      RoutesFrame(Engine.HoldUnreadable(s, order), poll.updates);
    }
  }

  lemma BuildKeepsGroup(s: Sub, now: Time, limits: Limits)
    requires limits.Valid()
    ensures Engine.BuildMessage(s, now, limits).0.da == s.da
  {
    BuildFrame(s, now, limits);
  }

  lemma TouchingKeepsAccounts(subs: map<nat, Sub>, granted: set<nat>, closed: seq<nat>, session: string, now: Time)
    requires Accounted(subs, granted, closed)
    ensures Accounted(Touched(subs, session, now), granted, closed) && |Touched(subs, session, now)| == |subs|
  {
    var subs1 := Touched(subs, session, now);
    assert forall x, g :: HoldsGroup(subs1, x, g) <==> HoldsGroup(subs, x, g);
    assert subs1.Keys == subs.Keys;
    assert |subs1.Keys| == |subs1| && |subs.Keys| == |subs|;
  }

  predicate Belongs(subs: map<nat, Sub>, session: string, id: nat) {
    id in subs && subs[id].session == session
  }

  function Remaining(subs: map<nat, Sub>, session: string, ids: seq<nat>): map<nat, Sub> {
    map id | id in subs && !(id in ids && subs[id].session == session) :: subs[id]
  }

  lemma RemainingNone(subs: map<nat, Sub>, session: string)
    ensures Remaining(subs, session, []) == subs
  {
  }

  lemma RemainingIs(subs: map<nat, Sub>, session: string, ids: seq<nat>)
    ensures forall x :: x in Remaining(subs, session, ids) <==> x in subs && !(x in ids && subs[x].session == session)
  {
  }

  lemma SwitchedIs(subs: map<nat, Sub>, session: string, ids: seq<nat>, enabled: bool, now: Time)
    ensures var after := Switched(subs, session, ids, enabled, now);
      after.Keys == subs.Keys && forall x :: x in subs ==>
        after[x] == if x in ids && subs[x].session == session then subs[x].(enabled := enabled, lastKeptAlive := now) else subs[x]
  {
  }

  lemma RemainingStep(subs: map<nat, Sub>, session: string, ids: seq<nat>, k: nat)
    requires k < |ids|
    ensures var before := Remaining(subs, session, ids[..k]);
      && (Belongs(before, session, ids[k]) <==> Belongs(subs, session, ids[k]) && ids[k] !in ids[..k])
      && (ids[k] in before ==> ids[k] in subs && before[ids[k]] == subs[ids[k]])
      && Remaining(subs, session, ids[..k + 1]) == if Belongs(before, session, ids[k]) then before - {ids[k]} else before
  {
  }

  function Switched(subs: map<nat, Sub>, session: string, ids: seq<nat>, enabled: bool, now: Time): map<nat, Sub> {
    map id | id in subs :: if id in ids && subs[id].session == session then subs[id].(enabled := enabled, lastKeptAlive := now) else subs[id]
  }

  lemma SwitchedNone(subs: map<nat, Sub>, session: string, enabled: bool, now: Time)
    ensures Switched(subs, session, [], enabled, now) == subs
  {
  }

  lemma SwitchedStep(subs: map<nat, Sub>, session: string, ids: seq<nat>, k: nat, enabled: bool, now: Time)
    requires k < |ids|
    ensures var before := Switched(subs, session, ids[..k], enabled, now);
      && (Belongs(before, session, ids[k]) <==> Belongs(subs, session, ids[k]))
      && Switched(subs, session, ids[..k + 1], enabled, now)
         == if Belongs(subs, session, ids[k]) then before[ids[k] := before[ids[k]].(enabled := enabled, lastKeptAlive := now)] else before
  {
    assert ids[..k + 1] == ids[..k] + [ids[k]];
  }

  function AcknowledgedOne(subs: map<nat, Sub>, session: string, ack: (nat, nat), now: Time): (map<nat, Sub>, StatusCode) {
    if !Belongs(subs, session, ack.0) then (subs, BadSubscriptionIdInvalid)
    else
      var (s, status) := Acknowledge(subs[ack.0].(lastKeptAlive := now), ack.1);
      (subs[ack.0 := s], status)
  }

  function Acknowledged(subs: map<nat, Sub>, session: string, acks: seq<(nat, nat)>, now: Time): (map<nat, Sub>, seq<StatusCode>) {
    if acks == [] then (subs, [])
    else
      var (before, results) := Acknowledged(subs, session, acks[..|acks| - 1], now);
      var (after, status) := AcknowledgedOne(before, session, acks[|acks| - 1], now);
      (after, results + [status])
  }

  lemma AcknowledgeStatus(subs: map<nat, Sub>, session: string, ack: (nat, nat), now: Time)
    ensures AcknowledgedOne(subs, session, ack, now).1
      == if !Belongs(subs, session, ack.0) then BadSubscriptionIdInvalid
         else if ack.1 in subs[ack.0].retransmit then Good else BadSequenceNumberUnknown
  {
  }

  lemma LegalTouched(s: Sub, now: Time, order: seq<nat>, poll: Poll)
    requires Legal(s, Gather(now, order, poll))
    ensures Legal(s.(lastKeptAlive := now), Gather(now, order, poll))
  {
  }

  /** Touching changes the lifetime of the session's own subscriptions and nothing else. */
  lemma TouchedIs(subs: map<nat, Sub>, session: string, now: Time)
    ensures Touched(subs, session, now).Keys == subs.Keys
    ensures forall x :: x in subs ==>
      Touched(subs, session, now)[x] == if subs[x].session == session then subs[x].(lastKeptAlive := now) else subs[x]
    ensures (forall x :: x in subs ==> subs[x].session != session) ==> Touched(subs, session, now) == subs
  {
  }

  lemma AnyCreateIsLegal(s: Sub, rs: seq<CreateRequest>, answer: Answer)
    ensures Legal(s, Create(rs, answer))
  {
  }

  lemma SwitchIs(s: Sub, enabled: bool, limits: Limits)
    requires limits.Valid()
    ensures Legal(s, EngineRuns.Event.SetPublishing(enabled))
    ensures SubStep(s, EngineRuns.Event.SetPublishing(enabled), limits) == s.(enabled := enabled)
  {
  }

  lemma AckIs(s: Sub, number: nat, limits: Limits)
    requires limits.Valid()
    ensures Legal(s, Ack(number)) && SubStep(s, Ack(number), limits) == Acknowledge(s, number).0
  {
  }

  lemma AnyDeleteIsLegal(s: Sub, ids: seq<nat>, answer: Answer)
    ensures Legal(s, Delete(ids, answer))
  {
  }

  lemma RefusedRebuild(s: Sub, answer: Answer)
    ensures !Engine.Rebuild(s, answer).1 ==> Engine.Rebuild(s, answer).0 == s
  {
  }

  lemma NewSubHasNoGroup(l: ServiceLimits, session: string, r: SubscriptionRequest, now: Time)
    requires l.Valid()
    ensures NewSub(l, session, r, now).da.None?
  {
  }

  lemma KeysOf(subs: map<nat, Sub>, traces: map<nat, Trace>, next: nat, limits: Limits)
    requires limits.Valid() && AllTraced(subs, traces, next, limits)
    ensures traces.Keys == subs.Keys
  {
  }

  /** The groups of the subscriptions that went, and no others, have been unsubscribed. */
  ghost predicate Closes(subs0: map<nat, Sub>, closed0: seq<nat>, subs1: map<nat, Sub>, closed1: seq<nat>) {
    closed0 <= closed1 && Elements(closed1) == Elements(closed0) + GroupsOf(subs0, subs0.Keys - subs1.Keys)
  }

  lemma ClosesNone(subs: map<nat, Sub>, closed: seq<nat>)
    ensures Closes(subs, closed, subs, closed)
  {
    assert GroupsOf(subs, subs.Keys - subs.Keys) == {};
  }

  /** One more goes; its group is what it held at the start, which no call has changed since. */
  lemma ClosesOne(subs0: map<nat, Sub>, closed0: seq<nat>, subs1: map<nat, Sub>, closed1: seq<nat>, id: nat)
    requires Closes(subs0, closed0, subs1, closed1)
    ensures id in subs1 && id in subs0 && subs1[id].da == subs0[id].da ==>
      Closes(subs0, closed0, subs1 - {id}, closed1 + Freed(subs1[id].da, None))
  {
    if id in subs1 && id in subs0 && subs1[id].da == subs0[id].da {
      assert (subs1 - {id}).Keys == subs1.Keys - {id};
      assert subs0.Keys - (subs1 - {id}).Keys == (subs0.Keys - subs1.Keys) + {id};
      var da := subs0[id].da;
      assert GroupsOf(subs0, (subs0.Keys - subs1.Keys) + {id})
        == GroupsOf(subs0, subs0.Keys - subs1.Keys) + (if da.Some? then {da.value.id} else {});
      assert Elements(closed1 + Freed(da, None)) == Elements(closed1) + (if da.Some? then {da.value.id} else {});
    }
  }

  // ---------------------------------------------------------------- who is served

  /** One of the session's subscriptions, with none of higher priority. */
  ghost predicate Foremost(subs: map<nat, Sub>, session: string, id: nat) {
    Belongs(subs, session, id) && forall x :: Belongs(subs, session, x) ==> subs[x].priority <= subs[id].priority
  }

  lemma ForemostTouched(subs: map<nat, Sub>, session: string, now: Time, id: nat)
    requires Foremost(Touched(subs, session, now), session, id)
    ensures Foremost(subs, session, id) && Belongs(subs, session, id)
  {
    TouchedIs(subs, session, now);
    forall x | Belongs(subs, session, x) ensures subs[x].priority <= subs[id].priority {
      assert Belongs(Touched(subs, session, now), session, x);
    }
  }

  /** What a Publish of a session may do to the subscriptions: run the cycle of a foremost one, keep the session's others alive, touch nobody else's. */
  ghost predicate Served(before: map<nat, Sub>, after: map<nat, Sub>, session: string) {
    && after.Keys == before.Keys
    && exists id :: Foremost(before, session, id) && forall x :: x in before ==>
         if x == id then after[x].session == before[x].session && after[x].priority == before[x].priority
         else after[x] == before[x].(lastKeptAlive := after[x].lastKeptAlive)
  }

  lemma ServedBy(before: map<nat, Sub>, session: string, now: Time, id: nat, s: Sub)
    requires Foremost(before, session, id) && id in before && s.session == before[id].session && s.priority == before[id].priority
    ensures Served(before, Touched(before, session, now)[id := s], session)
  {
    TouchedIs(before, session, now);
    assert Touched(before, session, now)[id := s].Keys == before.Keys;
  }

  lemma CollectKeepsIdentity(s: Sub, now: Time, order: seq<nat>, poll: Poll)
    ensures var s1 := Engine.Collect(s, now, order, poll); s1.session == s.session && s1.priority == s.priority
  {
    hide Engine.RouteAll;
    if poll.Delivered? {
      RoutesFrame(Engine.HoldUnreadable(s, order), poll.updates);
    }
  }

  lemma BuildKeepsIdentity(s: Sub, now: Time, limits: Limits)
    requires limits.Valid()
    ensures var s1 := Engine.BuildMessage(s, now, limits).0; s1.session == s.session && s1.priority == s.priority
  {
  }

  /** A cycle changes neither whose subscription it is nor its priority. */
  lemma CycleKeepsIdentity(s: Sub, now: Time, order: seq<nat>, poll: Poll, limits: Limits)
    requires limits.Valid()
    ensures var s1 := Engine.BuildMessage(Engine.Collect(s, now, order, poll), now, limits).0; s1.session == s.session && s1.priority == s.priority
  {
    hide Engine.Collect, Engine.BuildMessage;
    CollectKeepsIdentity(s, now, order, poll);
    BuildKeepsIdentity(Engine.Collect(s, now, order, poll), now, limits);
  }

  /** nextPublishable, for one order in which the range comes to the subscriptions: the first of the highest priority. */
  function Pick(subs: map<nat, Sub>, session: string, order: seq<nat>): (best: Option<nat>)
    ensures best.Some? ==> Belongs(subs, session, best.value)
  {
    if order == [] then None
    else
      var (best, id) := (Pick(subs, session, order[..|order| - 1]), order[|order| - 1]);
      if Belongs(subs, session, id) && (best.None? || subs[id].priority > subs[best.value].priority) then Some(id) else best
  }

  lemma {:induction false} PickedIsForemost(subs: map<nat, Sub>, session: string, order: seq<nat>)
    ensures var best := Pick(subs, session, order);
      forall x :: x in order && Belongs(subs, session, x) ==> best.Some? && subs[x].priority <= subs[best.value].priority
  {
    if order != [] {
      PickedIsForemost(subs, session, order[..|order| - 1]);
      assert order == order[..|order| - 1] + [order[|order| - 1]];
    }
  }

  lemma {:induction false} ForemostIsKept(subs: map<nat, Sub>, session: string, order: seq<nat>)
    requires order != [] && Foremost(subs, session, order[0])
    ensures Pick(subs, session, order) == Some(order[0])
  {
    if |order| > 1 {
      ForemostIsKept(subs, session, order[..|order| - 1]);
    } else {
      assert order[..0] == [];
    }
  }

  /** Some range picks the subscription exactly when none of its session's has a higher priority. */
  lemma PickedExactly(subs: map<nat, Sub>, session: string, x: nat)
    ensures (exists order: seq<nat> :: Enumerates(order, subs.Keys) && Pick(subs, session, order) == Some(x)) <==> Foremost(subs, session, x)
  {
    if Foremost(subs, session, x) {
      var order := OrderStarting<nat>(subs.Keys, x);
      ForemostIsKept(subs, session, order);
    }
    forall order: seq<nat> | Enumerates(order, subs.Keys) && Pick(subs, session, order) == Some(x) ensures Foremost(subs, session, x) {
      PickedIsForemost(subs, session, order);
      forall y | Belongs(subs, session, y) ensures subs[y].priority <= subs[x].priority {
        assert y in Elements(order);
      }
    }
  }

  lemma PickedFrom(subs: map<nat, Sub>, session: string, order: seq<nat>)
    requires Enumerates(order, subs.Keys)
    ensures var best := Pick(subs, session, order);
      && (best.None? <==> forall id :: id in subs ==> subs[id].session != session)
      && (best.Some? ==> Foremost(subs, session, best.value))
  {
    PickedIsForemost(subs, session, order);
    forall id | id in subs && subs[id].session == session ensures Pick(subs, session, order).Some? {
      assert id in Elements(order) && Belongs(subs, session, id);
    }
    if Pick(subs, session, order).Some? {
      PickedExactly(subs, session, Pick(subs, session, order).value);
    }
  }

  /** So a subscription is passed over by every range exactly when its session has one of higher priority. */
  lemma StarvedExactly(subs: map<nat, Sub>, session: string, x: nat)
    requires Belongs(subs, session, x)
    ensures (forall order: seq<nat> :: Enumerates(order, subs.Keys) ==> Pick(subs, session, order) != Some(x))
        <==> exists y :: Belongs(subs, session, y) && subs[y].priority > subs[x].priority
  {
    PickedExactly(subs, session, x);
  }

  /** The choice does not look at what there is to say: a subscription with nothing to send is served before one with a full queue. */
  lemma SilentSubscriptionIsServedFirst(subs: map<nat, Sub>, session: string, silent: nat, talkative: nat)
    requires subs.Keys == {silent, talkative} && subs[silent].session == session == subs[talkative].session
    requires subs[silent].pending == [] && subs[silent].items == map[] && subs[talkative].pending != []
    requires subs[talkative].priority < subs[silent].priority
    ensures Foremost(subs, session, silent) && !Foremost(subs, session, talkative)
  {
    assert Belongs(subs, session, silent);
  }

  /**
   * Starvation. Over any run of Publish calls by any sessions, as long as a session
   * has a subscription of higher priority, one of lower priority is given no cycle:
   * whatever it has to say stays unsaid, and no keep-alive is sent for it.
   */
  lemma {:induction false} LowerPriorityStarves(run: seq<map<nat, Sub>>, sessions: seq<string>, low: nat, high: nat, j: nat)
    requires |sessions| + 1 == |run| && j < |run|
    requires forall k :: 0 < k < |run| ==> Served(run[k - 1], run[k], sessions[k - 1])
    requires low in run[0] && high in run[0] && run[0][low].session == run[0][high].session
    requires run[0][low].priority < run[0][high].priority
    ensures low in run[j] && run[j][low] == run[0][low].(lastKeptAlive := run[j][low].lastKeptAlive)
    ensures high in run[j] && run[j][high].priority == run[0][high].priority && run[j][high].session == run[0][high].session
    decreases j
  {
    if j > 0 {
      LowerPriorityStarves(run, sessions, low, high, j - 1);
      var (a, b, session) := (run[j - 1], run[j], sessions[j - 1]);
      assert Served(a, b, session);
      var id :| Foremost(a, session, id) && forall x :: x in a ==>
        if x == id then b[x].session == a[x].session && b[x].priority == a[x].priority
        else b[x] == a[x].(lastKeptAlive := b[x].lastKeptAlive);
      if id == low {
        assert Belongs(a, session, high);
      }
    }
  }

  class SubscriptionService {
    const limits: ServiceLimits
    var subs: map<nat, Sub>
    var nextId: nat
    /** Every DA group the source granted, and every one unsubscribed, in order. */
    ghost var granted: set<nat>
    ghost var closed: seq<nat>
    /** How each live subscription came to be what it is. */
    ghost var traces: map<nat, Trace>

    ghost predicate Valid()
      reads this
    {
      && limits.Valid()
      && |subs| <= limits.maxSubscriptions
      && Accounted(subs, granted, closed)
      && AllTraced(subs, traces, nextId, limits.publish)
    }

    constructor (limits: ServiceLimits, seed: nat)
      requires limits.Valid()
      ensures Valid() && this.limits == limits && subs == map[] && granted == {} && closed == []
    {
      this.limits := limits;
      subs, nextId, granted, closed, traces := map[], seed, {}, [], map[];
    }

    /** `id` is a subscription of this session. */
    predicate Owns(session: string, id: nat)
      reads this
    {
      id in subs && subs[id].session == session
    }

    // -------------------------------------------------------------- the DA group

    /** releaseDASubscription. */
    method ReleaseGroup(id: nat)
      requires id in subs && Accounted(subs, granted, closed)
      modifies this`subs, this`closed
      ensures Accounted(subs, granted, closed) && subs == old(subs)[id := old(subs[id]).(da := None)]
      ensures closed == old(closed) + Freed(old(subs[id]).da, None)
    {
      if subs[id].da.Some? {
        ReleaseKeepsAccounts(subs, granted, closed, id, subs[id].(da := None));
        closed := closed + [subs[id].da.value.id];
        subs := subs[id := subs[id].(da := None)];
      }
    }

    /** rebuildDASubscription: a granted group replaces the old one, which is unsubscribed; a refusal changes nothing. */
    method Rebuild(id: nat, answer: Answer) returns (ok: bool)
      requires id in subs && Accounted(subs, granted, closed)
      requires answer.Granted? ==> answer.group !in granted
      modifies this`subs, this`granted, this`closed
      ensures Accounted(subs, granted, closed)
      ensures var (s, b) := Engine.Rebuild(old(subs[id]), answer); ok == b && subs == old(subs)[id := s]
      ensures closed == old(closed) + Freed(old(subs[id]).da, subs[id].da)
      ensures granted == old(granted) + Gained(old(subs[id]).da, subs[id].da)
    {
      hide Accounted;
      var itemIds := EngineLoops.GroupItems(subs[id].items);
      assert itemIds == [] <==> ReadableItems(subs[id].items) == {} by {
        if itemIds != [] {
          assert itemIds[0] in Elements(itemIds);
        }
      }
      if itemIds != [] && answer.Refused? {
        return false;
      }
      if subs[id].da.Some? {
        HeldIsGranted(subs, granted, closed, id);
      }
      ReleaseGroup(id);
      if itemIds != [] {
        var group := Group(answer.group, set x | x in itemIds);
        GrantKeepsAccounts(subs, granted, closed, id, subs[id].(da := Some(group)));
        granted := granted + {group.id};
        subs := subs[id := subs[id].(da := Some(group))];
      }
      ok := true;
    }

    // -------------------------------------------------------------- services on items

    /** lookup: one session cannot reach another's subscription, and a lookup keeps it alive. */
    method Lookup(session: string, id: nat, now: Time) returns (ok: bool)
      requires Valid()
      modifies this`subs, this`traces
      ensures Valid() && ok == old(Owns(session, id)) && (ok <==> id in old(subs) && old(subs)[id].session == session)
      ensures subs == if ok then old(subs)[id := old(subs[id]).(lastKeptAlive := now)] else old(subs)
    {
      hide Accounted, AllTraced;
      ok := id in subs && subs[id].session == session;
      if ok {
        TraceStep(subs, traces, nextId, limits.publish, id, Touch(now));
        UpdateKeepsAccounts(subs, granted, closed, id, subs[id].(lastKeptAlive := now));
        traces := traces[id := Recorded(traces[id], Touch(now))];
        subs := subs[id := subs[id].(lastKeptAlive := now)];
      }
    }

    method CreateMonitoredItems(session: string, id: nat, rs: seq<CreateRequest>, timestampsValid: bool, answer: Answer, now: Time)
      returns (status: StatusCode, results: seq<CreateResult>)
      requires Valid()
      requires answer.Granted? ==> answer.group !in granted
      modifies this`subs, this`granted, this`closed, this`traces
      ensures Valid()
      ensures status == if !timestampsValid then BadTimestampsToReturnInvalid
                        else if rs == [] then BadNothingToDo
                        else if !old(Owns(session, id)) then BadSubscriptionIdInvalid
                        else if |old(subs[id]).items| + |rs| > limits.maxMonitoredItems then BadTooManyMonitoredItems
                        else Good
      ensures status == Good ==>
        var (s, answers) := CreateItems(old(subs[id]).(lastKeptAlive := now), rs, answer);
        subs == old(subs)[id := s] && results == answers
      ensures status == Good ==> closed == old(closed) + Freed(old(subs[id]).da, subs[id].da)
      ensures status == Good ==> granted == old(granted) + Gained(old(subs[id]).da, subs[id].da)
      ensures status == BadTooManyMonitoredItems ==> subs == old(subs)[id := old(subs[id]).(lastKeptAlive := now)]
      ensures status != Good && status != BadTooManyMonitoredItems ==> subs == old(subs)
      ensures status != Good ==> granted == old(granted) && closed == old(closed) && results == []
    {
      hide Accounted, AllTraced, Freed, Gained, CreateItems;
      results := [];
      if !timestampsValid {
        return BadTimestampsToReturnInvalid, results;
      }
      if rs == [] {
        return BadNothingToDo, results;
      }
      var owned := Lookup(session, id, now);
      if !owned {
        return BadSubscriptionIdInvalid, results;
      }
      if |subs[id].items| + |rs| > limits.maxMonitoredItems {
        return BadTooManyMonitoredItems, results;
      }
      results := AddItems(id, rs, answer);
      status := Good;
    }

    /** The part of CreateMonitoredItems that runs once the request has been admitted. */
    method AddItems(id: nat, rs: seq<CreateRequest>, answer: Answer) returns (results: seq<CreateResult>)
      requires Valid() && id in subs
      requires answer.Granted? ==> answer.group !in granted
      modifies this`subs, this`granted, this`closed, this`traces
      ensures Valid()
      ensures var (s, answers) := CreateItems(old(subs[id]), rs, answer); subs == old(subs)[id := s] && results == answers
      ensures closed == old(closed) + Freed(old(subs[id]).da, subs[id].da)
      ensures granted == old(granted) + Gained(old(subs[id]).da, subs[id].da)
    {
      hide Accounted, AllTraced, PrepareAll, Settle, Legal;
      AnyCreateIsLegal(subs[id], rs, answer);
      TraceStep(subs, traces, nextId, limits.publish, id, Create(rs, answer));
      traces := traces[id := Recorded(traces[id], Create(rs, answer))];
      PreparedFrame(subs[id], rs);
      var p := EngineLoops.Prepare(subs[id], rs);
      UpdateKeepsAccounts(subs, granted, closed, id, p.sub);
      subs := subs[id := p.sub];
      results := p.results;
      if p.accepted != [] {
        results := SettleItems(id, p, answer);
      }
      assert subs == old(subs)[id := CreateItems(old(subs[id]), rs, answer).0];
    }

    /** Registers the accepted items, rebuilds the group, and takes the items back if the source refuses. */
    method SettleItems(id: nat, p: Prepared, answer: Answer) returns (results: seq<CreateResult>)
      requires id in subs && subs[id] == p.sub && Accounted(subs, granted, closed)
      requires answer.Granted? ==> answer.group !in granted
      modifies this`subs, this`granted, this`closed
      ensures Accounted(subs, granted, closed)
      ensures var (s, answers) := Settle(p, answer); subs == old(subs)[id := s] && results == answers
      ensures closed == old(closed) + Freed(old(subs[id]).da, subs[id].da)
      ensures granted == old(granted) + Gained(old(subs[id]).da, subs[id].da)
    {
      hide Accounted, Register, Raised, Freed, Gained;
      var registered := EngineLoops.RegisterAll(p);
      RegisterKeepsGroup(p);
      UpdateKeepsAccounts(subs, granted, closed, id, registered);
      subs := subs[id := registered];
      var ok := Rebuild(id, answer);
      UpdateKeepsAccounts(subs, granted, closed, id, Settle(p, answer).0);
      if ok {
        var floor := RevisedInterval(subs[id], answer);
        subs := subs[id := subs[id].(items := Raised(subs[id].items, ItemMap(p.accepted).Keys, floor))];
        results := RaisedResults(p.results, floor);
      } else {
        subs := subs[id := Unregister(subs[id], p.accepted)];
        results := FailedResults(p.results, BadSourceFailure(answer.code));
      }
      assert subs == old(subs)[id := Settle(p, answer).0];
    }

    method DeleteMonitoredItems(session: string, id: nat, ids: seq<nat>, answer: Answer, now: Time)
      returns (status: StatusCode, results: seq<StatusCode>)
      requires Valid()
      requires answer.Granted? ==> answer.group !in granted
      modifies this`subs, this`granted, this`closed, this`traces
      ensures Valid()
      ensures status == if ids == [] then BadNothingToDo else if !old(Owns(session, id)) then BadSubscriptionIdInvalid else Good
      ensures status == Good ==>
        var (s, answers) := DeleteItems(old(subs[id]).(lastKeptAlive := now), ids, answer);
        subs == old(subs)[id := s] && results == answers
      ensures status == Good ==> closed == old(closed) + Freed(old(subs[id]).da, subs[id].da)
      ensures status == Good ==> granted == old(granted) + Gained(old(subs[id]).da, subs[id].da)
      ensures status != Good ==> subs == old(subs) && granted == old(granted) && closed == old(closed) && results == []
    {
      hide Accounted, AllTraced, Freed, Gained, DeleteItems;
      results := [];
      if ids == [] {
        return BadNothingToDo, results;
      }
      var owned := Lookup(session, id, now);
      if !owned {
        return BadSubscriptionIdInvalid, results;
      }
      results := RemoveItems(id, ids, answer);
      status := Good;
    }

    /** The part of DeleteMonitoredItems that runs once the subscription is found. */
    method RemoveItems(id: nat, ids: seq<nat>, answer: Answer) returns (results: seq<StatusCode>)
      requires Valid() && id in subs
      requires answer.Granted? ==> answer.group !in granted
      modifies this`subs, this`granted, this`closed, this`traces
      ensures Valid()
      ensures var (s, answers) := DeleteItems(old(subs[id]), ids, answer); subs == old(subs)[id := s] && results == answers
      ensures closed == old(closed) + Freed(old(subs[id]).da, subs[id].da)
      ensures granted == old(granted) + Gained(old(subs[id]).da, subs[id].da)
    {
      hide Accounted, AllTraced, DeleteAll, Engine.Rebuild, Legal;
      AnyDeleteIsLegal(subs[id], ids, answer);
      TraceStep(subs, traces, nextId, limits.publish, id, Delete(ids, answer));
      traces := traces[id := Recorded(traces[id], Delete(ids, answer))];
      DeletingKeepsGroup(subs[id], ids);
      var s, removed;
      s, results, removed := EngineLoops.DeleteEach(subs[id], ids);
      UpdateKeepsAccounts(subs, granted, closed, id, s);
      subs := subs[id := s];
      if removed {
        RefusedRebuild(s, answer);
        var ok := Rebuild(id, answer);
        if !ok {
          ReleaseGroup(id);
        }
      }
      assert subs == old(subs)[id := DeleteItems(old(subs[id]), ids, answer).0];
    }

    // -------------------------------------------------------------- services on subscriptions

    method CreateSubscription(session: string, r: SubscriptionRequest, now: Time) returns (status: StatusCode, id: nat)
      requires Valid()
      modifies this`subs, this`nextId, this`traces
      ensures Valid()
      ensures status == if |old(subs)| >= limits.maxSubscriptions then BadTooManySubscriptions else Good
      ensures status == Good ==>
        && id !in old(subs) && id != 0 && subs == old(subs)[id := NewSub(limits, session, r, now)]
        && FreshSub(subs[id]) && (Expired(subs[id], now) <==> LifetimeNs(subs[id]) <= 0)
      ensures status != Good ==> subs == old(subs)
    {
      hide Accounted, AllTraced, NewSub, FreshSub, Expired, LifetimeNs;
      if |subs| >= limits.maxSubscriptions {
        return BadTooManySubscriptions, 0;
      }
      var s := NewSub(limits, session, r, now);
      NewSubIsFresh(limits, session, r, now);
      NewSubHasNoGroup(limits, session, r, now);
      TraceStart(subs, traces, nextId, limits.publish, s);
      nextId := nextId + 1;
      id := nextId;
      UpdateKeepsAccounts(subs, granted, closed, id, s);
      subs, traces := subs[id := s], traces[id := Trace(s, [])];
      status := Good;
    }

    /** SetPublishingMode, for one of the subscriptions it names. */
    method SetPublishing(session: string, id: nat, enabled: bool, now: Time) returns (status: StatusCode)
      requires Valid()
      modifies this`subs, this`traces
      ensures Valid()
      ensures status == if old(Owns(session, id)) then Good else BadSubscriptionIdInvalid
      ensures subs == if status == Good then old(subs)[id := old(subs[id]).(enabled := enabled, lastKeptAlive := now)] else old(subs)
    {
      hide Accounted, AllTraced, SubStep, Legal;
      var owned := Lookup(session, id, now);
      if !owned {
        return BadSubscriptionIdInvalid;
      }
      SwitchIs(subs[id], enabled, limits.publish);
      TraceStep(subs, traces, nextId, limits.publish, id, EngineRuns.Event.SetPublishing(enabled));
      UpdateKeepsAccounts(subs, granted, closed, id, subs[id].(enabled := enabled));
      traces := traces[id := Recorded(traces[id], EngineRuns.Event.SetPublishing(enabled))];
      subs := subs[id := subs[id].(enabled := enabled)];
      status := Good;
    }

    /** Unsubscribes the group of one subscription and forgets the subscription. */
    method Drop(id: nat)
      requires Valid() && id in subs
      modifies this`subs, this`closed, this`traces
      ensures Valid() && subs == old(subs) - {id} && closed == old(closed) + Freed(old(subs[id]).da, None)
    {
      hide Accounted, AllTraced, Freed;
      TraceEnd(subs, traces, nextId, limits.publish, id);
      SmallerByOne(subs, id);
      traces := traces - {id};
      ReleaseGroup(id);
      RemoveKeepsAccounts(subs, granted, closed, id);
      subs := subs - {id};
      assert subs == old(subs) - {id};
    }

    /** DeleteSubscriptions, for one of the subscriptions it names. */
    method DeleteSubscription(session: string, id: nat, now: Time) returns (status: StatusCode)
      requires Valid()
      modifies this`subs, this`closed, this`traces
      ensures Valid()
      ensures status == if old(Owns(session, id)) then Good else BadSubscriptionIdInvalid
      ensures status == Good ==> subs == old(subs) - {id} && closed == old(closed) + Freed(old(subs[id]).da, None)
      ensures status != Good ==> subs == old(subs) && closed == old(closed)
    {
      hide Accounted, AllTraced, Freed;
      var owned := Lookup(session, id, now);
      if !owned {
        return BadSubscriptionIdInvalid;
      }
      Drop(id);
      assert subs == old(subs) - {id};
      status := Good;
    }

    /** DeleteSubscriptions: the session's own among those named go; a name repeated fails the second time. */
    method DeleteSubscriptions(session: string, ids: seq<nat>, now: Time) returns (status: StatusCode, results: seq<StatusCode>)
      requires Valid()
      modifies this`subs, this`closed, this`traces
      ensures Valid() && (status == if ids == [] then BadNothingToDo else Good)
      ensures forall x :: x in subs <==> x in old(subs) && !(x in ids && old(subs)[x].session == session)
      ensures subs == Remaining(old(subs), session, ids) && Closes(old(subs), old(closed), subs, closed)
      ensures status == Good ==> |results| == |ids|
      ensures status == Good ==>
        forall k :: 0 <= k < |ids| ==> results[k] == if Belongs(old(subs), session, ids[k]) && ids[k] !in ids[..k] then Good else BadSubscriptionIdInvalid
    {
      hide Accounted, AllTraced, Remaining, Freed, Closes;
      results := [];
      RemainingNone(subs, session);
      RemainingIs(subs, session, ids);
      ClosesNone(subs, closed);
      if ids == [] {
        return BadNothingToDo, [];
      }
      for k := 0 to |ids|
        invariant Valid() && subs == Remaining(old(subs), session, ids[..k]) && |results| == k
        invariant Closes(old(subs), old(closed), subs, closed)
        invariant forall j :: 0 <= j < k ==> results[j] == if Belongs(old(subs), session, ids[j]) && ids[j] !in ids[..j] then Good else BadSubscriptionIdInvalid
      {
        RemainingStep(old(subs), session, ids, k);
        ClosesOne(old(subs), old(closed), subs, closed, ids[k]);
        var one := DeleteSubscription(session, ids[k], now);
        results := results + [one];
      }
      assert ids[..|ids|] == ids;
      return Good, results;
    }

    /** SetPublishingMode: the flag of each of the session's own subscriptions named. */
    method SetPublishingMode(session: string, ids: seq<nat>, enabled: bool, now: Time) returns (status: StatusCode, results: seq<StatusCode>)
      requires Valid()
      modifies this`subs, this`traces
      ensures Valid() && (status == if ids == [] then BadNothingToDo else Good)
      ensures subs.Keys == old(subs).Keys && forall x :: x in subs ==>
        subs[x] == if x in ids && old(subs)[x].session == session then old(subs)[x].(enabled := enabled, lastKeptAlive := now) else old(subs)[x]
      ensures subs == Switched(old(subs), session, ids, enabled, now)
      ensures status == Good ==> |results| == |ids|
      ensures status == Good ==>
        forall k :: 0 <= k < |ids| ==> results[k] == if Belongs(old(subs), session, ids[k]) then Good else BadSubscriptionIdInvalid
    {
      hide Accounted, AllTraced, Switched;
      results := [];
      SwitchedNone(subs, session, enabled, now);
      SwitchedIs(subs, session, ids, enabled, now);
      if ids == [] {
        return BadNothingToDo, [];
      }
      for k := 0 to |ids|
        invariant Valid() && subs == Switched(old(subs), session, ids[..k], enabled, now) && |results| == k
        invariant forall j :: 0 <= j < k ==> results[j] == if Belongs(old(subs), session, ids[j]) then Good else BadSubscriptionIdInvalid
      {
        SwitchedStep(old(subs), session, ids, k, enabled, now);
        var one := SetPublishing(session, ids[k], enabled, now);
        results := results + [one];
      }
      assert ids[..|ids|] == ids;
      return Good, results;
    }

    /** ExpireStale: drops every subscription whose client has been gone for its lifetime, and only those. */
    method ExpireStale(now: Time) returns (count: nat)
      requires Valid()
      modifies this`subs, this`closed, this`traces
      ensures Valid() && Closes(old(subs), old(closed), subs, closed)
      ensures subs == map id | id in old(subs) && !Expired(old(subs[id]), now) :: old(subs[id])
      ensures count == |old(subs)| - |subs|
    {
      hide Accounted, AllTraced, Expired, Freed, Closes;
      count := 0;
      var rest := subs.Keys;
      ClosesNone(subs, closed);
      while rest != {}
        invariant Valid() && rest <= subs.Keys <= old(subs).Keys && count == |old(subs)| - |subs|
        invariant forall id :: id in old(subs) ==> (id in subs <==> id in rest || !Expired(old(subs[id]), now))
        invariant forall id :: id in subs ==> subs[id] == old(subs[id])
        invariant Closes(old(subs), old(closed), subs, closed)
        decreases |rest|
      {
        var id :| id in rest;
        rest := rest - {id};
        if Expired(subs[id], now) {
          SmallerByOne(subs, id);
          ClosesOne(old(subs), old(closed), subs, closed, id);
          Drop(id);
          count := count + 1;
        }
      }
    }

    /** ReleaseSession: a session that ends leaves no subscription and no open group behind. */
    method ReleaseSession(session: string)
      requires Valid()
      modifies this`subs, this`closed, this`traces
      ensures Valid() && Closes(old(subs), old(closed), subs, closed)
      ensures subs == map id | id in old(subs) && old(subs[id]).session != session :: old(subs[id])
    {
      hide Accounted, AllTraced, Freed, Closes;
      var rest := subs.Keys;
      ClosesNone(subs, closed);
      while rest != {}
        invariant Valid() && rest <= subs.Keys <= old(subs).Keys
        invariant forall id :: id in old(subs) ==> (id in subs <==> id in rest || old(subs[id]).session != session)
        invariant forall id :: id in subs ==> subs[id] == old(subs[id])
        invariant Closes(old(subs), old(closed), subs, closed)
        decreases |rest|
      {
        var id :| id in rest;
        rest := rest - {id};
        if subs[id].session == session {
          ClosesOne(old(subs), old(closed), subs, closed, id);
          Drop(id);
        }
      }
    }

    // -------------------------------------------------------------- publishing

    /** collect. */
    method Collect(id: nat, now: Time, order: seq<nat>, poll: Poll)
      requires Valid() && id in subs && Legal(subs[id], Gather(now, order, poll))
      modifies this`subs, this`closed, this`traces
      ensures Valid()
      ensures subs == old(subs)[id := Engine.Collect(old(subs[id]), now, order, poll)]
      ensures closed == old(closed) + Freed(old(subs[id]).da, subs[id].da)
    {
      hide Accounted, AllTraced, Healthy, Engine.HoldUnreadable, Engine.FlushHeld, Engine.RouteAll;
      TraceOf(subs, traces, nextId, limits.publish, id);
      TraceStep(subs, traces, nextId, limits.publish, id, Gather(now, order, poll));
      traces := traces[id := Recorded(traces[id], Gather(now, order, poll))];
      CollectFrame(subs[id], now, order, poll);
      var s := EngineLoops.HoldUnreadable(subs[id], order);
      if s.da.None? {
        s := EngineLoops.FlushHeld(s, now);
        UpdateKeepsAccounts(subs, granted, closed, id, s);
      } else if poll.Invalidated? {
        s := EngineLoops.ReportInvalidation(s, now, poll.order);
        ReleaseKeepsAccounts(subs, granted, closed, id, s.(da := None));
        closed := closed + [s.da.value.id];
        s := s.(da := None);
      } else {
        s := EngineLoops.RouteAll(s, poll.updates);
        s := EngineLoops.FlushHeld(s, now);
        UpdateKeepsAccounts(subs, granted, closed, id, s);
      }
      subs := subs[id := s];
    }

    /** buildMessage. */
    method BuildMessage(id: nat, now: Time) returns (m: Option<Message>)
      requires Valid() && id in subs
      modifies this`subs, this`traces
      ensures Valid()
      ensures var (s, built) := Engine.BuildMessage(old(subs[id]), now, limits.publish);
        subs == old(subs)[id := s] && m == built && s.da == old(subs[id]).da
    {
      hide Accounted, AllTraced, Engine.QueueForRetransmission;
      TraceStep(subs, traces, nextId, limits.publish, id, Emit(now));
      traces := traces[id := Recorded(traces[id], Emit(now))];
      BuildKeepsGroup(subs[id], now, limits.publish);
      var s := subs[id];
      if !s.enabled || s.pending == [] {
        s := s.(keepAliveTicks := s.keepAliveTicks + 1);
        if s.messageSent && s.keepAliveTicks < s.keepAliveCount {
          m := None;
        } else {
          s := s.(keepAliveTicks := 0, messageSent := true);
          m := Some(Message(s.sequenceNumber + 1, now, [], false));
        }
      } else {
        var maximum := limits.publish.maxNotificationsPerPublish;
        if s.maxNotifications > 0 && s.maxNotifications < maximum {
          maximum := s.maxNotifications;
        }
        var count := |s.pending|;
        if count > maximum {
          count := maximum;
        }
        var message := Message(s.sequenceNumber + 1, now, s.pending[..count], true);
        s := s.(pending := s.pending[count..], keepAliveTicks := 0, messageSent := true, sequenceNumber := s.sequenceNumber + 1);
        s := EngineLoops.QueueForRetransmission(s, message, limits.publish.maxRetransmissionQueue);
        m := Some(message);
      }
      UpdateKeepsAccounts(subs, granted, closed, id, s);
      subs := subs[id := s];
    }

    /** nextPublishable: one of the session's subscriptions with the highest priority, by the order of the range. */
    method NextPublishable(session: string) returns (best: Option<nat>, ghost order: seq<nat>)
      ensures Enumerates(order, subs.Keys) && best == Pick(subs, session, order)
      ensures best.None? <==> forall id :: id in subs ==> subs[id].session != session
      ensures best.Some? ==> Foremost(subs, session, best.value)
    {
      hide Enumerates, Foremost;
      best, order := None, [];
      var rest := subs.Keys;
      RangeBegins(subs.Keys);
      while rest != {}
        invariant rest <= subs.Keys && Enumerates(order, subs.Keys - rest) && best == Pick(subs, session, order)
        decreases |rest|
      {
        var id :| id in rest;
        RangeStep(order, subs.Keys, rest, id);
        rest := rest - {id};
        assert (order + [id])[..|order|] == order;
        order := order + [id];
        if subs[id].session == session && (best.None? || subs[id].priority > subs[best.value].priority) {
          best := Some(id);
        }
      }
      RangeEnds(order, subs.Keys);
      PickedFrom(subs, session, order);
    }

    /** One publishing cycle of one subscription: collect, then build. */
    method RunCycle(id: nat, now: Time, order: seq<nat>, poll: Poll) returns (m: Option<Message>)
      requires Valid() && id in subs && Legal(subs[id], Gather(now, order, poll))
      modifies this`subs, this`closed, this`traces
      ensures Valid()
      ensures var (s, built) := Engine.BuildMessage(Engine.Collect(old(subs[id]), now, order, poll), now, limits.publish);
        subs == old(subs)[id := s] && m == built
      ensures closed == old(closed) + Freed(old(subs[id]).da, subs[id].da)
    {
      hide Accounted, AllTraced, Engine.Collect, Engine.BuildMessage, Legal, Freed;
      Collect(id, now, order, poll);
      m := BuildMessage(id, now);
    }

    /** The first loop of tryPublish: asking keeps every subscription of the session alive. */
    method TouchAll(session: string, now: Time)
      requires Valid()
      modifies this`subs, this`traces
      ensures Valid() && subs == Touched(old(subs), session, now)
    {
      hide Accounted, AllTraced, Touched;
      TouchingKeepsAccounts(subs, granted, closed, session, now);
      TouchingKeepsTraces(subs, traces, nextId, limits.publish, session, now);
      KeysOf(subs, traces, nextId, limits.publish);
      traces := TouchedTraces(subs, traces, session, now);
      subs := Touched(subs, session, now);
    }

    /**
     * tryPublish: one publishing cycle of one session. It keeps every subscription
     * of the session alive, runs the cycle of one with the highest priority, and
     * leaves every other subscription as it was.
     */
    method TryPublish(session: string, now: Time, orders: map<nat, seq<nat>>, polls: map<nat, Poll>)
      returns (status: StatusCode, id: nat, m: Option<Message>, available: set<nat>, more: bool)
      requires Valid()
      requires forall x :: Owns(session, x) ==> x in orders && x in polls && Legal(subs[x], Gather(now, orders[x], polls[x]))
      modifies this`subs, this`closed, this`traces
      ensures Valid()
      ensures status == if exists x :: Belongs(old(subs), session, x) then Good else BadNoSubscription
      ensures status == Good ==>
        && Foremost(old(subs), session, id) && id in orders && id in polls
        && var (s, built) := Engine.BuildMessage(
             Engine.Collect(old(subs)[id].(lastKeptAlive := now), now, orders[id], polls[id]), now, limits.publish);
           && subs == Touched(old(subs), session, now)[id := s] && m == built
           && available == s.retransmit.Keys && more == (s.pending != [])
           && closed == old(closed) + Freed(old(subs)[id].da, s.da)
      ensures status == Good ==> Served(old(subs), subs, session)
      ensures status != Good ==> subs == old(subs) && closed == old(closed)
    {
      hide Accounted, AllTraced, Engine.Collect, Engine.BuildMessage, Touched, Legal, Freed, Foremost, Served;
      TouchedIs(subs, session, now);
      TouchAll(session, now);
      var best;
      ghost var order;
      best, order := NextPublishable(session);
      available, more, m := {}, false, None;
      if best.None? {
        return BadNoSubscription, 0, m, available, more;
      }
      id := best.value;
      ForemostTouched(old(subs), session, now, id);
      assert old(Owns(session, id));
      LegalTouched(old(subs[id]), now, orders[id], polls[id]);
      m := RunCycle(id, now, orders[id], polls[id]);
      CycleKeepsIdentity(old(subs[id]).(lastKeptAlive := now), now, orders[id], polls[id], limits.publish);
      ServedBy(old(subs), session, now, id, subs[id]);
      available, more := subs[id].retransmit.Keys, subs[id].pending != [];
      status := Good;
    }

    /** One acknowledgement of a Publish request. */
    method AcknowledgeOne(session: string, id: nat, number: nat, now: Time) returns (status: StatusCode)
      requires Valid()
      modifies this`subs, this`traces
      ensures Valid()
      ensures status == if !old(Owns(session, id)) then BadSubscriptionIdInvalid
                        else if number in old(subs[id]).retransmit then Good else BadSequenceNumberUnknown
      ensures subs == if old(Owns(session, id)) then old(subs)[id := Acknowledge(old(subs[id]).(lastKeptAlive := now), number).0] else old(subs)
    {
      hide Accounted, AllTraced, RemoveFirst, SubStep, Legal;
      var owned := Lookup(session, id, now);
      if !owned {
        return BadSubscriptionIdInvalid;
      }
      var s := subs[id];
      if number !in s.retransmit {
        return BadSequenceNumberUnknown;
      }
      AckIs(subs[id], number, limits.publish);
      TraceStep(subs, traces, nextId, limits.publish, id, Ack(number));
      traces := traces[id := Recorded(traces[id], Ack(number))];
      var order := EngineLoops.Without(s.retransmitOrder, number);
      s := s.(retransmit := s.retransmit - {number}, retransmitOrder := order);
      UpdateKeepsAccounts(subs, granted, closed, id, s);
      subs := subs[id := s];
      status := Good;
    }

    /** acknowledge: each acknowledgement in turn, against what those before it left queued. */
    method AcknowledgeEach(session: string, acks: seq<(nat, nat)>, now: Time) returns (results: seq<StatusCode>)
      requires Valid()
      modifies this`subs, this`traces
      ensures Valid() && (subs, results) == Acknowledged(old(subs), session, acks, now)
    {
      hide Accounted, AllTraced, Acknowledge;
      results := [];
      for k := 0 to |acks|
        invariant Valid() && (subs, results) == Acknowledged(old(subs), session, acks[..k], now)
      {
        assert acks[..k + 1][..k] == acks[..k];
        AcknowledgeStatus(subs, session, acks[k], now);
        var one := AcknowledgeOne(session, acks[k].0, acks[k].1, now);
        results := results + [one];
      }
      assert acks[..|acks|] == acks;
    }

    /** Republish: returns the queued message and leaves it queued. */
    method Republish(session: string, id: nat, number: nat, now: Time) returns (status: StatusCode, m: Option<Message>)
      requires Valid()
      modifies this`subs, this`traces
      ensures Valid()
      ensures status == if !old(Owns(session, id)) then BadSubscriptionIdInvalid
                        else if number in old(subs[id]).retransmit then Good else BadMessageNotAvailable
      ensures m == if status == Good then Some(old(subs[id]).retransmit[number]) else None
      ensures subs == if old(Owns(session, id)) then old(subs)[id := old(subs[id]).(lastKeptAlive := now)] else old(subs)
    {
      hide Accounted, AllTraced;
      m := None;
      var owned := Lookup(session, id, now);
      if !owned {
        return BadSubscriptionIdInvalid, m;
      }
      if number !in subs[id].retransmit {
        return BadMessageNotAvailable, m;
      }
      return Good, Some(subs[id].retransmit[number]);
    }
  }
}
