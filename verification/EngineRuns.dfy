/**
 * Whole runs of one subscription, with the history that its promises are about:
 * what was ever held for each item and when it was reported, everything ever
 * queued for sending, every data message sent, and which numbers were
 * acknowledged.
 */
module EngineRuns {
  import opened Prelude
  import opened Ints
  import opened Engine

  /** One report: when, which of the values held for the item, and where it stands in the queue's history. */
  datatype Report = Report(time: Time, index: nat, position: nat)

  /**
   * `seen` is the semantic generation the item agreed with when it was made, and
   * after each value held; `superseded` counts the held values an invalidation has
   * overtaken.
   */
  datatype ItemLog = ItemLog(
    clientHandle: nat,
    samplingMs: Double,
    routed: seq<DataValue>,
    seen: seq<nat>,
    reports: seq<Report>,
    superseded: nat)

  datatype World = World(
    sub: Sub,
    logs: map<nat, ItemLog>,
    enqueued: seq<Notification>,
    sent: seq<Message>,
    acked: set<nat>,
    cycles: seq<bool>)

  /** What happens to a subscription; a publishing cycle is a Gather and an Emit. */
  datatype Event =
    | Create(requests: seq<CreateRequest>, answer: Answer)
    | Delete(ids: seq<nat>, answer: Answer)
    | SetPublishing(enabled: bool)
    | Ack(number: nat)
    | Touch(now: Time)
    | Gather(now: Time, order: seq<nat>, poll: Poll)
    | Emit(now: Time)

  // ---------------------------------------------------------------- steps with history

  function Routed(l: ItemLog, v: DataValue, generation: nat): ItemLog {
    l.(routed := l.routed + [v], seen := l.seen + [generation])
  }

  function WithStatusHeld(w: World, order: seq<nat>): World {
    w.(sub := HoldUnreadable(w.sub, order),
       logs := map id | id in w.logs ::
         if id in order && id in w.sub.items && OwesStatus(w.sub.items[id]) then Routed(w.logs[id], NotReadable, w.sub.items[id].semanticGeneration) else w.logs[id])
  }

  function WithRoute(w: World, u: Update): World {
    var target := Target(w.sub, u);
    if target.Some? && target.value in w.logs then
      w.(sub := Route(w.sub, u), logs := w.logs[target.value := Routed(w.logs[target.value], Mapped(w.sub.items[target.value], u), u.generation)])
    else w.(sub := Route(w.sub, u))
  }

  function WithRoutes(w: World, us: seq<Update>): World {
    if us == [] then w else WithRoute(WithRoutes(w, us[..|us| - 1]), us[|us| - 1])
  }

  function IndexOf(s: seq<nat>, x: nat): (k: nat)
    requires x in s
    ensures k < |s| && s[k] == x
  {
    if s[0] == x then 0 else 1 + IndexOf(s[1..], x)
  }

  function Logged(l: ItemLog, now: Time, position: nat): ItemLog {
    l.(reports := l.reports + [Report(now, if l.routed == [] then 0 else |l.routed| - 1, position)])
  }

  function Flushable(s: Sub, now: Time): seq<nat> {
    if s.enabled then DueNow(s.items, s.heldOrder, now) else []
  }

  function WithFlush(w: World, now: Time): World {
    var ids := Flushable(w.sub, now);
    w.(sub := FlushHeld(w.sub, now),
       enqueued := w.enqueued + Notes(w.sub.items, ids),
       logs := map id | id in w.logs ::
         if id in ids then Logged(w.logs[id], now, |w.enqueued| + IndexOf(ids, id)) else w.logs[id])
  }

  function Superseded(l: ItemLog): ItemLog {
    l.(superseded := |l.routed|)
  }

  function WithInvalidation(w: World, now: Time, order: seq<nat>): World {
    w.(sub := ReportInvalidation(w.sub, now, order).(da := None),
       enqueued := w.enqueued + InvalidationNotes(w.sub.items, order, now),
       logs := map id | id in w.logs :: if id in w.sub.items then Superseded(w.logs[id]) else w.logs[id])
  }

  function WithCollect(w: World, now: Time, order: seq<nat>, poll: Poll): World {
    var w1 := WithStatusHeld(w, order);
    if w1.sub.da.None? then WithFlush(w1, now)
    else match poll
      case Invalidated(o) => WithInvalidation(w1, now, o)
      case Delivered(us) => WithFlush(WithRoutes(w1, us), now)
  }

  function WithBuild(w: World, now: Time, limits: Limits): World
    requires limits.Valid()
  {
    var (s, m) := BuildMessage(w.sub, now, limits);
    w.(sub := s,
       sent := if m.Some? && m.value.hasData then w.sent + [m.value] else w.sent,
       cycles := w.cycles + [m.Some?])
  }

  function NewLogs(logs: map<nat, ItemLog>, items: map<nat, Item>): map<nat, ItemLog> {
    map id | id in logs.Keys + items.Keys ::
      if id in logs then logs[id] else ItemLog(items[id].clientHandle, items[id].samplingMs, [], [items[id].semanticGeneration], [], 0)
  }

  function Step(w: World, e: Event, limits: Limits): World
    requires limits.Valid()
  {
    match e
    case Create(rs, answer) =>
      var s := CreateItems(w.sub, rs, answer).0;
      w.(sub := s, logs := NewLogs(w.logs, s.items))
    case Delete(ids, answer) => w.(sub := DeleteItems(w.sub, ids, answer).0)
    case SetPublishing(b) => w.(sub := w.sub.(enabled := b))
    case Ack(n) =>
      var (s, status) := Acknowledge(w.sub, n);
      w.(sub := s, acked := if status == Good then w.acked + {n} else w.acked)
    case Touch(now) => w.(sub := w.sub.(lastKeptAlive := now))
    case Gather(now, order, poll) => WithCollect(w, now, order, poll)
    case Emit(now) => WithBuild(w, now, limits)
  }

  /** What the event does to the subscription itself. */
  function SubStep(s: Sub, e: Event, limits: Limits): Sub
    requires limits.Valid()
  {
    match e
    case Create(rs, answer) => CreateItems(s, rs, answer).0
    case Delete(ids, answer) => DeleteItems(s, ids, answer).0
    case SetPublishing(b) => s.(enabled := b)
    case Ack(n) => Acknowledge(s, n).0
    case Touch(now) => s.(lastKeptAlive := now)
    case Gather(now, order, poll) => Collect(s, now, order, poll)
    case Emit(now) => BuildMessage(s, now, limits).0
  }

  /** A range over the items yields each of them once. */
  ghost predicate Legal(s: Sub, e: Event) {
    e.Gather? ==>
      && Enumerates(e.order, s.items.Keys)
      && match e.poll
         case Invalidated(o) => Enumerates(o, s.items.Keys)
         case Delivered(us) => forall u :: u in us ==> Enumerates(u.order, s.items.Keys)
  }

  ghost predicate LegalRun(w: World, es: seq<Event>, limits: Limits)
    requires limits.Valid()
  {
    es != [] ==> LegalRun(w, es[..|es| - 1], limits) && Legal(Run(w, es[..|es| - 1], limits).sub, es[|es| - 1])
  }

  function Run(w: World, es: seq<Event>, limits: Limits): World
    requires limits.Valid()
  {
    if es == [] then w else Step(Run(w, es[..|es| - 1], limits), es[|es| - 1], limits)
  }

  ghost predicate FreshSub(s: Sub) {
    && s.items == map[] && s.nextItemId == 0 && s.byHandle == map[] && s.heldOrder == [] && s.da.None? && s.deadband.None?
    && s.sequenceNumber == 0 && s.pending == [] && s.retransmit == map[] && s.retransmitOrder == []
    && s.keepAliveTicks == 0 && !s.messageSent && 1 <= s.keepAliveCount
  }

  function Begin(s: Sub): World {
    World(s, map[], [], [], {}, [])
  }

  // ---------------------------------------------------------------- held slots

  /** The items listed as holding a value are, among the live ones, those that do; and ids were handed out before. */
  ghost predicate HeldAgree(items: map<nat, Item>, heldOrder: seq<nat>, next: nat) {
    && NoDup(heldOrder)
    && (forall id :: id in items ==> (id in heldOrder <==> items[id].held.Some?))
    && (forall id :: id in heldOrder ==> id <= next)
    && (forall id :: id in items ==> id <= next)
  }

  /** A client handle leads to a live item that answers to it. */
  ghost predicate HandlesLead(items: map<nat, Item>, byHandle: map<nat, nat>) {
    forall h :: h in byHandle ==> byHandle[h] in items && items[byHandle[h]].clientHandle == h
  }

  ghost predicate SlotsAgree(s: Sub) {
    HeldAgree(s.items, s.heldOrder, s.nextItemId) && HandlesLead(s.items, s.byHandle)
  }

  lemma {:induction false} FiltersKeepOrder(items: map<nat, Item>, order: seq<nat>, now: Time)
    requires NoDup(order)
    ensures NoDup(DueNow(items, order, now)) && NoDup(StillHeld(items, order, now))
  {
    if order != [] {
      var init := order[..|order| - 1];
      FiltersKeepOrder(items, init, now);
      DueNowHolds(items, init, now);
      StillHeldHolds(items, init, now);
    }
  }

  lemma {:induction false} OwingHolds(items: map<nat, Item>, order: seq<nat>)
    ensures forall id :: id in Owing(items, order) <==> id in order && id in items && OwesStatus(items[id])
    ensures NoDup(order) ==> NoDup(Owing(items, order))
  {
    if order != [] {
      OwingHolds(items, order[..|order| - 1]);
      assert order == order[..|order| - 1] + [order[|order| - 1]];
    }
  }

  lemma FlushKeepsSlots(s: Sub, now: Time)
    requires SlotsAgree(s)
    ensures SlotsAgree(FlushHeld(s, now))
  {
    FiltersKeepOrder(s.items, s.heldOrder, now);
    DueNowHolds(s.items, s.heldOrder, now);
    StillHeldHolds(s.items, s.heldOrder, now);
  }

  lemma HoldUnreadableKeepsSlots(s: Sub, order: seq<nat>)
    requires SlotsAgree(s) && NoDup(order)
    ensures SlotsAgree(HoldUnreadable(s, order))
  {
    OwingHolds(s.items, order);
    NoDupConcat(s.heldOrder, Owing(s.items, order));
  }

  lemma RouteKeepsSlots(s: Sub, u: Update)
    requires SlotsAgree(s)
    ensures SlotsAgree(Route(s, u))
  {
  }

  lemma {:induction false} RoutesKeepSlots(s: Sub, us: seq<Update>)
    requires SlotsAgree(s)
    ensures SlotsAgree(RouteAll(s, us))
  {
    if us != [] {
      RoutesKeepSlots(s, us[..|us| - 1]);
      RouteKeepsSlots(RouteAll(s, us[..|us| - 1]), us[|us| - 1]);
    }
  }

  lemma CollectKeepsSlots(s: Sub, now: Time, order: seq<nat>, poll: Poll)
    requires SlotsAgree(s) && NoDup(order)
    ensures SlotsAgree(Collect(s, now, order, poll))
  {
    HoldUnreadableKeepsSlots(s, order);
    var s1 := HoldUnreadable(s, order);
    if s1.da.None? {
      FlushKeepsSlots(s1, now);
    } else if poll.Delivered? {
      RoutesKeepSlots(s1, poll.updates);
      FlushKeepsSlots(RouteAll(s1, poll.updates), now);
    }
  }

  lemma BuildFrame(s: Sub, now: Time, limits: Limits)
    requires limits.Valid()
    ensures var s1 := BuildMessage(s, now, limits).0;
      s1.items == s.items && s1.heldOrder == s.heldOrder && s1.nextItemId == s.nextItemId && s1.byHandle == s.byHandle
      && s1.da == s.da && s1.keepAliveCount == s.keepAliveCount && s1.enabled == s.enabled
  {
  }

  /** An item as prepareMonitoredItem makes it, for a handle nobody in `s` uses. */
  ghost predicate FreshItem(s: Sub, i: Item) {
    i.held.None? && i.lastReported.None? && i.samplingMs.NonNegative() && i.clientHandle !in s.byHandle
  }

  /** Preparing moves two counters; the accepted items carry the next ids, in order, and are untouched. */
  lemma {:induction false} PreparedFacts(s: Sub, rs: seq<CreateRequest>)
    ensures FreshIds(s, PrepareAll(s, rs)) && |PrepareAll(s, rs).results| == |rs|
  {
    if rs != [] {
      PreparedFacts(s, rs[..|rs| - 1]);
      PrepareOneFacts(s, PrepareAll(s, rs[..|rs| - 1]), rs[|rs| - 1]);
    }
  }

  lemma PrepareOneFacts(s: Sub, p: Prepared, r: CreateRequest)
    requires FreshIds(s, p)
    ensures FreshIds(s, PrepareOne(p, r)) && |PrepareOne(p, r).results| == |p.results| + 1
  {
  }

  /** The maps a registration adds: exactly the ids after `base`, and every handle leads to one of them. */
  lemma {:induction false} AcceptedMaps(base: nat, accepted: seq<(nat, Item)>)
    requires forall k :: 0 <= k < |accepted| ==> accepted[k].0 == base + k + 1
    ensures forall id :: id in ItemMap(accepted) <==> base < id <= base + |accepted|
    ensures forall id :: id in ItemMap(accepted) ==> ItemMap(accepted)[id] == accepted[id - base - 1].1
    ensures forall h :: h in HandleMap(accepted) ==>
      HandleMap(accepted)[h] in ItemMap(accepted) && ItemMap(accepted)[HandleMap(accepted)[h]].clientHandle == h
    ensures forall id :: id in ItemMap(accepted) ==> ItemMap(accepted)[id].clientHandle in HandleMap(accepted)
  {
    if accepted != [] {
      AcceptedMaps(base, accepted[..|accepted| - 1]);
    }
  }

  ghost predicate FreshIds(s: Sub, p: Prepared) {
    && p.sub == s.(deadband := p.sub.deadband, nextItemId := s.nextItemId + |p.accepted|)
    && forall k :: 0 <= k < |p.accepted| ==> p.accepted[k].0 == s.nextItemId + k + 1 && FreshItem(s, p.accepted[k].1)
  }

  lemma AddingKeepsHeld(items: map<nat, Item>, heldOrder: seq<nat>, base: nat, added: map<nat, Item>, next: nat)
    requires HeldAgree(items, heldOrder, base) && base <= next
    requires forall id :: id in added ==> base < id <= next && added[id].held.None?
    ensures HeldAgree(items + added, heldOrder, next)
    ensures items + added - added.Keys == items
  {
  }

  lemma AddingKeepsHandles(items: map<nat, Item>, byHandle: map<nat, nat>, added: map<nat, Item>, handles: map<nat, nat>)
    requires HandlesLead(items, byHandle) && HandlesLead(added, handles)
    requires items.Keys !! added.Keys && byHandle.Keys !! handles.Keys
    ensures HandlesLead(items + added, byHandle + handles)
    ensures byHandle + handles - handles.Keys == byHandle
  {
  }

  lemma RegisterKeepsSlots(s: Sub, p: Prepared)
    requires SlotsAgree(s) && FreshIds(s, p)
    ensures SlotsAgree(Register(p.sub, p.accepted))
    ensures Unregister(Register(p.sub, p.accepted), p.accepted) == p.sub
  {
    AcceptedMaps(s.nextItemId, p.accepted);
    var m, h := ItemMap(p.accepted), HandleMap(p.accepted);
    AddingKeepsHeld(s.items, s.heldOrder, s.nextItemId, m, p.sub.nextItemId);
    AddingKeepsHandles(s.items, s.byHandle, m, h);
  }

  /** Raising the intervals of some items changes nothing about slots or handles. */
  lemma RaisingKeepsSlots(s: Sub, ids: set<nat>, floor: Double)
    requires SlotsAgree(s)
    ensures SlotsAgree(s.(items := Raised(s.items, ids, floor)))
  {
  }

  lemma RebuildKeepsSlots(s: Sub, answer: Answer)
    requires SlotsAgree(s)
    ensures SlotsAgree(Rebuild(s, answer).0)
    ensures Rebuild(s, answer).0 == s.(da := Rebuild(s, answer).0.da)
    ensures !Rebuild(s, answer).1 ==> Rebuild(s, answer).0 == s
  {
  }

  lemma SettleKeepsSlots(s: Sub, p: Prepared, answer: Answer)
    requires SlotsAgree(s) && FreshIds(s, p)
    ensures SlotsAgree(Settle(p, answer).0)
  {
    RegisterKeepsSlots(s, p);
    var s0 := Register(p.sub, p.accepted);
    RebuildKeepsSlots(s0, answer);
    var (s1, ok) := Rebuild(s0, answer);
    if ok {
      RaisingKeepsSlots(s1, ItemMap(p.accepted).Keys, RevisedInterval(s1, answer));
    }
  }

  lemma CreateKeepsSlots(s: Sub, rs: seq<CreateRequest>, answer: Answer)
    requires SlotsAgree(s)
    ensures SlotsAgree(CreateItems(s, rs, answer).0)
  {
    PreparedFacts(s, rs);
    SettleKeepsSlots(s, PrepareAll(s, rs), answer);
  }

  /** Whether creating these items needs the source to grant a group. */
  ghost predicate NeedsGroup(s: Sub, rs: seq<CreateRequest>) {
    var p := PrepareAll(s, rs);
    p.accepted != [] && ReadableItems(Register(p.sub, p.accepted).items) != {}
  }

  /** What preparing a batch does to the deadband: once set it stays, and accepting an item sets it. */
  lemma {:induction false} PreparedDeadband(s: Sub, rs: seq<CreateRequest>)
    ensures var p := PrepareAll(s, rs);
      && (s.deadband.Some? ==> p.sub.deadband == s.deadband)
      && (p.accepted != [] ==> p.sub.deadband.Some?)
  {
    if rs != [] {
      PreparedDeadband(s, rs[..|rs| - 1]);
    }
  }

  /**
   * A source that refuses the rebuild leaves the items, the client handles and the
   * DA group exactly what they were, and no result says Good. The id counter has
   * moved on, and the deadband is what it was exactly when one was set before.
   */
  lemma RefusedCreateRestores(s: Sub, rs: seq<CreateRequest>, answer: Answer)
    requires SlotsAgree(s) && answer.Refused? && NeedsGroup(s, rs)
    ensures var (s1, results) := CreateItems(s, rs, answer);
      && s1 == s.(deadband := s1.deadband, nextItemId := s1.nextItemId)
      && (s1.deadband == s.deadband <==> s.deadband.Some?)
      && s1.nextItemId > s.nextItemId
      && |results| == |rs| && forall k :: 0 <= k < |rs| ==> results[k].status != Good
  {
    PreparedFacts(s, rs);
    PreparedDeadband(s, rs);
    RegisterKeepsSlots(s, PrepareAll(s, rs));
  }

  /**
   * A fresh subscription whose first create the source refuses holds no item, yet
   * refuses every request with another deadband from then on.
   */
  lemma RefusedCreateLeavesItsDeadband(s: Sub, first: CreateRequest, answer: Answer, later: CreateRequest)
    requires FreshSub(s) && answer.Refused?
    requires Refusal(s, first) == Good && !(first.node.accessRightsKnown && !first.node.currentRead)
    requires later.mode.Some? && !later.hasIndexRange && later.valueAttribute && later.FilterStatus() == Good
    requires !first.Deadband().Equal(later.Deadband())
    ensures var s1 := CreateItems(s, [first], answer).0;
      s1.items == map[] && s1.deadband == Some(first.Deadband()) && Refusal(s1, later) == BadMonitoredItemFilterUnsupported
  {
    hide SlotsAgree, Rebuild, Refusal;
    var rs := [first];
    assert rs[..|rs| - 1] == [] && rs[|rs| - 1] == first;
    var p := PrepareAll(s, rs);
    assert PrepareAll(s, []) == Prepared(s, [], []);
    assert p == PrepareOne(Prepared(s, [], []), first);
    OneAccepted(p.sub, 1, NewItem(s, first));
    FreshSlots(s);
    RefusedCreateRestores(s, rs, answer);
    PreparedDeadband(s, rs);
    SettledDeadband(p, answer);
    LaterDeadband(CreateItems(s, rs, answer).0, later);
  }

  lemma OneAccepted(s: Sub, id: nat, i: Item)
    requires !i.notReadable
    ensures ReadableItems(Register(s, [(id, i)]).items) != {}
  {
    var accepted := [(id, i)];
    assert accepted[..|accepted| - 1] == [];
    var items := Register(s, accepted).items;
    assert id in items && items[id] == i;
    assert i.itemId in ReadableItems(items);
  }

  lemma FreshSlots(s: Sub)
    requires FreshSub(s)
    ensures SlotsAgree(s)
  {
  }

  lemma SettledDeadband(p: Prepared, answer: Answer)
    ensures Settle(p, answer).0.deadband == p.sub.deadband
  {
  }

  lemma LaterDeadband(s: Sub, later: CreateRequest)
    requires s.deadband.Some? && !s.deadband.value.Equal(later.Deadband())
    requires later.mode.Some? && !later.hasIndexRange && later.valueAttribute && later.FilterStatus() == Good
    ensures Refusal(s, later) == BadMonitoredItemFilterUnsupported
  {
  }

  lemma DeleteOneKeepsSlots(s: Sub, id: nat)
    requires SlotsAgree(s)
    ensures SlotsAgree(DeleteOne(s, id).0)
  {
  }

  lemma {:induction false} DeletesKeepSlots(s: Sub, ids: seq<nat>)
    requires SlotsAgree(s)
    ensures SlotsAgree(DeleteAll(s, ids).0)
  {
    hide SlotsAgree, DeleteOne;
    if ids != [] {
      DeletesKeepSlots(s, ids[..|ids| - 1]);
      DeleteOneKeepsSlots(DeleteAll(s, ids[..|ids| - 1]).0, ids[|ids| - 1]);
    }
  }

  lemma DeleteOneMore(items: map<nat, Item>, ids: seq<nat>)
    requires ids != []
    ensures var (init, id) := (ids[..|ids| - 1], ids[|ids| - 1]);
      items - Elements(ids) == if id in items - Elements(init) then items - Elements(init) - {id} else items - Elements(init)
  {
    assert ids == ids[..|ids| - 1] + [ids[|ids| - 1]];
  }

  /** Deleting takes exactly the named items, and touches besides them only the client handles. */
  lemma {:induction false} DeletedItems(s: Sub, ids: seq<nat>)
    ensures var (s1, rs) := DeleteAll(s, ids);
      && s1 == s.(items := s.items - Elements(ids), byHandle := s1.byHandle)
      && |rs| == |ids|
      && (Good !in rs ==> s1 == s)
  {
    hide Elements;
    if ids != [] {
      DeletedItems(s, ids[..|ids| - 1]);
      DeleteOneMore(s.items, ids);
    } else {
      NoneDeleted(s.items);
    }
  }

  lemma NoneDeleted(items: map<nat, Item>)
    ensures items - Elements([]) == items
  {
  }

  lemma StepKeepsSlots(w: World, e: Event, limits: Limits)
    requires limits.Valid() && SlotsAgree(w.sub) && Legal(w.sub, e)
    ensures SlotsAgree(Step(w, e, limits).sub)
  {
    match e
    case Create(rs, answer) => CreateKeepsSlots(w.sub, rs, answer);
    case Delete(ids, answer) => DeletedSub(w.sub, ids, answer);
    case SetPublishing(b) =>
    case Ack(n) =>
    case Touch(now) =>
    case Gather(now, order, poll) =>
      SameSub(w, now, order, poll);
      CollectKeepsSlots(w.sub, now, order, poll);
    case Emit(now) => BuildKeepsSlots(w.sub, now, limits);
  }

  lemma BuildKeepsSlots(s: Sub, now: Time, limits: Limits)
    requires limits.Valid() && SlotsAgree(s)
    ensures SlotsAgree(BuildMessage(s, now, limits).0)
  {
    BuildFrame(s, now, limits);
  }

  /** What sending works on. */
  ghost predicate SameSending(a: Sub, b: Sub) {
    && a.pending == b.pending && a.sequenceNumber == b.sequenceNumber
    && a.retransmit == b.retransmit && a.retransmitOrder == b.retransmitOrder
    && a.keepAliveTicks == b.keepAliveTicks && a.messageSent == b.messageSent && a.keepAliveCount == b.keepAliveCount
  }

  lemma DeletedSub(s: Sub, ids: seq<nat>, answer: Answer)
    requires SlotsAgree(s)
    ensures var s1 := DeleteItems(s, ids, answer).0;
      && SlotsAgree(s1) && SameSending(s, s1)
      && s1.items == s.items - Elements(ids) && s1.nextItemId == s.nextItemId
  {
    hide SlotsAgree, DeleteAll;
    DeletesKeepSlots(s, ids);
    DeletedItems(s, ids);
    var s0 := DeleteAll(s, ids).0;
    RebuildKeepsSlots(s0, answer);
    GroupIsNoSlot(s0);
    GroupIsNoSlot(Rebuild(s0, answer).0);
  }

  /** Slots and handles do not depend on the group. */
  lemma GroupIsNoSlot(s: Sub)
    ensures SlotsAgree(s.(da := None)) == SlotsAgree(s)
  {
  }

  /** Creating items touches neither the send queue, nor the retransmission queue, nor the counters. */
  lemma CreateFrame(s: Sub, rs: seq<CreateRequest>, answer: Answer)
    ensures SameSending(s, CreateItems(s, rs, answer).0)
  {
    hide Rebuild, PrepareAll, ItemMap, HandleMap, FreshItem, Raised;
    PreparedFacts(s, rs);
    var p := PrepareAll(s, rs);
    RebuildFrame(Register(p.sub, p.accepted), answer);
  }

  lemma RebuildFrame(s: Sub, answer: Answer)
    ensures Rebuild(s, answer).0 == s.(da := Rebuild(s, answer).0.da)
  {
  }

  /** The history rides along: it never changes what the subscription does. */
  lemma SameSub(w: World, now: Time, order: seq<nat>, poll: Poll)
    ensures WithCollect(w, now, order, poll).sub == Collect(w.sub, now, order, poll)
  {
    if poll.Delivered? {
      SameRoutes(WithStatusHeld(w, order), poll.updates);
    }
  }

  lemma {:induction false} SameRoutes(w: World, us: seq<Update>)
    ensures WithRoutes(w, us).sub == RouteAll(w.sub, us)
    ensures WithRoutes(w, us) == w.(sub := WithRoutes(w, us).sub, logs := WithRoutes(w, us).logs)
  {
    if us != [] {
      SameRoutes(w, us[..|us| - 1]);
    }
  }

  lemma StepIsSubStep(w: World, e: Event, limits: Limits)
    requires limits.Valid()
    ensures Step(w, e, limits).sub == SubStep(w.sub, e, limits)
  {
    if e.Gather? {
      SameSub(w, e.now, e.order, e.poll);
    }
  }
}
