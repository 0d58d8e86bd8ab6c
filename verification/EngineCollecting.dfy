/** What one collection reports: the statuses the engine makes up itself, the values that are due, and in which order. */
module EngineCollecting {
  import opened Prelude
  import opened Ints
  import opened Engine
  import opened EngineRuns
  import opened EnginePacing
  import opened EngineFeeding

  // ---------------------------------------------------------------- the source is gone

  /** One notification for each of `ids`, in that order. */
  ghost predicate OneEach(items: map<nat, Item>, ids: seq<nat>, notes: seq<Notification>, now: Time) {
    && |notes| == |ids|
    && forall k :: 0 <= k < |ids| ==>
         && ids[k] in items && notes[k].clientHandle == items[ids[k]].clientHandle
         && notes[k].value == NotConnected(if items[ids[k]].serverTimestamps then Some(now) else None)
  }

  /** `ids` are the items that report, each once. */
  ghost predicate AllReporting(items: map<nat, Item>, ids: seq<nat>) {
    NoDup(ids) && forall id :: id in ids <==> id in items && items[id].mode.Reporting?
  }

  lemma {:induction false} NotesGivenFor(items: map<nat, Item>, order: seq<nat>, now: Time) returns (ids: seq<nat>)
    requires NoDup(order)
    ensures NoDup(ids) && OneEach(items, ids, InvalidationNotes(items, order, now), now)
    ensures forall id :: id in ids <==> id in order && id in items && items[id].mode.Reporting?
  {
    ids := [];
    if order != [] {
      var init, id := order[..|order| - 1], order[|order| - 1];
      ids := NotesGivenFor(items, init, now);
      assert order == init + [id];
      if id in items && items[id].mode.Reporting? {
        NoDupConcat(ids, [id]);
        ids := ids + [id];
      }
    }
  }

  /**
   * When the source is gone, each item that reports is told once that it is not
   * connected, with the time if its client asked for that; the others are told
   * nothing. Every slot is emptied, the group is given up, and nothing else
   * changes.
   */
  lemma InvalidationTellsEach(s: Sub, now: Time, order: seq<nat>, range: seq<nat>) returns (ids: seq<nat>, notes: seq<Notification>)
    requires s.da.Some? && Enumerates(range, s.items.Keys)
    ensures AllReporting(s.items, ids) && OneEach(s.items, ids, notes, now)
    ensures var s1 := Collect(s, now, order, Invalidated(range));
      && s1 == s.(items := s1.items, heldOrder := [], pending := s.pending + notes, da := None)
      && s1.items.Keys == s.items.Keys && forall id :: id in s.items ==> s1.items[id] == s.items[id].(held := None)
  {
    var s0 := HoldUnreadable(s, order);
    notes := InvalidationNotes(s0.items, range, now);
    ids := NotesGivenFor(s0.items, range, now);
    forall id | id in s.items ensures id in range {
      assert id in Elements(range);
    }
  }

  // ---------------------------------------------------------------- what is due is reported

  /** `part` is `order` with some left out. */
  ghost predicate InOrder(part: seq<nat>, order: seq<nat>) {
    part == [] || (order != [] &&
      if part[|part| - 1] == order[|order| - 1] then InOrder(part[..|part| - 1], order[..|order| - 1]) else InOrder(part, order[..|order| - 1]))
  }

  lemma {:induction false} FiltersInOrder(items: map<nat, Item>, order: seq<nat>, now: Time)
    requires NoDup(order)
    ensures InOrder(DueNow(items, order, now), order) && InOrder(StillHeld(items, order, now), order)
  {
    hide Due;
    if order != [] {
      var init := order[..|order| - 1];
      FiltersInOrder(items, init, now);
      DueNowHolds(items, init, now);
      StillHeldHolds(items, init, now);
      InOrderNext(DueNow(items, init, now), init, order);
      InOrderNext(StillHeld(items, init, now), init, order);
    }
  }

  lemma InOrderNext(part: seq<nat>, init: seq<nat>, order: seq<nat>)
    requires order != [] && init == order[..|order| - 1] && NoDup(order)
    requires InOrder(part, init) && forall id :: id in part ==> id in init
    ensures InOrder(part, order) && InOrder(part + [order[|order| - 1]], order)
  {
    var more := part + [order[|order| - 1]];
    assert more[..|more| - 1] == part;
    if part != [] {
      assert part[|part| - 1] in init;
    }
  }

  /** Each of `ids` has its held value reported, in that order. */
  ghost predicate ValuesReported(items: map<nat, Item>, ids: seq<nat>, notes: seq<Notification>) {
    && |notes| == |ids|
    && forall k :: 0 <= k < |ids| ==>
         ids[k] in items && items[ids[k]].held.Some? && notes[k].clientHandle == items[ids[k]].clientHandle && notes[k].value == items[ids[k]].held.value
  }

  /** The items after a pass that reported `ids`. */
  ghost predicate ReportedAt(items: map<nat, Item>, after: map<nat, Item>, ids: seq<nat>, now: Time) {
    && after.Keys == items.Keys
    && forall id :: id in items ==> after[id] == if id in ids then items[id].(held := None, lastReported := Some(now)) else items[id]
  }

  /** What still waits has reported before, and its interval is not over as far as the comparison can keep it. */
  ghost predicate NothingDueWaits(items: map<nat, Item>, now: Time) {
    forall id :: id in items && items[id].held.Some? ==>
      items[id].lastReported.Some? && (Keepable(items[id].samplingMs) ==> !Waited(items[id].lastReported.value, now, items[id].samplingMs))
  }

  lemma NotDueHasNotWaited(i: Item, now: Time)
    requires !Due(i, now)
    ensures i.lastReported.Some? && (Keepable(i.samplingMs) ==> !Waited(i.lastReported.value, now, i.samplingMs))
  {
    if Keepable(i.samplingMs) {
      KeptPace(i.samplingMs);
    }
  }

  /**
   * Of a subscription that publishes, a pass reports held values, each under the
   * handle of its item, in the order the items began holding one; it holds back
   * nothing that has never reported or whose interval is over; and what it holds
   * back keeps its value and its place.
   */
  lemma FlushReportsWhatIsDue(s: Sub, now: Time) returns (ids: seq<nat>, notes: seq<Notification>)
    requires SlotsAgree(s) && s.enabled
    ensures var s1 := FlushHeld(s, now);
      && s1 == s.(items := s1.items, heldOrder := s1.heldOrder, pending := s.pending + notes)
      && NoDup(ids) && InOrder(ids, s.heldOrder) && ValuesReported(s.items, ids, notes)
      && ReportedAt(s.items, s1.items, ids, now) && NothingDueWaits(s1.items, now)
      && InOrder(s1.heldOrder, s.heldOrder) && forall id :: id in s1.heldOrder <==> id in s1.items && s1.items[id].held.Some?
  {
    hide Due, InOrder;
    ids := DueNow(s.items, s.heldOrder, now);
    notes := Notes(s.items, ids);
    DueNowHolds(s.items, s.heldOrder, now);
    StillHeldHolds(s.items, s.heldOrder, now);
    FiltersKeepOrder(s.items, s.heldOrder, now);
    FiltersInOrder(s.items, s.heldOrder, now);
    var s1 := FlushHeld(s, now);
    forall k | 0 <= k < |ids| ensures ids[k] in ids && Holds(s.items, ids[k]) && notes[k] == NoteOf(s.items, ids[k]) {
    }
    forall id | id in s1.items && s1.items[id].held.Some?
      ensures s1.items[id].lastReported.Some? && (Keepable(s1.items[id].samplingMs) ==> !Waited(s1.items[id].lastReported.value, now, s1.items[id].samplingMs))
    {
      NotDueHasNotWaited(s1.items[id], now);
    }
  }

  /** With publishing disabled a pass reports nothing and everything stays held. */
  lemma DisabledReportsNothing(s: Sub, now: Time)
    requires !s.enabled
    ensures FlushHeld(s, now) == s
  {
  }

  /** Its client has been told about an item that cannot be read, or is about to be. */
  ghost predicate UnreadableTold(items: map<nat, Item>, enabled: bool) {
    forall id :: id in items && items[id].notReadable && items[id].mode.Reporting? ==>
      items[id].lastReported.Some? || (!enabled && items[id].held.Some?)
  }

  /**
   * After a collection, unless it found the group invalidated, every item that
   * reports and cannot be read has been reported, or is held to be where publishing
   * is disabled; and, where it is enabled, nothing that is due is held back.
   */
  lemma CollectLeavesNothingDue(s: Sub, now: Time, order: seq<nat>, poll: Poll)
    requires SlotsAgree(s) && Enumerates(order, s.items.Keys) && (s.da.None? || poll.Delivered?)
    ensures var s1 := Collect(s, now, order, poll); UnreadableTold(s1.items, s.enabled) && (s.enabled ==> NothingDueWaits(s1.items, now))
  {
    hide Due, NothingDueWaits, SlotsAgree;
    var s0 := HoldUnreadable(s, order);
    HoldUnreadableKeepsSlots(s, order);
    UnreadableHeld(s, order);
    var us := if s.da.Some? then poll.updates else [];
    RoutesKeepSlots(s0, us);
    RoutesKeepOwed(s0, us);
    var s2 := RouteAll(s0, us);
    if s.enabled {
      var ids, notes := FlushReportsWhatIsDue(s2, now);
      FlushedAreTold(s2, now);
    }
  }

  /** Every item that reports and cannot be read has been reported or is held to be. */
  ghost predicate Owed(items: map<nat, Item>) {
    forall id :: id in items && items[id].notReadable && items[id].mode.Reporting? ==> items[id].lastReported.Some? || items[id].held.Some?
  }

  lemma UnreadableHeld(s: Sub, order: seq<nat>)
    requires Enumerates(order, s.items.Keys)
    ensures Owed(HoldUnreadable(s, order).items)
  {
    forall id | id in s.items ensures id in order {
      assert id in Elements(order);
    }
  }

  lemma {:induction false} RoutesKeepOwed(s: Sub, us: seq<Update>)
    requires Owed(s.items)
    ensures Owed(RouteAll(s, us).items) && RouteAll(s, us).enabled == s.enabled && RouteAll(s, us).da == s.da
  {
    if us != [] {
      RoutesKeepOwed(s, us[..|us| - 1]);
    }
  }

  lemma FlushedAreTold(s: Sub, now: Time)
    requires Owed(s.items) && NothingDueWaits(FlushHeld(s, now).items, now)
    ensures UnreadableTold(FlushHeld(s, now).items, true)
  {
    hide DueNow, StillHeld, Notes;
  }

  // ---------------------------------------------------------------- the newest value

  /** The last of the values for an ItemID, if any. */
  ghost predicate LastFor(us: seq<Update>, x: string, k: nat) {
    k < |us| && us[k].itemId == x && forall j :: k < j < |us| ==> us[j].itemId != x
  }

  /** The item alone on its ItemID, and reporting. */
  ghost predicate Fed(items: map<nat, Item>, id: nat) {
    && id in items && items[id].mode.Reporting?
    && forall other :: other in items && items[other].itemId == items[id].itemId ==> other == id
  }

  lemma {:induction false} Routing(s: Sub, us: seq<Update>, id: nat)
    requires id in s.items && Fed(s.items, id) && forall u :: u in us ==> Enumerates(u.order, s.items.Keys)
    ensures var s1 := RouteAll(s, us);
      && id in s1.items && Fed(s1.items, id) && s1.items.Keys == s.items.Keys && s1.items[id].itemId == s.items[id].itemId
      && (forall k: nat :: LastFor(us, s.items[id].itemId, k) ==>
            && s1.items[id].held.Some? && s1.items[id].held.value.Sample? && s1.items[id].held.value.payload == us[k].payload
            && s1.items[id].semanticGeneration == us[k].generation)
      && ((forall u :: u in us ==> u.itemId != s.items[id].itemId) ==> s1.items[id] == s.items[id])
  {
    hide FindItem, Enumerates, Route, Fed;
    if us != [] {
      var n := |us| - 1;
      var (before, u, x) := (RouteAll(s, us[..n]), us[n], s.items[id].itemId);
      assert us == us[..n] + [u];
      Routing(s, us[..n], id);
      RoutedOne(before, id, u);
      if u.itemId != x {
        forall k: nat | LastFor(us, x, k) ensures LastFor(us[..n], x, k) {
        }
      }
    }
  }

  /** One value: it reaches the item, or leaves it as it was. */
  lemma RoutedOne(s: Sub, id: nat, u: Update)
    requires id in s.items && Fed(s.items, id) && Enumerates(u.order, s.items.Keys)
    ensures var s1 := Route(s, u);
      && s1.items.Keys == s.items.Keys && id in s1.items && Fed(s1.items, id) && s1.items[id].itemId == s.items[id].itemId
      && if u.itemId == s.items[id].itemId
         then s1.items[id].held == Some(Sample(u.payload, u.generation != s.items[id].semanticGeneration)) && s1.items[id].semanticGeneration == u.generation
         else s1.items[id] == s.items[id]
  {
    hide FindItem, Enumerates;
    if u.itemId == s.items[id].itemId {
      FedAlone(s, id, u);
    }
  }

  lemma FedAlone(s: Sub, id: nat, u: Update)
    requires Fed(s.items, id) && u.itemId == s.items[id].itemId && Enumerates(u.order, s.items.Keys)
    ensures Target(s, u) == Some(id)
  {
    assert id in Elements(u.order);
    FindOnly(s.items, u.order, id, u.itemId);
  }

  /** After the drain, an item that reports and is alone on its ItemID holds the last value delivered for it; with none delivered it is as it was. */
  lemma NewestValueIsHeld(s: Sub, us: seq<Update>, id: nat, k: nat)
    requires Fed(s.items, id) && forall u :: u in us ==> Enumerates(u.order, s.items.Keys)
    ensures id in RouteAll(s, us).items
    ensures LastFor(us, s.items[id].itemId, k) ==>
      RouteAll(s, us).items[id].held.Some? && RouteAll(s, us).items[id].held.value.Sample? && RouteAll(s, us).items[id].held.value.payload == us[k].payload
    ensures (forall u :: u in us ==> u.itemId != s.items[id].itemId) ==> RouteAll(s, us).items[id] == s.items[id]
  {
    hide RouteAll, LastFor;
    Routing(s, us, id);
  }

  /** What is held keeps its place in the held order: whatever comes to be held later, by status or by value, comes after it. */
  lemma {:induction false} PlacesAreKept(s: Sub, order: seq<nat>, us: seq<Update>, n: nat)
    requires n <= |us|
    ensures var s0 := HoldUnreadable(s, order);
      && s.heldOrder <= s0.heldOrder <= RouteAll(s0, us[..n]).heldOrder && RouteAll(s0, us[..n]).heldOrder <= RouteAll(s0, us).heldOrder
    decreases |us| + n
  {
    hide Target, HoldUnreadable;
    PlaceBehind(s, order);
    if n < |us| {
      PlacesAreKept(s, order, us[..|us| - 1], n);
      assert us[..|us| - 1][..n] == us[..n];
    } else if n > 0 {
      PlacesAreKept(s, order, us[..n - 1], n - 1);
      assert us[..n - 1][..n - 1] == us[..n - 1];
      assert us[..n] == us;
    }
  }

  lemma PlaceBehind(s: Sub, order: seq<nat>)
    ensures s.heldOrder <= HoldUnreadable(s, order).heldOrder
  {
  }

  // ---------------------------------------------------------------- a status is told once

  /** An item holds that it cannot be read only while that is so, it reports, and it has said nothing yet; and no report but the first said it. */
  ghost predicate StatusOnce(items: map<nat, Item>, logs: map<nat, ItemLog>) {
    && (forall id :: id in items && items[id].held == Some(NotReadable) ==> StatusDue(items[id]))
    && (forall id :: id in logs ==> ToldFirst(logs[id]))
  }

  predicate StatusDue(i: Item) {
    i.notReadable && i.mode.Reporting? && i.lastReported.None?
  }

  /** Only the first report can have been that the item cannot be read. */
  ghost predicate ToldFirst(l: ItemLog) {
    forall k :: 0 < k < |l.reports| ==> l.reports[k].index < |l.routed| && l.routed[l.reports[k].index] != NotReadable
  }

  lemma StatusHeldKeepsStatus(w: World, order: seq<nat>)
    requires StatusOnce(w.sub.items, w.logs)
    ensures StatusOnce(WithStatusHeld(w, order).sub.items, WithStatusHeld(w, order).logs)
  {
    hide Owing;
  }

  lemma RouteKeepsStatus(w: World, u: Update)
    requires StatusOnce(w.sub.items, w.logs)
    ensures StatusOnce(WithRoute(w, u).sub.items, WithRoute(w, u).logs)
  {
    hide Target, ToldFirst, StatusDue;
    var target := Target(w.sub, u);
    if target.Some? && target.value in w.logs {
      RoutedFirst(w.logs[target.value], Mapped(w.sub.items[target.value], u), u.generation);
    }
  }

  lemma RoutedFirst(l: ItemLog, v: DataValue, g: nat)
    requires ToldFirst(l)
    ensures ToldFirst(Routed(l, v, g))
  {
  }

  lemma {:induction false} RoutesKeepStatus(w: World, us: seq<Update>)
    requires StatusOnce(w.sub.items, w.logs)
    ensures StatusOnce(WithRoutes(w, us).sub.items, WithRoutes(w, us).logs)
  {
    hide StatusOnce, WithRoute;
    if us != [] {
      RoutesKeepStatus(w, us[..|us| - 1]);
      RouteKeepsStatus(WithRoutes(w, us[..|us| - 1]), us[|us| - 1]);
    }
  }

  lemma ReportedStatus(i: Item, l: ItemLog, now: Time, position: nat)
    requires SlotFresh(i, l) && i.held.Some? && ToldFirst(l) && (i.held == Some(NotReadable) ==> StatusDue(i))
    ensures ToldFirst(Logged(l, now, position))
  {
  }

  lemma FlushKeepsStatus(w: World, now: Time)
    requires Paced(w) && StatusOnce(w.sub.items, w.logs)
    ensures StatusOnce(WithFlush(w, now).sub.items, WithFlush(w, now).logs)
  {
    hide DueNow, StillHeld, Notes, ToldFirst, StatusDue, LogsOk, SlotFresh, Logged, Due;
    var ids := Flushable(w.sub, now);
    DueNowHolds(w.sub.items, w.sub.heldOrder, now);
    forall id | id in w.logs ensures ToldFirst(WithFlush(w, now).logs[id]) {
      if id in ids {
        ReportedStatus(w.sub.items[id], w.logs[id], now, |w.enqueued| + IndexOf(ids, id));
      }
    }
  }

  lemma InvalidationKeepsStatus(w: World, now: Time, order: seq<nat>)
    requires StatusOnce(w.sub.items, w.logs)
    ensures StatusOnce(WithInvalidation(w, now, order).sub.items, WithInvalidation(w, now, order).logs)
  {
    hide InvalidationNotes;
  }

  lemma CollectKeepsStatus(w: World, now: Time, order: seq<nat>, poll: Poll)
    requires Paced(w) && StatusOnce(w.sub.items, w.logs)
    ensures StatusOnce(WithCollect(w, now, order, poll).sub.items, WithCollect(w, now, order, poll).logs)
  {
    hide Paced, StatusOnce, WithStatusHeld, WithFlush, WithInvalidation, WithRoutes;
    StatusHeldKeepsStatus(w, order);
    StatusHeldKeepsPacing(w, order);
    var w1 := WithStatusHeld(w, order);
    if w1.sub.da.None? {
      FlushKeepsStatus(w1, now);
    } else {
      match poll
      case Invalidated(o) => InvalidationKeepsStatus(w1, now, o);
      case Delivered(us) =>
        RoutesKeepStatus(w1, us);
        RoutesKeepPacing(w1, us);
        FlushKeepsStatus(WithRoutes(w1, us), now);
    }
  }

  lemma CreateKeepsStatus(s: Sub, logs: map<nat, ItemLog>, items: map<nat, Item>)
    requires StatusOnce(s.items, logs) && forall id :: id in items ==> OldOrNew(s, items, id)
    ensures StatusOnce(items, NewLogs(logs, items))
  {
    forall id | id in items ensures OldOrNew(s, items, id) {
    }
  }

  lemma StepKeepsStatus(w: World, e: Event, limits: Limits)
    requires limits.Valid() && Paced(w) && SlotsAgree(w.sub) && StatusOnce(w.sub.items, w.logs)
    ensures StatusOnce(Step(w, e, limits).sub.items, Step(w, e, limits).logs)
  {
    hide SlotsAgree, LogsOk, SlotsFresh, WithCollect, CreateItems, DeleteItems, BuildMessage, NewLogs, ToldFirst;
    match e
    case Create(rs, answer) =>
      CreatedItems(w.sub, rs, answer);
      CreateKeepsStatus(w.sub, w.logs, CreateItems(w.sub, rs, answer).0.items);
    case Delete(ids, answer) => DeletedSub(w.sub, ids, answer);
    case SetPublishing(b) =>
    case Ack(n) =>
    case Touch(now) =>
    case Gather(now, order, poll) =>
      SameSub(w, now, order, poll);
      CollectKeepsStatus(w, now, order, poll);
    case Emit(now) => BuildFrame(w.sub, now, limits);
  }

  lemma {:induction false} RunsKeepStatus(s: Sub, es: seq<Event>, limits: Limits)
    requires limits.Valid() && FreshSub(s) && LegalRun(Begin(s), es, limits)
    ensures StatusOnce(Run(Begin(s), es, limits).sub.items, Run(Begin(s), es, limits).logs)
  {
    hide Step, Legal, StatusOnce, SlotsAgree, Paced;
    if es == [] {
      NothingTold(s);
    } else {
      RunsKeepStatus(s, es[..|es| - 1], limits);
      RunsKeepSlotsAndPacing(s, es[..|es| - 1], limits);
      StepKeepsStatus(Run(Begin(s), es[..|es| - 1], limits), es[|es| - 1], limits);
    }
  }

  lemma NothingTold(s: Sub)
    requires FreshSub(s)
    ensures StatusOnce(Begin(s).sub.items, Begin(s).logs)
  {
  }

  /** Report k of an item told its client that it cannot be read. */
  ghost predicate TellsUnreadable(l: ItemLog, enqueued: seq<Notification>, k: nat) {
    k < |l.reports| && l.reports[k].position < |enqueued| && enqueued[l.reports[k].position].value == NotReadable
  }

  /**
   * In every run an item's client is told at most once that it cannot be read, by
   * its first report; and an item is held to be so only if it cannot be, it
   * reports, and it has reported nothing.
   */
  lemma UnreadableToldOnce(s: Sub, es: seq<Event>, limits: Limits, id: nat, k: nat)
    requires limits.Valid() && FreshSub(s) && LegalRun(Begin(s), es, limits)
    ensures var w := Run(Begin(s), es, limits);
      && (id in w.logs && TellsUnreadable(w.logs[id], w.enqueued, k) ==> k == 0)
      && (id in w.sub.items && w.sub.items[id].held == Some(NotReadable) ==>
            w.sub.items[id].notReadable && w.sub.items[id].mode.Reporting? && w.sub.items[id].lastReported.None?)
  {
    hide Run, LegalRun, FreshSub, SlotsAgree;
    RunsKeepSlotsAndPacing(s, es, limits);
    RunsKeepStatus(s, es, limits);
    var w := Run(Begin(s), es, limits);
    if id in w.logs && TellsUnreadable(w.logs[id], w.enqueued, k) {
      assert LogOk(w.logs[id], w.enqueued) && EntryOk(w.logs[id], w.logs[id].reports[k], w.enqueued);
    }
  }
}
