/** What an item's slot promises over a whole run: every report is a value that was held, in order, paced, and never lost. */
module EnginePacing {
  import opened Prelude
  import opened Ints
  import opened Engine
  import opened EngineRuns

  function LogPaceNs(l: ItemLog): i64 {
    Milliseconds(l.samplingMs)
  }

  /** A report is the value it points at, and it stands in the queue's history under the item's handle. */
  ghost predicate EntryOk(l: ItemLog, r: Report, enqueued: seq<Notification>) {
    && r.index < |l.routed| && r.position < |enqueued|
    && enqueued[r.position] == Notification(l.clientHandle, l.routed[r.index])
  }

  /** A later report is of a later value, stands later in the queue, and came at least one pace later, unless the pace has wrapped. */
  ghost predicate Follows(l: ItemLog, a: Report, b: Report) {
    a.index < b.index && a.position < b.position && (LogPaceNs(l) >= 0 ==> a.time + LogPaceNs(l) <= b.time)
  }

  ghost predicate LogOk(l: ItemLog, enqueued: seq<Notification>) {
    && l.samplingMs.NonNegative()
    && l.superseded <= |l.routed|
    && (forall j :: 0 <= j < |l.reports| ==> EntryOk(l, l.reports[j], enqueued))
    && (forall j, k :: 0 <= j < k < |l.reports| ==> Follows(l, l.reports[j], l.reports[k]))
    && (forall k :: 0 < k < |l.reports| ==> Elapsed(l.reports[k - 1].time, l.reports[k].time) >= LogPaceNs(l))
  }

  ghost predicate LastIndexIs(l: ItemLog, n: int) {
    l.reports != [] && l.reports[|l.reports| - 1].index == n
  }

  /** The newest value held for a live item is in its slot, or already queued, or overtaken by an invalidation. */
  ghost predicate SlotFresh(i: Item, l: ItemLog) {
    && (l.reports == [] <==> i.lastReported.None?)
    && (l.reports != [] ==> i.lastReported == Some(l.reports[|l.reports| - 1].time))
    && (i.held.Some? ==>
          && l.routed != [] && i.held.value == l.routed[|l.routed| - 1]
          && l.superseded < |l.routed|
          && (l.reports != [] ==> l.reports[|l.reports| - 1].index < |l.routed| - 1))
    && (i.held.None? ==> l.superseded == |l.routed| || LastIndexIs(l, |l.routed| - 1))
  }

  ghost predicate Describes(l: ItemLog, i: Item) {
    l.clientHandle == i.clientHandle && l.samplingMs == i.samplingMs
  }

  ghost predicate LogsOk(logs: map<nat, ItemLog>, enqueued: seq<Notification>) {
    forall id :: id in logs ==> LogOk(logs[id], enqueued)
  }

  ghost predicate SlotsFresh(items: map<nat, Item>, logs: map<nat, ItemLog>) {
    forall id :: id in items ==> id in logs && Describes(logs[id], items[id]) && SlotFresh(items[id], logs[id])
  }

  ghost predicate Paced(w: World) {
    && LogsOk(w.logs, w.enqueued)
    && SlotsFresh(w.sub.items, w.logs)
    && forall id :: id in w.logs ==> id <= w.sub.nextItemId
  }

  // ---------------------------------------------------------------- one log

  lemma RoutingKeepsLog(i: Item, l: ItemLog, v: DataValue, g: nat, enqueued: seq<Notification>)
    requires LogOk(l, enqueued) && SlotFresh(i, l)
    ensures LogOk(Routed(l, v, g), enqueued) && SlotFresh(i.(held := Some(v), semanticGeneration := g), Routed(l, v, g))
  {
  }

  lemma GrowingKeepsLog(l: ItemLog, enqueued: seq<Notification>, more: seq<Notification>)
    requires LogOk(l, enqueued)
    ensures LogOk(l, enqueued + more)
  {
  }

  lemma PaceHasPassed(last: Time, now: Time, pace: i64)
    ensures Elapsed(last, now) >= pace >= 0 ==> last + pace <= now
  {
  }

  /** The heart of pacing: reporting a due value extends the log by one entry that follows all the others. */
  lemma ReportingKeepsLog(i: Item, l: ItemLog, now: Time, position: nat, enqueued: seq<Notification>, more: seq<Notification>)
    requires LogOk(l, enqueued) && SlotFresh(i, l) && Describes(l, i)
    requires i.held.Some? && Due(i, now)
    requires |enqueued| <= position < |enqueued + more|
    requires (enqueued + more)[position] == Notification(i.clientHandle, i.held.value)
    ensures LogOk(Logged(l, now, position), enqueued + more)
    ensures SlotFresh(Reported(i, now), Logged(l, now, position))
  {
    hide Elapsed, Milliseconds;
    var (l1, queue) := (Logged(l, now, position), enqueued + more);
    GrowingKeepsLog(l, enqueued, more);
    forall j | 0 <= j < |l.reports| ensures Follows(l1, l.reports[j], Report(now, |l.routed| - 1, position)) {
      var last := l.reports[|l.reports| - 1];
      PaceHasPassed(last.time, now, PaceNs(i));
      assert EntryOk(l, l.reports[j], enqueued);
      if j < |l.reports| - 1 {
        assert Follows(l, l.reports[j], last);
      }
    }
    assert EntryOk(l1, Report(now, |l.routed| - 1, position), queue);
  }

  // ---------------------------------------------------------------- one operation

  lemma StatusHeldKeepsPacing(w: World, order: seq<nat>)
    requires Paced(w)
    ensures Paced(WithStatusHeld(w, order))
  {
    var w1 := WithStatusHeld(w, order);
    forall id | id in w.logs
      ensures LogOk(w1.logs[id], w.enqueued)
      ensures id in w.sub.items ==> Describes(w1.logs[id], w1.sub.items[id]) && SlotFresh(w1.sub.items[id], w1.logs[id])
    {
      if id in w.sub.items {
        RoutingKeepsLog(w.sub.items[id], w.logs[id], NotReadable, w.sub.items[id].semanticGeneration, w.enqueued);
      }
    }
  }

  lemma RouteKeepsPacing(w: World, u: Update)
    requires Paced(w)
    ensures Paced(WithRoute(w, u))
  {
    var target := Target(w.sub, u);
    if target.Some? {
      var i := w.sub.items[target.value];
      RoutingKeepsLog(i, w.logs[target.value], Mapped(i, u), u.generation, w.enqueued);
    }
  }

  lemma {:induction false} RoutesKeepPacing(w: World, us: seq<Update>)
    requires Paced(w)
    ensures Paced(WithRoutes(w, us))
  {
    if us != [] {
      RoutesKeepPacing(w, us[..|us| - 1]);
      RouteKeepsPacing(WithRoutes(w, us[..|us| - 1]), us[|us| - 1]);
    }
  }

  lemma FlushKeepsPacing(w: World, now: Time)
    requires Paced(w)
    ensures Paced(WithFlush(w, now))
  {
    hide LogOk, SlotFresh;
    var w1 := WithFlush(w, now);
    var ids := Flushable(w.sub, now);
    var notes := Notes(w.sub.items, ids);
    DueNowHolds(w.sub.items, w.sub.heldOrder, now);
    forall id | id in w.logs
      ensures LogOk(w1.logs[id], w1.enqueued)
      ensures id in w.sub.items ==> Describes(w1.logs[id], w1.sub.items[id]) && SlotFresh(w1.sub.items[id], w1.logs[id])
    {
      if id in ids {
        var k := IndexOf(ids, id);
        assert w1.enqueued[|w.enqueued| + k] == notes[k];
        ReportingKeepsLog(w.sub.items[id], w.logs[id], now, |w.enqueued| + k, w.enqueued, notes);
      } else {
        GrowingKeepsLog(w.logs[id], w.enqueued, notes);
      }
    }
  }

  lemma SupersedingKeepsLog(i: Item, l: ItemLog, enqueued: seq<Notification>)
    requires LogOk(l, enqueued) && SlotFresh(i, l)
    ensures LogOk(Superseded(l), enqueued) && SlotFresh(i.(held := None), Superseded(l))
  {
  }

  lemma InvalidationKeepsPacing(w: World, now: Time, order: seq<nat>)
    requires Paced(w)
    ensures Paced(WithInvalidation(w, now, order))
  {
    hide LogOk, SlotFresh, InvalidationNotes;
    var w1 := WithInvalidation(w, now, order);
    forall id | id in w.logs
      ensures LogOk(w1.logs[id], w1.enqueued)
      ensures id in w.sub.items ==> Describes(w1.logs[id], w1.sub.items[id]) && SlotFresh(w1.sub.items[id], w1.logs[id])
    {
      GrowingKeepsLog(w.logs[id], w.enqueued, InvalidationNotes(w.sub.items, order, now));
      if id in w.sub.items {
        SupersedingKeepsLog(w.sub.items[id], w.logs[id], w1.enqueued);
      }
    }
  }

  lemma CollectKeepsPacing(w: World, now: Time, order: seq<nat>, poll: Poll)
    requires Paced(w)
    ensures Paced(WithCollect(w, now, order, poll))
  {
    StatusHeldKeepsPacing(w, order);
    var w1 := WithStatusHeld(w, order);
    if w1.sub.da.None? {
      FlushKeepsPacing(w1, now);
    } else {
      match poll
      case Invalidated(o) => InvalidationKeepsPacing(w1, now, o);
      case Delivered(us) =>
        RoutesKeepPacing(w1, us);
        FlushKeepsPacing(WithRoutes(w1, us), now);
    }
  }

  // ---------------------------------------------------------------- items come and go

  /** After a create, an item is an old one unchanged or a new one that has reported nothing. */
  ghost predicate OldOrNew(s: Sub, items: map<nat, Item>, id: nat)
    requires id in items
  {
    if id in s.items then items[id] == s.items[id]
    else s.nextItemId < id && items[id].held.None? && items[id].lastReported.None? && items[id].samplingMs.NonNegative()
  }

  lemma RaisedItems(s: Sub, added: map<nat, Item>, floor: Double)
    requires forall id :: id in s.items ==> id <= s.nextItemId
    requires forall id :: id in added ==>
      s.nextItemId < id && added[id].held.None? && added[id].lastReported.None? && added[id].samplingMs.NonNegative()
    ensures var items := Raised(s.items + added, added.Keys, floor);
      s.items.Keys <= items.Keys && forall id :: id in items ==> OldOrNew(s, items, id)
  {
  }

  lemma SettledItems(s: Sub, p: Prepared, answer: Answer)
    requires SlotsAgree(s) && FreshIds(s, p)
    ensures var s1 := Settle(p, answer).0;
      s1.nextItemId == p.sub.nextItemId && s.items.Keys <= s1.items.Keys && forall id :: id in s1.items ==> OldOrNew(s, s1.items, id)
  {
    hide Rebuild, ItemMap, HandleMap, HandlesLead, NoDup;
    var s0 := Register(p.sub, p.accepted);
    RegisterKeepsSlots(s, p);
    RebuildKeepsSlots(s0, answer);
    var (s1, ok) := Rebuild(s0, answer);
    if ok {
      AcceptedMaps(s.nextItemId, p.accepted);
      var added := ItemMap(p.accepted);
      forall id | id in added ensures FreshItem(s, added[id]) {
        assert FreshItem(s, p.accepted[id - s.nextItemId - 1].1);
      }
      RaisedItems(s, added, RevisedInterval(s1, answer));
    }
  }

  lemma CreatedItems(s: Sub, rs: seq<CreateRequest>, answer: Answer)
    requires SlotsAgree(s)
    ensures var s1 := CreateItems(s, rs, answer).0;
      s.nextItemId <= s1.nextItemId && s.items.Keys <= s1.items.Keys && forall id :: id in s1.items ==> OldOrNew(s, s1.items, id)
  {
    PreparedFacts(s, rs);
    SettledItems(s, PrepareAll(s, rs), answer);
  }

  lemma CreateKeepsPacing(w: World, rs: seq<CreateRequest>, answer: Answer, limits: Limits)
    requires limits.Valid() && Paced(w) && SlotsAgree(w.sub)
    ensures Paced(Step(w, Create(rs, answer), limits))
  {
    CreatedItems(w.sub, rs, answer);
    CreateKeepsSlots(w.sub, rs, answer);
    var s1 := CreateItems(w.sub, rs, answer).0;
    var logs := NewLogs(w.logs, s1.items);
    forall id | id in s1.items ensures Describes(logs[id], s1.items[id]) && SlotFresh(s1.items[id], logs[id]) {
      assert OldOrNew(w.sub, s1.items, id);
    }
    forall id | id in logs ensures LogOk(logs[id], w.enqueued) && id <= s1.nextItemId {
      if id !in w.logs {
        assert OldOrNew(w.sub, s1.items, id);
      }
    }
  }

  lemma DeleteKeepsPacing(w: World, ids: seq<nat>, answer: Answer)
    requires Paced(w) && SlotsAgree(w.sub)
    ensures Paced(w.(sub := DeleteItems(w.sub, ids, answer).0))
  {
    hide SlotsAgree, DeleteItems, LogOk, SlotFresh;
    DeletedSub(w.sub, ids, answer);
  }

  lemma StepKeepsPacing(w: World, e: Event, limits: Limits)
    requires limits.Valid() && Paced(w) && SlotsAgree(w.sub)
    ensures Paced(Step(w, e, limits))
  {
    match e
    case Create(rs, answer) => CreateKeepsPacing(w, rs, answer, limits);
    case Delete(ids, answer) => DeleteKeepsPacing(w, ids, answer);
    case SetPublishing(b) =>
    case Ack(n) =>
    case Touch(now) =>
    case Gather(now, order, poll) => CollectKeepsPacing(w, now, order, poll);
    case Emit(now) => BuildFrame(w.sub, now, limits);
  }

  // ---------------------------------------------------------------- every run

  lemma {:induction false} RunsKeepSlotsAndPacing(s: Sub, es: seq<Event>, limits: Limits)
    requires limits.Valid() && FreshSub(s) && LegalRun(Begin(s), es, limits)
    ensures SlotsAgree(Run(Begin(s), es, limits).sub) && Paced(Run(Begin(s), es, limits))
  {
    if es != [] {
      RunsKeepSlotsAndPacing(s, es[..|es| - 1], limits);
      var w := Run(Begin(s), es[..|es| - 1], limits);
      StepKeepsSlots(w, es[|es| - 1], limits);
      StepKeepsPacing(w, es[|es| - 1], limits);
    }
  }

  /** What the log of one item promises, report by report. */
  ghost predicate LogPromises(l: ItemLog, enqueued: seq<Notification>) {
    && (forall j :: 0 <= j < |l.reports| ==>
          && l.reports[j].index < |l.routed| && l.reports[j].position < |enqueued|
          && enqueued[l.reports[j].position] == Notification(l.clientHandle, l.routed[l.reports[j].index]))
    && (forall j, k :: 0 <= j < k < |l.reports| ==>
          && l.reports[j].index < l.reports[k].index && l.reports[j].position < l.reports[k].position
          && (Keepable(l.samplingMs) ==> Waited(l.reports[j].time, l.reports[k].time, l.samplingMs)))
    && (forall k :: 0 < k < |l.reports| ==> Elapsed(l.reports[k - 1].time, l.reports[k].time) >= Milliseconds(l.samplingMs))
  }

  lemma LogKeepsPromises(l: ItemLog, enqueued: seq<Notification>)
    requires LogOk(l, enqueued)
    ensures LogPromises(l, enqueued)
  {
    hide Milliseconds, Elapsed;
    if Keepable(l.samplingMs) {
      KeptPace(l.samplingMs);
    }
    forall j | 0 <= j < |l.reports| ensures EntryOk(l, l.reports[j], enqueued) {
    }
    forall j, k | 0 <= j < k < |l.reports| ensures Follows(l, l.reports[j], l.reports[k]) {
    }
  }

  /** The newest value held for an item is in its slot or already queued, unless an invalidation overtook it. */
  ghost predicate NewestKept(i: Item, l: ItemLog) {
    if i.held.Some? then l.routed != [] && i.held.value == l.routed[|l.routed| - 1]
    else l.superseded == |l.routed| || (l.reports != [] && l.reports[|l.reports| - 1].index == |l.routed| - 1)
  }

  /**
   * Held slots, in every run. The held order repeats nothing and names, among the
   * live items, exactly those holding a value. Every report of an item, deleted
   * or not, is one of the values held for it, queued under its handle; reports
   * follow the values' order and the queue's; each comes at least the item's pace
   * after the one before it; and any two are the promised interval apart whenever
   * that is an interval the comparison can keep. And for a live item the newest
   * value ever held is in its slot or already queued, unless an invalidation
   * overtook it.
   */
  lemma HeldSlotRefinement(s: Sub, es: seq<Event>, limits: Limits)
    requires limits.Valid() && FreshSub(s) && LegalRun(Begin(s), es, limits)
    ensures var w := Run(Begin(s), es, limits);
      && NoDup(w.sub.heldOrder)
      && (forall id :: id in w.sub.items ==> (id in w.sub.heldOrder <==> w.sub.items[id].held.Some?))
      && (forall id :: id in w.logs ==> LogPromises(w.logs[id], w.enqueued))
      && (forall id :: id in w.sub.items ==> id in w.logs && NewestKept(w.sub.items[id], w.logs[id]))
  {
    hide LogOk, LogPromises;
    RunsKeepSlotsAndPacing(s, es, limits);
    var w := Run(Begin(s), es, limits);
    forall id | id in w.logs ensures LogPromises(w.logs[id], w.enqueued) {
      LogKeepsPromises(w.logs[id], w.enqueued);
    }
  }

  // ---------------------------------------------------------------- the promise

  /** A whole number of milliseconds whose nanoseconds are an int64. */
  predicate Keepable(d: Double) {
    d.Finite? && d.value >= 0.0 && d.value == d.value.Floor as real && d.value.Floor * NS_PER_MS < TWO_63
  }

  /** The promised interval has passed; no time is as long as an infinite or undefined one. */
  predicate Waited(last: Time, now: Time, d: Double) {
    d.Finite? && (now - last) as real >= d.value * NS_PER_MS as real
  }

  lemma KeptPace(d: Double)
    requires Keepable(d)
    ensures Milliseconds(d) == d.value.Floor * NS_PER_MS && Milliseconds(d) as real == d.value * NS_PER_MS as real
  {
  }

  /** The pace of an interval that cannot be kept falls short of it. */
  lemma PaceFallsShort(d: Double)
    requires d.NonNegative() && !Keepable(d)
    ensures !Waited(0, Milliseconds(d), d)
  {
    if d.Finite? {
      var ms := d.value.Floor;
      if ms < TWO_63 && ms * NS_PER_MS < TWO_63 {
        assert Milliseconds(d) == ms * NS_PER_MS;
        assert ms as real < d.value;
      } else {
        assert Milliseconds(d) < TWO_63 <= ms * NS_PER_MS;
        assert (ms * NS_PER_MS) as real <= d.value * NS_PER_MS as real;
      }
    }
  }

  /**
   * An item reports no sooner than the interval its client was promised, for every
   * clock reading, exactly when that interval is a whole number of milliseconds
   * and its nanoseconds fit an int64: the comparison truncates the one and wraps
   * on the other.
   */
  lemma PromiseKeptExactly(i: Item)
    requires i.samplingMs.NonNegative()
    ensures (forall last: Time, now: Time :: Due(i.(lastReported := Some(last)), now) ==> Waited(last, now, i.samplingMs))
        <==> Keepable(i.samplingMs)
  {
    if Keepable(i.samplingMs) {
      KeptPace(i.samplingMs);
      forall last: Time, now: Time | Due(i.(lastReported := Some(last)), now) ensures Waited(last, now, i.samplingMs) {
        assert now - last >= PaceNs(i);
      }
    } else {
      PaceFallsShort(i.samplingMs);
      assert Due(i.(lastReported := Some(0)), PaceNs(i));
    }
  }

  /** An interval of one and a half milliseconds is reported after one. */
  lemma FractionalIntervalReportsEarly(i: Item)
    requires i.samplingMs == Finite(1.5) && i.lastReported == Some(0)
    ensures Due(i, 1_000_000) && !Waited(0, 1_000_000, i.samplingMs)
  {
  }

  /** An interval of 10^13 milliseconds, three centuries, is reported at once: its nanoseconds wrap below zero. */
  lemma LongIntervalReportsAtOnce(i: Item, now: Time)
    requires i.samplingMs == Finite(10_000_000_000_000.0) && i.lastReported == Some(now)
    ensures PaceNs(i) == -8_446_744_073_709_551_616 && Due(i, now)
  {
  }

  /** So is an interval that is no number, or infinite. */
  lemma NoNumberReportsAtOnce(i: Item, now: Time)
    requires (i.samplingMs == NaN || i.samplingMs == PosInf) && i.lastReported == Some(now)
    ensures Due(i, now)
  {
  }

  /** A client gets such an interval by asking: nothing bounds what it requests from above, and the group's rate only raises it. */
  lemma RequestedIntervalIsNotBounded(s: Sub, r: CreateRequest, floor: Double)
    requires Refusal(s, r) == Good && r.node.minimumSamplingMs.None? && !r.requestedSamplingMs.Less(Finite(0.0))
    requires floor.Finite? && floor.Less(r.requestedSamplingMs)
    ensures RaiseTo(NewItem(s, r), floor).samplingMs == r.requestedSamplingMs
  {
  }
}
