/** What a client is told of a change in the meaning of an item: the semantics-changed bit, from the value that brings it to the notification that carries it. */
module EngineSemantics {
  import opened Prelude
  import opened Ints
  import opened Engine
  import opened EngineRuns
  import opened EnginePacing

  /** The k-th value held for the item came with a generation other than the one before it. */
  ghost predicate Brought(l: ItemLog, k: int) {
    0 <= k < |l.routed| && k + 1 < |l.seen| && l.seen[k + 1] != l.seen[k]
  }

  /** A value says the semantics changed exactly when they did since the value held before it. */
  ghost predicate SeenOk(l: ItemLog) {
    && |l.seen| == |l.routed| + 1
    && forall k :: 0 <= k < |l.routed| ==> (Brought(l, k) <==> l.routed[k].Sample? && l.routed[k].semanticsChanged)
  }

  /** The item agrees with the generation its log saw last. */
  ghost predicate Level(i: Item, l: ItemLog) {
    |l.seen| > |l.routed| && i.semanticGeneration == l.seen[|l.routed|]
  }

  ghost predicate InStep(items: map<nat, Item>, logs: map<nat, ItemLog>) {
    && (forall id :: id in logs ==> SeenOk(logs[id]))
    && (forall id :: id in items ==> id in logs && Level(items[id], logs[id]))
  }

  // ---------------------------------------------------------------- every step

  lemma RoutedIsSeen(l: ItemLog, v: DataValue, g: nat)
    requires SeenOk(l) && |l.seen| > |l.routed| && ((v.Sample? && v.semanticsChanged) <==> g != l.seen[|l.routed|])
    ensures SeenOk(Routed(l, v, g)) && forall i: Item :: i.semanticGeneration == g ==> Level(i, Routed(l, v, g))
  {
    var l1 := Routed(l, v, g);
    forall k | 0 <= k < |l1.routed| ensures Brought(l1, k) <==> l1.routed[k].Sample? && l1.routed[k].semanticsChanged {
      if k < |l.routed| {
        assert Brought(l, k) <==> l.routed[k].Sample? && l.routed[k].semanticsChanged;
      }
    }
  }

  lemma StatusKeepsStep(w: World, order: seq<nat>)
    requires InStep(w.sub.items, w.logs)
    ensures InStep(WithStatusHeld(w, order).sub.items, WithStatusHeld(w, order).logs)
  {
    hide SeenOk;
    var w1 := WithStatusHeld(w, order);
    forall id | id in w.logs ensures SeenOk(w1.logs[id]) && (id in w.sub.items ==> Level(w1.sub.items[id], w1.logs[id])) {
      if id in w.sub.items {
        RoutedIsSeen(w.logs[id], NotReadable, w.sub.items[id].semanticGeneration);
      }
    }
  }

  lemma RouteKeepsStep(w: World, u: Update)
    requires InStep(w.sub.items, w.logs)
    ensures InStep(WithRoute(w, u).sub.items, WithRoute(w, u).logs)
  {
    hide SeenOk, Routed, Level;
    var target := Target(w.sub, u);
    if target.Some? {
      var (i, l) := (w.sub.items[target.value], w.logs[target.value]);
      LevelIs(i, l);
      RoutedIsSeen(l, Mapped(i, u), u.generation);
    }
  }

  lemma LevelIs(i: Item, l: ItemLog)
    requires Level(i, l)
    ensures |l.seen| > |l.routed| && i.semanticGeneration == l.seen[|l.routed|]
  {
  }

  lemma {:induction false} RoutesKeepStep(w: World, us: seq<Update>)
    requires InStep(w.sub.items, w.logs)
    ensures InStep(WithRoutes(w, us).sub.items, WithRoutes(w, us).logs)
  {
    hide InStep, WithRoute;
    if us != [] {
      RoutesKeepStep(w, us[..|us| - 1]);
      RouteKeepsStep(WithRoutes(w, us[..|us| - 1]), us[|us| - 1]);
    }
  }

  /** Neither reporting nor an invalidation changes what has been seen. */
  lemma SameSeen(a: ItemLog, b: ItemLog)
    requires SeenOk(a) && a.routed == b.routed && a.seen == b.seen
    ensures SeenOk(b)
  {
    assert forall k :: Brought(a, k) <==> Brought(b, k);
  }

  lemma FlushKeepsStep(w: World, now: Time)
    requires InStep(w.sub.items, w.logs)
    ensures InStep(WithFlush(w, now).sub.items, WithFlush(w, now).logs)
  {
    hide SeenOk, DueNow, StillHeld, Notes;
    var w1 := WithFlush(w, now);
    forall id | id in w.logs ensures SeenOk(w1.logs[id]) && w1.logs[id].seen == w.logs[id].seen && w1.logs[id].routed == w.logs[id].routed {
      SameSeen(w.logs[id], w1.logs[id]);
    }
  }

  lemma InvalidationKeepsStep(w: World, now: Time, order: seq<nat>)
    requires InStep(w.sub.items, w.logs)
    ensures InStep(WithInvalidation(w, now, order).sub.items, WithInvalidation(w, now, order).logs)
  {
    hide SeenOk, InvalidationNotes;
    var w1 := WithInvalidation(w, now, order);
    forall id | id in w.logs ensures SeenOk(w1.logs[id]) && w1.logs[id].seen == w.logs[id].seen && w1.logs[id].routed == w.logs[id].routed {
      SameSeen(w.logs[id], w1.logs[id]);
    }
  }

  lemma CollectKeepsStep(w: World, now: Time, order: seq<nat>, poll: Poll)
    requires InStep(w.sub.items, w.logs)
    ensures InStep(WithCollect(w, now, order, poll).sub.items, WithCollect(w, now, order, poll).logs)
  {
    hide InStep, WithStatusHeld, WithFlush, WithInvalidation, WithRoutes;
    StatusKeepsStep(w, order);
    var w1 := WithStatusHeld(w, order);
    if w1.sub.da.None? {
      FlushKeepsStep(w1, now);
    } else {
      match poll
      case Invalidated(o) => InvalidationKeepsStep(w1, now, o);
      case Delivered(us) =>
        RoutesKeepStep(w1, us);
        FlushKeepsStep(WithRoutes(w1, us), now);
    }
  }

  lemma NewLogsKeepStep(s: Sub, logs: map<nat, ItemLog>, items: map<nat, Item>)
    requires InStep(s.items, logs) && forall id :: id in logs ==> id <= s.nextItemId
    requires forall id :: id in items ==> OldOrNew(s, items, id)
    ensures InStep(items, NewLogs(logs, items))
  {
    hide SeenOk;
    var after := NewLogs(logs, items);
    forall id | id in after ensures SeenOk(after[id]) {
      if id !in logs {
        NothingSeen(after[id]);
      }
    }
    forall id | id in items ensures Level(items[id], after[id]) {
      assert OldOrNew(s, items, id);
    }
  }

  lemma NothingSeen(l: ItemLog)
    requires l.routed == [] && |l.seen| == 1
    ensures SeenOk(l)
  {
  }

  lemma StepKeepsStep(w: World, e: Event, limits: Limits)
    requires limits.Valid() && Paced(w) && SlotsAgree(w.sub) && InStep(w.sub.items, w.logs)
    ensures InStep(Step(w, e, limits).sub.items, Step(w, e, limits).logs)
  {
    hide SlotsAgree, LogsOk, SlotsFresh, WithCollect, CreateItems, DeleteItems, BuildMessage, NewLogs, SeenOk;
    match e
    case Create(rs, answer) =>
      CreatedItems(w.sub, rs, answer);
      NewLogsKeepStep(w.sub, w.logs, CreateItems(w.sub, rs, answer).0.items);
    case Delete(ids, answer) => DeletedSub(w.sub, ids, answer);
    case SetPublishing(b) =>
    case Ack(n) =>
    case Touch(now) =>
    case Gather(now, order, poll) => CollectKeepsStep(w, now, order, poll);
    case Emit(now) => BuildFrame(w.sub, now, limits);
  }

  lemma {:induction false} RunsKeepStep(s: Sub, es: seq<Event>, limits: Limits)
    requires limits.Valid() && FreshSub(s) && LegalRun(Begin(s), es, limits)
    ensures InStep(Run(Begin(s), es, limits).sub.items, Run(Begin(s), es, limits).logs)
  {
    hide Step, Legal, InStep, SlotsAgree, Paced;
    if es == [] {
      BeginsInStep(s);
    } else {
      RunsKeepStep(s, es[..|es| - 1], limits);
      RunsKeepSlotsAndPacing(s, es[..|es| - 1], limits);
      StepKeepsStep(Run(Begin(s), es[..|es| - 1], limits), es[|es| - 1], limits);
    }
  }

  lemma BeginsInStep(s: Sub)
    requires FreshSub(s)
    ensures InStep(Begin(s).sub.items, Begin(s).logs)
  {
  }

  // ---------------------------------------------------------------- what is told

  /** The notification of report j says that the semantics changed. */
  ghost predicate Tells(l: ItemLog, enqueued: seq<Notification>, j: nat) {
    && j < |l.reports| && l.reports[j].position < |enqueued|
    && enqueued[l.reports[j].position].value.Sample? && enqueued[l.reports[j].position].value.semanticsChanged
  }

  /** The first value held for the item after the report before report j. */
  ghost function Since(l: ItemLog, j: nat): nat
    requires j < |l.reports|
  {
    if j == 0 then 0 else l.reports[j - 1].index + 1
  }

  /** Some value held for the item since the report before report j, up to the one it reports, brought a change. */
  ghost predicate ChangedSince(l: ItemLog, j: nat)
    requires j < |l.reports|
  {
    exists k :: Since(l, j) <= k <= l.reports[j].index && Brought(l, k)
  }

  /** One of those before it, overwritten in the slot or dropped from it, brought a change. */
  ghost predicate ChangeOverwritten(l: ItemLog, j: nat)
    requires j < |l.reports|
  {
    exists k :: Since(l, j) <= k < l.reports[j].index && Brought(l, k)
  }

  /**
   * In every run, for every item and every report of it: the notification says that
   * the semantics changed exactly when the value reported is the one that brought
   * a change. So a change since the report before is told of exactly when it came
   * with the last value held: it is lost exactly when one was overwritten, or
   * dropped by an invalidation, and the last brought none.
   */
  lemma SemanticsChangeToldExactly(s: Sub, es: seq<Event>, limits: Limits, id: nat, j: nat)
    requires limits.Valid() && FreshSub(s) && LegalRun(Begin(s), es, limits)
    requires var logs := Run(Begin(s), es, limits).logs; id in logs && j < |logs[id].reports|
    ensures var (w, l) := (Run(Begin(s), es, limits), Run(Begin(s), es, limits).logs[id]);
      && Since(l, j) <= l.reports[j].index
      && (Tells(l, w.enqueued, j) <==> Brought(l, l.reports[j].index))
      && ((ChangedSince(l, j) <==> Tells(l, w.enqueued, j)) <==> !ChangeOverwritten(l, j) || Brought(l, l.reports[j].index))
  {
    hide Run, LegalRun, FreshSub, SlotsAgree, Brought;
    RunsKeepSlotsAndPacing(s, es, limits);
    RunsKeepStep(s, es, limits);
    var w := Run(Begin(s), es, limits);
    var l := w.logs[id];
    assert LogOk(l, w.enqueued) && EntryOk(l, l.reports[j], w.enqueued);
    if j > 0 {
      assert Follows(l, l.reports[j - 1], l.reports[j]);
    }
  }

  /**
   * An item sampled once a second is given a value that brings a change, half a
   * second after its last report, and a second later one that brings none. The
   * first is overwritten before it is due: the client is told no change, now or
   * later.
   */
  lemma SemanticsChangeIsLost(s: Sub, i: Item, first: Update, second: Update)
    requires s.items == map[1 := i] && s.heldOrder == [] && s.enabled && s.da.Some?
    requires i.mode.Reporting? && !i.notReadable && i.held.None? && i.samplingMs == Finite(1000.0) && i.lastReported == Some(0)
    requires first.itemId == second.itemId == i.itemId && first.order == second.order == [1]
    requires first.generation == second.generation != i.semanticGeneration
    ensures var s1 := Collect(s, 500_000_000, [1], Delivered([first]));
      var s2 := Collect(s1, 1_000_000_000, [1], Delivered([second]));
      && s1.pending == s.pending && 1 in s1.items && s1.items[1].held == Some(Sample(first.payload, true))
      && s2.pending == s.pending + [Notification(i.clientHandle, Sample(second.payload, false))]
      && 1 in s2.items && s2.items[1].semanticGeneration == first.generation
  {
    var i1 := i.(held := Some(Sample(first.payload, true)), semanticGeneration := first.generation);
    OneCollected(s, i, first, 500_000_000);
    var s1 := Collect(s, 500_000_000, [1], Delivered([first]));
    assert s1 == s.(items := map[1 := i1], heldOrder := [1]);
    OneCollected(s1, i1, second, 1_000_000_000);
  }

  /** One collection of one value by a subscription with one item. */
  lemma OneCollected(s: Sub, i: Item, u: Update, now: Time)
    requires s.items == map[1 := i] && s.heldOrder == (if i.held.Some? then [1] else []) && s.enabled && s.da.Some?
    requires i.mode.Reporting? && !i.notReadable && u.itemId == i.itemId && u.order == [1]
    ensures var i1 := i.(held := Some(Mapped(i, u)), semanticGeneration := u.generation);
      Collect(s, now, [1], Delivered([u]))
      == if Due(i, now) then s.(items := map[1 := Reported(i1, now)], heldOrder := [], pending := s.pending + [Notification(i.clientHandle, Mapped(i, u))])
         else s.(items := map[1 := i1], heldOrder := [1])
  {
    hide HoldUnreadable, RouteAll, FlushHeld, Elapsed, Milliseconds, Mapped;
    var i1 := i.(held := Some(Mapped(i, u)), semanticGeneration := u.generation);
    NothingOwed(s);
    RouteOne(s, i, u);
    FlushOne(RouteAll(s, [u]), i1, now);
  }

  lemma RouteOne(s: Sub, i: Item, u: Update)
    requires s.items == map[1 := i] && s.heldOrder == (if i.held.Some? then [1] else [])
    requires i.mode.Reporting? && u.itemId == i.itemId && u.order == [1]
    ensures var i1 := i.(held := Some(Mapped(i, u)), semanticGeneration := u.generation);
      RouteAll(s, [u]) == s.(items := map[1 := i1], heldOrder := [1])
  {
    hide Mapped;
    assert [u][..0] == [] && RouteAll(s, []) == s;
    assert RouteAll(s, [u]) == Route(s, u);
  }

  lemma NothingOwed(s: Sub)
    requires s.items.Keys == {1} && !s.items[1].notReadable
    ensures HoldUnreadable(s, [1]) == s
  {
    var order: seq<nat> := [1];
    assert order[..0] == [] && Owing(s.items, []) == [];
    assert Owing(s.items, order) == [];
    assert WithStatus(s.items, order) == s.items;
  }

  lemma FlushOne(s: Sub, i: Item, now: Time)
    requires s.items == map[1 := i] && s.heldOrder == [1] && s.enabled && i.held.Some?
    ensures FlushHeld(s, now)
      == if Due(i, now) then s.(items := map[1 := Reported(i, now)], heldOrder := [], pending := s.pending + [Notification(i.clientHandle, i.held.value)])
         else s
  {
    hide Due;
    assert [1][..0] == [];
    assert DueNow(s.items, [], now) == [] && StillHeld(s.items, [], now) == [];
    var due := DueNow(s.items, [1], now);
    assert due == if Due(i, now) then [1] else [];
    assert Notes(s.items, [1]) == [Notification(i.clientHandle, i.held.value)];
    assert AllReported(s.items, due, now) == if Due(i, now) then map[1 := Reported(i, now)] else s.items;
  }
}
