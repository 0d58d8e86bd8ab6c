/** Which monitored items a subscription admits, and what its client handles and its one deadband are worth afterwards. */
module EngineAdmission {
  import opened Prelude
  import opened Ints
  import opened Engine
  import opened EngineRuns

  // ---------------------------------------------------------------- client handles

  /** No two live items answer to one client handle: a notification names its item. */
  ghost predicate HandlesUnique(items: map<nat, Item>) {
    forall a, b :: a in items && b in items && items[a].clientHandle == items[b].clientHandle ==> a == b
  }

  /** The client handle of every live item leads to that item. */
  ghost predicate HandlesCover(items: map<nat, Item>, byHandle: map<nat, nat>) {
    forall id :: id in items ==> items[id].clientHandle in byHandle && byHandle[items[id].clientHandle] == id
  }

  /** Request k is accepted, in the state those before it leave. */
  ghost predicate Passes(s: Sub, rs: seq<CreateRequest>, k: int) {
    0 <= k < |rs| && Refusal(PrepareAll(s, rs[..k]).sub, rs[k]) == Good
  }

  /** The requests that are accepted carry pairwise distinct handles. */
  ghost predicate DistinctHandles(s: Sub, rs: seq<CreateRequest>) {
    forall j, k :: 0 <= j < k < |rs| && Passes(s, rs, j) && Passes(s, rs, k) ==> rs[j].clientHandle != rs[k].clientHandle
  }

  ghost function HandlesOf(accepted: seq<(nat, Item)>): seq<nat> {
    seq(|accepted|, k requires 0 <= k < |accepted| => accepted[k].1.clientHandle)
  }

  lemma PassesBefore(s: Sub, rs: seq<CreateRequest>, k: nat)
    requires k < |rs| - 1
    ensures Passes(s, rs[..|rs| - 1], k) <==> Passes(s, rs, k)
  {
    assert rs[..|rs| - 1][..k] == rs[..k];
  }

  /** What one more request adds to the handles accepted. */
  lemma HandlesGrow(s: Sub, rs: seq<CreateRequest>)
    requires rs != []
    ensures var (n, before) := (|rs| - 1, HandlesOf(PrepareAll(s, rs[..|rs| - 1]).accepted));
      HandlesOf(PrepareAll(s, rs).accepted) == if Passes(s, rs, n) then before + [rs[n].clientHandle] else before
  {
    hide HandlesOf, Refusal, NewItem, PrepareOne;
    var (p, r) := (PrepareAll(s, rs[..|rs| - 1]), rs[|rs| - 1]);
    OneMoreAccepted(p, r);
    if Refusal(p.sub, r) == Good {
      NewItemIs(p.sub, r);
      HandlesAppend(p.accepted, (p.sub.nextItemId + 1, NewItem(p.sub, r)));
    }
  }

  lemma OneMoreAccepted(p: Prepared, r: CreateRequest)
    ensures PrepareOne(p, r).accepted == if Refusal(p.sub, r) == Good then p.accepted + [(p.sub.nextItemId + 1, NewItem(p.sub, r))] else p.accepted
  {
    hide Refusal, NewItem;
  }

  lemma HandlesAppend(accepted: seq<(nat, Item)>, one: (nat, Item))
    ensures HandlesOf(accepted + [one]) == HandlesOf(accepted) + [one.1.clientHandle]
  {
  }

  lemma {:induction false} AcceptedHandles(s: Sub, rs: seq<CreateRequest>, h: nat)
    ensures h in HandlesOf(PrepareAll(s, rs).accepted) <==> exists k :: Passes(s, rs, k) && rs[k].clientHandle == h
  {
    hide Refusal, PrepareAll, HandlesOf, Passes;
    if rs == [] {
      NothingAccepted(s, rs);
    } else {
      var n := |rs| - 1;
      AcceptedHandles(s, rs[..n], h);
      HandlesGrow(s, rs);
      PassesWithin(s, rs);
      PassesWithin(s, rs[..n]);
      if k :| Passes(s, rs[..n], k) && rs[..n][k].clientHandle == h {
        PassesBefore(s, rs, k);
        assert rs[k].clientHandle == h;
      } else if k :| Passes(s, rs, k) && rs[k].clientHandle == h && k < n {
        PassesBefore(s, rs, k);
      }
    }
  }

  lemma PassesWithin(s: Sub, rs: seq<CreateRequest>)
    ensures forall k :: Passes(s, rs, k) ==> 0 <= k < |rs|
  {
  }

  lemma NothingAccepted(s: Sub, rs: seq<CreateRequest>)
    requires rs == []
    ensures HandlesOf(PrepareAll(s, rs).accepted) == [] && forall k :: !Passes(s, rs, k)
  {
  }

  lemma {:induction false} AcceptedDistinct(s: Sub, rs: seq<CreateRequest>)
    ensures NoDup(HandlesOf(PrepareAll(s, rs).accepted)) <==> DistinctHandles(s, rs)
  {
    hide PrepareAll, HandlesOf, Passes;
    if rs == [] {
      NothingAccepted(s, rs);
    } else {
      var n := |rs| - 1;
      AcceptedDistinct(s, rs[..n]);
      HandlesGrow(s, rs);
      AcceptedHandles(s, rs[..n], rs[n].clientHandle);
      NoDupOneMore(HandlesOf(PrepareAll(s, rs[..n]).accepted), rs[n].clientHandle);
      DistinctOneMore(s, rs);
    }
  }

  lemma DistinctOneMore(s: Sub, rs: seq<CreateRequest>)
    requires rs != []
    ensures var n := |rs| - 1;
      DistinctHandles(s, rs) <==>
        && DistinctHandles(s, rs[..n])
        && (Passes(s, rs, n) ==> !exists k :: Passes(s, rs[..n], k) && rs[..n][k].clientHandle == rs[n].clientHandle)
  {
    hide PrepareAll, Refusal;
    var n := |rs| - 1;
    forall k: nat | k < n ensures (Passes(s, rs[..n], k) <==> Passes(s, rs, k)) && rs[..n][k] == rs[k] {
      PassesBefore(s, rs, k);
    }
  }

  lemma NoDupOneMore(s: seq<nat>, x: nat)
    ensures NoDup(s + [x]) <==> NoDup(s) && x !in s
  {
    var t := s + [x];
    assert t[|s|] == x && forall i :: 0 <= i < |s| ==> t[i] == s[i];
  }

  /** Distinct handles registered for a batch lead to its items, each to its own. */
  lemma {:induction false} HandleMapCovers(base: nat, accepted: seq<(nat, Item)>)
    requires forall k :: 0 <= k < |accepted| ==> accepted[k].0 == base + k + 1
    requires NoDup(HandlesOf(accepted))
    ensures HandlesCover(ItemMap(accepted), HandleMap(accepted))
  {
    hide NoDup;
    if accepted != [] {
      var init := accepted[..|accepted| - 1];
      assert HandlesOf(accepted) == HandlesOf(init) + [accepted[|accepted| - 1].1.clientHandle];
      NoDupOneMore(HandlesOf(init), accepted[|accepted| - 1].1.clientHandle);
      HandleMapCovers(base, init);
      AcceptedMaps(base, init);
      forall id | id in ItemMap(init) ensures ItemMap(init)[id].clientHandle != accepted[|accepted| - 1].1.clientHandle {
        assert HandlesOf(init)[id - base - 1] == ItemMap(init)[id].clientHandle;
      }
    }
  }

  lemma UniqueByIndex(m: map<nat, Item>, base: nat, hs: seq<nat>)
    requires forall id :: id in m <==> base < id <= base + |hs|
    requires forall id :: id in m ==> m[id].clientHandle == hs[id - base - 1]
    ensures HandlesUnique(m) <==> NoDup(hs)
  {
    if HandlesUnique(m) {
      forall i, j | 0 <= i < j < |hs| ensures hs[i] != hs[j] {
        assert base + i + 1 in m && base + j + 1 in m;
        assert m[base + i + 1].clientHandle == hs[i] && m[base + j + 1].clientHandle == hs[j];
      }
    }
  }

  lemma AddedAreUnique(base: nat, accepted: seq<(nat, Item)>)
    requires forall k :: 0 <= k < |accepted| ==> accepted[k].0 == base + k + 1
    ensures HandlesUnique(ItemMap(accepted)) <==> NoDup(HandlesOf(accepted))
  {
    hide ItemMap, HandleMap, NoDup, HandlesUnique;
    AcceptedMaps(base, accepted);
    UniqueByIndex(ItemMap(accepted), base, HandlesOf(accepted));
  }

  /** Items added under handles nobody used are told apart exactly when they are among themselves. */
  lemma AddingKeepsUnique(items: map<nat, Item>, byHandle: map<nat, nat>, added: map<nat, Item>)
    requires HandlesCover(items, byHandle) && items.Keys !! added.Keys
    requires forall id :: id in added ==> added[id].clientHandle !in byHandle
    ensures HandlesUnique(items + added) <==> HandlesUnique(added)
  {
    if HandlesUnique(items + added) {
      forall a, b | a in added && b in added && added[a].clientHandle == added[b].clientHandle ensures a == b {
        assert a in items + added && b in items + added;
      }
    }
  }

  lemma AddingKeepsCover(items: map<nat, Item>, byHandle: map<nat, nat>, added: map<nat, Item>, handles: map<nat, nat>)
    requires HandlesCover(items, byHandle) && HandlesCover(added, handles)
    requires items.Keys !! added.Keys && byHandle.Keys !! handles.Keys
    ensures HandlesCover(items + added, byHandle + handles)
  {
  }

  lemma RaisingKeepsHandles(items: map<nat, Item>, byHandle: map<nat, nat>, ids: set<nat>, floor: Double)
    ensures HandlesUnique(Raised(items, ids, floor)) <==> HandlesUnique(items)
    ensures HandlesCover(Raised(items, ids, floor), byHandle) <==> HandlesCover(items, byHandle)
  {
    var raised := Raised(items, ids, floor);
    assert raised.Keys == items.Keys && forall id :: id in items ==> raised[id].clientHandle == items[id].clientHandle;
  }

  lemma RegisteredHandles(s: Sub, p: Prepared)
    requires SlotsAgree(s) && HandlesCover(s.items, s.byHandle) && FreshIds(s, p)
    ensures var s0 := Register(p.sub, p.accepted);
      && (HandlesUnique(s0.items) <==> NoDup(HandlesOf(p.accepted)))
      && (NoDup(HandlesOf(p.accepted)) ==> HandlesCover(s0.items, s0.byHandle))
  {
    hide NoDup, HandlesUnique;
    AcceptedMaps(s.nextItemId, p.accepted);
    AddedAreUnique(s.nextItemId, p.accepted);
    var (m, h) := (ItemMap(p.accepted), HandleMap(p.accepted));
    forall id | id in m ensures m[id].clientHandle !in s.byHandle && id !in s.items {
      assert FreshItem(s, p.accepted[id - s.nextItemId - 1].1);
    }
    AddingKeepsUnique(s.items, s.byHandle, m);
    if NoDup(HandlesOf(p.accepted)) {
      HandleMapCovers(s.nextItemId, p.accepted);
      AddingKeepsCover(s.items, s.byHandle, m, h);
    }
  }

  lemma SettledHandles(s: Sub, p: Prepared, answer: Answer)
    requires SlotsAgree(s) && HandlesCover(s.items, s.byHandle) && FreshIds(s, p)
    requires Rebuild(Register(p.sub, p.accepted), answer).1
    ensures var s1 := Settle(p, answer).0;
      && (HandlesUnique(s1.items) <==> NoDup(HandlesOf(p.accepted)))
      && (NoDup(HandlesOf(p.accepted)) ==> HandlesCover(s1.items, s1.byHandle))
  {
    hide NoDup, HandlesUnique, HandlesCover, SlotsAgree, FreshIds, Raised;
    RegisteredHandles(s, p);
    var s0 := Register(p.sub, p.accepted);
    RebuildFrame(s0, answer);
    var s1 := Rebuild(s0, answer).0;
    RaisingKeepsHandles(s1.items, s1.byHandle, ItemMap(p.accepted).Keys, RevisedInterval(s1, answer));
  }

  lemma CoverIsUnique(items: map<nat, Item>, byHandle: map<nat, nat>)
    requires HandlesCover(items, byHandle)
    ensures HandlesUnique(items)
  {
  }

  lemma RefusedExactly(s: Sub, rs: seq<CreateRequest>, answer: Answer)
    ensures var p := PrepareAll(s, rs);
      p.accepted != [] ==> (!Rebuild(Register(p.sub, p.accepted), answer).1 <==> NeedsGroup(s, rs) && answer.Refused?)
  {
  }

  /**
   * A subscription whose handles each lead to their one item keeps them apart
   * through a create exactly when the requests accepted carry pairwise distinct
   * handles, or the source refuses and none is created: the check for a handle in
   * use looks at a table that is filled only after the whole batch was checked.
   */
  lemma UniqueAfterCreateExactly(s: Sub, rs: seq<CreateRequest>, answer: Answer)
    requires SlotsAgree(s) && HandlesCover(s.items, s.byHandle)
    ensures var s1 := CreateItems(s, rs, answer).0;
      && (HandlesUnique(s1.items) <==> DistinctHandles(s, rs) || (NeedsGroup(s, rs) && answer.Refused?))
      && (HandlesUnique(s1.items) ==> HandlesCover(s1.items, s1.byHandle))
  {
    hide SlotsAgree, HandlesCover, HandlesUnique, DistinctHandles, NoDup, Settle, FreshIds, NeedsGroup, Rebuild, Register;
    var p := PrepareAll(s, rs);
    PreparedFacts(s, rs);
    AcceptedDistinct(s, rs);
    RefusedExactly(s, rs, answer);
    CoverIsUnique(s.items, s.byHandle);
    if p.accepted == [] {
      NoneIsDistinct(p.accepted);
      UntouchedByRefusals(s, p);
    } else if NeedsGroup(s, rs) && answer.Refused? {
      RefusedCreateRestores(s, rs, answer);
    } else {
      SettledHandles(s, p, answer);
    }
  }

  lemma NoneIsDistinct(accepted: seq<(nat, Item)>)
    requires accepted == []
    ensures NoDup(HandlesOf(accepted))
  {
  }

  lemma UntouchedByRefusals(s: Sub, p: Prepared)
    requires FreshIds(s, p)
    ensures p.sub.items == s.items && p.sub.byHandle == s.byHandle
  {
  }

  /**
   * One request, sent twice in one batch to a fresh subscription: both are accepted,
   * and from then on every notification of either carries a handle that two items
   * share. The table leads to the second alone.
   */
  lemma TwoItemsShareAHandle(s: Sub, r: CreateRequest, group: nat, revisedMs: int)
    requires FreshSub(s) && Refusal(s, r) == Good && r.Deadband() != NaN && !(r.node.accessRightsKnown && !r.node.currentRead)
    ensures var (s1, results) := CreateItems(s, [r, r], Granted(group, revisedMs));
      && |results| == 2 && results[0].status == Good && results[1].status == Good
      && s1.items.Keys == {1, 2} && s1.items[1].clientHandle == s1.items[2].clientHandle == r.clientHandle
      && s1.byHandle == map[r.clientHandle := 2]
  {
    hide Raised, RaisedResults, NewItem, Refusal, PrepareAll, Register, ReadableItems, ItemMap;
    PreparedTwice(s, r);
    var (p, i, answer) := (PrepareAll(s, [r, r]), NewItem(s, r), Granted(group, revisedMs));
    NewItemIs(s, r);
    RegisteredTwice(p.sub, i);
    var s1 := Rebuild(Register(p.sub, p.accepted), answer).0;
    RaisedPair(s1.items, ItemMap(p.accepted).Keys, RevisedInterval(s1, answer), p.results);
  }

  lemma NewItemIs(s: Sub, r: CreateRequest)
    requires Refusal(s, r) == Good
    ensures NewItem(s, r).clientHandle == r.clientHandle
    ensures NewItem(s, r).notReadable == (r.node.accessRightsKnown && !r.node.currentRead)
  {
  }

  lemma PreparedTwice(s: Sub, r: CreateRequest)
    requires FreshSub(s) && Refusal(s, r) == Good && r.Deadband() != NaN
    ensures var (p, i) := (PrepareAll(s, [r, r]), NewItem(s, r));
      && p.accepted == [(1, i), (2, i)] && p.sub == s.(deadband := Some(r.Deadband()), nextItemId := 2)
      && |p.results| == 2 && p.results[0].status == Good && p.results[1].status == Good
  {
    hide DeadbandForFilter, Refusal, NewItem;
    assert [r, r][..1] == [r] && [r][..0] == [];
    assert PrepareAll(s, []) == Prepared(s, [], []);
    assert PrepareAll(s, [r]) == PrepareOne(Prepared(s, [], []), r);
    PassesAgain(s, r);
    assert PrepareAll(s, [r, r]) == PrepareOne(PrepareAll(s, [r]), r);
  }

  /** Having been accepted, a request would be accepted again, as long as its handle has not been entered. */
  lemma PassesAgain(s: Sub, r: CreateRequest)
    requires Refusal(s, r) == Good && r.Deadband() != NaN
    ensures var s1 := s.(deadband := Some(r.Deadband()), nextItemId := s.nextItemId + 1);
      Refusal(s1, r) == Good && NewItem(s1, r) == NewItem(s, r)
  {
    hide DeadbandForFilter;
  }

  lemma RegisteredTwice(s: Sub, i: Item)
    requires s.items == map[] && s.byHandle == map[] && !i.notReadable
    ensures var s0 := Register(s, [(1, i), (2, i)]);
      && s0.items == map[1 := i, 2 := i] && s0.byHandle == map[i.clientHandle := 2] && ReadableItems(s0.items) != {}
  {
    var accepted: seq<(nat, Item)> := [(1, i), (2, i)];
    assert accepted[..1] == [(1, i)] && accepted[..1][..0] == [];
    assert ItemMap(accepted[..1]) == map[1 := i] && HandleMap(accepted[..1]) == map[i.clientHandle := 1];
    assert ItemMap(accepted) == map[1 := i, 2 := i] && HandleMap(accepted) == map[i.clientHandle := 2];
    var s0 := Register(s, accepted);
    assert s0.items[1] == i;
    assert i.itemId in ReadableItems(s0.items);
  }

  lemma RaisedPair(items: map<nat, Item>, ids: set<nat>, floor: Double, results: seq<CreateResult>)
    ensures Raised(items, ids, floor).Keys == items.Keys
    ensures forall id :: id in items ==> Raised(items, ids, floor)[id].clientHandle == items[id].clientHandle
    ensures |RaisedResults(results, floor)| == |results|
    ensures forall k :: 0 <= k < |results| ==> RaisedResults(results, floor)[k].status == results[k].status
  {
  }

  /** Deleting either of two items on one handle forgets the handle of both: the other lives on unlisted, and a third item is let in on it. */
  lemma DeletingOneForgetsBoth(s: Sub, a: nat, b: nat, answer: Answer, r: CreateRequest)
    requires a in s.items && b in s.items && a != b && s.items[a].clientHandle == s.items[b].clientHandle == r.clientHandle
    ensures var s1 := DeleteItems(s, [a], answer).0;
      && b in s1.items && r.clientHandle !in s1.byHandle
      && (Refusal(s, r) == BadInvalidArgument ==> Refusal(s1, r) == Good)
  {
    hide DeadbandForFilter;
    assert [a][..0] == [];
    var (s0, rs) := DeleteAll(s, [a]);
    assert DeleteAll(s, []) == (s, []);
    assert s0 == DeleteOne(s, a).0 && rs == [Good];
    RebuildFrame(s0, answer);
    FilterIsNoArgument(r.filter);
  }

  lemma FilterIsNoArgument(f: Filter)
    ensures DeadbandForFilter(f).1 != BadInvalidArgument
  {
  }

  // ---------------------------------------------------------------- handles over runs

  lemma DeleteOneKeepsCover(s: Sub, id: nat)
    requires HandlesCover(s.items, s.byHandle)
    ensures HandlesCover(DeleteOne(s, id).0.items, DeleteOne(s, id).0.byHandle)
  {
  }

  lemma {:induction false} DeletesKeepCover(s: Sub, ids: seq<nat>)
    requires HandlesCover(s.items, s.byHandle)
    ensures HandlesCover(DeleteAll(s, ids).0.items, DeleteAll(s, ids).0.byHandle)
  {
    hide HandlesCover, DeleteOne;
    if ids != [] {
      DeletesKeepCover(s, ids[..|ids| - 1]);
      DeleteOneKeepsCover(DeleteAll(s, ids[..|ids| - 1]).0, ids[|ids| - 1]);
    }
  }

  lemma DeleteKeepsCover(s: Sub, ids: seq<nat>, answer: Answer)
    requires HandlesCover(s.items, s.byHandle)
    ensures HandlesCover(DeleteItems(s, ids, answer).0.items, DeleteItems(s, ids, answer).0.byHandle)
  {
    hide HandlesCover, DeleteAll, Rebuild;
    DeletesKeepCover(s, ids);
    RebuildFrame(DeleteAll(s, ids).0, answer);
  }

  /** The same items under the same handles. */
  ghost predicate SameHandles(a: Sub, b: Sub) {
    a.byHandle == b.byHandle && a.items.Keys == b.items.Keys && forall id :: id in a.items ==> a.items[id].clientHandle == b.items[id].clientHandle
  }

  lemma {:induction false} RoutesKeepHandles(s: Sub, us: seq<Update>)
    ensures SameHandles(s, RouteAll(s, us))
  {
    if us != [] {
      RoutesKeepHandles(s, us[..|us| - 1]);
    }
  }

  lemma FlushKeepsHandles(s: Sub, now: Time)
    ensures SameHandles(s, FlushHeld(s, now))
  {
  }

  lemma StatusKeepsHandles(s: Sub, order: seq<nat>)
    ensures SameHandles(s, HoldUnreadable(s, order)) && HoldUnreadable(s, order).da == s.da
  {
  }

  lemma InvalidationKeepsHandles(s: Sub, now: Time, order: seq<nat>)
    ensures SameHandles(s, ReportInvalidation(s, now, order).(da := None))
  {
  }

  lemma CollectKeepsHandles(s: Sub, now: Time, order: seq<nat>, poll: Poll)
    ensures SameHandles(s, Collect(s, now, order, poll))
  {
    hide HoldUnreadable, FlushHeld, RouteAll, ReportInvalidation;
    StatusKeepsHandles(s, order);
    var s1 := HoldUnreadable(s, order);
    if s1.da.None? {
      FlushKeepsHandles(s1, now);
    } else {
      match poll
      case Invalidated(o) => InvalidationKeepsHandles(s1, now, o);
      case Delivered(us) =>
        RoutesKeepHandles(s1, us);
        FlushKeepsHandles(RouteAll(s1, us), now);
    }
  }

  lemma SubStepKeepsCover(s: Sub, e: Event, limits: Limits)
    requires limits.Valid() && SlotsAgree(s) && HandlesCover(s.items, s.byHandle)
    requires e.Create? ==> DistinctHandles(s, e.requests)
    ensures HandlesCover(SubStep(s, e, limits).items, SubStep(s, e, limits).byHandle)
  {
    hide SlotsAgree, CreateItems, DeleteItems, Collect, BuildMessage, DistinctHandles, HandlesUnique;
    match e
    case Create(rs, answer) => UniqueAfterCreateExactly(s, rs, answer);
    case Delete(ids, answer) => DeleteKeepsCover(s, ids, answer);
    case SetPublishing(b) =>
    case Ack(n) =>
    case Touch(now) =>
    case Gather(now, order, poll) => CollectKeepsHandles(s, now, order, poll);
    case Emit(now) => BuildFrame(s, now, limits);
  }

  /** No create of the run accepts two requests with one handle. */
  ghost predicate CarefulRun(w: World, es: seq<Event>, limits: Limits)
    requires limits.Valid()
  {
    es != [] ==>
      var (init, e) := (es[..|es| - 1], es[|es| - 1]);
      CarefulRun(w, init, limits) && (e.Create? ==> DistinctHandles(Run(w, init, limits).sub, e.requests))
  }

  /** In every run whose creates accept distinct handles, each live item is the one its handle leads to, and no other. */
  lemma {:induction false} HandlesStayUnique(s: Sub, es: seq<Event>, limits: Limits)
    requires limits.Valid() && FreshSub(s) && LegalRun(Begin(s), es, limits) && CarefulRun(Begin(s), es, limits)
    ensures var sub := Run(Begin(s), es, limits).sub;
      SlotsAgree(sub) && HandlesCover(sub.items, sub.byHandle) && HandlesUnique(sub.items)
  {
    hide SlotsAgree, Step, SubStep, Legal, DistinctHandles;
    if es == [] {
      FreshSlots(s);
    } else {
      var (init, e) := (es[..|es| - 1], es[|es| - 1]);
      HandlesStayUnique(s, init, limits);
      var w := Run(Begin(s), init, limits);
      StepKeepsSlots(w, e, limits);
      StepIsSubStep(w, e, limits);
      SubStepKeepsCover(w.sub, e, limits);
      CoverIsUnique(Run(Begin(s), es, limits).sub.items, Run(Begin(s), es, limits).sub.byHandle);
    }
  }

  // ---------------------------------------------------------------- the deadband

  /** A percent deadband outside 0 to 100 is to be refused; every one is, but for what is no number. */
  lemma FilterRefusesExactly(trigger: u32, value: Double)
    requires trigger <= 1
    ensures (DeadbandForFilter(DataChangeFilter(trigger, 2, value)).1 == Good <==> value.Finite? && 0.0 <= value.value <= 100.0) <==> value != NaN
  {
  }

  /** The deadband is one a filter asked for. */
  ghost predicate FromFilter(d: Option<Double>) {
    d.Some? ==> exists f: Filter :: DeadbandForFilter(f) == (d.value, Good)
  }

  lemma {:induction false} PreparedFromFilter(s: Sub, rs: seq<CreateRequest>)
    requires FromFilter(s.deadband)
    ensures FromFilter(PrepareAll(s, rs).sub.deadband)
  {
    hide DeadbandForFilter;
    if rs != [] {
      PreparedFromFilter(s, rs[..|rs| - 1]);
      var r := rs[|rs| - 1];
      assert DeadbandForFilter(r.filter) == (r.Deadband(), r.FilterStatus());
    }
  }

  lemma SubStepKeepsDeadband(s: Sub, e: Event, limits: Limits)
    requires limits.Valid()
    ensures var after := SubStep(s, e, limits).deadband; after == s.deadband || (e.Create? && after == PrepareAll(s, e.requests).sub.deadband)
  {
    hide PrepareAll, Settle, DeleteAll, Rebuild, HoldUnreadable, RouteAll, ReportInvalidation, FlushHeld;
    match e
    case Create(rs, answer) => SettledDeadband(PrepareAll(s, rs), answer);
    case Delete(ids, answer) =>
      DeletedItems(s, ids);
      RebuildFrame(DeleteAll(s, ids).0, answer);
    case Gather(now, order, poll) => CollectKeepsDeadband(s, now, order, poll);
    case _ =>
  }

  lemma CollectKeepsDeadband(s: Sub, now: Time, order: seq<nat>, poll: Poll)
    ensures Collect(s, now, order, poll).deadband == s.deadband
  {
    if poll.Delivered? {
      RoutesKeepDeadband(HoldUnreadable(s, order), poll.updates);
    }
  }

  lemma {:induction false} RoutesKeepDeadband(s: Sub, us: seq<Update>)
    ensures RouteAll(s, us).deadband == s.deadband
  {
    if us != [] {
      RoutesKeepDeadband(s, us[..|us| - 1]);
    }
  }

  lemma {:induction false} DeadbandComesFromAFilter(s: Sub, es: seq<Event>, limits: Limits)
    requires limits.Valid() && FreshSub(s)
    ensures FromFilter(Run(Begin(s), es, limits).sub.deadband)
  {
    hide FromFilter, Step, SubStep;
    if es == [] {
      NoDeadband();
    } else {
      DeadbandComesFromAFilter(s, es[..|es| - 1], limits);
      var (w, e) := (Run(Begin(s), es[..|es| - 1], limits), es[|es| - 1]);
      StepIsSubStep(w, e, limits);
      SubStepKeepsDeadband(w.sub, e, limits);
      if e.Create? {
        PreparedFromFilter(w.sub, e.requests);
      }
    }
  }

  lemma NoDeadband()
    ensures FromFilter(None)
  {
  }

  lemma {:induction false} Above(keys: set<nat>) returns (h: nat)
    ensures forall k :: k in keys ==> k < h
    decreases |keys|
  {
    if k :| k in keys {
      var rest := Above(keys - {k});
      h := if rest > k then rest else k + 1;
      assert forall x :: x in keys ==> x == k || x in keys - {k};
    } else {
      h := 0;
    }
  }

  /**
   * In every run, there is a request the subscription would accept exactly when its
   * deadband is not one that is no number: that one equals nothing, itself
   * included, so nothing agrees with it.
   */
  lemma AcceptsSomethingExactly(s: Sub, es: seq<Event>, limits: Limits)
    requires limits.Valid() && FreshSub(s)
    ensures var sub := Run(Begin(s), es, limits).sub; (exists r: CreateRequest :: Refusal(sub, r) == Good) <==> sub.deadband != Some(NaN)
  {
    hide DeadbandForFilter, Run;
    DeadbandComesFromAFilter(s, es, limits);
    var sub := Run(Begin(s), es, limits).sub;
    if sub.deadband != Some(NaN) {
      var filter := NoFilter;
      if sub.deadband.Some? {
        filter :| DeadbandForFilter(filter) == (sub.deadband.value, Good);
      } else {
        NoFilterPasses();
      }
      var h := Above(sub.byHandle.Keys);
      var r := CreateRequest(Some(Reporting), false, true, filter, ItemNode("", true, true, true, None, 0), h, true, Finite(0.0));
      assert h !in sub.byHandle;
      assert Refusal(sub, r) == Good;
    }
  }

  lemma NoFilterPasses()
    ensures DeadbandForFilter(NoFilter).1 == Good
  {
  }

  /** And once such a deadband was accepted, every later create leaves the subscription as it is. */
  lemma {:induction false} NaNDeadbandIsFinal(s: Sub, rs: seq<CreateRequest>, answer: Answer)
    requires s.deadband == Some(NaN)
    ensures var (s1, results) := CreateItems(s, rs, answer);
      s1 == s && |results| == |rs| && forall k :: 0 <= k < |rs| ==> results[k].status != Good
  {
    hide DeadbandForFilter, Settle;
    NothingIsPrepared(s, rs);
  }

  lemma {:induction false} NothingIsPrepared(s: Sub, rs: seq<CreateRequest>)
    requires s.deadband == Some(NaN)
    ensures var p := PrepareAll(s, rs);
      p.sub == s && p.accepted == [] && |p.results| == |rs| && forall k :: 0 <= k < |rs| ==> p.results[k].status != Good
  {
    hide DeadbandForFilter;
    if rs != [] {
      NothingIsPrepared(s, rs[..|rs| - 1]);
    }
  }

  /** A client gets there with one request: a percent deadband of NaN passes the filter, and the item is created. */
  lemma NaNDeadbandIsAccepted(s: Sub, r: CreateRequest)
    requires s.deadband.None? && r.filter == DataChangeFilter(1, 2, NaN) && Refusal(s, r.(filter := NoFilter)) == Good
    ensures Refusal(s, r) == Good && PrepareAll(s, [r]).sub.deadband == Some(NaN)
  {
    assert [r][..0] == [];
    assert PrepareAll(s, []) == Prepared(s, [], []);
  }

  // ---------------------------------------------------------------- the floor under a sampling interval

  predicate AtLeast(d: Double, floor: Double) { floor.Less(d) || floor.Equal(d) }

  /**
   * The interval an item ends up with is at least the group's rate and at least its
   * node's minimum, as both are promised to be, exactly when the client asked for
   * a number.
   */
  lemma FloorsKeptExactly(s: Sub, r: CreateRequest, floor: Double)
    requires Refusal(s, r) == Good && floor.Finite? && r.node.minimumSamplingMs != Some(NaN)
    ensures var ms := RaiseTo(NewItem(s, r), floor).samplingMs;
      AtLeast(ms, floor) && (r.node.minimumSamplingMs.Some? ==> AtLeast(ms, r.node.minimumSamplingMs.value)) <==> r.requestedSamplingMs != NaN
  {
    hide DeadbandForFilter;
  }
}
