/** What a client gets for a batch of items to create: which requests are accepted, what each item is, and what the DA group then covers. */
module EngineCreation {
  import opened Prelude
  import opened Ints
  import opened Engine
  import opened EngineRuns

  // ---------------------------------------------------------------- which requests are accepted

  /** A filter a DA group can apply: none, or a change of value or status with no deadband or a percentage. */
  predicate Applicable(f: Filter) {
    f.NoFilter? || (f.DataChangeFilter? && f.trigger <= 1 && (f.deadbandType == 0 || f.deadbandType == 2))
  }

  /** A percentage neither below 0 nor above 100. */
  predicate Percentage(f: Filter) {
    f.DataChangeFilter? && f.deadbandType == 2 ==> !f.value.Less(Finite(0.0)) && !Finite(100.0).Less(f.value)
  }

  /** The filter asks for a deadband of nothing unless it gives a percentage, which is rounded to a float32. */
  lemma FilterAsksFor(f: Filter)
    ensures DeadbandForFilter(f).1 == Good <==> Applicable(f) && Percentage(f)
    ensures DeadbandForFilter(f).1 == Good ==>
      DeadbandForFilter(f).0 == if f.DataChangeFilter? && f.deadbandType == 2 then (if f.value.NaN? then NaN else Finite(ToFloat32(f.value.value))) else Finite(0.0)
    ensures DeadbandForFilter(f).1 in {Good, BadMonitoredItemFilterUnsupported, BadDeadbandFilterInvalid}
    ensures DeadbandForFilter(f).1 == BadDeadbandFilterInvalid <==> Applicable(f) && !Percentage(f)
  {
  }

  /** What one request must be for itself. */
  predicate Acceptable(s: Sub, r: CreateRequest) {
    && r.mode.Some? && !r.hasIndexRange && r.valueAttribute && Applicable(r.filter) && Percentage(r.filter)
    && r.node.ItemNode? && (Finite(0.0).Less(r.Deadband()) ==> r.node.analog) && r.clientHandle !in s.byHandle
  }

  /** And besides, the one deadband of the group must be the one it asks for. */
  ghost predicate Admitted(s: Sub, rs: seq<CreateRequest>, k: nat)
    requires k < |rs|
    decreases k
  {
    && Acceptable(s, rs[k])
    && if s.deadband.Some? then s.deadband.value.Equal(rs[k].Deadband())
       else forall j: nat :: j < k && Admitted(s, rs, j) ==> rs[j].Deadband().Equal(rs[k].Deadband())
  }

  /** It asks for another deadband than the group has, or than one accepted before it in the batch. */
  ghost predicate OtherDeadband(s: Sub, rs: seq<CreateRequest>, k: nat)
    requires k < |rs|
  {
    if s.deadband.Some? then !s.deadband.value.Equal(rs[k].Deadband())
    else exists j: nat :: j < k && Admitted(s, rs, j) && !rs[j].Deadband().Equal(rs[k].Deadband())
  }

  /** Why request k is refused, for each status it may be refused with: what is looked at before is in order. */
  ghost predicate Reason(s: Sub, rs: seq<CreateRequest>, k: nat, status: StatusCode)
    requires k < |rs|
  {
    var r := rs[k];
    var value := r.mode.Some? && !r.hasIndexRange && r.valueAttribute;
    var filtered := value && Applicable(r.filter) && Percentage(r.filter) && !OtherDeadband(s, rs, k);
    var ranged := Finite(0.0).Less(r.Deadband()) && r.node.ItemNode? && !r.node.analog;
    match status
    case BadMonitoringModeInvalid => r.mode.None?
    case BadIndexRangeInvalid => r.mode.Some? && r.hasIndexRange
    case BadAttributeIdInvalid => r.mode.Some? && !r.hasIndexRange && (!r.valueAttribute || (filtered && r.node.OtherNode?))
    case BadMonitoredItemFilterUnsupported => value && (!Applicable(r.filter) || (Percentage(r.filter) && OtherDeadband(s, rs, k)))
    case BadDeadbandFilterInvalid => value && Applicable(r.filter) && (!Percentage(r.filter) || (filtered && ranged))
    case BadNodeIdUnknown => filtered && r.node.UnknownNode?
    case BadNotSupported => filtered && r.node.ItemProperty?
    case BadInvalidArgument => filtered && r.node.ItemNode? && !ranged && r.clientHandle in s.byHandle
    case _ => false
  }

  /** What preparing has made of the deadband: that of the group, or of the requests admitted. */
  ghost predicate DeadbandOf(s: Sub, rs: seq<CreateRequest>, deadband: Option<Double>) {
    if s.deadband.Some? then deadband.Some? && forall d: Double :: deadband.value.Equal(d) <==> s.deadband.value.Equal(d)
    else if deadband.None? then forall k: nat :: k < |rs| ==> !Admitted(s, rs, k)
    else (exists k: nat :: k < |rs| && Admitted(s, rs, k)) && forall k: nat :: k < |rs| && Admitted(s, rs, k) ==> rs[k].Deadband() == deadband.value
  }

  lemma {:induction false} AdmittedBefore(s: Sub, rs: seq<CreateRequest>, n: nat, k: nat)
    requires k < n <= |rs|
    ensures Admitted(s, rs[..n], k) <==> Admitted(s, rs, k)
    decreases k
  {
    hide Acceptable;
    forall j: nat | j < k ensures Admitted(s, rs[..n], j) <==> Admitted(s, rs, j) {
      AdmittedBefore(s, rs, n, j);
    }
  }

  lemma ReasonBefore(s: Sub, rs: seq<CreateRequest>, n: nat, k: nat, status: StatusCode)
    requires k < n <= |rs| && Reason(s, rs[..n], k, status)
    ensures Reason(s, rs, k, status)
  {
    hide Admitted, Applicable, Percentage, Engine.DeadbandForFilter;
    forall j: nat | j < k ensures Admitted(s, rs[..n], j) <==> Admitted(s, rs, j) {
      AdmittedBefore(s, rs, n, j);
    }
  }

  /** The one deadband the state before request k calls for. */
  lemma LastAdmitted(s: Sub, rs: seq<CreateRequest>, deadband: Option<Double>)
    requires rs != [] && DeadbandOf(s, rs[..|rs| - 1], deadband)
    ensures var n := |rs| - 1; var d := rs[n].Deadband();
      && (Admitted(s, rs, n) <==> Acceptable(s, rs[n]) && (deadband.Some? ==> deadband.value.Equal(d)))
      && (OtherDeadband(s, rs, n) <==> deadband.Some? && !deadband.value.Equal(d))
      && (Admitted(s, rs, n) ==> DeadbandOf(s, rs, Some(d)))
      && (!Admitted(s, rs, n) ==> DeadbandOf(s, rs, deadband))
  {
    hide Acceptable;
    var n := |rs| - 1;
    forall k: nat | k < n ensures rs[..n][k] == rs[k] && (Admitted(s, rs[..n], k) <==> Admitted(s, rs, k)) {
      AdmittedBefore(s, rs, n, k);
    }
  }

  lemma RefusalIs(p: Sub, s: Sub, rs: seq<CreateRequest>)
    requires rs != [] && p.byHandle == s.byHandle && DeadbandOf(s, rs[..|rs| - 1], p.deadband)
    ensures var n := |rs| - 1;
      && (Refusal(p, rs[n]) == Good <==> Admitted(s, rs, n))
      && (Refusal(p, rs[n]) != Good ==> Reason(s, rs, n, Refusal(p, rs[n])))
  {
    hide DeadbandForFilter, Applicable, Percentage, OtherDeadband, Admitted, DeadbandOf;
    FilterAsksFor(rs[|rs| - 1].filter);
    LastAdmitted(s, rs, p.deadband);
  }

  /** The item is the one the request asks for, and has said nothing yet. */
  ghost predicate AskedFor(r: CreateRequest, i: Item) {
    && r.node.ItemNode? && i.itemId == r.node.itemId && r.mode == Some(i.mode) && i.clientHandle == r.clientHandle
    && i.serverTimestamps == r.serverTimestamps && i.semanticGeneration == r.node.generation
    && (i.notReadable <==> r.node.accessRightsKnown && !r.node.currentRead)
    && i.held.None? && i.lastReported.None?
  }

  /** The interval the client asks for: any negative one means that of the subscription. */
  function Asked(s: Sub, r: CreateRequest): Double {
    if r.requestedSamplingMs.Less(Finite(0.0)) then Finite(s.intervalMs as real) else r.requestedSamplingMs
  }

  predicate AtLeast(d: Double, floor: Double) { floor.Less(d) || floor.Equal(d) }

  /** `d` is the least interval that is no shorter than what was asked and, where it is known, the minimum of the node. */
  ghost predicate RaisedToNode(s: Sub, r: CreateRequest, d: Double) {
    r.node.ItemNode? &&
    var (asked, least) := (Asked(s, r), r.node.minimumSamplingMs);
    && (d.NaN? <==> asked.NaN?)
    && (!asked.NaN? ==> AtLeast(d, asked) && (least.Some? && !least.value.NaN? ==> AtLeast(d, least.value)) && (d == asked || Some(d) == least))
  }

  /** And the same with the rate of the group besides. */
  ghost predicate RaisedToRate(s: Sub, r: CreateRequest, rate: Double, d: Double) {
    r.node.ItemNode? &&
    var (asked, least) := (Asked(s, r), r.node.minimumSamplingMs);
    && (d.NaN? <==> asked.NaN?)
    && (!asked.NaN? ==>
         && AtLeast(d, asked) && (least.Some? && !least.value.NaN? ==> AtLeast(d, least.value)) && AtLeast(d, rate)
         && (d == asked || Some(d) == least || d == rate))
  }

  // ---------------------------------------------------------------- preparing

  /** Some result is that of item `id`. */
  ghost predicate Announced(results: seq<CreateResult>, id: nat) {
    exists k :: 0 <= k < |results| && results[k].status == Good && results[k].itemId == id
  }

  /** Each request accepted has its item among those prepared. */
  ghost predicate Matched(s: Sub, rs: seq<CreateRequest>, results: seq<CreateResult>, accepted: seq<(nat, Item)>) {
    && |results| == |rs|
    && forall k :: 0 <= k < |rs| && results[k].status == Good ==>
         var n := results[k].itemId - s.nextItemId - 1;
         && 0 <= n < |accepted| && AskedFor(rs[k], accepted[n].1)
         && results[k].revisedSamplingMs == accepted[n].1.samplingMs && RaisedToNode(s, rs[k], accepted[n].1.samplingMs)
  }

  /** The ids announced are those after the last one used, in order. */
  ghost predicate Numbered(s: Sub, results: seq<CreateResult>, count: nat) {
    && (forall k :: 0 <= k < |results| && results[k].status == Good ==> s.nextItemId < results[k].itemId <= s.nextItemId + count)
    && (forall j, k :: 0 <= j < k < |results| && results[j].status == Good && results[k].status == Good ==> results[j].itemId < results[k].itemId)
    && (forall id: nat :: s.nextItemId < id <= s.nextItemId + count ==> Announced(results, id))
  }

  /** The requests are judged by the rule of admission, and each refusal has its reason. */
  ghost predicate Judged(s: Sub, rs: seq<CreateRequest>, results: seq<CreateResult>) {
    && |results| == |rs|
    && (forall k: nat :: k < |rs| ==> (results[k].status == Good <==> Admitted(s, rs, k)))
    && (forall k: nat :: k < |rs| && results[k].status != Good ==> Blank(results[k]) && Reason(s, rs, k, results[k].status))
  }

  /** No item and no interval. */
  predicate Blank(result: CreateResult) { result.itemId == 0 && result.revisedSamplingMs == Finite(0.0) }

  lemma NewItemIsAskedFor(p: Sub, s: Sub, r: CreateRequest)
    requires Refusal(p, r) == Good && p.intervalMs == s.intervalMs
    ensures AskedFor(r, NewItem(p, r)) && RaisedToNode(s, r, NewItem(p, r).samplingMs)
  {
    hide DeadbandForFilter;
  }

  lemma NumberedNext(s: Sub, results: seq<CreateResult>, count: nat, one: CreateResult)
    requires Numbered(s, results, count)
    ensures one.status != Good ==> Numbered(s, results + [one], count)
    ensures one.status == Good && one.itemId == s.nextItemId + count + 1 ==> Numbered(s, results + [one], count + 1)
  {
    var after := results + [one];
    forall id | Announced(results, id) ensures Announced(after, id) {
      var k :| 0 <= k < |results| && results[k].status == Good && results[k].itemId == id;
      assert after[k] == results[k];
    }
    assert after[|results|] == one;
  }

  lemma JudgedNext(s: Sub, rs: seq<CreateRequest>, results: seq<CreateResult>, one: CreateResult)
    requires rs != [] && Judged(s, rs[..|rs| - 1], results)
    requires one.status == Good <==> Admitted(s, rs, |rs| - 1)
    requires one.status != Good ==> Blank(one) && Reason(s, rs, |rs| - 1, one.status)
    ensures Judged(s, rs, results + [one])
  {
    hide Admitted, Reason;
    var n := |rs| - 1;
    forall k: nat | k < n ensures (results[k].status == Good <==> Admitted(s, rs, k)) && (results[k].status != Good ==> Reason(s, rs, k, results[k].status)) {
      AdmittedBefore(s, rs, n, k);
      if results[k].status != Good {
        ReasonBefore(s, rs, n, k, results[k].status);
      }
    }
  }

  lemma MatchedNext(s: Sub, rs: seq<CreateRequest>, results: seq<CreateResult>, accepted: seq<(nat, Item)>, one: CreateResult, item: (nat, Item))
    requires rs != [] && Matched(s, rs[..|rs| - 1], results, accepted)
    ensures one.status != Good ==> Matched(s, rs, results + [one], accepted)
    ensures one.status == Good && one.itemId == s.nextItemId + |accepted| + 1 && one.revisedSamplingMs == item.1.samplingMs
      && AskedFor(rs[|rs| - 1], item.1) && RaisedToNode(s, rs[|rs| - 1], item.1.samplingMs)
      ==> Matched(s, rs, results + [one], accepted + [item])
  {
    hide AskedFor, RaisedToNode;
    forall k | 0 <= k < |rs| - 1 ensures rs[..|rs| - 1][k] == rs[k] {
    }
  }

  lemma {:induction false} PreparedAsAsked(s: Sub, rs: seq<CreateRequest>)
    ensures var p := PrepareAll(s, rs);
      && Matched(s, rs, p.results, p.accepted) && Numbered(s, p.results, |p.accepted|) && Judged(s, rs, p.results)
      && DeadbandOf(s, rs, p.sub.deadband)
  {
    hide Matched, Numbered, Judged, DeadbandOf, Admitted, Reason, Refusal, NewItem, AskedFor, RaisedToNode, FreshItem;
    if rs == [] {
      NothingPrepared(s, rs);
    } else {
      var n := |rs| - 1;
      PreparedAsAsked(s, rs[..n]);
      PreparedFacts(s, rs[..n]);
      var (p, r, after) := (PrepareAll(s, rs[..n]), rs[n], PrepareAll(s, rs));
      RefusalIs(p.sub, s, rs);
      LastAdmitted(s, rs, p.sub.deadband);
      var one := after.results[|p.results|];
      assert after.results == p.results + [one];
      var item := if Refusal(p.sub, r) == Good then (p.sub.nextItemId + 1, NewItem(p.sub, r)) else (0, Item(0, "", Disabled, false, false, NaN, 0, None, None));
      if Refusal(p.sub, r) == Good {
        NewItemIsAskedFor(p.sub, s, r);
      }
      NumberedNext(s, p.results, |p.accepted|, one);
      JudgedNext(s, rs, p.results, one);
      MatchedNext(s, rs, p.results, p.accepted, one, item);
    }
  }

  lemma NothingPrepared(s: Sub, rs: seq<CreateRequest>)
    requires rs == []
    ensures var p := PrepareAll(s, rs);
      && Matched(s, rs, p.results, p.accepted) && Numbered(s, p.results, |p.accepted|) && Judged(s, rs, p.results)
      && DeadbandOf(s, rs, p.sub.deadband)
  {
  }

  // ---------------------------------------------------------------- what the client gets

  /** The source can read the node the request names. */
  predicate Readable(r: CreateRequest) {
    r.node.ItemNode? && !(r.node.accessRightsKnown && !r.node.currentRead)
  }

  /** Some item that can be read is on ItemID `x`. */
  ghost predicate ItemOn(items: map<nat, Item>, x: string) {
    exists id :: id in items && !items[id].notReadable && items[id].itemId == x
  }

  ghost predicate SomeAdmitted(s: Sub, rs: seq<CreateRequest>) {
    exists k: nat :: k < |rs| && Admitted(s, rs, k)
  }

  /** Some item or some request admitted, that can be read, is on ItemID `x`. */
  ghost predicate Covered(s: Sub, rs: seq<CreateRequest>, x: string) {
    ItemOn(s.items, x) || exists k: nat :: k < |rs| && Admitted(s, rs, k) && Readable(rs[k]) && rs[k].node.itemId == x
  }

  /** Request k got the item it asks for, under the id and the interval its result gives. */
  ghost predicate Delivered(s: Sub, r: CreateRequest, result: CreateResult, items: map<nat, Item>) {
    && result.itemId !in s.items && result.itemId in items
    && AskedFor(r, items[result.itemId]) && items[result.itemId].samplingMs == result.revisedSamplingMs
  }

  /** The items there are: those there were, unchanged, and those announced. */
  ghost predicate ItemsAre(s: Sub, results: seq<CreateResult>, items: map<nat, Item>) {
    && (forall id :: id in s.items ==> id in items && items[id] == s.items[id])
    && (forall id :: id in items ==> id in s.items || Announced(results, id))
  }

  /** Registered, an item is what it was prepared as. */
  lemma RegisteredItems(s: Sub, p: Prepared)
    requires SlotsAgree(s) && FreshIds(s, p)
    ensures var items := Register(p.sub, p.accepted).items;
      && (forall id :: id in s.items ==> id in items && items[id] == s.items[id])
      && (forall id: nat :: id in items && id !in s.items <==> s.nextItemId < id <= s.nextItemId + |p.accepted|)
      && (forall id: nat :: s.nextItemId < id <= s.nextItemId + |p.accepted| ==> id in items && items[id] == p.accepted[id - s.nextItemId - 1].1)
      && ItemMap(p.accepted).Keys == items.Keys - s.items.Keys
  {
    hide SlotsAgree, FreshIds, HandleMap, ItemMap;
    IdsUsed(s);
    AcceptedIds(s, p);
    AddedItems(s.items, ItemMap(p.accepted), s.nextItemId, |p.accepted|);
  }

  lemma AcceptedIds(s: Sub, p: Prepared)
    requires FreshIds(s, p)
    ensures p.sub.items == s.items
    ensures forall id :: id in ItemMap(p.accepted) <==> s.nextItemId < id <= s.nextItemId + |p.accepted|
    ensures forall id :: id in ItemMap(p.accepted) ==> ItemMap(p.accepted)[id] == p.accepted[id - s.nextItemId - 1].1
  {
    hide FreshItem, HandleMap, ItemMap;
    AcceptedMaps(s.nextItemId, p.accepted);
  }

  lemma IdsUsed(s: Sub)
    requires SlotsAgree(s)
    ensures forall id :: id in s.items ==> id <= s.nextItemId
  {
  }

  lemma AddedItems(items: map<nat, Item>, added: map<nat, Item>, base: nat, count: nat)
    requires (forall id :: id in items ==> id <= base) && forall id :: id in added <==> base < id <= base + count
    ensures (forall id :: id in items ==> (items + added)[id] == items[id])
      && (forall id: nat :: id in items + added && id !in items <==> base < id <= base + count)
      && (forall id :: id in added ==> (items + added)[id] == added[id])
      && added.Keys == (items + added).Keys - items.Keys
  {
  }

  lemma RaisedFacts(items: map<nat, Item>, ids: set<nat>, floor: Double, results: seq<CreateResult>)
    ensures var (after, raised) := (Raised(items, ids, floor), RaisedResults(results, floor));
      && after.Keys == items.Keys && (forall id :: id in items ==> after[id] == if id in ids then RaiseTo(items[id], floor) else items[id])
      && |raised| == |results|
      && forall k :: 0 <= k < |results| ==>
           raised[k] == results[k].(revisedSamplingMs := if results[k].status == Good && results[k].revisedSamplingMs.Less(floor) then floor else results[k].revisedSamplingMs)
  {
  }

  lemma RaisedStaysAskedFor(s: Sub, r: CreateRequest, i: Item, floor: Double)
    requires AskedFor(r, i) && RaisedToNode(s, r, i.samplingMs) && floor.Finite?
    ensures AskedFor(r, RaiseTo(i, floor)) && RaisedToRate(s, r, floor, RaiseTo(i, floor).samplingMs)
    ensures RaiseTo(i, floor).samplingMs == if i.samplingMs.Less(floor) then floor else i.samplingMs
  {
  }

  lemma AnnouncedSame(a: seq<CreateResult>, b: seq<CreateResult>, id: nat)
    requires |a| == |b| && forall k :: 0 <= k < |a| ==> a[k].status == b[k].status && a[k].itemId == b[k].itemId
    ensures Announced(a, id) <==> Announced(b, id)
  {
  }

  /** The rate the group settled on, if there is one and the source says; else the publishing interval. */
  function Rate(s1: Sub, answer: Answer): Double {
    if s1.da.Some? && answer.Granted? && 0 < answer.revisedMs then Finite(answer.revisedMs as real) else Finite(s1.intervalMs as real)
  }

  /** What a create the source does not refuse delivers. */
  ghost predicate DeliveredAll(s: Sub, rs: seq<CreateRequest>, answer: Answer, s1: Sub, results: seq<CreateResult>) {
    && Judged(s, rs, results) && ItemsAre(s, results, s1.items)
    && (forall k :: 0 <= k < |rs| && results[k].status == Good ==>
          && Delivered(s, rs[k], results[k], s1.items)
          && RaisedToRate(s, rs[k], Rate(s1, answer), results[k].revisedSamplingMs))
    && (forall j, k :: 0 <= j < k < |rs| && results[j].status == Good && results[k].status == Good ==> results[j].itemId < results[k].itemId)
    && (forall k :: 0 <= k < |rs| && results[k].status == Good ==> s.nextItemId < results[k].itemId <= s1.nextItemId)
  }

  lemma OneDelivered(s: Sub, r: CreateRequest, before: Item, one: CreateResult, floor: Double, after: CreateResult, items: map<nat, Item>)
    requires AskedFor(r, before) && RaisedToNode(s, r, before.samplingMs) && floor.Finite?
    requires one.status == Good && one.revisedSamplingMs == before.samplingMs && one.itemId !in s.items && one.itemId in items
    requires items[one.itemId] == RaiseTo(before, floor)
    requires after == one.(revisedSamplingMs := if one.revisedSamplingMs.Less(floor) then floor else one.revisedSamplingMs)
    ensures Delivered(s, r, after, items) && RaisedToRate(s, r, floor, after.revisedSamplingMs)
  {
    hide AskedFor, RaisedToNode, RaisedToRate;
    RaisedStaysAskedFor(s, r, before, floor);
  }

  lemma SettledAsAsked(s: Sub, rs: seq<CreateRequest>, p: Prepared, answer: Answer)
    requires SlotsAgree(s) && FreshIds(s, p) && (answer.Granted? || ReadableItems(Register(p.sub, p.accepted).items) == {})
    requires Matched(s, rs, p.results, p.accepted) && Numbered(s, p.results, |p.accepted|) && Judged(s, rs, p.results)
    ensures DeliveredAll(s, rs, answer, Settle(p, answer).0, Settle(p, answer).1)
  {
    hide Admitted, Reason, SlotsAgree, FreshIds, AskedFor, RaisedToNode, RaisedToRate, Register, Raised, RaisedResults, Announced, RaiseTo,
      ReadableItems, ItemMap;
    RegisteredItems(s, p);
    var s0 := Register(p.sub, p.accepted);
    SameInterval(s, p);
    RebuildFrame(s0, answer);
    var (s1, ok) := Rebuild(s0, answer);
    var floor := RevisedInterval(s1, answer);
    RaisedFacts(s1.items, ItemMap(p.accepted).Keys, floor, p.results);
    var (after, results) := Settle(p, answer);
    forall k | 0 <= k < |rs| && results[k].status == Good
      ensures Delivered(s, rs[k], results[k], after.items) && RaisedToRate(s, rs[k], Rate(after, answer), results[k].revisedSamplingMs)
    {
      OneDelivered(s, rs[k], p.accepted[p.results[k].itemId - s.nextItemId - 1].1, p.results[k], floor, results[k], after.items);
    }
    forall id | id in after.items ensures id in s.items || Announced(results, id) {
      AnnouncedSame(p.results, results, id);
    }
  }

  lemma SameInterval(s: Sub, p: Prepared)
    requires FreshIds(s, p)
    ensures Register(p.sub, p.accepted).intervalMs == s.intervalMs && Register(p.sub, p.accepted).nextItemId == s.nextItemId + |p.accepted|
  {
  }

  lemma NothingAdded(s: Sub, rs: seq<CreateRequest>, answer: Answer, sub: Sub, results: seq<CreateResult>)
    requires |results| == |rs| && Numbered(s, results, 0) && Judged(s, rs, results) && sub.items == s.items && sub.nextItemId == s.nextItemId
    ensures DeliveredAll(s, rs, answer, sub, results)
    ensures forall k :: 0 <= k < |rs| ==> results[k].status != Good
  {
    hide Admitted, Reason, Announced;
  }

  lemma PreparedSub(s: Sub, rs: seq<CreateRequest>, p: Prepared)
    requires FreshIds(s, p) && Matched(s, rs, p.results, p.accepted)
    ensures p.sub.items == s.items && p.sub.nextItemId == s.nextItemId + |p.accepted| && p.sub.da == s.da && p.sub.byHandle == s.byHandle && |p.results| == |rs|
  {
  }

  lemma DeliveredUnlessRefused(s: Sub, rs: seq<CreateRequest>, answer: Answer)
    requires SlotsAgree(s) && (answer.Granted? || !NeedsGroup(s, rs))
    ensures var (s1, results) := CreateItems(s, rs, answer); DeliveredAll(s, rs, answer, s1, results)
  {
    hide SlotsAgree, FreshIds, Matched, Numbered, Judged, DeliveredAll, DeadbandOf, Settle, ReadableItems, Register;
    PreparedAsAsked(s, rs);
    PreparedFacts(s, rs);
    var p := PrepareAll(s, rs);
    if p.accepted == [] {
      PreparedSub(s, rs, p);
      NothingAdded(s, rs, answer, p.sub, p.results);
    } else {
      SettledAsAsked(s, rs, p, answer);
    }
  }

  lemma RegisteredCovers(s: Sub, rs: seq<CreateRequest>, p: Prepared, x: string)
    requires SlotsAgree(s) && FreshIds(s, p)
    requires Matched(s, rs, p.results, p.accepted) && Numbered(s, p.results, |p.accepted|) && Judged(s, rs, p.results)
    ensures x in ReadableItems(Register(p.sub, p.accepted).items) <==> Covered(s, rs, x)
  {
    hide SlotsAgree, FreshIds, Admitted, Reason, RaisedToNode, Register, ItemMap;
    RegisteredItems(s, p);
    var items := Register(p.sub, p.accepted).items;
    if x in ReadableItems(items) && !ItemOn(s.items, x) {
      var id :| id in items && !items[id].notReadable && items[id].itemId == x;
      assert Announced(p.results, id);
      var k: nat :| k < |p.results| && p.results[k].status == Good && p.results[k].itemId == id;
      assert Admitted(s, rs, k) && Readable(rs[k]);
    }
    if k: nat :| k < |rs| && Admitted(s, rs, k) && Readable(rs[k]) && rs[k].node.itemId == x {
      assert items[p.results[k].itemId] == p.accepted[p.results[k].itemId - s.nextItemId - 1].1;
    }
  }

  /** Something is accepted exactly if some request is admitted. */
  lemma SomethingAccepted(s: Sub, rs: seq<CreateRequest>, results: seq<CreateResult>, count: nat)
    requires Numbered(s, results, count) && Judged(s, rs, results)
    ensures 0 < count <==> SomeAdmitted(s, rs)
  {
    hide Admitted, Reason;
    if 0 < count {
      assert Announced(results, s.nextItemId + 1);
      var k: nat :| k < |results| && results[k].status == Good && results[k].itemId == s.nextItemId + 1;
      assert Admitted(s, rs, k);
    }
  }

  /** The group is needed exactly if some request is admitted and something is there to be read. */
  lemma NeedsGroupExactly(s: Sub, rs: seq<CreateRequest>)
    requires SlotsAgree(s)
    ensures NeedsGroup(s, rs) <==> SomeAdmitted(s, rs) && exists x :: Covered(s, rs, x)
  {
    hide SlotsAgree, FreshIds, Matched, Numbered, Judged, DeadbandOf, ReadableItems, Register, Admitted, Covered;
    PreparedAsAsked(s, rs);
    PreparedFacts(s, rs);
    var p := PrepareAll(s, rs);
    SomethingAccepted(s, rs, p.results, |p.accepted|);
    var readable := ReadableItems(Register(p.sub, p.accepted).items);
    forall x ensures x in readable <==> Covered(s, rs, x) {
      RegisteredCovers(s, rs, p, x);
    }
    if readable != {} {
      var x :| x in readable;
    }
  }

  /** The group after the create: none if nothing can be read, else the one granted, over exactly what can be. */
  ghost predicate GroupOver(s: Sub, rs: seq<CreateRequest>, answer: Answer, da: Option<Group>) {
    && (da.None? <==> forall x :: !Covered(s, rs, x))
    && (da.Some? ==> answer.Granted? && da.value.id == answer.group && forall x :: x in da.value.items <==> Covered(s, rs, x))
  }

  lemma SettledGroup(s: Sub, rs: seq<CreateRequest>, p: Prepared, answer: Answer)
    requires SlotsAgree(s) && FreshIds(s, p)
    requires Matched(s, rs, p.results, p.accepted) && Numbered(s, p.results, |p.accepted|) && Judged(s, rs, p.results)
    requires answer.Granted? || ReadableItems(Register(p.sub, p.accepted).items) == {}
    ensures GroupOver(s, rs, answer, Settle(p, answer).0.da)
  {
    hide SlotsAgree, FreshIds, Matched, Numbered, Judged, ReadableItems, Register, Covered, Raised, RaisedResults;
    var readable := ReadableItems(Register(p.sub, p.accepted).items);
    forall x ensures x in readable <==> Covered(s, rs, x) {
      RegisteredCovers(s, rs, p, x);
    }
    if readable != {} {
      var x :| x in readable;
    }
  }

  lemma GroupUnlessRefused(s: Sub, rs: seq<CreateRequest>, answer: Answer)
    requires SlotsAgree(s) && (answer.Granted? || !NeedsGroup(s, rs))
    ensures var s1 := CreateItems(s, rs, answer).0;
      if SomeAdmitted(s, rs) then GroupOver(s, rs, answer, s1.da) else s1.da == s.da
  {
    hide SlotsAgree, FreshIds, Matched, Numbered, Judged, DeadbandOf, Settle, ReadableItems, Register, SomeAdmitted, GroupOver;
    PreparedAsAsked(s, rs);
    PreparedFacts(s, rs);
    var p := PrepareAll(s, rs);
    SomethingAccepted(s, rs, p.results, |p.accepted|);
    PreparedSub(s, rs, p);
    if p.accepted != [] {
      SettledGroup(s, rs, p, answer);
    }
  }

  /** Every request admitted failed with the code of the source, and the others for their own reasons. */
  ghost predicate AllFailed(s: Sub, rs: seq<CreateRequest>, code: int, results: seq<CreateResult>) {
    && |results| == |rs|
    && (forall k: nat :: k < |rs| ==> Blank(results[k]))
    && (forall k: nat :: k < |rs| && Admitted(s, rs, k) ==> results[k].status == BadSourceFailure(code))
    && (forall k: nat :: k < |rs| && !Admitted(s, rs, k) ==> results[k].status != Good && Reason(s, rs, k, results[k].status))
  }

  lemma FailedAll(s: Sub, rs: seq<CreateRequest>, results: seq<CreateResult>, code: int)
    requires Judged(s, rs, results)
    ensures AllFailed(s, rs, code, FailedResults(results, BadSourceFailure(code)))
  {
    hide Admitted, Reason;
  }

  lemma FailedIfRefused(s: Sub, rs: seq<CreateRequest>, answer: Answer)
    requires SlotsAgree(s) && answer.Refused? && NeedsGroup(s, rs)
    ensures var (s1, results) := CreateItems(s, rs, answer);
      && s1.items == s.items && s1.byHandle == s.byHandle && s1.heldOrder == s.heldOrder && s1.da == s.da
      && AllFailed(s, rs, answer.code, results)
  {
    hide SlotsAgree, FreshIds, Matched, Numbered, Judged, DeadbandOf, ReadableItems, Register, Unregister, FailedResults, AllFailed;
    RefusedCreateRestores(s, rs, answer);
    PreparedAsAsked(s, rs);
    FailedAll(s, rs, PrepareAll(s, rs).results, answer.code);
  }

  lemma DeadbandAfter(s: Sub, rs: seq<CreateRequest>, answer: Answer)
    ensures DeadbandOf(s, rs, CreateItems(s, rs, answer).0.deadband)
  {
    hide DeadbandOf, Settle, Matched, Numbered, Judged;
    PreparedAsAsked(s, rs);
    SettledDeadband(PrepareAll(s, rs), answer);
  }

  /**
   * A create is undone exactly if the source refuses a group that is needed: some
   * request is admitted, and there is something to be read.
   *
   * Otherwise every request admitted gets the item it asks for, under a new id of
   * its own and with the interval its result gives; the items there were stay as
   * they were, and there are no others; and the group covers exactly what could be
   * read before and what the requests admitted add. Undone, it leaves the items,
   * the handles and the group alone. Every refusal has its reason, and either way
   * the deadband is from then on that of the requests admitted.
   */
  lemma CreatedAsAsked(s: Sub, rs: seq<CreateRequest>, answer: Answer)
    requires SlotsAgree(s)
    ensures DeadbandOf(s, rs, CreateItems(s, rs, answer).0.deadband)
    ensures var (s1, results) := CreateItems(s, rs, answer);
      if answer.Refused? && SomeAdmitted(s, rs) && exists x :: Covered(s, rs, x)
      then s1.items == s.items && s1.byHandle == s.byHandle && s1.heldOrder == s.heldOrder && s1.da == s.da && AllFailed(s, rs, answer.code, results)
      else DeliveredAll(s, rs, answer, s1, results) && if SomeAdmitted(s, rs) then GroupOver(s, rs, answer, s1.da) else s1.da == s.da
  {
    hide SlotsAgree, NeedsGroup, CreateItems, DeliveredAll, GroupOver, AllFailed, SomeAdmitted, Covered, DeadbandOf;
    NeedsGroupExactly(s, rs);
    DeadbandAfter(s, rs, answer);
    if answer.Refused? && NeedsGroup(s, rs) {
      FailedIfRefused(s, rs, answer);
    } else {
      DeliveredUnlessRefused(s, rs, answer);
      GroupUnlessRefused(s, rs, answer);
    }
  }

  // ---------------------------------------------------------------- what a delete takes

  /** Deleted: named, live, and not named before. */
  predicate Takes(s: Sub, ids: seq<nat>, k: nat)
    requires k < |ids|
  {
    ids[k] in s.items && ids[k] !in ids[..k]
  }

  ghost predicate Answered(s: Sub, ids: seq<nat>, results: seq<StatusCode>) {
    && |results| == |ids|
    && forall k: nat :: k < |ids| ==> results[k] == if Takes(s, ids, k) then Good else BadMonitoredItemIdInvalid
  }

  /** The handles kept are those no deleted item carries. */
  ghost predicate HandlesKept(s: Sub, ids: seq<nat>, byHandle: map<nat, nat>) {
    && (forall h :: h in byHandle <==> h in s.byHandle && forall id :: id in ids && id in s.items ==> s.items[id].clientHandle != h)
    && (forall h :: h in byHandle ==> byHandle[h] == s.byHandle[h])
  }

  lemma TakesBefore(s: Sub, ids: seq<nat>, k: nat)
    requires k < |ids| - 1
    ensures Takes(s, ids[..|ids| - 1], k) <==> Takes(s, ids, k)
  {
    assert ids[..|ids| - 1][..k] == ids[..k];
  }

  lemma {:induction false} DeletedOneByOne(s: Sub, ids: seq<nat>)
    ensures Answered(s, ids, DeleteAll(s, ids).1) && HandlesKept(s, ids, DeleteAll(s, ids).0.byHandle)
  {
    if ids != [] {
      var n := |ids| - 1;
      DeletedOneByOne(s, ids[..n]);
      DeletedItems(s, ids[..n]);
      forall k: nat | k < n ensures Takes(s, ids[..n], k) <==> Takes(s, ids, k) {
        TakesBefore(s, ids, k);
      }
      assert ids == ids[..n] + [ids[n]];
    }
  }

  /**
   * A delete takes exactly the live items named, each answered Good where it is
   * named first, and the handles they carry. When it takes one, the group is then
   * over exactly the rest that can be read; there is none if there is no such rest
   * or the source refuses. Otherwise nothing changes.
   */
  lemma DeletedExactly(s: Sub, ids: seq<nat>, answer: Answer)
    ensures var (s1, results) := DeleteItems(s, ids, answer);
      && Answered(s, ids, results) && HandlesKept(s, ids, s1.byHandle)
      && (forall id :: id in s1.items <==> id in s.items && id !in ids) && (forall id :: id in s1.items ==> s1.items[id] == s.items[id])
      && if !exists id :: id in ids && id in s.items then s1 == s
         else if answer.Refused? then s1.da.None?
         else
           && (s1.da.None? <==> forall x :: !ItemOn(s1.items, x))
           && (s1.da.Some? ==> s1.da.value.id == answer.group && forall x :: x in s1.da.value.items <==> ItemOn(s1.items, x))
  {
    hide DeleteAll, HandlesKept, ReadableItems;
    DeletedItems(s, ids);
    DeletedOneByOne(s, ids);
    var (s0, results) := DeleteAll(s, ids);
    SomeTaken(s, ids, results);
    ReadableExactly(s0.items);
    assert (s0.items.Keys) == s.items.Keys - Elements(ids);
  }

  lemma ReadableExactly(items: map<nat, Item>)
    ensures forall x :: x in ReadableItems(items) <==> ItemOn(items, x)
    ensures ReadableItems(items) == {} <==> forall x :: !ItemOn(items, x)
  {
    if ReadableItems(items) != {} {
      var x :| x in ReadableItems(items);
    }
  }

  lemma SomeTaken(s: Sub, ids: seq<nat>, results: seq<StatusCode>)
    requires Answered(s, ids, results)
    ensures Good in results <==> exists id :: id in ids && id in s.items
  {
    if k: nat :| k < |results| && results[k] == Good {
      assert ids[k] in ids;
    }
    if id :| id in ids && id in s.items {
      var k := IndexOf(ids, id);
      FirstIndex(ids, id);
      assert Takes(s, ids, k) && results[k] == Good;
    }
  }

  lemma {:induction false} FirstIndex(ids: seq<nat>, id: nat)
    requires id in ids
    ensures id !in ids[..IndexOf(ids, id)]
  {
    if ids[0] != id {
      FirstIndex(ids[1..], id);
      assert ids[..IndexOf(ids, id)] == [ids[0]] + ids[1..][..IndexOf(ids[1..], id)];
    }
  }
}
