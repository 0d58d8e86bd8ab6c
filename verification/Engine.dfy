/**
 * One UA Subscription as a value: the fields of uaSubscription and
 * monitoredItem, and each operation of the publishing engine as a function from
 * the subscription it is applied to.
 *
 * Go leaves the order of a `range` over a map open, so every operation that
 * ranges over the items takes that order as an argument.
 */
module Engine {
  import opened Prelude
  import opened Ints

  /** Nanoseconds, as time.Time differences are measured. */
  type Time = int

  datatype StatusCode =
    | Good
    | BadInvalidArgument
    | BadMonitoringModeInvalid
    | BadIndexRangeInvalid
    | BadAttributeIdInvalid
    | BadNodeIdUnknown
    | BadNotSupported
    | BadDeadbandFilterInvalid
    | BadMonitoredItemFilterUnsupported
    | BadMonitoredItemIdInvalid
    | BadSubscriptionIdInvalid
    | BadSequenceNumberUnknown
    | BadMessageNotAvailable
    | BadNothingToDo
    | BadNoSubscription
    | BadTooManySubscriptions
    | BadTooManyMonitoredItems
    | BadTimestampsToReturnInvalid
    | BadSourceFailure(code: int)

  /** What a monitored item reports: a mapped source value, or one of the two statuses the engine makes up itself. */
  datatype DataValue = Sample(payload: int, semanticsChanged: bool) | NotReadable | NotConnected(serverTime: Option<Time>)

  datatype Mode = Disabled | Sampling | Reporting

  datatype Item = Item(
    clientHandle: nat,
    itemId: string,
    mode: Mode,
    serverTimestamps: bool,
    notReadable: bool,
    samplingMs: Double,
    semanticGeneration: nat,
    held: Option<DataValue>,
    lastReported: Option<Time>)

  datatype Notification = Notification(clientHandle: nat, value: DataValue)

  datatype Message = Message(number: nat, publishTime: Time, notifications: seq<Notification>, hasData: bool)

  /** A DA group the source granted, with the item set it was created over. */
  datatype Group = Group(id: nat, items: set<string>)

  datatype Sub = Sub(
    session: string,
    enabled: bool,
    intervalMs: nat,
    keepAliveCount: nat,
    lifetimeCount: nat,
    maxNotifications: nat,
    priority: nat,
    items: map<nat, Item>,
    nextItemId: nat,
    byHandle: map<nat, nat>,
    heldOrder: seq<nat>,
    deadband: Option<Double>,
    da: Option<Group>,
    sequenceNumber: nat,
    pending: seq<Notification>,
    retransmit: map<nat, Message>,
    retransmitOrder: seq<nat>,
    keepAliveTicks: nat,
    messageSent: bool,
    lastKeptAlive: Time)

  // ---------------------------------------------------------------- pacing

  /** The pace an item is held to: its interval cut to whole milliseconds, as an int64 of nanoseconds. */
  function PaceNs(i: Item): i64 {
    Milliseconds(i.samplingMs)
  }

  /** An item that has never reported is due: its zero time is longer ago than any Duration. */
  predicate Due(i: Item, now: Time) {
    i.lastReported.None? || Elapsed(i.lastReported.value, now) >= PaceNs(i)
  }

  predicate Holds(items: map<nat, Item>, id: nat) {
    id in items && items[id].held.Some?
  }

  /** The ids of `order` that hold a value which is due. */
  function DueNow(items: map<nat, Item>, order: seq<nat>, now: Time): seq<nat> {
    if order == [] then []
    else
      var rest := DueNow(items, order[..|order| - 1], now);
      var id := order[|order| - 1];
      if Holds(items, id) && Due(items[id], now) then rest + [id] else rest
  }

  /** The ids of `order` that hold a value which is not due yet. */
  function StillHeld(items: map<nat, Item>, order: seq<nat>, now: Time): seq<nat> {
    if order == [] then []
    else
      var rest := StillHeld(items, order[..|order| - 1], now);
      var id := order[|order| - 1];
      if Holds(items, id) && !Due(items[id], now) then rest + [id] else rest
  }

  function Reported(i: Item, now: Time): Item {
    i.(held := None, lastReported := Some(now))
  }

  /** The notification that reports an item's held value. */
  function NoteOf(items: map<nat, Item>, id: nat): Notification {
    if Holds(items, id) then Notification(items[id].clientHandle, items[id].held.value) else Notification(0, NotReadable)
  }

  function Notes(items: map<nat, Item>, ids: seq<nat>): seq<Notification> {
    seq(|ids|, k requires 0 <= k < |ids| => NoteOf(items, ids[k]))
  }

  lemma DueNowHolds(items: map<nat, Item>, order: seq<nat>, now: Time)
    ensures forall id :: id in DueNow(items, order, now) <==> id in order && Holds(items, id) && Due(items[id], now)
  {
  }

  lemma StillHeldHolds(items: map<nat, Item>, order: seq<nat>, now: Time)
    ensures forall id :: id in StillHeld(items, order, now) <==> id in order && Holds(items, id) && !Due(items[id], now)
  {
  }

  /** The items with those in `ids` just reported. */
  function AllReported(items: map<nat, Item>, ids: seq<nat>, now: Time): map<nat, Item> {
    map id | id in items :: if id in ids then Reported(items[id], now) else items[id]
  }

  /** Reports every held value that is due, in the order the items began holding one. */
  function FlushHeld(s: Sub, now: Time): Sub {
    if !s.enabled then s
    else
      var ids := DueNow(s.items, s.heldOrder, now);
      s.(heldOrder := StillHeld(s.items, s.heldOrder, now),
         pending := s.pending + Notes(s.items, ids),
         items := AllReported(s.items, ids, now))
  }

  // ---------------------------------------------------------------- collecting

  /** An unreadable item owes its client one status. */
  predicate OwesStatus(i: Item) {
    i.notReadable && i.lastReported.None? && i.held.None? && i.mode.Reporting?
  }

  function Owing(items: map<nat, Item>, order: seq<nat>): seq<nat> {
    if order == [] then []
    else
      var rest := Owing(items, order[..|order| - 1]);
      var id := order[|order| - 1];
      if id in items && OwesStatus(items[id]) then rest + [id] else rest
  }

  /** The items with their status in place of an empty slot, for those in `order` that owe one. */
  function WithStatus(items: map<nat, Item>, order: seq<nat>): map<nat, Item> {
    map id | id in items :: if id in order && OwesStatus(items[id]) then items[id].(held := Some(NotReadable)) else items[id]
  }

  function HoldUnreadable(s: Sub, order: seq<nat>): Sub {
    s.(heldOrder := s.heldOrder + Owing(s.items, order), items := WithStatus(s.items, order))
  }

  /** One drained source value, with the order its lookup ranges over the items in and the address space's semantic generation of its item. */
  datatype Update = Update(itemId: string, payload: int, generation: nat, order: seq<nat>)

  /** The first item in `order` that carries the ItemID. */
  function FindItem(items: map<nat, Item>, order: seq<nat>, itemId: string): (r: Option<nat>)
    ensures r.Some? ==> r.value in items && r.value in order && items[r.value].itemId == itemId
  {
    if order == [] then None
    else if order[0] in items && items[order[0]].itemId == itemId then Some(order[0])
    else FindItem(items, order[1..], itemId)
  }

  /** The item a drained value is held for, if it is one that reports. */
  function Target(s: Sub, u: Update): (r: Option<nat>)
    ensures r.Some? ==> r.value in s.items
  {
    var found := FindItem(s.items, u.order, u.itemId);
    if found.Some? && s.items[found.value].mode.Reporting? then found else None
  }

  /** The value an item is notified of: it says so when the semantics changed since the item last looked. */
  function Mapped(i: Item, u: Update): DataValue {
    Sample(u.payload, u.generation != i.semanticGeneration)
  }

  /** The newest value wins the item's slot; the item keeps its place if it already held one. */
  function Hold(s: Sub, id: nat, u: Update): Sub
    requires id in s.items
  {
    s.(heldOrder := if s.items[id].held.None? then s.heldOrder + [id] else s.heldOrder,
       items := s.items[id := s.items[id].(held := Some(Mapped(s.items[id], u)), semanticGeneration := u.generation)])
  }

  function Route(s: Sub, u: Update): Sub {
    var target := Target(s, u);
    if target.Some? then Hold(s, target.value, u) else s
  }

  function RouteAll(s: Sub, us: seq<Update>): Sub {
    if us == [] then s else Route(RouteAll(s, us[..|us| - 1]), us[|us| - 1])
  }

  function Invalidation(i: Item, now: Time): Notification {
    Notification(i.clientHandle, NotConnected(if i.serverTimestamps then Some(now) else None))
  }

  function InvalidationNotes(items: map<nat, Item>, order: seq<nat>, now: Time): seq<Notification> {
    if order == [] then []
    else
      var rest := InvalidationNotes(items, order[..|order| - 1], now);
      var id := order[|order| - 1];
      if id in items && items[id].mode.Reporting? then rest + [Invalidation(items[id], now)] else rest
  }

  /** The items with the slots of those in `ids` emptied. */
  function Emptied(items: map<nat, Item>, ids: set<nat>): map<nat, Item> {
    map id | id in items :: if id in ids then items[id].(held := None) else items[id]
  }

  /** The source is gone: held values are dropped and every reporting item is told. */
  function ReportInvalidation(s: Sub, now: Time, order: seq<nat>): Sub {
    s.(heldOrder := [],
       items := Emptied(s.items, s.items.Keys),
       pending := s.pending + InvalidationNotes(s.items, order, now))
  }

  /** What polling the DA group yields: it was invalidated, or it delivers its pending set. */
  datatype Poll = Invalidated(order: seq<nat>) | Delivered(updates: seq<Update>)

  function Collect(s: Sub, now: Time, order: seq<nat>, poll: Poll): Sub {
    var s1 := HoldUnreadable(s, order);
    if s1.da.None? then FlushHeld(s1, now)
    else match poll
      case Invalidated(o) => ReportInvalidation(s1, now, o).(da := None)
      case Delivered(us) => FlushHeld(RouteAll(s1, us), now)
  }

  // ---------------------------------------------------------------- publishing

  datatype Limits = Limits(maxNotificationsPerPublish: nat, maxRetransmissionQueue: nat) {
    predicate Valid() {
      0 < maxNotificationsPerPublish && 2 <= maxRetransmissionQueue
    }
  }

  function Numbers(order: seq<nat>): set<nat> {
    set n | n in order
  }

  /** Without the `k` oldest messages. */
  function DropOldest(s: Sub, k: nat): Sub
    requires k <= |s.retransmitOrder|
  {
    s.(retransmit := s.retransmit - Numbers(s.retransmitOrder[..k]), retransmitOrder := s.retransmitOrder[k..])
  }

  /** Drops the oldest messages, just as many as it takes to have room for one more. */
  function MakeRoom(s: Sub, max: nat): Sub
    requires 0 < max
  {
    DropOldest(s, if |s.retransmitOrder| < max then 0 else |s.retransmitOrder| - max + 1)
  }

  function QueueForRetransmission(s: Sub, m: Message, max: nat): Sub
    requires 0 < max
  {
    var room := MakeRoom(s, max);
    room.(retransmit := room.retransmit[m.number := m], retransmitOrder := room.retransmitOrder + [m.number])
  }

  function PublishMaximum(s: Sub, limits: Limits): nat {
    if 0 < s.maxNotifications < limits.maxNotificationsPerPublish then s.maxNotifications
    else limits.maxNotificationsPerPublish
  }

  /** One publishing cycle after collecting: a data message, a keep-alive that has come due, or nothing. */
  function BuildMessage(s: Sub, now: Time, limits: Limits): (Sub, Option<Message>)
    requires limits.Valid()
  {
    if !s.enabled || s.pending == [] then
      var ticks := s.keepAliveTicks + 1;
      if s.messageSent && ticks < s.keepAliveCount then (s.(keepAliveTicks := ticks), None)
      else (s.(keepAliveTicks := 0, messageSent := true), Some(Message(s.sequenceNumber + 1, now, [], false)))
    else
      var maximum := PublishMaximum(s, limits);
      var count := if |s.pending| > maximum then maximum else |s.pending|;
      var m := Message(s.sequenceNumber + 1, now, s.pending[..count], true);
      var s1 := s.(pending := s.pending[count..], keepAliveTicks := 0, messageSent := true, sequenceNumber := s.sequenceNumber + 1);
      (QueueForRetransmission(s1, m, limits.maxRetransmissionQueue), Some(m))
  }

  /** `order` without its first occurrence of `number`. */
  function RemoveFirst(order: seq<nat>, number: nat): seq<nat> {
    if order == [] then []
    else if order[0] == number then order[1..]
    else [order[0]] + RemoveFirst(order[1..], number)
  }

  function Acknowledge(s: Sub, number: nat): (Sub, StatusCode) {
    if number !in s.retransmit then (s, BadSequenceNumberUnknown)
    else (s.(retransmit := s.retransmit - {number}, retransmitOrder := RemoveFirst(s.retransmitOrder, number)), Good)
  }

  // ---------------------------------------------------------------- items

  /** What the address space knows about the node a client asks to monitor. */
  datatype Node =
    | UnknownNode
    | ItemProperty
    | OtherNode
    | ItemNode(itemId: string, accessRightsKnown: bool, currentRead: bool, analog: bool, minimumSamplingMs: Option<Double>, generation: nat)

  /** A monitoring filter: absent, of a type other than DataChangeFilter, one whose body cannot be read, or one read. */
  datatype Filter = NoFilter | OtherFilter | UnreadableFilter | DataChangeFilter(trigger: u32, deadbandType: u32, value: Double)

  /** deadbandForFilter: the percent deadband asked for, as a float32, and why it is refused. */
  function DeadbandForFilter(f: Filter): (Double, StatusCode) {
    match f
    case NoFilter => (Finite(0.0), Good)
    case OtherFilter => (Finite(0.0), BadMonitoredItemFilterUnsupported)
    case UnreadableFilter => (Finite(0.0), BadMonitoredItemFilterUnsupported)
    case DataChangeFilter(trigger, deadbandType, value) =>
      if trigger != 0 && trigger != 1 then (Finite(0.0), BadMonitoredItemFilterUnsupported)
      else if deadbandType == 0 then (Finite(0.0), Good)
      else if deadbandType != 2 then (Finite(0.0), BadMonitoredItemFilterUnsupported)
      else if value.Less(Finite(0.0)) || Finite(100.0).Less(value) then (Finite(0.0), BadDeadbandFilterInvalid)
      else (if value.Finite? then Finite(ToFloat32(value.value)) else NaN, Good)
  }

  datatype CreateRequest = CreateRequest(
    mode: Option<Mode>,
    hasIndexRange: bool,
    valueAttribute: bool,
    filter: Filter,
    node: Node,
    clientHandle: nat,
    serverTimestamps: bool,
    requestedSamplingMs: Double)
  {
    function Deadband(): Double { DeadbandForFilter(filter).0 }
    function FilterStatus(): StatusCode { DeadbandForFilter(filter).1 }
  }

  datatype CreateResult = CreateResult(status: StatusCode, itemId: nat, revisedSamplingMs: Double)

  function Failed(status: StatusCode): CreateResult {
    CreateResult(status, 0, Finite(0.0))
  }

  function RequestedSampling(s: Sub, r: CreateRequest): (ms: Double)
    ensures ms.NonNegative()
  {
    var asked := if r.requestedSamplingMs.Less(Finite(0.0)) then Finite(s.intervalMs as real) else r.requestedSamplingMs;
    if r.node.ItemNode? && r.node.minimumSamplingMs.Some? && asked.Less(r.node.minimumSamplingMs.value)
    then r.node.minimumSamplingMs.value else asked
  }

  /** Why a request is refused, checked in the order the code checks it; Good when it is accepted. */
  function Refusal(s: Sub, r: CreateRequest): StatusCode {
    if r.mode.None? then BadMonitoringModeInvalid
    else if r.hasIndexRange then BadIndexRangeInvalid
    else if !r.valueAttribute then BadAttributeIdInvalid
    else if r.FilterStatus() != Good then r.FilterStatus()
    else if s.deadband.Some? && !s.deadband.value.Equal(r.Deadband()) then BadMonitoredItemFilterUnsupported
    else match r.node
      case UnknownNode => BadNodeIdUnknown
      case ItemProperty => BadNotSupported
      case OtherNode => BadAttributeIdInvalid
      case ItemNode(_, _, _, analog, _, _) =>
        if Finite(0.0).Less(r.Deadband()) && !analog then BadDeadbandFilterInvalid
        else if r.clientHandle in s.byHandle then BadInvalidArgument
        else Good
  }

  function NewItem(s: Sub, r: CreateRequest): Item
    requires Refusal(s, r) == Good
  {
    Item(r.clientHandle, r.node.itemId, r.mode.value, r.serverTimestamps,
         r.node.accessRightsKnown && !r.node.currentRead, RequestedSampling(s, r), r.node.generation, None, None)
  }

  /** What preparing a batch leaves behind: the counters moved on, the answers, and the accepted items by id. */
  datatype Prepared = Prepared(sub: Sub, results: seq<CreateResult>, accepted: seq<(nat, Item)>)

  function PrepareOne(p: Prepared, r: CreateRequest): Prepared {
    var refusal := Refusal(p.sub, r);
    if refusal != Good then p.(results := p.results + [Failed(refusal)])
    else
      var item := NewItem(p.sub, r);
      var id := p.sub.nextItemId + 1;
      Prepared(p.sub.(deadband := Some(r.Deadband()), nextItemId := id),
               p.results + [CreateResult(Good, id, item.samplingMs)],
               p.accepted + [(id, item)])
  }

  function PrepareAll(s: Sub, rs: seq<CreateRequest>): Prepared {
    if rs == [] then Prepared(s, [], [])
    else PrepareOne(PrepareAll(s, rs[..|rs| - 1]), rs[|rs| - 1])
  }

  /** The accepted items by id. */
  function ItemMap(accepted: seq<(nat, Item)>): map<nat, Item> {
    if accepted == [] then map[]
    else
      var (id, item) := accepted[|accepted| - 1];
      ItemMap(accepted[..|accepted| - 1])[id := item]
  }

  /** The accepted ids by client handle; the later of two that share a handle. */
  function HandleMap(accepted: seq<(nat, Item)>): map<nat, nat> {
    if accepted == [] then map[]
    else
      var (id, item) := accepted[|accepted| - 1];
      HandleMap(accepted[..|accepted| - 1])[item.clientHandle := id]
  }

  function Register(s: Sub, accepted: seq<(nat, Item)>): Sub {
    s.(items := s.items + ItemMap(accepted), byHandle := s.byHandle + HandleMap(accepted))
  }

  /** Undoes a registration the source refused. */
  function Unregister(s: Sub, accepted: seq<(nat, Item)>): Sub {
    s.(items := s.items - ItemMap(accepted).Keys, byHandle := s.byHandle - HandleMap(accepted).Keys)
  }

  /** The source's answer to Subscribe. */
  datatype Answer = Granted(group: nat, revisedMs: int) | Refused(code: int)

  function ReadableItems(items: map<nat, Item>): set<string> {
    set id | id in items && !items[id].notReadable :: items[id].itemId
  }

  function Rebuild(s: Sub, answer: Answer): (Sub, bool) {
    if ReadableItems(s.items) == {} then (s.(da := None), true)
    else match answer
      case Refused(_) => (s, false)
      case Granted(g, _) => (s.(da := Some(Group(g, ReadableItems(s.items)))), true)
  }

  function RevisedInterval(s: Sub, answer: Answer): Double {
    if s.da.Some? && answer.Granted? && answer.revisedMs > 0 then Finite(answer.revisedMs as real) else Finite(s.intervalMs as real)
  }

  /** The group's rate is a floor under every item just created. */
  function RaiseTo(i: Item, floor: Double): Item {
    if i.samplingMs.Less(floor) then i.(samplingMs := floor) else i
  }

  function Raised(items: map<nat, Item>, ids: set<nat>, floor: Double): map<nat, Item> {
    map id | id in items :: if id in ids then RaiseTo(items[id], floor) else items[id]
  }

  function RaisedResults(rs: seq<CreateResult>, floor: Double): seq<CreateResult> {
    seq(|rs|, k requires 0 <= k < |rs| =>
      if rs[k].status == Good && rs[k].revisedSamplingMs.Less(floor) then rs[k].(revisedSamplingMs := floor) else rs[k])
  }

  function FailedResults(rs: seq<CreateResult>, status: StatusCode): seq<CreateResult> {
    seq(|rs|, k requires 0 <= k < |rs| => if rs[k].status == Good then Failed(status) else rs[k])
  }

  /** Registers the accepted items and rebuilds the group over the full set, or takes them back. */
  function Settle(p: Prepared, answer: Answer): (Sub, seq<CreateResult>) {
    var (s, ok) := Rebuild(Register(p.sub, p.accepted), answer);
    if ok then
      var floor := RevisedInterval(s, answer);
      (s.(items := Raised(s.items, ItemMap(p.accepted).Keys, floor)), RaisedResults(p.results, floor))
    else
      (Unregister(s, p.accepted), FailedResults(p.results, BadSourceFailure(if answer.Refused? then answer.code else 0)))
  }

  function CreateItems(s: Sub, rs: seq<CreateRequest>, answer: Answer): (Sub, seq<CreateResult>) {
    var p := PrepareAll(s, rs);
    if p.accepted == [] then (p.sub, p.results) else Settle(p, answer)
  }

  function DeleteOne(s: Sub, id: nat): (Sub, StatusCode) {
    if id !in s.items then (s, BadMonitoredItemIdInvalid)
    else (s.(items := s.items - {id}, byHandle := s.byHandle - {s.items[id].clientHandle}), Good)
  }

  function DeleteAll(s: Sub, ids: seq<nat>): (Sub, seq<StatusCode>) {
    if ids == [] then (s, [])
    else
      var (s1, rs) := DeleteAll(s, ids[..|ids| - 1]);
      var (s2, r) := DeleteOne(s1, ids[|ids| - 1]);
      (s2, rs + [r])
  }

  function DeleteItems(s: Sub, ids: seq<nat>, answer: Answer): (Sub, seq<StatusCode>) {
    var (s1, rs) := DeleteAll(s, ids);
    if Good !in rs then (s1, rs)
    else
      var (s2, ok) := Rebuild(s1, answer);
      (if ok then s2 else s2.(da := None), rs)
  }
}
