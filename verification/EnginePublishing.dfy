/** What publishing promises over a whole run: conservation, numbering, keep-alives, the retransmission queue and the DA group. */
module EnginePublishing {
  import opened Prelude
  import opened Ints
  import opened Engine
  import opened EngineRuns

  // ---------------------------------------------------------------- conservation

  /** Everything the messages carry, in order. */
  function Carried(ms: seq<Message>): seq<Notification> {
    if ms == [] then [] else Carried(ms[..|ms| - 1]) + ms[|ms| - 1].notifications
  }

  /** Nothing queued is lost, repeated or reordered, and data messages are numbered from one without a gap. */
  ghost predicate Conserves(w: World) {
    && Carried(w.sent) + w.sub.pending == w.enqueued
    && w.sub.sequenceNumber == |w.sent|
    && forall k :: 0 <= k < |w.sent| ==> w.sent[k].number == k + 1 && w.sent[k].hasData && w.sent[k].notifications != []
  }

  /** Collecting queues notifications and sends nothing. */
  lemma CollectConserves(w: World, now: Time, order: seq<nat>, poll: Poll)
    requires Conserves(w)
    ensures var w1 := WithCollect(w, now, order, poll);
      Conserves(w1) && w1.sent == w.sent && w1.acked == w.acked && w1.cycles == w.cycles
      && w1.sub.retransmit == w.sub.retransmit && w1.sub.retransmitOrder == w.sub.retransmitOrder
      && w1.sub.keepAliveTicks == w.sub.keepAliveTicks && w1.sub.messageSent == w.sub.messageSent
      && w1.sub.keepAliveCount == w.sub.keepAliveCount
  {
    var w1 := WithStatusHeld(w, order);
    if w1.sub.da.None? {
      FlushConserves(w1, now);
    } else {
      match poll
      case Invalidated(o) =>
        var notes := InvalidationNotes(w1.sub.items, o, now);
        assert Carried(w.sent) + (w.sub.pending + notes) == w.enqueued + notes;
      case Delivered(us) =>
        SameRoutes(w1, us);
        RoutesFrame(w1.sub, us);
        FlushConserves(WithRoutes(w1, us), now);
    }
  }

  lemma FlushConserves(w: World, now: Time)
    requires Conserves(w)
    ensures Conserves(WithFlush(w, now))
  {
  }

  lemma {:induction false} RoutesFrame(s: Sub, us: seq<Update>)
    ensures RouteAll(s, us) == s.(items := RouteAll(s, us).items, heldOrder := RouteAll(s, us).heldOrder)
  {
    if us != [] {
      RoutesFrame(s, us[..|us| - 1]);
    }
  }

  lemma CarriedGrows(sent: seq<Message>, m: Message)
    ensures Carried(sent + [m]) == Carried(sent) + m.notifications
  {
  }

  /** What a data message leaves behind. */
  lemma DataMessage(s: Sub, now: Time, limits: Limits)
    requires limits.Valid() && s.enabled && s.pending != []
    ensures var (s1, m) := BuildMessage(s, now, limits);
      && m.Some? && m.value.hasData && m.value.number == s.sequenceNumber + 1
      && 0 < |m.value.notifications| <= PublishMaximum(s, limits)
      && m.value.notifications + s1.pending == s.pending
      && s1.sequenceNumber == s.sequenceNumber + 1
  {
    var maximum := PublishMaximum(s, limits);
    var count := if |s.pending| > maximum then maximum else |s.pending|;
    assert s.pending[..count] + s.pending[count..] == s.pending;
  }

  /**
   * A message carries the time of its cycle. With publishing enabled and something
   * pending it takes the front of the queue, as much as the limit of the server and
   * that of the client allow, so that where anything stays behind one of them is
   * reached; otherwise it takes nothing.
   */
  lemma MessagesAreFull(s: Sub, now: Time, limits: Limits)
    requires limits.Valid()
    ensures var (s1, m) := BuildMessage(s, now, limits);
      && (m.Some? ==> m.value.publishTime == now)
      && (m.Some? && m.value.hasData <==> s.enabled && s.pending != [])
      && (if m.Some? then m.value.notifications else []) + s1.pending == s.pending
      && (s.enabled && s.pending != [] ==>
            var n := |m.value.notifications|;
            && 0 < n <= limits.maxNotificationsPerPublish && (0 < s.maxNotifications ==> n <= s.maxNotifications)
            && (s1.pending != [] ==> n == limits.maxNotificationsPerPublish || n == s.maxNotifications))
  {
    if s.enabled && s.pending != [] {
      DataMessage(s, now, limits);
    }
  }

  lemma NoDataMessage(s: Sub, now: Time, limits: Limits)
    requires limits.Valid() && !(s.enabled && s.pending != [])
    ensures var (s1, m) := BuildMessage(s, now, limits);
      (m.Some? ==> !m.value.hasData) && s1.pending == s.pending && s1.sequenceNumber == s.sequenceNumber
  {
  }

  lemma BuildConserves(w: World, now: Time, limits: Limits)
    requires limits.Valid() && Conserves(w)
    ensures var w1 := WithBuild(w, now, limits);
      && Conserves(w1)
      && (forall k :: |w.sent| <= k < |w1.sent| ==> |w1.sent[k].notifications| <= PublishMaximum(w.sub, limits))
  {
    hide BuildMessage, Carried, PublishMaximum;
    var (s1, m) := BuildMessage(w.sub, now, limits);
    if w.sub.enabled && w.sub.pending != [] {
      DataMessage(w.sub, now, limits);
      CarriedGrows(w.sent, m.value);
      assert Carried(w.sent) + (m.value.notifications + s1.pending) == Carried(w.sent) + m.value.notifications + s1.pending;
    } else {
      NoDataMessage(w.sub, now, limits);
    }
  }

  lemma StepConserves(w: World, e: Event, limits: Limits)
    requires limits.Valid() && SlotsAgree(w.sub) && Conserves(w)
    ensures Conserves(Step(w, e, limits))
  {
    hide SlotsAgree, CreateItems, DeleteItems, BuildMessage, HoldUnreadable, WithFlush, WithInvalidation, WithRoutes, WithStatusHeld;
    match e
    case Create(rs, answer) => CreateFrame(w.sub, rs, answer);
    case Delete(ids, answer) => DeletedSub(w.sub, ids, answer);
    case SetPublishing(b) =>
    case Ack(n) =>
    case Touch(now) =>
    case Gather(now, order, poll) => CollectConserves(w, now, order, poll);
    case Emit(now) => BuildConserves(w, now, limits);
  }

  /** A keep-alive takes nothing from the queue and announces the number of the next data message. */
  lemma KeepAliveConsumesNothing(w: World, now: Time, limits: Limits)
    requires limits.Valid() && Conserves(w)
    ensures var (s1, m) := BuildMessage(w.sub, now, limits);
      m.Some? && !m.value.hasData ==>
        && m.value.number == |w.sent| + 1 && m.value.notifications == []
        && s1.pending == w.sub.pending && s1.sequenceNumber == w.sub.sequenceNumber
        && s1.retransmit == w.sub.retransmit && s1.retransmitOrder == w.sub.retransmitOrder
        && (w.sub.enabled ==> w.sub.pending == [])
  {
  }

  // ---------------------------------------------------------------- keep-alives

  /** Some cycle in the window from `i` was answered. */
  ghost predicate Answered(cycles: seq<bool>, i: int, width: int) {
    exists j :: i <= j < i + width && 0 <= j < |cycles| && cycles[j]
  }

  /** The tick counter is the number of unanswered cycles since the last answer. */
  ghost predicate TicksCount(w: World) {
    var (n, t) := (|w.cycles|, w.sub.keepAliveTicks);
    && 1 <= w.sub.keepAliveCount && t < w.sub.keepAliveCount && t <= n
    && (w.sub.messageSent <==> n > 0)
    && (n > 0 ==> t < n && w.cycles[0] && w.cycles[n - t - 1])
    && (forall j :: n - t <= j < n ==> !w.cycles[j])
    && (forall i :: 0 <= i && i + w.sub.keepAliveCount <= n ==> Answered(w.cycles, i, w.sub.keepAliveCount))
  }

  lemma WindowsExtend(cycles: seq<bool>, width: nat, ready: bool, t: nat)
    requires 1 <= width && t < width && t < |cycles| + 1
    requires forall i :: 0 <= i && i + width <= |cycles| ==> Answered(cycles, i, width)
    requires (cycles + [ready])[|cycles| - t]
    ensures forall i :: 0 <= i && i + width <= |cycles| + 1 ==> Answered(cycles + [ready], i, width)
  {
    forall i | 0 <= i && i + width <= |cycles| + 1 ensures Answered(cycles + [ready], i, width) {
      if i + width <= |cycles| {
        assert Answered(cycles, i, width);
        var j :| i <= j < i + width && 0 <= j < |cycles| && cycles[j];
        assert (cycles + [ready])[j];
      } else {
        assert (cycles + [ready])[|cycles| - t];
      }
    }
  }

  lemma BuildKeepsTicks(w: World, now: Time, limits: Limits)
    requires limits.Valid() && TicksCount(w)
    ensures TicksCount(WithBuild(w, now, limits)) && WithBuild(w, now, limits).sub.keepAliveCount == w.sub.keepAliveCount
  {
    BuildFrame(w.sub, now, limits);
    var (s1, m) := BuildMessage(w.sub, now, limits);
    WindowsExtend(w.cycles, w.sub.keepAliveCount, m.Some?, s1.keepAliveTicks);
  }

  lemma StepKeepsTicks(w: World, e: Event, limits: Limits)
    requires limits.Valid() && SlotsAgree(w.sub) && Conserves(w) && TicksCount(w)
    ensures TicksCount(Step(w, e, limits)) && Step(w, e, limits).sub.keepAliveCount == w.sub.keepAliveCount
  {
    hide SlotsAgree, Conserves, CreateItems, DeleteItems, WithBuild, WithCollect;
    match e
    case Create(rs, answer) => CreateFrame(w.sub, rs, answer);
    case Delete(ids, answer) => DeletedSub(w.sub, ids, answer);
    case SetPublishing(b) =>
    case Ack(n) =>
    case Touch(now) =>
    case Gather(now, order, poll) => CollectConserves(w, now, order, poll);
    case Emit(now) => BuildKeepsTicks(w, now, limits);
  }

  // ---------------------------------------------------------------- retransmission

  /** The numbers up to `n` that were never acknowledged, in the order they were sent. */
  function Unacked(n: nat, acked: set<nat>): seq<nat> {
    if n == 0 then [] else Unacked(n - 1, acked) + (if n in acked then [] else [n])
  }

  lemma {:induction false} UnackedFacts(n: nat, acked: set<nat>)
    ensures forall x :: x in Unacked(n, acked) <==> 1 <= x <= n && x !in acked
    ensures NoDup(Unacked(n, acked))
  {
    if n > 0 {
      UnackedFacts(n - 1, acked);
    }
  }

  /** The queue holds, by number, a tail of what was sent and never acknowledged, and no more than its bound. */
  ghost predicate Tail(order: seq<nat>, stored: map<nat, Message>, sent: seq<Message>, acked: set<nat>) {
    && Elements(order) == stored.Keys
    && IsSuffix(order, Unacked(|sent|, acked))
    && (forall n :: n in stored ==> 1 <= n <= |sent| && stored[n] == sent[n - 1])
    && (forall n :: n in acked ==> n <= |sent|)
  }

  ghost predicate QueueOk(w: World, max: nat) {
    |w.sub.retransmitOrder| <= max && Tail(w.sub.retransmitOrder, w.sub.retransmit, w.sent, w.acked)
  }

  lemma SuffixNoDup(a: seq<nat>, b: seq<nat>)
    requires IsSuffix(a, b) && NoDup(b)
    ensures NoDup(a)
  {
  }

  lemma ElementsSplit(order: seq<nat>, k: nat)
    requires k <= |order| && NoDup(order)
    ensures Elements(order[k..]) == Elements(order) - Elements(order[..k])
  {
    assert order == order[..k] + order[k..];
    forall x | x in order[..k] ensures x !in order[k..] {
    }
  }

  /** Dropping the oldest shortens the queue from the front and keeps its keys in step. */
  lemma DropFacts(order: seq<nat>, stored: map<nat, Message>, k: nat)
    requires k <= |order| && NoDup(order) && Elements(order) == stored.Keys
    ensures Elements(order[k..]) == (stored - Numbers(order[..k])).Keys && IsSuffix(order[k..], order)
    ensures forall n :: n in stored - Numbers(order[..k]) ==> n in stored && (stored - Numbers(order[..k]))[n] == stored[n]
  {
    ElementsSplit(order, k);
    assert Elements(order[..k]) == Numbers(order[..k]);
  }

  lemma SuffixExtends(a: seq<nat>, b: seq<nat>, c: seq<nat>, x: nat)
    requires IsSuffix(a, b) && IsSuffix(b, c)
    ensures IsSuffix(a + [x], c + [x])
  {
  }

  lemma TailGrows(order: seq<nat>, stored: map<nat, Message>, kept: seq<nat>, keptStored: map<nat, Message>,
                  sent: seq<Message>, acked: set<nat>, m: Message)
    requires Tail(order, stored, sent, acked) && m.number == |sent| + 1
    requires IsSuffix(kept, order) && Elements(kept) == keptStored.Keys
    requires forall n :: n in keptStored ==> n in stored && keptStored[n] == stored[n]
    ensures Tail(kept + [m.number], keptStored[m.number := m], sent + [m], acked)
  {
    var n := |sent|;
    SuffixExtends(kept, order, Unacked(n, acked), n + 1);
    assert |sent + [m]| == n + 1;
    assert Unacked(n + 1, acked) == Unacked(n, acked) + [n + 1];
    assert Elements(kept + [n + 1]) == Elements(kept) + {n + 1};
    var stored1 := keptStored[m.number := m];
    forall k | k in stored1 ensures 1 <= k <= n + 1 && stored1[k] == (sent + [m])[k - 1] {
      if k != m.number {
        assert k in stored;
      }
    }
  }

  lemma QueueingKeepsQueue(w: World, s: Sub, m: Message, max: nat)
    requires 0 < max && QueueOk(w, max)
    requires s.retransmit == w.sub.retransmit && s.retransmitOrder == w.sub.retransmitOrder
    requires m.number == |w.sent| + 1
    ensures var s1 := QueueForRetransmission(s, m, max);
      |s1.retransmitOrder| <= max && Tail(s1.retransmitOrder, s1.retransmit, w.sent + [m], w.acked)
  {
    hide Unacked, NoDup, IsSuffix, Elements, Numbers;
    UnackedFacts(|w.sent|, w.acked);
    SuffixNoDup(s.retransmitOrder, Unacked(|w.sent|, w.acked));
    var room := MakeRoom(s, max);
    DropFacts(s.retransmitOrder, s.retransmit, |s.retransmitOrder| - |room.retransmitOrder|);
    TailGrows(s.retransmitOrder, s.retransmit, room.retransmitOrder, room.retransmit, w.sent, w.acked, m);
  }

  lemma BuildKeepsQueue(w: World, now: Time, limits: Limits)
    requires limits.Valid() && QueueOk(w, limits.maxRetransmissionQueue) && Conserves(w)
    ensures QueueOk(WithBuild(w, now, limits), limits.maxRetransmissionQueue)
  {
    if w.sub.enabled && w.sub.pending != [] {
      var maximum := PublishMaximum(w.sub, limits);
      var count := if |w.sub.pending| > maximum then maximum else |w.sub.pending|;
      var s1 := w.sub.(pending := w.sub.pending[count..], keepAliveTicks := 0, messageSent := true,
                       sequenceNumber := w.sub.sequenceNumber + 1);
      QueueingKeepsQueue(w, s1, Message(w.sub.sequenceNumber + 1, now, w.sub.pending[..count], true), limits.maxRetransmissionQueue);
    }
  }

  lemma {:induction false} RemoveFromFront(a: seq<nat>, b: seq<nat>, x: nat)
    requires x in a
    ensures RemoveFirst(a + b, x) == RemoveFirst(a, x) + b
  {
    assert (a + b)[0] == a[0] && (a + b)[1..] == a[1..] + b;
    if a[0] != x {
      RemoveFromFront(a[1..], b, x);
    }
  }

  lemma {:induction false} RemoveFromBack(a: seq<nat>, b: seq<nat>, x: nat)
    requires x !in a
    ensures RemoveFirst(a + b, x) == a + RemoveFirst(b, x)
  {
    if a == [] {
      assert a + b == b;
    } else {
      assert (a + b)[0] == a[0] && (a + b)[1..] == a[1..] + b;
      RemoveFromBack(a[1..], b, x);
    }
  }

  lemma {:induction false} RemoveFirstFacts(order: seq<nat>, x: nat)
    requires NoDup(order) && x in order
    ensures Elements(RemoveFirst(order, x)) == Elements(order) - {x}
    ensures |RemoveFirst(order, x)| == |order| - 1
  {
    assert order == [order[0]] + order[1..];
    if order[0] == x {
      assert Elements(order[1..]) == Elements(order) - {x};
    } else {
      RemoveFirstFacts(order[1..], x);
      var rest := RemoveFirst(order[1..], x);
      assert Elements([order[0]] + rest) == {order[0]} + Elements(rest);
      assert Elements(order) == {order[0]} + Elements(order[1..]);
    }
  }

  /** Acknowledging a number removes it from the unacknowledged ones and nothing else. */
  lemma {:induction false} AckedOnce(n: nat, acked: set<nat>, x: nat)
    requires 1 <= x <= n && x !in acked
    ensures Unacked(n, acked + {x}) == RemoveFirst(Unacked(n, acked), x)
  {
    hide NoDup, RemoveFirst;
    UnackedFacts(n - 1, acked);
    var init := Unacked(n - 1, acked);
    if x == n {
      UnackedWithout(n - 1, acked, x);
      RemoveFromBack(init, [x], x);
      RemoveOnly(x);
    } else {
      AckedOnce(n - 1, acked, x);
      RemoveFromFront(init, if n in acked then [] else [n], x);
    }
  }

  lemma RemoveOnly(x: nat)
    ensures RemoveFirst([x], x) == []
  {
  }

  lemma {:induction false} UnackedWithout(n: nat, acked: set<nat>, x: nat)
    requires n < x
    ensures Unacked(n, acked + {x}) == Unacked(n, acked)
  {
    if n > 0 {
      UnackedWithout(n - 1, acked, x);
    }
  }

  lemma SuffixHas(order: seq<nat>, all: seq<nat>, x: nat)
    requires IsSuffix(order, all) && x in order
    ensures x in all
  {
    var j :| 0 <= j < |order| && order[j] == x;
    assert all[|all| - |order| + j] == x;
  }

  lemma SuffixLoses(order: seq<nat>, all: seq<nat>, x: nat)
    requires IsSuffix(order, all) && NoDup(all) && x in order
    ensures IsSuffix(RemoveFirst(order, x), RemoveFirst(all, x))
  {
    hide RemoveFirst;
    var front := all[..|all| - |order|];
    assert all == front + order;
    var j :| 0 <= j < |order| && order[j] == x;
    assert all[|front| + j] == x;
    RemoveFromBack(front, order, x);
    SuffixOf(front, RemoveFirst(order, x));
  }

  lemma SuffixOf(a: seq<nat>, b: seq<nat>)
    ensures IsSuffix(b, a + b)
  {
  }

  lemma StoredWithout(stored: map<nat, Message>, sent: seq<Message>, x: nat)
    requires forall n :: n in stored ==> 1 <= n <= |sent| && stored[n] == sent[n - 1]
    ensures forall n :: n in stored - {x} ==> 1 <= n <= |sent| && (stored - {x})[n] == sent[n - 1]
  {
  }

  lemma TailShrinks(order: seq<nat>, stored: map<nat, Message>, sent: seq<Message>, acked: set<nat>, x: nat)
    requires Tail(order, stored, sent, acked) && x in stored
    ensures Tail(RemoveFirst(order, x), stored - {x}, sent, acked + {x}) && |RemoveFirst(order, x)| < |order|
  {
    hide RemoveFirst, Unacked, NoDup, IsSuffix;
    var all := Unacked(|sent|, acked);
    UnackedFacts(|sent|, acked);
    SuffixNoDup(order, all);
    assert x in Elements(order);
    SuffixHas(order, all, x);
    SuffixLoses(order, all, x);
    RemoveFirstFacts(order, x);
    AckedOnce(|sent|, acked, x);
    StoredWithout(stored, sent, x);
  }

  lemma AckKeepsQueue(w: World, x: nat, limits: Limits)
    requires limits.Valid() && QueueOk(w, limits.maxRetransmissionQueue)
    ensures QueueOk(Step(w, Ack(x), limits), limits.maxRetransmissionQueue)
  {
    if x in w.sub.retransmit {
      TailShrinks(w.sub.retransmitOrder, w.sub.retransmit, w.sent, w.acked, x);
    }
  }

  lemma StepKeepsQueue(w: World, e: Event, limits: Limits)
    requires limits.Valid() && SlotsAgree(w.sub) && Conserves(w) && QueueOk(w, limits.maxRetransmissionQueue)
    ensures QueueOk(Step(w, e, limits), limits.maxRetransmissionQueue)
  {
    hide SlotsAgree, Conserves, Tail, CreateItems, DeleteItems, WithBuild, WithCollect;
    match e
    case Create(rs, answer) => CreateFrame(w.sub, rs, answer);
    case Delete(ids, answer) => DeletedSub(w.sub, ids, answer);
    case SetPublishing(b) =>
    case Ack(n) => AckKeepsQueue(w, n, limits);
    case Touch(now) =>
    case Gather(now, order, poll) => CollectConserves(w, now, order, poll);
    case Emit(now) => BuildKeepsQueue(w, now, limits);
  }

  /** A message not acknowledged is kept at least until as many as the queue holds have been sent from it on. */
  ghost predicate KeepsRecent(w: World, max: nat) {
    forall n :: 1 <= n <= |w.sent| && |w.sent| < n + max && n !in w.acked ==> n in w.sub.retransmit
  }

  lemma {:induction false} UnackedRises(n: nat, acked: set<nat>, i: nat, j: nat)
    requires i < j < |Unacked(n, acked)|
    ensures Unacked(n, acked)[i] < Unacked(n, acked)[j]
  {
    UnackedFacts(n - 1, acked);
    if j < |Unacked(n - 1, acked)| {
      UnackedRises(n - 1, acked, i, j);
    } else {
      assert Unacked(n - 1, acked)[i] in Unacked(n - 1, acked);
    }
  }

  /** The k-th of rising numbers up to `n`, counted from the end, is that far below `n`. */
  lemma {:induction false} RisesBelow(order: seq<nat>, n: nat, i: nat)
    requires i < |order| && order[|order| - 1] <= n && forall a, b :: 0 <= a < b < |order| ==> order[a] < order[b]
    ensures order[i] + (|order| - 1 - i) <= n
    decreases |order| - i
  {
    if i < |order| - 1 {
      RisesBelow(order, n, i + 1);
    }
  }

  lemma TailRises(w: World, max: nat)
    requires QueueOk(w, max)
    ensures var order := w.sub.retransmitOrder;
      && (forall a, b :: 0 <= a < b < |order| ==> order[a] < order[b]) && (order != [] ==> order[|order| - 1] <= |w.sent|)
  {
    var (order, all) := (w.sub.retransmitOrder, Unacked(|w.sent|, w.acked));
    UnackedFacts(|w.sent|, w.acked);
    forall a, b | 0 <= a < b < |order| ensures order[a] < order[b] {
      UnackedRises(|w.sent|, w.acked, |all| - |order| + a, |all| - |order| + b);
    }
    if order != [] {
      assert all[|all| - 1] in all;
    }
  }

  /** What gives way to the next message is older than the queue is long. */
  lemma DroppedIsOld(w: World, s: Sub, max: nat, n: nat)
    requires 0 < max && QueueOk(w, max) && s.retransmit == w.sub.retransmit && s.retransmitOrder == w.sub.retransmitOrder
    requires n in s.retransmit && n !in MakeRoom(s, max).retransmit
    ensures n + max <= |w.sent| + 1
  {
    hide Unacked, NoDup, IsSuffix;
    var order := s.retransmitOrder;
    TailRises(w, max);
    var k := if |order| < max then 0 else |order| - max + 1;
    assert n in Numbers(order[..k]);
    var i :| 0 <= i < k && order[i] == n;
    RisesBelow(order, |w.sent|, i);
  }

  lemma BuildKeepsRecent(w: World, now: Time, limits: Limits)
    requires limits.Valid() && QueueOk(w, limits.maxRetransmissionQueue) && KeepsRecent(w, limits.maxRetransmissionQueue) && Conserves(w)
    ensures KeepsRecent(WithBuild(w, now, limits), limits.maxRetransmissionQueue)
  {
    hide Tail, Carried, MakeRoom;
    var max := limits.maxRetransmissionQueue;
    if w.sub.enabled && w.sub.pending != [] {
      var maximum := PublishMaximum(w.sub, limits);
      var count := if |w.sub.pending| > maximum then maximum else |w.sub.pending|;
      var s1 := w.sub.(pending := w.sub.pending[count..], keepAliveTicks := 0, messageSent := true,
                       sequenceNumber := w.sub.sequenceNumber + 1);
      var w1 := WithBuild(w, now, limits);
      forall n | 1 <= n <= |w1.sent| && |w1.sent| < n + max && n !in w1.acked ensures n in w1.sub.retransmit {
        if n <= |w.sent| && n !in MakeRoom(s1, max).retransmit {
          DroppedIsOld(w, s1, max, n);
        }
      }
    }
  }

  lemma StepKeepsRecent(w: World, e: Event, limits: Limits)
    requires limits.Valid() && SlotsAgree(w.sub) && Conserves(w) && QueueOk(w, limits.maxRetransmissionQueue)
    requires KeepsRecent(w, limits.maxRetransmissionQueue)
    ensures KeepsRecent(Step(w, e, limits), limits.maxRetransmissionQueue)
  {
    hide SlotsAgree, Conserves, QueueOk, CreateItems, DeleteItems, WithBuild, WithCollect;
    match e
    case Create(rs, answer) => CreateFrame(w.sub, rs, answer);
    case Delete(ids, answer) => DeletedSub(w.sub, ids, answer);
    case SetPublishing(b) =>
    case Ack(n) =>
    case Touch(now) =>
    case Gather(now, order, poll) => CollectConserves(w, now, order, poll);
    case Emit(now) => BuildKeepsRecent(w, now, limits);
  }

  // ---------------------------------------------------------------- the DA group

  /** A subscription's group, when it has one, covers exactly the ItemIDs of its readable items. */
  ghost predicate GroupAgrees(s: Sub) {
    s.da.Some? ==> s.da.value.items == ReadableItems(s.items)
  }

  /** The item sets name the same nodes. */
  ghost predicate SameNodes(a: map<nat, Item>, b: map<nat, Item>) {
    a.Keys == b.Keys && forall id :: id in a ==> a[id].itemId == b[id].itemId && a[id].notReadable == b[id].notReadable
  }

  lemma SameNodesReadAlike(a: map<nat, Item>, b: map<nat, Item>)
    requires SameNodes(a, b)
    ensures ReadableItems(a) == ReadableItems(b)
  {
  }

  lemma {:induction false} RoutesKeepNodes(s: Sub, us: seq<Update>)
    ensures SameNodes(s.items, RouteAll(s, us).items) && RouteAll(s, us).da == s.da
  {
    if us != [] {
      RoutesKeepNodes(s, us[..|us| - 1]);
    }
  }

  lemma FlushKeepsNodes(s: Sub, now: Time)
    ensures SameNodes(s.items, FlushHeld(s, now).items) && FlushHeld(s, now).da == s.da
  {
  }

  lemma CollectKeepsGroup(s: Sub, now: Time, order: seq<nat>, poll: Poll)
    requires GroupAgrees(s)
    ensures GroupAgrees(Collect(s, now, order, poll))
  {
    var s1 := HoldUnreadable(s, order);
    assert SameNodes(s.items, s1.items);
    if s1.da.Some? && poll.Delivered? {
      var s2 := RouteAll(s1, poll.updates);
      RoutesKeepNodes(s1, poll.updates);
      FlushKeepsNodes(s2, now);
      SameNodesReadAlike(s.items, FlushHeld(s2, now).items);
    }
  }

  lemma SettleKeepsGroup(s: Sub, p: Prepared, answer: Answer)
    requires GroupAgrees(s) && SlotsAgree(s) && FreshIds(s, p)
    ensures GroupAgrees(Settle(p, answer).0)
  {
    hide SlotsAgree, ItemMap, HandleMap, ReadableItems, FreshItem;
    RegisterKeepsSlots(s, p);
    var s0 := Register(p.sub, p.accepted);
    RebuildKeepsSlots(s0, answer);
    var (s1, ok) := Rebuild(s0, answer);
    if ok {
      SameNodesReadAlike(s1.items, Raised(s1.items, ItemMap(p.accepted).Keys, RevisedInterval(s1, answer)));
    }
  }

  lemma CreateKeepsGroup(s: Sub, rs: seq<CreateRequest>, answer: Answer)
    requires SlotsAgree(s) && GroupAgrees(s)
    ensures GroupAgrees(CreateItems(s, rs, answer).0)
  {
    PreparedFacts(s, rs);
    SettleKeepsGroup(s, PrepareAll(s, rs), answer);
  }

  lemma DeleteKeepsGroup(s: Sub, ids: seq<nat>, answer: Answer)
    requires SlotsAgree(s) && GroupAgrees(s)
    ensures GroupAgrees(DeleteItems(s, ids, answer).0)
  {
    hide SlotsAgree, DeleteAll, ReadableItems;
    DeletedItems(s, ids);
  }

  lemma StepKeepsGroup(w: World, e: Event, limits: Limits)
    requires limits.Valid() && SlotsAgree(w.sub) && GroupAgrees(w.sub)
    ensures GroupAgrees(Step(w, e, limits).sub)
  {
    match e
    case Create(rs, answer) => CreateKeepsGroup(w.sub, rs, answer);
    case Delete(ids, answer) => DeleteKeepsGroup(w.sub, ids, answer);
    case SetPublishing(b) =>
    case Ack(n) =>
    case Touch(now) =>
    case Gather(now, order, poll) =>
      SameSub(w, now, order, poll);
      CollectKeepsGroup(w.sub, now, order, poll);
    case Emit(now) => BuildFrame(w.sub, now, limits);
  }

  // ---------------------------------------------------------------- every run

  ghost predicate Promises(w: World, limits: Limits) {
    SlotsAgree(w.sub) && Conserves(w) && TicksCount(w) && QueueOk(w, limits.maxRetransmissionQueue)
    && KeepsRecent(w, limits.maxRetransmissionQueue) && GroupAgrees(w.sub)
  }

  lemma {:induction false} RunsKeepPromises(s: Sub, es: seq<Event>, limits: Limits)
    requires limits.Valid() && FreshSub(s) && LegalRun(Begin(s), es, limits)
    ensures Promises(Run(Begin(s), es, limits), limits) && Run(Begin(s), es, limits).sub.keepAliveCount == s.keepAliveCount
  {
    if es != [] {
      RunsKeepPromises(s, es[..|es| - 1], limits);
      var (w, e) := (Run(Begin(s), es[..|es| - 1], limits), es[|es| - 1]);
      StepKeepsSlots(w, e, limits);
      StepConserves(w, e, limits);
      StepKeepsTicks(w, e, limits);
      StepKeepsQueue(w, e, limits);
      StepKeepsRecent(w, e, limits);
      StepKeepsGroup(w, e, limits);
    }
  }

  /**
   * Conservation, in every run: the notifications of the data messages sent, then
   * those still pending, are exactly the ones ever queued, in order; the k-th
   * data message carries number k.
   */
  lemma PublishConservation(s: Sub, es: seq<Event>, limits: Limits)
    requires limits.Valid() && FreshSub(s) && LegalRun(Begin(s), es, limits)
    ensures var w := Run(Begin(s), es, limits);
      && Carried(w.sent) + w.sub.pending == w.enqueued
      && forall k :: 0 <= k < |w.sent| ==> w.sent[k].number == k + 1 && w.sent[k].notifications != []
  {
    RunsKeepPromises(s, es, limits);
  }

  /** In every run the first cycle is answered, and so is one of any keepAliveCount consecutive ones. */
  lemma KeepAliveCadence(s: Sub, es: seq<Event>, limits: Limits, i: nat)
    requires limits.Valid() && FreshSub(s) && LegalRun(Begin(s), es, limits)
    ensures var w := Run(Begin(s), es, limits);
      && (w.cycles != [] ==> w.cycles[0])
      && (i + s.keepAliveCount <= |w.cycles| ==> exists j :: i <= j < i + s.keepAliveCount && w.cycles[j])
  {
    RunsKeepPromises(s, es, limits);
    var w := Run(Begin(s), es, limits);
    if i + s.keepAliveCount <= |w.cycles| {
      assert Answered(w.cycles, i, s.keepAliveCount);
    }
  }

  /**
   * In every run a cycle is answered exactly if there is something to send, or it
   * is the first, or the keepAliveCount - 1 before it went unanswered.
   */
  lemma KeepAliveExactly(s: Sub, es: seq<Event>, limits: Limits, now: Time)
    requires limits.Valid() && FreshSub(s) && LegalRun(Begin(s), es, limits)
    ensures var w := Run(Begin(s), es, limits); var (n, silent) := (|w.cycles|, s.keepAliveCount - 1);
      BuildMessage(w.sub, now, limits).1.Some?
      <==> (w.sub.enabled && w.sub.pending != []) || n == 0 || (silent <= n && forall j :: n - silent <= j < n ==> !w.cycles[j])
  {
    hide Run, LegalRun, SlotsAgree, Conserves, QueueOk, KeepsRecent, GroupAgrees, Answered;
    RunsKeepPromises(s, es, limits);
    var w := Run(Begin(s), es, limits);
    var (n, t) := (|w.cycles|, w.sub.keepAliveTicks);
    assert n > 0 ==> w.cycles[n - t - 1];
  }

  /** In every run a message sent and not acknowledged can be asked for again at least until the queue's bound of messages have been sent from it on. */
  lemma RecentMessagesAreKept(s: Sub, es: seq<Event>, limits: Limits, n: nat)
    requires limits.Valid() && FreshSub(s) && LegalRun(Begin(s), es, limits)
    ensures var w := Run(Begin(s), es, limits);
      1 <= n <= |w.sent| && n !in w.acked && |w.sent| - n < limits.maxRetransmissionQueue
      ==> n in w.sub.retransmit && w.sub.retransmit[n] == w.sent[n - 1]
  {
    hide Run, LegalRun, SlotsAgree, Conserves, TicksCount, GroupAgrees;
    RunsKeepPromises(s, es, limits);
  }

  /**
   * The retransmission queue, in every run: it is a tail of the data messages sent
   * and never acknowledged, it stays within its bound, and what it answers for a
   * number is the message sent under that number.
   */
  lemma RetransmissionQueueIsATail(s: Sub, es: seq<Event>, limits: Limits)
    requires limits.Valid() && FreshSub(s) && LegalRun(Begin(s), es, limits)
    ensures var w := Run(Begin(s), es, limits);
      && |w.sub.retransmitOrder| <= limits.maxRetransmissionQueue
      && Elements(w.sub.retransmitOrder) == w.sub.retransmit.Keys
      && IsSuffix(w.sub.retransmitOrder, Unacked(|w.sent|, w.acked))
      && forall n :: n in w.sub.retransmit ==> 1 <= n <= |w.sent| && w.sub.retransmit[n] == w.sent[n - 1]
  {
    RunsKeepPromises(s, es, limits);
  }

  /** In every run the DA group, when there is one, covers exactly the readable items. */
  lemma GroupMatchesItems(s: Sub, es: seq<Event>, limits: Limits)
    requires limits.Valid() && FreshSub(s) && LegalRun(Begin(s), es, limits)
    ensures var sub := Run(Begin(s), es, limits).sub; sub.da.Some? ==> sub.da.value.items == ReadableItems(sub.items)
  {
    RunsKeepPromises(s, es, limits);
  }
}
