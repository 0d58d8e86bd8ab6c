/**
 * The loops of the publishing engine, each proved to compute the function of
 * the subscription that Engine gives for it.
 */
module EngineLoops {
  import opened Prelude
  import opened Ints
  import opened Engine

  lemma WithStatusStep(items: map<nat, Item>, order: seq<nat>, k: nat)
    requires k < |order| && NoDup(order) && order[k] in items
    ensures var (m, id) := (WithStatus(items, order[..k]), order[k]);
      && m[id] == items[id]
      && WithStatus(items, order[..k + 1]) == if OwesStatus(m[id]) then m[id := m[id].(held := Some(NotReadable))] else m
  {
  }

  lemma EmptiedStep(items: map<nat, Item>, order: seq<nat>, k: nat)
    requires k < |order| && NoDup(order) && order[k] in items
    ensures var (m, id) := (Emptied(items, Elements(order[..k])), order[k]);
      m[id] == items[id] && Emptied(items, Elements(order[..k + 1])) == m[id := m[id].(held := None)]
  {
  }

  /** One more id in the pass: it has not been reported yet, and reporting it extends both the items and the notes. */
  lemma FlushStep(items: map<nat, Item>, order: seq<nat>, k: nat, now: Time)
    requires k < |order| && NoDup(order)
    ensures var (id, due) := (order[k], DueNow(items, order[..k], now));
      && AllReported(items, due, now).Keys == items.Keys
      && (id in items ==> AllReported(items, due, now)[id] == items[id])
      && Notes(items, due + [id]) == Notes(items, due) + [NoteOf(items, id)]
      && (id in items ==> AllReported(items, due + [id], now) == AllReported(items, due, now)[id := Reported(items[id], now)])
  {
    DueNowHolds(items, order[..k], now);
    assert order[k] !in order[..k];
  }

  lemma FilterStep(items: map<nat, Item>, order: seq<nat>, k: nat, now: Time)
    requires k < |order|
    ensures var (id, due, still) := (order[k], DueNow(items, order[..k], now), StillHeld(items, order[..k], now));
      && DueNow(items, order[..k + 1], now) == (if Holds(items, id) && Due(items[id], now) then due + [id] else due)
      && StillHeld(items, order[..k + 1], now) == (if Holds(items, id) && !Due(items[id], now) then still + [id] else still)
  {
    assert order[..k + 1][..k] == order[..k];
  }

  lemma NothingFiltered(items: map<nat, Item>, now: Time)
    ensures DueNow(items, [], now) == [] && StillHeld(items, [], now) == [] && Notes(items, []) == [] && AllReported(items, [], now) == items
  {
  }

  /** flushHeld: one pass over the held order, keeping what is not due. */
  method FlushHeld(s: Sub, now: Time) returns (r: Sub)
    requires NoDup(s.heldOrder)
    ensures r == Engine.FlushHeld(s, now)
  {
    hide DueNow, StillHeld, Notes, AllReported, Elapsed, PaceNs;
    if !s.enabled {
      return s;
    }
    var stillHeld, items, pending: seq<Notification> := [], s.items, s.pending;
    NothingFiltered(s.items, now);
    for k := 0 to |s.heldOrder|
      invariant stillHeld == StillHeld(s.items, s.heldOrder[..k], now)
      invariant pending == s.pending + Notes(s.items, DueNow(s.items, s.heldOrder[..k], now))
      invariant items == AllReported(s.items, DueNow(s.items, s.heldOrder[..k], now), now)
    {
      var id := s.heldOrder[k];
      FilterStep(s.items, s.heldOrder, k, now);
      FlushStep(s.items, s.heldOrder, k, now);
      if id in items && items[id].held.Some? {
        if items[id].lastReported.Some? && Elapsed(items[id].lastReported.value, now) < PaceNs(items[id]) {
          stillHeld := stillHeld + [id];
        } else {
          pending := pending + [Notification(items[id].clientHandle, items[id].held.value)];
          items := items[id := Reported(items[id], now)];
        }
      }
    }
    assert s.heldOrder[..|s.heldOrder|] == s.heldOrder;
    r := s.(heldOrder := stillHeld, pending := pending, items := items);
  }

  /** holdUnreadable: each item that cannot be read is given its status once. */
  method HoldUnreadable(s: Sub, order: seq<nat>) returns (r: Sub)
    requires Enumerates(order, s.items.Keys)
    ensures r == Engine.HoldUnreadable(s, order)
  {
    var heldOrder, items := s.heldOrder, s.items;
    assert WithStatus(s.items, []) == s.items;
    for k := 0 to |order|
      invariant heldOrder == s.heldOrder + Owing(s.items, order[..k])
      invariant items == WithStatus(s.items, order[..k])
    {
      var id := order[k];
      assert id in Elements(order);
      assert order[..k + 1][..k] == order[..k];
      WithStatusStep(s.items, order, k);
      if OwesStatus(items[id]) {
        heldOrder := heldOrder + [id];
        items := items[id := items[id].(held := Some(NotReadable))];
      }
    }
    assert order[..|order|] == order;
    r := s.(heldOrder := heldOrder, items := items);
  }

  /** itemForDAItemID: the first item the range comes to that carries the ItemID. */
  method ItemFor(items: map<nat, Item>, order: seq<nat>, itemId: string) returns (r: Option<nat>)
    requires Enumerates(order, items.Keys)
    ensures r == FindItem(items, order, itemId)
    ensures r.None? ==> forall id :: id in items ==> items[id].itemId != itemId
  {
    for k := 0 to |order|
      invariant FindItem(items, order, itemId) == FindItem(items, order[k..], itemId)
      invariant forall j :: 0 <= j < k ==> items[order[j]].itemId != itemId
    {
      assert order[k] in Elements(order);
      assert order[k..][1..] == order[k + 1..];
      if items[order[k]].itemId == itemId {
        return Some(order[k]);
      }
    }
    assert order[|order|..] == [];
    forall id | id in items ensures items[id].itemId != itemId {
      assert id in Elements(order);
    }
    r := None;
  }

  /** reportInvalidation: drops every held value and queues a status for every reporting item. */
  method ReportInvalidation(s: Sub, now: Time, order: seq<nat>) returns (r: Sub)
    requires Enumerates(order, s.items.Keys)
    ensures r == Engine.ReportInvalidation(s, now, order)
  {
    var items, pending := s.items, s.pending;
    assert Emptied(s.items, Elements([])) == s.items;
    for k := 0 to |order|
      invariant pending == s.pending + InvalidationNotes(s.items, order[..k], now)
      invariant items == Emptied(s.items, Elements(order[..k]))
    {
      var id := order[k];
      assert id in Elements(order);
      assert order[..k + 1][..k] == order[..k];
      EmptiedStep(s.items, order, k);
      items := items[id := items[id].(held := None)];
      if items[id].mode.Reporting? {
        pending := pending + [Invalidation(items[id], now)];
      }
    }
    assert order[..|order|] == order;
    r := s.(heldOrder := [], items := items, pending := pending);
  }

  /** The drain loop of collect. */
  method RouteAll(s: Sub, us: seq<Update>) returns (r: Sub)
    requires forall u :: u in us ==> Enumerates(u.order, s.items.Keys)
    ensures r == Engine.RouteAll(s, us)
  {
    r := s;
    for k := 0 to |us|
      invariant r == Engine.RouteAll(s, us[..k]) && r.items.Keys == s.items.Keys
    {
      assert us[..k + 1][..k] == us[..k];
      var u := us[k];
      assert u in us;
      var found := ItemFor(r.items, u.order, u.itemId);
      if found.Some? && r.items[found.value].mode.Reporting? {
        var id := found.value;
        r := r.(heldOrder := if r.items[id].held.None? then r.heldOrder + [id] else r.heldOrder,
                items := r.items[id := r.items[id].(held := Some(Mapped(r.items[id], u)), semanticGeneration := u.generation)]);
      }
    }
    assert us[..|us|] == us;
  }

  lemma DropNext(stored: map<nat, Message>, order: seq<nat>, k: nat)
    requires k < |order|
    ensures stored - Numbers(order[..k + 1]) == stored - Numbers(order[..k]) - {order[k]}
    ensures order[k + 1..] == order[k..][1..]
  {
    assert order[..k + 1] == order[..k] + [order[k]];
  }

  /** queueForRetransmission: drops the oldest until there is room, then appends. */
  method QueueForRetransmission(s: Sub, m: Message, max: nat) returns (r: Sub)
    requires 0 < max
    ensures r == Engine.QueueForRetransmission(s, m, max)
  {
    r := s;
    ghost var k := 0;
    while |r.retransmitOrder| >= max
      invariant k <= |s.retransmitOrder| && r == DropOldest(s, k) && (k > 0 ==> |r.retransmitOrder| >= max - 1)
      decreases |r.retransmitOrder|
    {
      DropNext(s.retransmit, s.retransmitOrder, k);
      r := r.(retransmit := r.retransmit - {r.retransmitOrder[0]}, retransmitOrder := r.retransmitOrder[1..]);
      k := k + 1;
    }
    r := r.(retransmit := r.retransmit[m.number := m], retransmitOrder := r.retransmitOrder + [m.number]);
  }

  /** The distinct ItemIDs of the readable items, as rebuildDASubscription lists them. */
  method GroupItems(items: map<nat, Item>) returns (itemIds: seq<string>)
    ensures NoDup(itemIds) && Elements(itemIds) == ReadableItems(items)
  {
    itemIds := [];
    var rest, seen: set<string> := items.Keys, {};
    while rest != {}
      invariant rest <= items.Keys
      invariant NoDup(itemIds) && seen == Elements(itemIds)
      invariant forall x :: x in seen ==> x in ReadableItems(items)
      invariant forall id :: id in items && id !in rest && !items[id].notReadable ==> items[id].itemId in seen
      decreases |rest|
    {
      var id :| id in rest;
      rest := rest - {id};
      if !items[id].notReadable && items[id].itemId !in seen {
        NoDupConcat(itemIds, [items[id].itemId]);
        seen := seen + {items[id].itemId};
        itemIds := itemIds + [items[id].itemId];
      }
    }
  }

  /** The loop that validates each requested item in turn. */
  method Prepare(s: Sub, rs: seq<CreateRequest>) returns (p: Prepared)
    ensures p == PrepareAll(s, rs)
  {
    p := Prepared(s, [], []);
    for k := 0 to |rs|
      invariant p == PrepareAll(s, rs[..k])
    {
      assert rs[..k + 1][..k] == rs[..k];
      p := PrepareOne(p, rs[k]);
    }
    assert rs[..|rs|] == rs;
  }

  lemma RegisterStep(s: Sub, accepted: seq<(nat, Item)>, k: nat)
    requires k < |accepted|
    ensures var (id, item) := accepted[k]; var before := Register(s, accepted[..k]);
      Register(s, accepted[..k + 1])
      == before.(items := before.items[id := item], byHandle := before.byHandle[item.clientHandle := id])
  {
    assert accepted[..k + 1][..k] == accepted[..k];
    var (id, item) := accepted[k];
    assert s.items + ItemMap(accepted[..k + 1]) == (s.items + ItemMap(accepted[..k]))[id := item];
    assert s.byHandle + HandleMap(accepted[..k + 1]) == (s.byHandle + HandleMap(accepted[..k]))[item.clientHandle := id];
  }

  /** The loop that registers the accepted items. */
  method RegisterAll(p: Prepared) returns (s: Sub)
    ensures s == Register(p.sub, p.accepted)
  {
    s := p.sub;
    NothingRegistered(s);
    hide Register;
    for k := 0 to |p.accepted|
      invariant s == Register(p.sub, p.accepted[..k])
    {
      RegisterStep(p.sub, p.accepted, k);
      var (id, item) := p.accepted[k];
      s := s.(items := s.items[id := item], byHandle := s.byHandle[item.clientHandle := id]);
    }
    assert p.accepted[..|p.accepted|] == p.accepted;
  }

  lemma NothingRegistered(s: Sub)
    ensures Register(s, []) == s
  {
  }

  /** The loop that deletes each named item in turn. */
  method DeleteEach(s0: Sub, ids: seq<nat>) returns (s: Sub, results: seq<StatusCode>, removed: bool)
    ensures (s, results) == DeleteAll(s0, ids) && (removed <==> Good in results)
  {
    s, results, removed := s0, [], false;
    for k := 0 to |ids|
      invariant (s, results) == DeleteAll(s0, ids[..k])
      invariant removed <==> Good in results
    {
      assert ids[..k + 1][..k] == ids[..k];
      if ids[k] in s.items {
        s := s.(items := s.items - {ids[k]}, byHandle := s.byHandle - {s.items[ids[k]].clientHandle});
        results := results + [Good];
        removed := true;
      } else {
        results := results + [BadMonitoredItemIdInvalid];
      }
    }
    assert ids[..|ids|] == ids;
  }

  /** The search loop of acknowledge: the order list without the acknowledged number. */
  method Without(order: seq<nat>, number: nat) returns (r: seq<nat>)
    ensures r == RemoveFirst(order, number)
  {
    for k := 0 to |order|
      invariant RemoveFirst(order, number) == order[..k] + RemoveFirst(order[k..], number)
    {
      assert order[k..][1..] == order[k + 1..];
      if order[k] == number {
        return order[..k] + order[k + 1..];
      }
      assert order[..k + 1] == order[..k] + [order[k]];
    }
    assert order[..|order|] == order;
    return order;
  }
}
