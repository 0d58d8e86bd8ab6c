/**
 * Item registrations of one DA connection (opcda/registration.go and
 * opcda/da_windows.go): the bounded cache of one generation, and the resolution
 * of a batch that may name an item many times. IOPCItemMgt::AddItems is an
 * oracle: a function from the items asked to the answers, or to a failure.
 */
module Registrations {
  import opened Prelude

  type ItemId = string
  type HResult = x: int | -0x8000_0000 <= x < 0x8000_0000

  predicate Failed(hr: HResult) { hr < 0 }

  datatype Answer = Answer(hresult: HResult, handle: nat, canonicalType: nat, accessRights: nat)

  datatype Registration = Registration(itemId: ItemId, handle: nat, canonicalType: nat, accessRights: nat, generation: nat)

  type Cache = map<ItemId, Registration>

  /** Within its bound, and of one generation only. */
  ghost predicate Sound(cache: Cache, maximum: nat, generation: nat) {
    |cache| <= maximum && forall id <- cache :: cache[id].itemId == id && cache[id].generation == generation
  }

  /** One slot of the batch: registered, or why not. */
  datatype Slot = Slot(registration: Option<Registration>, hresult: Option<HResult>, limitReached: bool)

  const EMPTY := Slot(None, None, false)

  /** The items no registration is cached for, each once, in the order they first occur. */
  function Uncached(ids: seq<ItemId>, cache: Cache): seq<ItemId> {
    if ids == [] then []
    else
      var (before, id) := (Uncached(ids[..|ids| - 1], cache), ids[|ids| - 1]);
      if id in cache || id in before then before else before + [id]
  }

  lemma {:induction false} UncachedIs(ids: seq<ItemId>, cache: Cache)
    ensures NoDup(Uncached(ids, cache)) && forall id :: id in Uncached(ids, cache) <==> id in ids && id !in cache
  {
    if ids != [] {
      var (init, last) := (ids[..|ids| - 1], ids[|ids| - 1]);
      UncachedIs(init, cache);
      assert ids == init + [last];
    }
  }

  function Registered(id: ItemId, a: Answer, generation: nat): Registration {
    Registration(id, a.handle, a.canonicalType, a.accessRights, generation)
  }

  /** The registration of the item is the one the answer gives. */
  ghost predicate RegisteredAs(r: Registration, id: ItemId, a: Answer, generation: nat) {
    r.itemId == id && r.handle == a.handle && r.canonicalType == a.canonicalType && r.accessRights == a.accessRights && r.generation == generation
  }

  /** What one answer makes of its item. */
  function Attempt(id: ItemId, a: Answer, generation: nat): Slot {
    Slot(if Failed(a.hresult) then None else Some(Registered(id, a, generation)), Some(a.hresult), false)
  }

  /** The cache once the answers are in: every item whose answer did not fail. */
  function Entered(cache: Cache, ids: seq<ItemId>, answers: seq<Answer>, generation: nat): Cache
    requires |answers| == |ids|
  {
    if ids == [] then cache
    else
      var n := |ids| - 1;
      var before := Entered(cache, ids[..n], answers[..n], generation);
      if Failed(answers[n].hresult) then before else before[ids[n] := Registered(ids[n], answers[n], generation)]
  }

  /** Room for every item asked: no put is ever refused. */
  lemma {:induction false} EnteredFits(cache: Cache, ids: seq<ItemId>, answers: seq<Answer>, generation: nat, maximum: nat)
    requires |answers| == |ids| && Sound(cache, maximum, generation) && |cache| + |ids| <= maximum
    ensures var after := Entered(cache, ids, answers, generation);
      && Sound(after, maximum, generation) && |after| <= |cache| + |ids|
      && (forall id <- after :: id in cache || id in ids)
  {
    if ids != [] {
      var n := |ids| - 1;
      EnteredFits(cache, ids[..n], answers[..n], generation, maximum);
      var before := Entered(cache, ids[..n], answers[..n], generation);
      var r := Registered(ids[n], answers[n], generation);
      assert before[ids[n] := r].Keys == before.Keys + {ids[n]};
      assert |before[ids[n] := r]| <= |before| + 1;
    }
  }

  lemma {:induction false} EnteredIs(cache: Cache, ids: seq<ItemId>, answers: seq<Answer>, generation: nat, k: nat)
    requires |answers| == |ids| && NoDup(ids) && k < |ids| && forall id <- ids :: id !in cache
    ensures var after := Entered(cache, ids, answers, generation);
      if answers[k].hresult < 0 then ids[k] !in after
      else ids[k] in after && RegisteredAs(after[ids[k]], ids[k], answers[k], generation)
  {
    var n := |ids| - 1;
    if k < n {
      EnteredIs(cache, ids[..n], answers[..n], generation, k);
      assert ids[k] != ids[n];
    } else {
      NotEntered(cache, ids[..n], answers[..n], generation, ids[n]);
    }
  }

  lemma {:induction false} NotEntered(cache: Cache, ids: seq<ItemId>, answers: seq<Answer>, generation: nat, id: ItemId)
    requires |answers| == |ids| && id !in ids
    ensures var after := Entered(cache, ids, answers, generation);
      (id in after <==> id in cache) && (id in cache ==> after[id] == cache[id])
  {
    if ids != [] {
      var n := |ids| - 1;
      NotEntered(cache, ids[..n], answers[..n], generation, id);
    }
  }

  /** What slot i ends up as. */
  ghost predicate Resolved(slot: Slot, id: ItemId, before: Cache, after: Cache, asked: seq<ItemId>, generation: nat) {
    && (slot.registration.Some? ==>
         && slot.registration.value.itemId == id && slot.registration.value.generation == generation
         && id in after && after[id] == slot.registration.value)
    && (slot.registration.None? ==> slot.limitReached || (slot.hresult.Some? && Failed(slot.hresult.value)))
    && (slot.limitReached <==> id !in before && id !in asked)
    && (id in before ==> slot == Slot(Some(before[id]), None, false))
    && (slot.hresult.Some? <==> id in asked)
  }

  /** The slot says what the answer for its item says. */
  ghost predicate AsAnswered(slot: Slot, id: ItemId, a: Answer, generation: nat) {
    && slot.hresult == Some(a.hresult) && !slot.limitReached && (slot.registration.Some? <==> a.hresult >= 0)
    && (a.hresult >= 0 ==> RegisteredAs(slot.registration.value, id, a, generation))
  }

  /** Of the items not cached, the ones named first, each once, in the order they are first named, and as many as there is room for. */
  ghost predicate FirstOnes(asked: seq<ItemId>, ids: seq<ItemId>, cache: Cache, room: nat) {
    && NoDup(asked) && |asked| <= room && (forall id <- asked :: id in ids && id !in cache)
    && (forall j, k, i :: 0 <= j < k < |asked| && 0 <= i < |ids| && ids[i] == asked[k] ==> asked[j] in ids[..i])
    && (forall i :: 0 <= i < |ids| && ids[i] !in cache && ids[i] !in asked ==> |asked| == room && forall id <- asked :: id in ids[..i])
  }

  /** Nothing cached before is touched, and nothing enters that was not asked. */
  ghost predicate OnlyAdds(before: Cache, after: Cache, asked: seq<ItemId>) {
    (forall id <- before :: id in after && after[id] == before[id]) && forall id <- after :: id in before || id in asked
  }

  class RegistrationCache {
    const maximum: nat
    var generation: nat
    var items: Cache

    ghost predicate Valid()
      reads this
    {
      Sound(items, maximum, generation)
    }

    constructor (maximum: nat, generation: nat)
      ensures Valid() && items == map[] && this.generation == generation && this.maximum == maximum
    {
      this.maximum, this.generation, items := maximum, generation, map[];
    }

    method Get(id: ItemId) returns (r: Option<Registration>)
      requires Valid()
      ensures r == if id in items then Some(items[id]) else None
    {
      if id !in items || items[id].generation != generation {
        return None;
      }
      return Some(items[id]);
    }

    method Put(r: Registration) returns (ok: bool)
      requires Valid()
      modifies this`items
      ensures Valid() && items == if ok then old(items)[r.itemId := r] else old(items)
      ensures ok <==> r.generation == generation && (r.itemId in old(items) || |old(items)| < maximum)
    {
      if r.generation != generation {
        return false;
      }
      if r.itemId !in items && |items| >= maximum {
        return false;
      }
      assert items[r.itemId := r].Keys == items.Keys + {r.itemId};
      items := items[r.itemId := r];
      return true;
    }

    method Remaining() returns (n: nat)
      requires Valid()
      ensures n == maximum - |items|
    {
      return maximum - |items|;
    }

    method Reset(generation: nat)
      modifies this
      ensures Valid() && items == map[] && this.generation == generation
    {
      this.generation, items := generation, map[];
    }

    /** The result loop of addItems, for the answers COM gave. */
    method AddItems(ids: seq<ItemId>, answers: seq<Answer>) returns (attempts: seq<Slot>)
      requires Valid() && |answers| == |ids| && |items| + |ids| <= maximum
      modifies this`items
      ensures Valid() && items == Entered(old(items), ids, answers, generation) && |attempts| == |ids|
      ensures forall k :: 0 <= k < |ids| ==> attempts[k] == Attempt(ids[k], answers[k], generation) && AsAnswered(attempts[k], ids[k], answers[k], generation)
    {
      attempts := [];
      for k := 0 to |ids|
        invariant Valid() && items == Entered(old(items), ids[..k], answers[..k], generation) && |items| <= |old(items)| + k
        invariant |attempts| == k && forall j :: 0 <= j < k ==> attempts[j] == Attempt(ids[j], answers[j], generation)
      {
        assert ids[..k + 1][..k] == ids[..k] && answers[..k + 1][..k] == answers[..k];
        EnteredFits(old(items), ids[..k + 1], answers[..k + 1], generation, maximum);
        var attempt := Slot(None, Some(answers[k].hresult), false);
        if !Failed(answers[k].hresult) {
          var r := Registered(ids[k], answers[k], generation);
          var ok := Put(r);
          if !ok {
            attempt := attempt.(limitReached := true);
          } else {
            attempt := attempt.(registration := Some(r));
          }
        }
        attempts := attempts + [attempt];
      }
      assert ids[..|ids|] == ids && answers[..|ids|] == answers;
    }
  }

  /** The inner loops: one value for every slot of a group. */
  method Scatter(slots: seq<Slot>, indices: seq<nat>, value: Slot) returns (r: seq<Slot>)
    requires forall i <- indices :: i < |slots|
    ensures |r| == |slots| && forall i :: 0 <= i < |slots| ==> r[i] == if i in indices then value else slots[i]
  {
    r := slots;
    for k := 0 to |indices|
      invariant |r| == |slots| && forall i :: 0 <= i < |slots| ==> r[i] == if i in indices[..k] then value else slots[i]
    {
      assert indices[..k + 1] == indices[..k] + [indices[k]] && indices[k] in indices;
      r := r[indices[k] := value];
    }
    assert indices[..|indices|] == indices;
  }

  /** The slots of one item, for each item not cached. */
  type Groups = map<ItemId, seq<nat>>

  ghost predicate Grouped(groups: Groups, ids: seq<ItemId>) {
    forall id <- groups :: (forall i <- groups[id] :: i < |ids| && ids[i] == id) && (forall i :: 0 <= i < |ids| && ids[i] == id ==> i in groups[id])
  }

  function FromCache(id: ItemId, cache: Cache): Slot {
    if id in cache then Slot(Some(cache[id]), None, false) else EMPTY
  }

  lemma GroupsGrow(groups: Groups, ids: seq<ItemId>, id: ItemId, known: seq<nat>)
    requires Grouped(groups, ids) && (if id in groups then known == groups[id] else known == [] && id !in ids)
    ensures Grouped(groups[id := known + [|ids|]], ids + [id])
  {
  }

  lemma GroupsSkip(groups: Groups, ids: seq<ItemId>, id: ItemId)
    requires Grouped(groups, ids) && id !in groups
    ensures Grouped(groups, ids + [id])
  {
  }

  /** The first loop of resolveRegistrations: what is cached is settled, the rest is grouped by item. */
  method Gather(cache: RegistrationCache, ids: seq<ItemId>) returns (slots: seq<Slot>, order: seq<ItemId>, groups: Groups)
    requires cache.Valid()
    ensures order == Uncached(ids, cache.items) && groups.Keys == Elements(order) && Grouped(groups, ids)
    ensures |slots| == |ids| && forall i :: 0 <= i < |ids| ==> slots[i] == FromCache(ids[i], cache.items)
  {
    hide Grouped, FromCache, Uncached, Elements;
    slots, order, groups := [], [], map[];
    NoGroups(cache.items);
    for k := 0 to |ids|
      invariant order == Uncached(ids[..k], cache.items) && groups.Keys == Elements(order) && Grouped(groups, ids[..k])
      invariant |slots| == k && forall i :: 0 <= i < k ==> slots[i] == FromCache(ids[i], cache.items)
    {
      var id := ids[k];
      assert ids[..k + 1] == ids[..k] + [id] && ids[..k + 1][..k] == ids[..k];
      UncachedStep(ids[..k], id, cache.items, groups);
      var found := cache.Get(id);
      FromCacheIs(id, cache.items);
      if found.Some? {
        slots := slots + [Slot(found, None, false)];
        GroupsSkip(groups, ids[..k], id);
      } else {
        slots := slots + [EMPTY];
        var known := if id in groups then groups[id] else [];
        GroupsGrow(groups, ids[..k], id, known);
        if id !in groups {
          order := order + [id];
        }
        groups := groups[id := known + [k]];
      }
    }
    assert ids[..|ids|] == ids;
  }

  lemma NoGroups(cache: Cache)
    ensures Grouped(map[], []) && Uncached([], cache) == [] && Elements<ItemId>([]) == {}
  {
  }

  /** One more item: it joins the order, and gets a group, exactly when it is neither cached nor there already. */
  lemma UncachedStep(init: seq<ItemId>, id: ItemId, cache: Cache, groups: Groups)
    requires groups.Keys == Elements(Uncached(init, cache))
    ensures Uncached(init + [id], cache) == if id in cache || id in groups then Uncached(init, cache) else Uncached(init, cache) + [id]
    ensures id in cache ==> id !in groups
    ensures id !in cache && id !in groups ==> id !in init
    ensures id !in groups ==> Elements(Uncached(init, cache) + [id]) == groups.Keys + {id}
    ensures id in groups ==> groups.Keys + {id} == groups.Keys
  {
    UncachedIs(init, cache);
    assert (init + [id])[..|init|] == init;
  }

  lemma FromCacheIs(id: ItemId, cache: Cache)
    ensures FromCache(id, cache) == if id in cache then Slot(Some(cache[id]), None, false) else EMPTY
  {
  }

  const LIMIT_REACHED := Slot(None, None, true)

  /** The slots of the items there is no room for. */
  method Refuse(slots: seq<Slot>, ids: seq<ItemId>, excess: seq<ItemId>, groups: Groups) returns (r: seq<Slot>)
    requires |slots| == |ids| && Grouped(groups, ids) && forall id <- excess :: id in groups
    ensures |r| == |ids| && forall i :: 0 <= i < |ids| ==> r[i] == if ids[i] in excess then LIMIT_REACHED else slots[i]
  {
    r := slots;
    for k := 0 to |excess|
      invariant |r| == |ids| && forall i :: 0 <= i < |ids| ==> r[i] == if ids[i] in excess[..k] then LIMIT_REACHED else slots[i]
    {
      assert excess[..k + 1] == excess[..k] + [excess[k]] && excess[k] in excess;
      r := Scatter(r, groups[excess[k]], LIMIT_REACHED);
    }
    assert excess[..|excess|] == excess;
  }

  /** The last loop: each attempt to every slot of its item. */
  method Distribute(slots: seq<Slot>, ids: seq<ItemId>, asked: seq<ItemId>, attempts: seq<Slot>, groups: Groups) returns (r: seq<Slot>)
    requires |slots| == |ids| && Grouped(groups, ids) && NoDup(asked) && |attempts| == |asked| && forall id <- asked :: id in groups
    ensures |r| == |ids| && forall i :: 0 <= i < |ids| && ids[i] !in asked ==> r[i] == slots[i]
    ensures forall i, k :: 0 <= i < |ids| && 0 <= k < |asked| && ids[i] == asked[k] ==> r[i] == attempts[k]
  {
    r := slots;
    for k := 0 to |asked|
      invariant |r| == |ids| && forall i :: 0 <= i < |ids| && ids[i] !in asked[..k] ==> r[i] == slots[i]
      invariant forall i, j :: 0 <= i < |ids| && 0 <= j < k && ids[i] == asked[j] ==> r[i] == attempts[j]
    {
      assert asked[..k + 1] == asked[..k] + [asked[k]] && asked[k] in asked;
      r := Scatter(r, groups[asked[k]], attempts[k]);
    }
    assert asked[..|asked|] == asked;
  }

  predicate HasNul(ids: seq<ItemId>) { exists id <- ids :: '\0' in id }

  lemma SlotResolved(slot: Slot, id: ItemId, before: Cache, asked: seq<ItemId>, answers: seq<Answer>, generation: nat, maximum: nat)
    requires |answers| == |asked| && NoDup(asked) && (forall x <- asked :: x !in before) && Sound(before, maximum, generation)
    requires forall k :: 0 <= k < |asked| && id == asked[k] ==> slot == Attempt(id, answers[k], generation)
    requires id !in asked ==> slot == if id in before then FromCache(id, before) else LIMIT_REACHED
    ensures Resolved(slot, id, before, Entered(before, asked, answers, generation), asked, generation)
  {
  }

  /**
   * resolveRegistrations. `asked` is what goes to AddItems: each uncached item at
   * most once, the first of them and no more than there is room for. Every slot
   * ends registered for its own item at the current generation, or with a failed
   * HRESULT, or with the limit code; the limit code exactly for what was not asked.
   * What was asked is registered as the source answered, and the cache gains
   * nothing else.
   */
  method Resolve(cache: RegistrationCache, ids: seq<ItemId>, source: seq<ItemId> -> Option<seq<Answer>>) returns (r: Option<seq<Slot>>, asked: seq<ItemId>)
    requires cache.Valid() && forall xs :: source(xs).Some? ==> |source(xs).value| == |xs|
    modifies cache`items
    ensures cache.Valid() && NoDup(asked) && |asked| <= cache.maximum - |old(cache.items)|
    ensures var all := Uncached(ids, old(cache.items)); var room := cache.maximum - |old(cache.items)|;
      asked == if |all| <= room then all else all[..room]
    ensures FirstOnes(asked, ids, old(cache.items), cache.maximum - |old(cache.items)|)
    ensures r.None? <==> asked != [] && ((exists id <- asked :: '\0' in id) || source(asked).None?)
    ensures r.None? ==> cache.items == old(cache.items)
    ensures r.Some? ==> |r.value| == |ids|
    ensures r.Some? ==> forall i :: 0 <= i < |ids| ==> Resolved(r.value[i], ids[i], old(cache.items), cache.items, asked, cache.generation)
    ensures r.Some? ==> OnlyAdds(old(cache.items), cache.items, asked) && forall i, k :: 0 <= i < |ids| && 0 <= k < |asked| && ids[i] == asked[k] ==>
      AsAnswered(r.value[i], ids[i], source(asked).value[k], cache.generation)
  {
    hide Grouped, Resolved, Uncached, Entered, Sound, FromCache, Attempt, NoDup, Elements, FirstOnes, AsAnswered, OnlyAdds;
    ghost var before := cache.items;
    var cached, order, groups := Gather(cache, ids);
    OrderIs(ids, before, order, groups);
    var available := cache.Remaining();
    asked := if |order| > available then order[..available] else order;
    var excess := if |order| > available then order[available..] else [];
    assert order == asked + excess;
    PartsOf(order, asked, excess);
    FirstOnesAre(ids, before, order, asked, available);
    var slots := Refuse(cached, ids, excess, groups);
    ghost var answers: seq<Answer> := [];
    if |asked| > 0 {
      var reply := source(asked);
      if HasNul(asked) || reply.None? {
        return None, asked;
      }
      answers := reply.value;
      var attempts := cache.AddItems(asked, reply.value);
      slots := Distribute(slots, ids, asked, attempts, groups);
    } else {
      NothingEntered(before, cache.generation);
    }
    AllResolved(slots, cached, ids, before, asked, excess, answers, cache.generation, cache.maximum);
    AllAnswered(slots, ids, before, asked, answers, cache.generation);
    return Some(slots), asked;
  }

  lemma OrderIs(ids: seq<ItemId>, cache: Cache, order: seq<ItemId>, groups: Groups)
    requires order == Uncached(ids, cache) && groups.Keys == Elements(order)
    ensures NoDup(order) && (forall id <- order :: id in groups) && forall id :: id in order <==> id in ids && id !in cache
  {
    UncachedIs(ids, cache);
  }

  lemma AllResolved(slots: seq<Slot>, cached: seq<Slot>, ids: seq<ItemId>, before: Cache, asked: seq<ItemId>, excess: seq<ItemId>,
                    answers: seq<Answer>, generation: nat, maximum: nat)
    requires |slots| == |cached| == |ids| && |answers| == |asked| && NoDup(asked) && Sound(before, maximum, generation)
    requires forall id :: id in ids && id !in before <==> id in asked || id in excess
    requires forall i :: 0 <= i < |ids| ==> cached[i] == FromCache(ids[i], before)
    requires forall i :: 0 <= i < |ids| && ids[i] !in asked ==> slots[i] == if ids[i] in excess then LIMIT_REACHED else cached[i]
    requires forall i, k :: 0 <= i < |ids| && 0 <= k < |asked| && ids[i] == asked[k] ==> slots[i] == Attempt(asked[k], answers[k], generation)
    ensures var after := Entered(before, asked, answers, generation);
      forall i :: 0 <= i < |ids| ==> Resolved(slots[i], ids[i], before, after, asked, generation)
  {
    hide Resolved, Entered, FromCache, Attempt, NoDup, Sound;
    forall i | 0 <= i < |ids| ensures Resolved(slots[i], ids[i], before, Entered(before, asked, answers, generation), asked, generation) {
      assert ids[i] in ids;
      SlotResolved(slots[i], ids[i], before, asked, answers, generation, maximum);
    }
  }

  /** The uncached items are in the order they are first named. */
  lemma {:induction false} UncachedInOrder(ids: seq<ItemId>, cache: Cache, i: nat)
    requires i <= |ids|
    ensures Uncached(ids[..i], cache) <= Uncached(ids, cache)
  {
    if i < |ids| {
      assert ids[..|ids| - 1][..i] == ids[..i];
      UncachedInOrder(ids[..|ids| - 1], cache, i);
    } else {
      assert ids[..i] == ids;
    }
  }

  lemma FirstOnesAre(ids: seq<ItemId>, cache: Cache, order: seq<ItemId>, asked: seq<ItemId>, room: nat)
    requires order == Uncached(ids, cache) && asked == if |order| > room then order[..room] else order
    ensures FirstOnes(asked, ids, cache, room)
  {
    hide Uncached;
    UncachedIs(ids, cache);
    forall i, j, k | 0 <= j < k < |asked| && 0 <= i < |ids| && ids[i] == asked[k] ensures asked[j] in ids[..i] {
      NamedBefore(ids, cache, order, i, j, k);
    }
    forall i, j | 0 <= i < |ids| && ids[i] !in cache && ids[i] !in asked && 0 <= j < |asked| ensures asked[j] in ids[..i] {
      assert ids[i] in order;
      var k :| 0 <= k < |order| && order[k] == ids[i];
      PastThose(asked, order, k);
      NamedBefore(ids, cache, order, i, j, k);
    }
    forall i | 0 <= i < |ids| && ids[i] !in cache && ids[i] !in asked ensures |asked| == room {
      assert ids[i] in order;
    }
  }

  lemma PastThose(asked: seq<ItemId>, order: seq<ItemId>, k: nat)
    requires k < |order| && asked <= order && order[k] !in asked
    ensures k >= |asked|
  {
  }

  lemma NamedBefore(ids: seq<ItemId>, cache: Cache, order: seq<ItemId>, i: nat, j: nat, k: nat)
    requires order == Uncached(ids, cache) && j < k < |order| && i < |ids| && ids[i] == order[k]
    ensures order[j] in ids[..i]
  {
    hide Uncached;
    UncachedIs(ids, cache);
    UncachedIs(ids[..i], cache);
    UncachedIs(ids[..i + 1], cache);
    UncachedInOrder(ids, cache, i);
    UncachedInOrder(ids, cache, i + 1);
    assert ids[..i + 1] == ids[..i] + [ids[i]];
    var now := Uncached(ids[..i + 1], cache);
    assert order[k] in ids && ids[i] in now;
    var m :| 0 <= m < |now| && now[m] == ids[i];
    assert order[m] == order[k];
    assert order[j] == now[j] && now[j] in now;
  }

  lemma AllAnswered(slots: seq<Slot>, ids: seq<ItemId>, before: Cache, asked: seq<ItemId>, answers: seq<Answer>, generation: nat)
    requires |slots| == |ids| && |answers| == |asked| && forall id <- asked :: id !in before
    requires forall i, k :: 0 <= i < |ids| && 0 <= k < |asked| && ids[i] == asked[k] ==> slots[i] == Attempt(asked[k], answers[k], generation)
    ensures OnlyAdds(before, Entered(before, asked, answers, generation), asked)
    ensures forall i, k :: 0 <= i < |ids| && 0 <= k < |asked| && ids[i] == asked[k] ==> AsAnswered(slots[i], ids[i], answers[k], generation)
  {
    hide Entered;
    forall id | id !in asked ensures var after := Entered(before, asked, answers, generation); (id in after <==> id in before) && (id in before ==> after[id] == before[id]) {
      NotEntered(before, asked, answers, generation, id);
    }
  }

  lemma PartsOf(order: seq<ItemId>, asked: seq<ItemId>, excess: seq<ItemId>)
    requires order == asked + excess && NoDup(order)
    ensures NoDup(asked) && (forall id <- excess :: id !in asked) && forall id :: id in order <==> id in asked || id in excess
  {
    forall id | id in excess ensures id !in asked {
      var j :| 0 <= j < |excess| && excess[j] == id;
      forall i | 0 <= i < |asked| ensures asked[i] != id {
        assert order[i] == asked[i] && order[|asked| + j] == id;
      }
    }
    forall i, j | 0 <= i < j < |asked| ensures asked[i] != asked[j] {
      assert order[i] == asked[i] && order[j] == asked[j];
    }
  }

  lemma NothingEntered(cache: Cache, generation: nat)
    ensures Entered(cache, [], [], generation) == cache
  {
  }
}
