/** Which monitored item a source value reaches. */
module EngineFeeding {
  import opened Prelude
  import opened Ints
  import opened Engine

  lemma {:induction false} FindOnly(items: map<nat, Item>, order: seq<nat>, id: nat, x: string)
    requires id in items && items[id].itemId == x && id in order
    requires forall other :: other in items && items[other].itemId == x ==> other == id
    ensures FindItem(items, order, x) == Some(id)
  {
    if order[0] != id {
      FindOnly(items, order[1..], id, x);
    }
  }

  /**
   * A source value for an ItemID reaches a given item, whatever order the map
   * yields, exactly when that item reports and is the only one on the ItemID.
   */
  lemma FedExactly(s: Sub, id: nat, payload: int, generation: nat)
    requires id in s.items
    ensures (forall order: seq<nat> :: Enumerates(order, s.items.Keys) ==> Target(s, Update(s.items[id].itemId, payload, generation, order)) == Some(id))
        <==> s.items[id].mode.Reporting? && forall other :: other in s.items && s.items[other].itemId == s.items[id].itemId ==> other == id
  {
    var x := s.items[id].itemId;
    if other :| other in s.items && s.items[other].itemId == x && other != id {
      var order := OrderStarting<nat>(s.items.Keys, other);
      assert Target(s, Update(x, payload, generation, order)) != Some(id);
    } else {
      forall order: seq<nat> | Enumerates(order, s.items.Keys)
        ensures Target(s, Update(x, payload, generation, order)) == if s.items[id].mode.Reporting? then Some(id) else None
      {
        assert id in Elements(order);
        FindOnly(s.items, order, id, x);
      }
      var order := OrderStarting<nat>(s.items.Keys, id);
      assert Target(s, Update(x, payload, generation, order)) == if s.items[id].mode.Reporting? then Some(id) else None;
    }
  }

  /** Two reporting items on one ItemID: a value feeds the one the range comes to first, and never the other. */
  lemma TwinIsNotFed(s: Sub, a: nat, b: nat, u: Update)
    requires s.items.Keys == {a, b} && a != b && s.items[a].itemId == s.items[b].itemId == u.itemId
    requires s.items[a].mode.Reporting? && s.items[b].mode.Reporting? && u.order == [a, b]
    ensures Target(s, u) == Some(a) && Route(s, u).items[b] == s.items[b]
  {
  }

  /** And if the first of them is disabled, neither is fed: the reporting one hears nothing of its own ItemID. */
  lemma DisabledTwinSilencesTheOther(s: Sub, a: nat, b: nat, u: Update)
    requires s.items.Keys == {a, b} && a != b && s.items[a].itemId == s.items[b].itemId == u.itemId
    requires s.items[a].mode.Disabled? && s.items[b].mode.Reporting? && u.order == [a, b]
    ensures Target(s, u) == None && Route(s, u) == s
  {
  }
}
