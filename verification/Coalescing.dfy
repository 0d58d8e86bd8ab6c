/**
 * The per-subscription coalescing set (opcda/subscribe.go). Between two drains it
 * keeps an order list and a map of latest values; what it stands for is the log
 * of every (handle, value) pair merged since the last drain.
 */
module Coalescing {
  import opened Prelude
  import opened Ints

  type Handle = u32
  type Log<V> = seq<(Handle, V)>

  // ---------------------------------------------------------------- the log

  predicate Mentions<V>(log: Log<V>, h: Handle) {
    exists i :: 0 <= i < |log| && log[i].0 == h
  }

  function Without<V>(log: Log<V>, h: Handle): (r: Log<V>)
    ensures |r| <= |log|
  {
    if log == [] then []
    else if log[0].0 == h then Without(log[1..], h)
    else [log[0]] + Without(log[1..], h)
  }

  /** Each handle once, in the order it was first seen. */
  function FirstSeen<V>(log: Log<V>): seq<Handle>
    decreases |log|
  {
    if log == [] then [] else [log[0].0] + FirstSeen(Without(log[1..], log[0].0))
  }

  /** The value the handle was last given. */
  function Last<V>(log: Log<V>, h: Handle): V
    requires Mentions(log, h)
  {
    var n := |log| - 1;
    if log[n].0 == h then log[n].1 else Last(log[..n], h)
  }

  function Handles<V>(log: Log<V>): set<Handle> {
    set i | 0 <= i < |log| :: log[i].0
  }

  function LastValues<V>(log: Log<V>): map<Handle, V> {
    map h | h in Handles(log) :: Last(log, h)
  }

  /** What a drain is to return: each handle once, in first-seen order, with its last value. */
  function Summary<V>(log: Log<V>): seq<V> {
    FirstSeenMentioned(log);
    seq(|FirstSeen(log)|, i requires 0 <= i < |FirstSeen(log)| => Last(log, FirstSeen(log)[i]))
  }

  // ---------------------------------------------------------------- FirstSeen

  lemma {:induction false} WithoutMentions<V>(log: Log<V>, h: Handle, g: Handle)
    ensures Mentions(Without(log, h), g) <==> Mentions(log, g) && g != h
  {
    if log != [] {
      WithoutMentions(log[1..], h, g);
      assert log == [log[0]] + log[1..];
      MentionsAppend([log[0]], log[1..], g);
      MentionsAppend([log[0]], Without(log[1..], h), g);
      MentionsOne(log[0], g);
    }
  }

  lemma MentionsOne<V>(e: (Handle, V), g: Handle)
    ensures Mentions([e], g) <==> e.0 == g
  {
    assert [e][0] == e;
  }

  lemma MentionsAppend<V>(a: Log<V>, b: Log<V>, h: Handle)
    ensures Mentions(a + b, h) <==> Mentions(a, h) || Mentions(b, h)
  {
    if Mentions(b, h) {
      var i :| 0 <= i < |b| && b[i].0 == h;
      assert (a + b)[|a| + i].0 == h;
    }
    if Mentions(a, h) {
      var i :| 0 <= i < |a| && a[i].0 == h;
      assert (a + b)[i].0 == h;
    }
  }

  lemma {:induction false} WithoutAppend<V>(log: Log<V>, e: (Handle, V), h: Handle)
    ensures Without(log + [e], h) == Without(log, h) + (if e.0 == h then [] else [e])
  {
    if log == [] {
      assert [] + [e] == [e] && [e][1..] == [];
    } else {
      assert (log + [e])[1..] == log[1..] + [e];
      WithoutAppend(log[1..], e, h);
    }
  }

  lemma FirstSeenOne<V>(e: (Handle, V))
    ensures FirstSeen([] + [e]) == [e.0] && !Mentions<V>([], e.0)
  {
  }

  /** A pair merged later extends the order exactly when its handle is new. */
  lemma {:induction false} FirstSeenAppend<V>(log: Log<V>, e: (Handle, V))
    ensures FirstSeen(log + [e]) == FirstSeen(log) + (if Mentions(log, e.0) then [] else [e.0])
    decreases |log|
  {
    hide Mentions, Without;
    if log == [] {
      FirstSeenOne(e);
    } else {
      var g := log[0].0;
      assert (log + [e])[1..] == log[1..] + [e] && (log + [e])[0].0 == g;
      WithoutAppend(log[1..], e, g);
      assert log == [log[0]] + log[1..];
      MentionsAppend([log[0]], log[1..], e.0);
      MentionsOne(log[0], e.0);
      assert Without(log[1..], g) + [] == Without(log[1..], g);
      if e.0 != g {
        WithoutMentions(log[1..], g, e.0);
        FirstSeenAppend(Without(log[1..], g), e);
      }
    }
  }

  lemma {:induction false} FirstSeenMentioned<V>(log: Log<V>)
    ensures forall h :: h in FirstSeen(log) <==> Mentions(log, h)
    decreases |log|
  {
    if log != [] {
      var rest := Without(log[1..], log[0].0);
      FirstSeenMentioned(rest);
      forall h ensures h in FirstSeen(log) <==> Mentions(log, h) {
        WithoutMentions(log[1..], log[0].0, h);
        assert log == [log[0]] + log[1..];
        MentionsAppend([log[0]], log[1..], h);
        MentionsOne(log[0], h);
      }
    }
  }

  lemma {:induction false} FirstSeenNoDup<V>(log: Log<V>)
    ensures NoDup(FirstSeen(log))
    decreases |log|
  {
    if log != [] {
      var rest := Without(log[1..], log[0].0);
      FirstSeenNoDup(rest);
      FirstSeenMentioned(rest);
      WithoutMentions(log[1..], log[0].0, log[0].0);
    }
  }

  lemma LastAppend<V>(log: Log<V>, e: (Handle, V), h: Handle)
    requires Mentions(log + [e], h)
    ensures e.0 == h ==> Last(log + [e], h) == e.1
    ensures e.0 != h ==> Mentions(log, h) && Last(log + [e], h) == Last(log, h)
  {
  }

  lemma HandlesMentioned<V>(log: Log<V>, h: Handle)
    ensures h in Handles(log) <==> Mentions(log, h)
  {
  }

  lemma LastValuesAppend<V>(log: Log<V>, e: (Handle, V))
    ensures LastValues(log + [e]) == LastValues(log)[e.0 := e.1]
  {
    var m := LastValues(log)[e.0 := e.1];
    forall h ensures h in Handles(log + [e]) <==> h in m
    {
      HandlesMentioned(log + [e], h);
      HandlesMentioned(log, h);
      MentionsAppend(log, [e], h);
      MentionsOne(e, h);
    }
    forall h | h in m ensures LastValues(log + [e])[h] == m[h]
    {
      HandlesMentioned(log + [e], h);
      HandlesMentioned(log, h);
      LastAppend(log, e, h);
    }
  }

  // ---------------------------------------------------------------- the set itself

  /** `closes` counts how often the done channel was closed: closing it twice would panic. */
  datatype State<V> = State(order: seq<Handle>, latest: map<Handle, V>, closed: bool, failure: Option<string>, token: bool, closes: nat)

  /** The state stands for this log. */
  ghost predicate Represents<V>(s: State<V>, log: Log<V>) {
    s.order == FirstSeen(log) && s.latest == LastValues(log) && (s.closed ==> log == [])
  }

  /** One step of merge's loop. */
  function Put<V>(s: State<V>, e: (Handle, V)): State<V> {
    s.(order := if e.0 in s.latest then s.order else s.order + [e.0], latest := s.latest[e.0 := e.1])
  }

  function PutAll<V>(s: State<V>, batch: Log<V>): State<V> {
    if batch == [] then s else Put(PutAll(s, batch[..|batch| - 1]), batch[|batch| - 1])
  }

  lemma {:induction false} PutAllRepresents<V>(s: State<V>, log: Log<V>, batch: Log<V>)
    requires Represents(s, log) && !s.closed
    ensures Represents(PutAll(s, batch), log + batch) && PutAll(s, batch).(order := s.order, latest := s.latest) == s
  {
    if batch == [] {
      assert log + batch == log;
    } else {
      var (init, e) := (batch[..|batch| - 1], batch[|batch| - 1]);
      PutAllRepresents(s, log, init);
      assert log + batch == (log + init) + [e];
      FirstSeenAppend(log + init, e);
      LastValuesAppend(log + init, e);
      HandlesMentioned(log + init, e.0);
    }
  }

  function Values<V>(s: State<V>): seq<V>
    requires forall h <- s.order :: h in s.latest
  {
    seq(|s.order|, i requires 0 <= i < |s.order| => s.latest[s.order[i]])
  }

  lemma OrderIsLatest<V>(s: State<V>, log: Log<V>)
    requires Represents(s, log)
    ensures forall h :: h in s.order <==> h in s.latest
    ensures Values(s) == Summary(log) && NoDup(s.order)
  {
    FirstSeenMentioned(log);
    FirstSeenNoDup(log);
    forall h ensures h in s.order <==> h in s.latest {
      HandlesMentioned(log, h);
    }
  }

  // ---------------------------------------------------------------- whole runs

  datatype Op<V> = Merge(batch: Log<V>) | Drain | Invalidate(reason: string)

  /** Every handle in the order has a value, so that a drain can look it up. */
  ghost predicate Wf<V>(s: State<V>) {
    forall h <- s.order :: h in s.latest
  }

  /** One operation under the lock: the state after it, and what it returns. */
  ghost function Apply<V>(s: State<V>, op: Op<V>): (State<V>, seq<V>)
    requires Wf(s)
  {
    match op
    case Merge(batch) => (if batch == [] || s.closed then s else PutAll(s, batch).(token := true), [])
    case Drain => (s.(order := [], latest := map[]), Values(s))
    case Invalidate(reason) =>
      (if s.closed then s else s.(order := [], latest := map[], closed := true, failure := Some(reason), closes := s.closes + 1), [])
  }

  /** The reference: the log since the last drain, the reason of the first invalidation, and whether a merge has woken the consumer. */
  datatype Reference<V> = Reference(log: Log<V>, failure: Option<string>, woken: bool) {
    predicate Closed() { failure.Some? }
  }

  ghost function ApplyToLog<V>(r: Reference<V>, op: Op<V>): (Reference<V>, seq<V>) {
    match op
    case Merge(batch) => (if r.Closed() then r else r.(log := r.log + batch, woken := r.woken || batch != []), [])
    case Drain => (r.(log := []), Summary(r.log))
    case Invalidate(reason) => (r.(log := [], failure := if r.Closed() then r.failure else Some(reason)), [])
  }

  ghost predicate Refines<V>(s: State<V>, r: Reference<V>) {
    Represents(s, r.log) && s.closed == r.Closed() && s.failure == r.failure && s.token == r.woken && s.closes == (if s.closed then 1 else 0)
  }

  lemma StepRefines<V>(s: State<V>, r: Reference<V>, op: Op<V>)
    requires Refines(s, r)
    ensures Wf(s) && Refines(Apply(s, op).0, ApplyToLog(r, op).0) && Apply(s, op).1 == ApplyToLog(r, op).1
  {
    OrderIsLatest(s, r.log);
    match op
    case Merge(batch) =>
      if batch == [] {
        assert r.log + batch == r.log;
      } else if !s.closed {
        PutAllRepresents(s, r.log, batch);
      }
    case Drain =>
      assert LastValues<V>([]) == map[];
    case Invalidate(_) =>
      assert LastValues<V>([]) == map[];
  }

  function Fresh<V>(): State<V> { State([], map[], false, None, false, 0) }

  /** What each operation of a run returns. */
  ghost function Returned<V>(s: State<V>, r: Reference<V>, ops: seq<Op<V>>): seq<seq<V>>
    requires Refines(s, r)
    decreases |ops|
  {
    if ops == [] then []
    else
      StepRefines(s, r, ops[0]);
      [Apply(s, ops[0]).1] + Returned(Apply(s, ops[0]).0, ApplyToLog(r, ops[0]).0, ops[1..])
  }

  ghost function ReturnedByLog<V>(r: Reference<V>, ops: seq<Op<V>>): seq<seq<V>>
    decreases |ops|
  {
    if ops == [] then [] else [ApplyToLog(r, ops[0]).1] + ReturnedByLog(ApplyToLog(r, ops[0]).0, ops[1..])
  }

  lemma FreshRefines<V>()
    ensures Refines(Fresh<V>(), Reference([], None, false))
  {
  }

  ghost function AfterByLog<V>(r: Reference<V>, ops: seq<Op<V>>): Reference<V>
    decreases |ops|
  {
    if ops == [] then r else AfterByLog(ApplyToLog(r, ops[0]).0, ops[1..])
  }

  /**
   * In every run the set returns, operation by operation, what the log of merges
   * since the last drain says; and it is left with that log, the reason of the
   * first invalidation, and a token once something has been merged.
   */
  lemma {:induction false} CoalescingRefinement<V>(s: State<V>, r: Reference<V>, ops: seq<Op<V>>)
    requires Refines(s, r)
    ensures Returned(s, r, ops) == ReturnedByLog(r, ops) && Refines(After(s, r, ops), AfterByLog(r, ops))
    decreases |ops|
  {
    if ops != [] {
      StepRefines(s, r, ops[0]);
      CoalescingRefinement(Apply(s, ops[0]).0, ApplyToLog(r, ops[0]).0, ops[1..]);
    }
  }

  ghost function After<V>(s: State<V>, r: Reference<V>, ops: seq<Op<V>>): State<V>
    requires Refines(s, r)
    decreases |ops|
  {
    if ops == [] then s
    else
      StepRefines(s, r, ops[0]);
      After(Apply(s, ops[0]).0, ApplyToLog(r, ops[0]).0, ops[1..])
  }

  /**
   * Once invalidated, whatever follows: nothing is delivered any more, the state
   * stays as the invalidation left it, and done has been closed exactly once.
   */
  lemma {:induction false} InvalidationIsFinal<V>(s: State<V>, r: Reference<V>, ops: seq<Op<V>>)
    requires Refines(s, r) && s.closed
    ensures After(s, r, ops) == s && s.closes == 1
    ensures |Returned(s, r, ops)| == |ops| && forall i :: 0 <= i < |ops| ==> Returned(s, r, ops)[i] == []
    decreases |ops|
  {
    if ops != [] {
      StepRefines(s, r, ops[0]);
      assert LastValues<V>([]) == map[];
      assert Apply(s, ops[0]).0 == s;
      InvalidationIsFinal(s, ApplyToLog(r, ops[0]).0, ops[1..]);
    }
  }

  // ---------------------------------------------------------------- the class

  function Zip<V>(handles: seq<Handle>, values: seq<V>): (r: Log<V>)
    requires |handles| <= |values|
    ensures |r| == |handles|
  {
    seq(|handles|, i requires 0 <= i < |handles| => (handles[i], values[i]))
  }

  class PendingUpdates<V> {
    var order: seq<Handle>
    var latest: map<Handle, V>
    /** The one-slot notify channel. */
    var token: bool
    var closed: bool
    var failure: Option<string>
    var closes: nat

    ghost function Now(): State<V>
      reads this
    {
      State(order, latest, closed, failure, token, closes)
    }

    ghost predicate Valid()
      reads this
    {
      Wf(Now())
    }

    constructor ()
      ensures Valid() && Now() == Fresh()
    {
      order, latest, token, closed, failure, closes := [], map[], false, false, None, 0;
    }

    method MergeBatch(handles: seq<Handle>, values: seq<V>)
      requires Valid() && |handles| <= |values|
      modifies this
      ensures Now() == Apply(old(Now()), Merge(Zip(handles, values))).0
    {
      if |handles| == 0 || closed {
        return;
      }
      ghost var start := Now();
      ghost var batch := Zip(handles, values);
      for index := 0 to |handles|
        invariant Now() == PutAll(start, batch[..index])
      {
        assert batch[..index + 1][..index] == batch[..index];
        var handle := handles[index];
        if handle !in latest {
          order := order + [handle];
        }
        latest := latest[handle := values[index]];
      }
      assert batch[..|handles|] == batch;
      token := true;
    }

    method DrainAll() returns (values: seq<V>)
      requires Valid()
      modifies this`order, this`latest
      ensures (Now(), values) == Apply(old(Now()), Drain)
    {
      values := [];
      for index := 0 to |order|
        invariant values == Values(Now())[..index]
      {
        values := values + [latest[order[index]]];
      }
      assert values == Values(old(Now()));
      order, latest := [], map[];
    }

    method Close(reason: string)
      requires Valid()
      modifies this
      ensures Now() == Apply(old(Now()), Invalidate(reason)).0
    {
      if closed {
        return;
      }
      closed, failure, order, latest := true, Some(reason), [], map[];
      closes := closes + 1;
    }
  }

  // ---------------------------------------------------------------- SubscribeRequest.validate

  type ItemId = seq<bv8>

  /** Durations in nanoseconds. */
  datatype SubscribeRequest = SubscribeRequest(items: seq<ItemId>, updateRate: i64, deadband: Double)

  datatype Code = InvalidRequest | RequestLimitExceeded | ItemIdTooLong

  const HOUR := 3_600_000_000_000

  predicate GoodItem(item: ItemId, maxBytes: nat) {
    item != [] && 0 !in item && |item| <= maxBytes
  }

  ghost predicate Acceptable(r: SubscribeRequest, maxItems: nat, maxBytes: nat) {
    && 1 <= |r.items| <= maxItems && NoDup(r.items) && (forall item <- r.items :: item != [] && (0 as bv8) !in item && |item| <= maxBytes)
    && 1_000_000 <= r.updateRate <= 3_600_000_000_000 && r.updateRate % 1_000_000 == 0
    && !r.deadband.Less(Finite(0.0)) && !Finite(100.0).Less(r.deadband)
  }

  /** The deadbands that pass: those from 0 to 100, and the one that is no number. */
  lemma DeadbandsThatPass(d: Double)
    ensures !d.Less(Finite(0.0)) && !Finite(100.0).Less(d) <==> d.NaN? || (d.Finite? && 0.0 <= d.value <= 100.0)
  {
  }

  /** Accepts exactly the acceptable requests; a NaN deadband compares false both ways and passes. */
  method Validate(r: SubscribeRequest, maxItems: nat, maxBytes: nat) returns (refusal: Option<Code>)
    ensures refusal.None? <==> Acceptable(r, maxItems, maxBytes)
    ensures refusal == Some(RequestLimitExceeded) <==> |r.items| > maxItems && r.items != []
    ensures refusal == Some(ItemIdTooLong) ==> exists item <- r.items :: |item| > maxBytes
  {
    if |r.items| == 0 {
      return Some(InvalidRequest);
    }
    if |r.items| > maxItems {
      return Some(RequestLimitExceeded);
    }
    var seen: set<ItemId> := {};
    for index := 0 to |r.items|
      invariant seen == Elements(r.items[..index]) && NoDup(r.items[..index])
      invariant forall i :: 0 <= i < index ==> GoodItem(r.items[i], maxBytes)
    {
      var item := r.items[index];
      assert item in r.items && r.items[..index + 1] == r.items[..index] + [item];
      if item == [] || 0 in item {
        return Some(InvalidRequest);
      }
      if |item| > maxBytes {
        return Some(ItemIdTooLong);
      }
      if item in seen {
        return Some(InvalidRequest);
      }
      seen := seen + {item};
    }
    assert r.items[..|r.items|] == r.items;
    if r.updateRate < NS_PER_MS || r.updateRate > HOUR || r.updateRate % NS_PER_MS != 0 {
      return Some(InvalidRequest);
    }
    if r.deadband.Less(Finite(0.0)) || Finite(100.0).Less(r.deadband) {
      return Some(InvalidRequest);
    }
    return None;
  }
}
