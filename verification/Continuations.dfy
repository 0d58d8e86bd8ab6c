/**
 * Browse continuation points (opcua/browse.go; sections 5.9.3.1 and 7.9 of
 * OPC 10000-4): paging a matched list, the per-session budget, and the rule that
 * a point is spent by use.
 *
 * What a node's references match is an input, a random identifier is an input
 * (None when the random read failed), and so is the order of a map iteration.
 */
module Continuations {
  import opened Prelude

  type Id = string
  type Session = string
  type Time = int

  datatype Ref = Ref(referenceType: nat, target: string)

  datatype Point = Point(remaining: seq<Ref>, createdAt: Time, session: Session, maximum: nat)
  type Points = map<Id, Point>

  datatype Limits = Limits(maxNodes: nat, maxReferences: nat, maxPoints: nat, expiry: int) {
    predicate Valid() { maxNodes > 0 && maxReferences > 0 && maxPoints > 0 && expiry > 0 }
  }

  // ---------------------------------------------------------------- paging

  /** The consecutive blocks a list is delivered in. */
  function Pages(list: seq<Ref>, m: nat): seq<seq<Ref>>
    requires m >= 1
    decreases |list|
  {
    if |list| <= m then [list] else [list[..m]] + Pages(list[m..], m)
  }

  function Joined(pages: seq<seq<Ref>>): seq<Ref> {
    if pages == [] then [] else pages[0] + Joined(pages[1..])
  }

  /** The pages put together are the list; all but the last are full, and the last is not over-full. */
  lemma {:induction false} PagesCoverTheList(list: seq<Ref>, m: nat)
    requires m >= 1
    ensures Joined(Pages(list, m)) == list && |Pages(list, m)| >= 1
    ensures forall i :: 0 <= i < |Pages(list, m)| - 1 ==> |Pages(list, m)[i]| == m
    ensures |Pages(list, m)[|Pages(list, m)| - 1]| <= m
    decreases |list|
  {
    if |list| <= m {
      assert [list][1..] == [];
    } else {
      PagesCoverTheList(list[m..], m);
      assert list[..m] + list[m..] == list;
      assert Pages(list, m)[1..] == Pages(list[m..], m);
    }
  }

  /** What is left after `n` pages. */
  function Rest(list: seq<Ref>, m: nat, n: nat): seq<Ref>
    requires m >= 1
    decreases n
  {
    if n == 0 then list else if |list| <= m then [] else Rest(list[m..], m, n - 1)
  }

  /** The n-th page is the first of what was left before it, and it is the last exactly when that fits. */
  lemma {:induction false} PageOfRest(list: seq<Ref>, m: nat, n: nat)
    requires m >= 1 && n < |Pages(list, m)|
    ensures var rest := Rest(list, m, n); Pages(list, m)[n] == if |rest| <= m then rest else rest[..m]
    ensures n == |Pages(list, m)| - 1 <==> |Rest(list, m, n)| <= m
    decreases n
  {
    if n == 0 {
      if |list| > m {
        PagesCoverTheList(list[m..], m);
      }
    } else {
      PageOfRest(list[m..], m, n - 1);
    }
  }

  /** The first n pages and what is left after them are the list. */
  lemma {:induction false} DeliveredAndRest(list: seq<Ref>, m: nat, n: nat)
    requires m >= 1 && n < |Pages(list, m)|
    ensures Joined(Pages(list, m)[..n]) + Rest(list, m, n) == list
    decreases n
  {
    if n > 0 {
      DeliveredAndRest(list[m..], m, n - 1);
      assert Pages(list, m)[..n][1..] == Pages(list[m..], m)[..n - 1];
      assert list == list[..m] + list[m..];
    }
  }

  lemma {:induction false} RestStep(list: seq<Ref>, m: nat, n: nat)
    requires m >= 1 && n < |Pages(list, m)| && |Rest(list, m, n)| > m
    ensures n + 1 < |Pages(list, m)| && Rest(list, m, n)[m..] == Rest(list, m, n + 1)
    decreases n
  {
    if n == 0 {
      PagesCoverTheList(list[m..], m);
    } else {
      RestStep(list[m..], m, n - 1);
    }
  }

  // ---------------------------------------------------------------- the invariant

  /** Where a point came from: the list its Browse matched, and how many pages of it have been delivered. */
  datatype Origin = Origin(list: seq<Ref>, delivered: nat)

  function Held(points: Points, session: Session): set<Id> {
    set id | id in points && points[id].session == session
  }

  /** Each live point holds what is left of its list after the pages delivered, in blocks of its Browse's own maximum. */
  ghost predicate OnPage(p: Point, o: Origin) {
    && p.maximum >= 1 && 1 <= o.delivered < |Pages(o.list, p.maximum)|
    && p.remaining == Rest(o.list, p.maximum, o.delivered)
  }

  /**
   * The invariant of the service: no session is over its budget, every live point
   * was issued, and every live point is on some page of the list it came from.
   */
  ghost predicate Good(l: Limits, points: Points, issued: set<Id>, origin: map<Id, Origin>) {
    && (forall session :: |Held(points, session)| <= l.maxPoints)
    && points.Keys <= issued && points.Keys <= origin.Keys
    && (forall id <- points :: OnPage(points[id], origin[id]))
  }

  /** What any call may do to the points of others, and to those already gone: nothing but expiry, and never bring one back. */
  ghost predicate Isolated(before: Points, issuedBefore: set<Id>, after: Points, issuedAfter: set<Id>, session: Session, now: Time, expiry: int) {
    && issuedBefore <= issuedAfter
    && (forall id <- before :: before[id].session != session && now - before[id].createdAt < expiry ==> id in after && after[id] == before[id])
    && (forall id <- after :: id in before || (id !in issuedBefore && after[id].session == session))
    && (forall id <- after :: id in before ==> after[id] == before[id])
  }

  /** A point that was issued and is gone stays gone: Isolated calls compose. */
  lemma DeadStaysDead(before: Points, i0: set<Id>, after: Points, i1: set<Id>, session: Session, now: Time, expiry: int, id: Id)
    requires Isolated(before, i0, after, i1, session, now, expiry) && id in i0 && id !in before
    ensures id in i1 && id !in after
  {
  }

  /** One state of the service, and a step any call of any session may take. */
  datatype Snapshot = Snapshot(points: Points, issued: set<Id>)

  ghost predicate Next(a: Snapshot, b: Snapshot) {
    exists session: Session, now: Time, expiry: int :: Isolated(a.points, a.issued, b.points, b.issued, session, now, expiry)
  }

  /** Over any run of calls by any sessions, a point that has been spent, evicted or released is never live again. */
  lemma {:induction false} SpentForever(run: seq<Snapshot>, i: nat, j: nat, id: Id)
    requires forall k :: 0 < k < |run| ==> Next(run[k - 1], run[k])
    requires i <= j < |run| && id in run[i].issued && id !in run[i].points
    ensures id in run[j].issued && id !in run[j].points
    decreases j - i
  {
    if i < j {
      SpentForever(run, i, j - 1, id);
      assert Next(run[j - 1], run[j]);
    }
  }

  /** In every reachable state, the references delivered through a live point and those it still holds are its whole list. */
  lemma LivePointsLoseNothing(l: Limits, points: Points, issued: set<Id>, origin: map<Id, Origin>, id: Id)
    requires Good(l, points, issued, origin) && id in points
    ensures var (p, o) := (points[id], origin[id]);
      && o.delivered < |Pages(o.list, p.maximum)|
      && Joined(Pages(o.list, p.maximum)[..o.delivered]) + p.remaining == o.list
  {
    DeliveredAndRest(origin[id].list, points[id].maximum, origin[id].delivered);
  }

  lemma HeldShrinks(small: Points, big: Points, session: Session)
    requires forall id <- small :: id in big && small[id] == big[id]
    ensures Held(small, session) <= Held(big, session) && |Held(small, session)| <= |Held(big, session)|
  {
    SubsetSize(Held(small, session), Held(big, session));
  }

  lemma {:induction false} SubsetSize<T>(a: set<T>, b: set<T>)
    requires a <= b
    ensures |a| <= |b|
  {
    if a != {} {
      var x :| x in a;
      SubsetSize(a - {x}, b - {x});
    }
  }

  lemma DroppingKeepsGood(l: Limits, big: Points, small: Points, issued: set<Id>, origin: map<Id, Origin>)
    requires Good(l, big, issued, origin) && forall id <- small :: id in big && small[id] == big[id]
    ensures Good(l, small, issued, origin)
  {
    hide OnPage, Held;
    forall session ensures |Held(small, session)| <= l.maxPoints {
      HeldShrinks(small, big, session);
    }
  }

  lemma HeldAfterAdding(points: Points, id: Id, p: Point, session: Session)
    requires id !in points
    ensures Held(points[id := p], session) == if session == p.session then Held(points, session) + {id} else Held(points, session)
  {
  }

  lemma AddingKeepsGood(l: Limits, points: Points, issued: set<Id>, origin: map<Id, Origin>, id: Id, p: Point, o: Origin)
    requires Good(l, points, issued, origin) && id !in issued && OnPage(p, o)
    requires |Held(points, p.session)| < l.maxPoints
    ensures Good(l, points[id := p], issued + {id}, origin[id := o])
  {
    hide OnPage, Held;
    var after := points[id := p];
    forall session ensures |Held(after, session)| <= l.maxPoints {
      HeldAfterAdding(points, id, p, session);
    }
  }

  // ---------------------------------------------------------------- expiry

  function Unexpired(points: Points, now: Time, expiry: int): Points {
    map id | id in points && now - points[id].createdAt < expiry :: points[id]
  }

  /** Points of this session that a request at `now` may spend: those from before it. */
  function Prior(points: Points, session: Session, now: Time): set<Id> {
    set id | id in points && points[id].session == session && points[id].createdAt < now
  }

  /**
   * What making room does: it drops the session's oldest points from prior
   * requests, no more of them than it must, and touches nothing else.
   */
  ghost predicate MadeRoom(before: Points, after: Points, session: Session, now: Time, maxPoints: nat) {
    && (forall id <- after :: id in before && after[id] == before[id])
    && (forall id <- before :: id !in after ==> id in Prior(before, session, now))
    && (forall id <- before, other <- after :: id !in after && other in Prior(before, session, now) ==>
          before[id].createdAt <= before[other].createdAt)
    && (after != before ==> |Held(after, session)| >= maxPoints - 1)
  }

  /** The oldest point from before `now`, if there is one. */
  ghost predicate OldestOf(points: Points, session: Session, now: Time, oldest: Option<Id>) {
    if oldest.None? then Prior(points, session, now) == {}
    else
      oldest.value in points && oldest.value in Prior(points, session, now)
      && forall id <- Prior(points, session, now) :: points[oldest.value].createdAt <= points[id].createdAt
  }

  lemma NothingScanned(session: Session, now: Time)
    ensures |Held(map[], session)| == 0 && OldestOf(map[], session, now, None)
  {
    assert Held(map[], session) == {};
  }

  lemma HeldIsLive(points: Points, session: Session, id: Id)
    ensures id !in points ==> id !in Held(points, session)
  {
  }

  lemma OldestStep(points: Points, session: Session, now: Time, oldest: Option<Id>, key: Id, p: Point)
    requires key !in points && OldestOf(points, session, now, oldest)
    ensures oldest.Some? ==> oldest.value in points
    ensures p.session == session && p.createdAt < now && (oldest.None? || p.createdAt < points[oldest.value].createdAt)
      ==> OldestOf(points[key := p], session, now, Some(key))
    ensures !(p.session == session && p.createdAt < now && (oldest.None? || p.createdAt < points[oldest.value].createdAt))
      ==> OldestOf(points[key := p], session, now, oldest)
  {
    var after := points[key := p];
    if p.session == session && p.createdAt < now {
      assert Prior(after, session, now) == Prior(points, session, now) + {key};
    } else {
      assert Prior(after, session, now) == Prior(points, session, now);
    }
  }

  lemma NonePrior(points: Points, session: Session, now: Time)
    requires OldestOf(points, session, now, None)
    ensures forall id <- Held(points, session) :: id in points && points[id].createdAt >= now
  {
    forall id | id in Held(points, session) ensures id in points && points[id].createdAt >= now {
      assert id !in Prior(points, session, now);
    }
  }

  lemma NoRoomMade(points: Points, session: Session, now: Time, maxPoints: nat)
    ensures MadeRoom(points, points, session, now, maxPoints)
  {
  }

  lemma RoomStep(before: Points, middle: Points, session: Session, now: Time, maxPoints: nat, oldest: Id)
    requires MadeRoom(before, middle, session, now, maxPoints) && |Held(middle, session)| >= maxPoints
    requires OldestOf(middle, session, now, Some(oldest))
    ensures MadeRoom(before, middle - {oldest}, session, now, maxPoints)
    ensures oldest in middle && |middle - {oldest}| < |middle|
  {
    assert (middle - {oldest}).Keys == middle.Keys - {oldest};
    assert Held(middle - {oldest}, session) == Held(middle, session) - {oldest};
  }

  lemma GoodKeys(l: Limits, points: Points, issued: set<Id>, origin: map<Id, Origin>, session: Session)
    requires Good(l, points, issued, origin)
    ensures points.Keys <= issued && points.Keys <= origin.Keys && |Held(points, session)| <= l.maxPoints
  {
  }

  lemma FirstRest(list: seq<Ref>, m: nat)
    requires m >= 1 && |list| > m
    ensures Rest(list, m, 1) == list[m..] && 1 < |Pages(list, m)| && Pages(list, m)[0] == list[..m]
  {
    RestStep(list, m, 0);
    PageOfRest(list, m, 0);
  }

  lemma FirstPoint(list: seq<Ref>, p: Point)
    requires p.maximum >= 1 && |list| > p.maximum && p.remaining == list[p.maximum..]
    ensures OnPage(p, Origin(list, 1))
  {
    FirstRest(list, p.maximum);
  }

  lemma IsolatedByDropping(before: Points, after: Points, issued: set<Id>, session: Session, now: Time, expiry: int, maxPoints: nat)
    requires MadeRoom(Unexpired(before, now, expiry), after, session, now, maxPoints)
    ensures Isolated(before, issued, after, issued, session, now, expiry)
  {
  }

  lemma IsolatedByAdding(before: Points, kept: Points, issued: set<Id>, session: Session, now: Time, expiry: int, id: Id, p: Point)
    requires Isolated(before, issued, kept, issued, session, now, expiry) && id !in issued && before.Keys <= issued && p.session == session
    ensures Isolated(before, issued, kept[id := p], issued + {id}, session, now, expiry)
  {
  }

  // ---------------------------------------------------------------- the service

  datatype Status = StatusGood | NoContinuationPoints | PointInvalid | InternalError | NothingToDo | TooManyOperations | ViewUnknown | NodeFailed

  /** One BrowseResult. */
  datatype Result = Result(status: Status, point: Option<Id>, references: seq<Ref>)

  function Failed(status: Status): Result { Result(status, None, []) }

  /** The client's own maximum where it set one below the server's. */
  function Effective(maxReferences: nat, requested: nat): nat {
    if 0 < requested < maxReferences then requested else maxReferences
  }

  /** The result of a node that matched `list`: its first page, with a point exactly when more remains, or a refusal with nothing. */
  ghost predicate FirstPage(r: Result, list: seq<Ref>, m: nat)
    requires m >= 1
  {
    if r.status == StatusGood then r.references == Pages(list, m)[0] && (r.point.Some? <==> |Pages(list, m)| > 1)
    else |list| > m && r == Failed(r.status) && r.status in {NoContinuationPoints, InternalError}
  }

  ghost predicate Answers(r: Result, node: Option<seq<Ref>>, m: nat) {
    m >= 1 && if node.None? then r == Failed(NodeFailed) else FirstPage(r, node.value, m)
  }

  /** A page is no longer than the server or the client allow, and where a point follows it one of them is reached. */
  ghost predicate Sized(r: Result, most: nat, requested: nat) {
    && |r.references| <= most && (0 < requested ==> |r.references| <= requested)
    && (r.point.Some? ==> |r.references| == most || |r.references| == requested)
  }

  lemma PagesAreSized(r: Result, node: Option<seq<Ref>>, most: nat, requested: nat)
    requires 0 < most && Answers(r, node, Effective(most, requested))
    ensures Sized(r, most, requested)
  {
    var m := Effective(most, requested);
    if node.Some? {
      PagesCoverTheList(node.value, m);
    }
  }

  ghost predicate Carries(points: Points, id: Id, p: Point) { id in points && points[id] == p }

  /** A point in the response is live, and holds what the response left out. */
  ghost predicate Backed(points: Points, r: Result, node: Option<seq<Ref>>, session: Session, now: Time, m: nat) {
    r.point.Some? ==> node.Some? && |node.value| > m && Carries(points, r.point.value, Point(node.value[m..], now, session, m))
  }

  /** The points this very request stored are not spent to make room. */
  ghost predicate SparesCurrent(before: Points, after: Points, session: Session, now: Time) {
    forall id <- before :: before[id].session == session && before[id].createdAt == now ==> Carries(after, id, before[id])
  }

  /** The page after those delivered, and whatever remains behind a new point, under the original Browse's maximum. */
  ghost predicate NextPage(r: Result, p: Point, o: Origin, points: Points, origin: map<Id, Origin>, now: Time) {
    && p.maximum >= 1 && o.delivered < |Pages(o.list, p.maximum)| && r.references == Pages(o.list, p.maximum)[o.delivered]
    && (r.point.None? <==> o.delivered == |Pages(o.list, p.maximum)| - 1)
    && (r.point.Some? ==>
         && |p.remaining| > p.maximum && Carries(points, r.point.value, Point(p.remaining[p.maximum..], now, p.session, p.maximum))
         && r.point.value in origin && origin[r.point.value] == Origin(o.list, o.delivered + 1))
  }

  function WithoutSession(points: Points, session: Session): Points {
    map id | id in points && points[id].session != session :: points[id]
  }

  /** What is left while the points in `todo` have not been looked at yet, and the part that has. */
  function Kept(all: Points, session: Session, todo: set<Id>): Points {
    map id | id in all && (id in todo || all[id].session != session) :: all[id]
  }

  ghost predicate Half(part: Points, all: Points, todo: set<Id>) {
    part.Keys == all.Keys - todo && forall id <- part :: part[id] == all[id]
  }

  lemma KeptStart(all: Points, session: Session)
    ensures Kept(all, session, all.Keys) == all && Half(map[], all, all.Keys) && |Held(map[], session)| == 0
  {
    NothingScanned(session, 0);
  }

  lemma KeptStep(all: Points, part: Points, session: Session, todo: set<Id>, key: Id)
    requires key in todo && todo <= all.Keys && Half(part, all, todo)
    ensures key in Kept(all, session, todo) && Kept(all, session, todo)[key] == all[key] && Half(part[key := all[key]], all, todo - {key})
    ensures Kept(all, session, todo - {key}) == if all[key].session == session then Kept(all, session, todo) - {key} else Kept(all, session, todo)
    ensures |Held(part[key := all[key]], session)| == |Held(part, session)| + (if all[key].session == session then 1 else 0)
  {
    hide Kept, Held;
    KeptOne(all, session, todo, key);
    HalfOne(part, all, todo, key);
    HeldAfterAdding(part, key, all[key], session);
    HeldIsLive(part, session, key);
  }

  lemma KeptOne(all: Points, session: Session, todo: set<Id>, key: Id)
    requires key in todo && todo <= all.Keys
    ensures key in Kept(all, session, todo) && Kept(all, session, todo)[key] == all[key]
    ensures Kept(all, session, todo - {key}) == if all[key].session == session then Kept(all, session, todo) - {key} else Kept(all, session, todo)
  {
  }

  lemma HalfOne(part: Points, all: Points, todo: set<Id>, key: Id)
    requires key in todo && todo <= all.Keys && Half(part, all, todo)
    ensures key !in part && Half(part[key := all[key]], all, todo - {key})
  {
  }

  lemma KeptEnd(all: Points, part: Points, session: Session)
    requires Half(part, all, {})
    ensures part == all && Kept(all, session, {}) == WithoutSession(all, session)
    ensures forall id :: id in WithoutSession(all, session) <==> id in all && all[id].session != session
    ensures forall id <- Kept(all, session, {}) :: id in all && Kept(all, session, {})[id] == all[id]
  {
  }

  lemma OnlyPage(list: seq<Ref>, m: nat)
    requires m >= 1 && |list| <= m
    ensures Pages(list, m) == [list]
  {
  }

  lemma Unchanged(points: Points, issued: set<Id>, session: Session, now: Time, expiry: int)
    ensures Isolated(points, issued, points, issued, session, now, expiry) && SparesCurrent(points, points, session, now)
  {
  }

  lemma RoomSparesCurrent(before: Points, after: Points, point: Option<Id>, session: Session, now: Time, expiry: int, maxPoints: nat)
    requires expiry > 0
    requires MadeRoom(Unexpired(before, now, expiry), if point.Some? then after - {point.value} else after, session, now, maxPoints)
    ensures SparesCurrent(before, after, session, now)
  {
    var kept := if point.Some? then after - {point.value} else after;
    forall id | id in before && before[id].session == session && before[id].createdAt == now ensures Carries(after, id, before[id]) {
      assert id in Unexpired(before, now, expiry);
      assert id in kept;
    }
  }

  lemma IsolatedTwice(p0: Points, i0: set<Id>, p1: Points, i1: set<Id>, p2: Points, i2: set<Id>, session: Session, now: Time, expiry: int)
    requires Isolated(p0, i0, p1, i1, session, now, expiry) && Isolated(p1, i1, p2, i2, session, now, expiry) && p0.Keys <= i0
    ensures Isolated(p0, i0, p2, i2, session, now, expiry)
  {
  }

  lemma StillBacked(p0: Points, p1: Points, r: Result, node: Option<seq<Ref>>, session: Session, now: Time, m: nat)
    requires Backed(p0, r, node, session, now, m) && SparesCurrent(p0, p1, session, now)
    ensures Backed(p1, r, node, session, now, m)
  {
  }

  /** A call of another session, or an expiry, at a time before a point stored at `born` expires. */
  ghost predicate OthersTurn(a: Snapshot, b: Snapshot, session: Session, born: Time, expiry: int) {
    exists other: Session, now: Time ::
      other != session && now - born < expiry && Isolated(a.points, a.issued, b.points, b.issued, other, now, expiry)
  }

  /** A step of the Browse itself, or of somebody else. */
  ghost predicate Turn(a: Snapshot, b: Snapshot, session: Session, born: Time, expiry: int) {
    SparesCurrent(a.points, b.points, session, born) || OthersTurn(a, b, session, born, expiry)
  }

  /**
   * A point one step of a Browse stored is live at every later moment of that
   * Browse, whatever calls other sessions make between its steps, until it expires.
   */
  lemma {:induction false} PointSurvives(run: seq<Snapshot>, session: Session, expiry: int, id: Id, p: Point, j: nat)
    requires j < |run| && Carries(run[0].points, id, p) && p.session == session
    requires forall k :: 0 < k < |run| ==> Turn(run[k - 1], run[k], session, p.createdAt, expiry)
    ensures Carries(run[j].points, id, p)
    decreases j
  {
    if j > 0 {
      PointSurvives(run, session, expiry, id, p, j - 1);
      assert Turn(run[j - 1], run[j], session, p.createdAt, expiry);
    }
  }

  lemma IsolatedByExpiry(before: Points, issued: set<Id>, session: Session, now: Time, expiry: int)
    ensures Isolated(before, issued, Unexpired(before, now, expiry), issued, session, now, expiry)
  {
  }

  lemma IsolatedByUse(before: Points, middle: Points, issued: set<Id>, session: Session, now: Time, expiry: int, id: Id)
    requires Isolated(before, issued, middle, issued, session, now, expiry) && id in middle && middle[id].session == session
    ensures Isolated(before, issued, middle - {id}, issued, session, now, expiry)
  {
  }

  /** Taking a live point off the map: its page, the invariant, and room for the point that follows it. */
  lemma UsePoint(l: Limits, points: Points, issued: set<Id>, origin: map<Id, Origin>, id: Id)
    requires Good(l, points, issued, origin) && id in points
    ensures Good(l, points - {id}, issued, origin) && |Held(points - {id}, points[id].session)| < l.maxPoints
    ensures var (p, o) := (points[id], origin[id]);
      && p.maximum >= 1 && o.delivered < |Pages(o.list, p.maximum)|
      && Pages(o.list, p.maximum)[o.delivered] == (if |p.remaining| <= p.maximum then p.remaining else p.remaining[..p.maximum])
      && (o.delivered == |Pages(o.list, p.maximum)| - 1 <==> |p.remaining| <= p.maximum)
    ensures var (p, o) := (points[id], origin[id]);
      |p.remaining| > p.maximum ==>
        forall now :: OnPage(Point(p.remaining[p.maximum..], now, p.session, p.maximum), Origin(o.list, o.delivered + 1))
  {
    var (p, o) := (points[id], origin[id]);
    assert OnPage(p, o);
    PageOfRest(o.list, p.maximum, o.delivered);
    if |p.remaining| > p.maximum {
      RestStep(o.list, p.maximum, o.delivered);
    }
    DroppingKeepsGood(l, points, points - {id}, issued, origin);
    assert Held(points, p.session) == Held(points - {id}, p.session) + {id};
  }

  class BrowseService {
    const limits: Limits
    var points: Points
    /** Every identifier ever handed out, and where each live point came from. */
    ghost var issued: set<Id>
    ghost var origin: map<Id, Origin>

    ghost predicate Valid()
      reads this
    {
      limits.Valid() && Good(limits, points, issued, origin)
    }

    constructor (limits: Limits)
      requires limits.Valid()
      ensures Valid() && points == map[] && issued == {}
    {
      this.limits := limits;
      points, issued, origin := map[], {}, map[];
      new;
      assert forall session :: Held(points, session) == {};
    }

    method ExpireLocked(now: Time)
      requires Valid()
      modifies this`points
      ensures forall id :: id in points <==> id in old(points) && now - old(points)[id].createdAt < limits.expiry
      ensures Valid() && points == Unexpired(old(points), now, limits.expiry)
    {
      var todo := points.Keys;
      ghost var before := points;
      while todo != {}
        invariant todo <= before.Keys && points.Keys <= before.Keys
        invariant forall id <- before :: id in points <==> id in todo || now - before[id].createdAt < limits.expiry
        invariant forall id <- points :: points[id] == before[id]
        decreases |todo|
      {
        var key :| key in todo;
        todo := todo - {key};
        if now - points[key].createdAt >= limits.expiry {
          points := points - {key};
        }
      }
      DroppingKeepsGood(limits, before, points, issued, origin);
    }

    /** One pass over the map: how many points the session holds, and its oldest from before `now`. */
    method Scan(session: Session, now: Time) returns (held: nat, oldest: Option<Id>)
      ensures held == |Held(points, session)| && OldestOf(points, session, now, oldest)
    {
      hide Held, Prior, OldestOf;
      var todo := points.Keys;
      ghost var part: Points := map[];
      held, oldest := 0, None;
      NothingScanned(session, now);
      while todo != {}
        invariant todo <= points.Keys && part.Keys == points.Keys - todo && forall id <- part :: part[id] == points[id]
        invariant held == |Held(part, session)| && OldestOf(part, session, now, oldest)
        decreases |todo|
      {
        var key :| key in todo;
        todo := todo - {key};
        var point := points[key];
        HeldAfterAdding(part, key, point, session);
        OldestStep(part, session, now, oldest, key, point);
        HeldIsLive(part, session, key);
        part := part[key := point];
        if point.session == session {
          held := held + 1;
          if point.createdAt < now && (oldest.None? || point.createdAt < points[oldest.value].createdAt) {
            oldest := Some(key);
          }
        }
      }
      assert part == points;
    }

    method FreeOldestLocked(session: Session, now: Time) returns (room: bool)
      requires Valid()
      modifies this`points
      ensures Valid() && MadeRoom(old(points), points, session, now, limits.maxPoints)
      ensures room <==> |Held(points, session)| < limits.maxPoints
      ensures !room ==> forall id <- Held(points, session) :: id in points && points[id].createdAt >= now
    {
      hide Held, Prior, MadeRoom, OldestOf, Good;
      NoRoomMade(points, session, now, limits.maxPoints);
      while true
        invariant Valid() && MadeRoom(old(points), points, session, now, limits.maxPoints)
        decreases |points|
      {
        var held, oldest := Scan(session, now);
        if held < limits.maxPoints {
          return true;
        }
        if oldest.None? {
          NonePrior(points, session, now);
          return false;
        }
        RoomStep(old(points), points, session, now, limits.maxPoints, oldest.value);
        DroppingKeepsGood(limits, points, points - {oldest.value}, issued, origin);
        points := points - {oldest.value};
      }
    }

    /**
     * Stores what one response could not carry. Room is made from the session's
     * own prior points only; what this request stored survives.
     */
    method StoreContinuation(session: Session, ghost list: seq<Ref>, remaining: seq<Ref>, maximum: nat, now: Time, random: Option<Id>)
      returns (point: Option<Id>, status: Status)
      requires Valid() && maximum >= 1 && |list| > maximum && remaining == list[maximum..]
      requires random.Some? ==> random.value !in issued
      modifies this
      ensures Valid() && Isolated(old(points), old(issued), points, issued, session, now, limits.expiry)
      ensures MadeRoom(Unexpired(old(points), now, limits.expiry), if point.Some? then points - {point.value} else points,
                       session, now, limits.maxPoints)
      ensures point.Some? <==> status == StatusGood
      ensures point.Some? ==> point == random && point.value in points && points[point.value] == Point(remaining, now, session, maximum)
      ensures point.Some? ==> point.value in origin && origin[point.value] == Origin(list, 1)
      ensures status == NoContinuationPoints ==> |Held(points, session)| == limits.maxPoints
      ensures status == NoContinuationPoints ==> forall id <- Held(points, session) :: id in points && points[id].createdAt >= now
      ensures status in {StatusGood, NoContinuationPoints, InternalError} && (status == InternalError ==> random.None?)
      ensures issued == old(issued) + (if point.Some? then {point.value} else {})
    {
      hide Held, MadeRoom, Unexpired, Isolated, Good, OnPage, Pages, Rest;
      GoodKeys(limits, points, issued, origin, session);
      ExpireLocked(now);
      var room := FreeOldestLocked(session, now);
      IsolatedByDropping(old(points), points, issued, session, now, limits.expiry, limits.maxPoints);
      GoodKeys(limits, points, issued, origin, session);
      if !room {
        return None, NoContinuationPoints;
      }
      if random.None? {
        return None, InternalError;
      }
      var id := random.value;
      var p := Point(remaining, now, session, maximum);
      FirstPoint(list, p);
      AddingKeepsGood(limits, points, issued, origin, id, p, Origin(list, 1));
      ghost var kept := points;
      points, issued, origin := points[id := p], issued + {id}, origin[id := Origin(list, 1)];
      IsolatedByAdding(old(points), kept, old(issued), session, now, limits.expiry, id, p);
      assert points - {id} == kept;
      return Some(id), StatusGood;
    }

    /** The paging half of browseNode, for the references a node matched. */
    method BrowseNode(session: Session, matched: seq<Ref>, maximum: nat, now: Time, random: Option<Id>) returns (result: Result)
      requires Valid() && maximum >= 1 && (random.Some? ==> random.value !in issued)
      modifies this
      ensures Valid() && Isolated(old(points), old(issued), points, issued, session, now, limits.expiry)
      ensures SparesCurrent(old(points), points, session, now)
      ensures issued == old(issued) + (if result.point.Some? then {result.point.value} else {})
      ensures FirstPage(result, matched, maximum) && (result.point.Some? ==> result.point == random)
      ensures result.point.Some? ==> |matched| > maximum && Carries(points, result.point.value, Point(matched[maximum..], now, session, maximum))
      ensures result.point.Some? ==> result.point.value in origin && origin[result.point.value] == Origin(matched, 1)
      ensures result.status == NoContinuationPoints ==> |Held(points, session)| == limits.maxPoints
    {
      hide Held, MadeRoom, Unexpired, Isolated, Good, OnPage, Pages, Rest, SparesCurrent;
      if |matched| <= maximum {
        Unchanged(points, issued, session, now, limits.expiry);
        OnlyPage(matched, maximum);
        return Result(StatusGood, None, matched);
      }
      var point, status := StoreContinuation(session, matched, matched[maximum..], maximum, now, random);
      RoomSparesCurrent(old(points), points, point, session, now, limits.expiry, limits.maxPoints);
      if point.None? {
        return Failed(status);
      }
      FirstRest(matched, maximum);
      return Result(StatusGood, point, matched[..maximum]);
    }

    /**
     * Browse over the nodes of one request, one locked step a node: None is a node
     * that failed before its references were matched. With no other call between
     * its steps every point it returns is live when it returns; PointSurvives says
     * what other calls may come between.
     */
    method Browse(session: Session, nodes: seq<Option<seq<Ref>>>, viewIsNull: bool, requested: nat, now: Time, randoms: seq<Option<Id>>)
      returns (status: Status, results: seq<Result>)
      requires Valid() && |randoms| == |nodes|
      requires forall i :: 0 <= i < |randoms| ==> randoms[i].Some? ==> randoms[i].value !in issued
      requires forall i, j :: 0 <= i < j < |randoms| ==> randoms[i].Some? ==> randoms[i] != randoms[j]
      modifies this
      ensures Valid() && Isolated(old(points), old(issued), points, issued, session, now, limits.expiry)
      ensures status == if nodes == [] then NothingToDo else if |nodes| > limits.maxNodes then TooManyOperations
                        else if !viewIsNull then ViewUnknown else StatusGood
      ensures status != StatusGood ==> results == [] && points == old(points)
      ensures status == StatusGood ==> |results| == |nodes|
      ensures status == StatusGood ==> forall i :: 0 <= i < |nodes| ==> Answers(results[i], nodes[i], Effective(limits.maxReferences, requested))
      ensures status == StatusGood ==> forall i :: 0 <= i < |nodes| ==> Backed(points, results[i], nodes[i], session, now, Effective(limits.maxReferences, requested))
      ensures status == StatusGood ==> forall i :: 0 <= i < |nodes| ==> Sized(results[i], limits.maxReferences, requested)
    {
      hide Held, MadeRoom, Unexpired, Isolated, Good, OnPage, Pages, Rest, SparesCurrent, FirstPage, Carries, Sized;
      Unchanged(points, issued, session, now, limits.expiry);
      GoodKeys(limits, points, issued, origin, session);
      results := [];
      if |nodes| == 0 {
        return NothingToDo, [];
      }
      if |nodes| > limits.maxNodes {
        return TooManyOperations, [];
      }
      if !viewIsNull {
        return ViewUnknown, [];
      }
      var maximum := limits.maxReferences;
      if requested > 0 && requested < maximum {
        maximum := requested;
      }
      for k := 0 to |nodes|
        invariant Valid() && |results| == k && Isolated(old(points), old(issued), points, issued, session, now, limits.expiry)
        invariant forall i :: k <= i < |randoms| ==> randoms[i].Some? ==> randoms[i].value !in issued
        invariant forall i :: 0 <= i < k ==> Answers(results[i], nodes[i], maximum)
        invariant forall i :: 0 <= i < k ==> Backed(points, results[i], nodes[i], session, now, maximum)
      {
        if nodes[k].None? {
          results := results + [Failed(NodeFailed)];
        } else {
          ghost var (p0, i0) := (points, issued);
          assert forall i :: k < i < |randoms| ==> randoms[k].Some? ==> randoms[k] != randoms[i];
          var result := BrowseNode(session, nodes[k].value, maximum, now, randoms[k]);
          IsolatedTwice(old(points), old(issued), p0, i0, points, issued, session, now, limits.expiry);
          forall i | 0 <= i < k ensures Backed(points, results[i], nodes[i], session, now, maximum) {
            StillBacked(p0, points, results[i], nodes[i], session, now, maximum);
          }
          results := results + [result];
        }
      }
      forall i | 0 <= i < |nodes| ensures Sized(results[i], limits.maxReferences, requested) {
        PagesAreSized(results[i], nodes[i], limits.maxReferences, requested);
      }
      return StatusGood, results;
    }

    /**
     * continueBrowse: a live point of this session yields exactly the next page of
     * its list and is spent; the result carries a new point exactly when more remains.
     */
    method ContinueBrowse(session: Session, id: Id, now: Time, random: Option<Id>) returns (result: Result)
      requires Valid() && (random.Some? ==> random.value !in issued)
      modifies this
      ensures Valid() && Isolated(old(points), old(issued), points, issued, session, now, limits.expiry)
      ensures id in old(issued) ==> id !in points || points[id].session != session
      ensures result.status == PointInvalid <==>
        !(id in old(points) && now - old(points)[id].createdAt < limits.expiry && old(points)[id].session == session)
      ensures result.status == PointInvalid ==> points == Unexpired(old(points), now, limits.expiry) && result == Failed(PointInvalid)
      ensures result.status in {StatusGood, PointInvalid, InternalError} && (result.status == InternalError ==> random.None? && result == Failed(InternalError))
      ensures result.status == StatusGood ==>
        id in old(points) && id in old(origin) &&
        NextPage(result, old(points)[id], old(origin)[id], points, origin, now)
    {
      hide Held, Isolated, Good, OnPage, Pages, Rest;
      GoodKeys(limits, points, issued, origin, session);
      ExpireLocked(now);
      IsolatedByExpiry(old(points), issued, session, now, limits.expiry);
      if id !in points || points[id].session != session {
        return Failed(PointInvalid);
      }
      var stored := points[id];
      ghost var o := origin[id];
      ghost var before := points;
      UsePoint(limits, points, issued, origin, id);
      points := points - {id};
      IsolatedByUse(old(points), before, issued, session, now, limits.expiry, id);
      if |stored.remaining| <= stored.maximum {
        return Result(StatusGood, None, stored.remaining);
      }
      if random.None? {
        return Failed(InternalError);
      }
      var p := Point(stored.remaining[stored.maximum..], now, session, stored.maximum);
      ghost var kept := points;
      AddingKeepsGood(limits, points, issued, origin, random.value, p, Origin(o.list, o.delivered + 1));
      points, issued := points[random.value := p], issued + {random.value};
      origin := origin[random.value := Origin(o.list, o.delivered + 1)];
      IsolatedByAdding(old(points), kept, old(issued), session, now, limits.expiry, random.value, p);
      return Result(StatusGood, random, stored.remaining[..stored.maximum]);
    }

    /** The release half of BrowseNext: a session releases only what it owns. */
    method ReleasePoints(session: Session, ids: seq<Id>)
      requires Valid()
      modifies this`points
      ensures Valid() && points == map id | id in old(points) && (id !in ids || old(points)[id].session != session) :: old(points)[id]
    {
      hide Good;
      for k := 0 to |ids|
        invariant points == map id | id in old(points) && (id !in ids[..k] || old(points)[id].session != session) :: old(points)[id]
      {
        if ids[k] in points && points[ids[k]].session == session {
          points := points - {ids[k]};
        }
        assert ids[..k + 1] == ids[..k] + [ids[k]];
      }
      assert ids[..|ids|] == ids;
      DroppingKeepsGood(limits, old(points), points, issued, origin);
    }

    /** ReleaseSession: every point of the session, none of any other. */
    method ReleaseSession(session: Session) returns (released: nat)
      requires Valid()
      modifies this`points
      ensures Valid() && released == |Held(old(points), session)|
      ensures forall id :: id in points <==> id in old(points) && old(points)[id].session != session
      ensures points == WithoutSession(old(points), session)
    {
      hide Good, Held, WithoutSession, Kept;
      ghost var (all, part) := (points, map[]);
      var todo := points.Keys;
      released := 0;
      KeptStart(all, session);
      while todo != {}
        invariant todo <= all.Keys && Half(part, all, todo) && points == Kept(all, session, todo)
        invariant released == |Held(part, session)|
        decreases |todo|
      {
        var key :| key in todo;
        KeptStep(all, part, session, todo, key);
        todo := todo - {key};
        part := part[key := all[key]];
        if points[key].session == session {
          points := points - {key};
          released := released + 1;
        }
      }
      KeptEnd(all, part, session);
      DroppingKeepsGood(limits, all, points, issued, origin);
    }
  }
}
