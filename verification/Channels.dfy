/**
 * Secure channels (opcua/channel.go; section 6.7.4 of OPC 10000-6): the life of a
 * channel's tokens across renewals, and the registry that issues channels.
 */
module Channels {
  import opened Prelude
  import opened Ints

  type Time = int
  const MAX_ID: u32 := 0xFFFF_FFFF

  datatype Token = Token(id: u32, createdAt: Time, lifetime: u32) {
    function ExpiresAt(): Time { createdAt + lifetime * NS_PER_MS }
    predicate Expired(now: Time) { now >= ExpiresAt() }
  }

  /** Durations in nanoseconds. */
  datatype Limits = Limits(minLifetime: int, maxLifetime: int, maxChannels: nat) {
    predicate Valid() {
      0 < minLifetime <= maxLifetime && maxChannels > 0 && maxLifetime / NS_PER_MS <= MAX_ID
    }

    function Revise(requested: u32): u32
      requires Valid()
    {
      var d := requested * NS_PER_MS;
      (if d < minLifetime then minLifetime else if d > maxLifetime then maxLifetime else d) / NS_PER_MS
    }
  }

  /** Every revised lifetime is greater than zero exactly when the configured minimum is at least a millisecond. */
  lemma LifetimeIsPositiveExactly(l: Limits)
    requires l.Valid()
    ensures (forall requested: u32 :: l.Revise(requested) > 0) <==> l.minLifetime >= NS_PER_MS
  {
    assert l.Revise(0) == l.minLifetime / NS_PER_MS;
  }

  /** A requested lifetime is kept if the limits allow it, and is the nearest whole number of milliseconds they allow otherwise. */
  lemma LifetimeRevised(l: Limits, requested: u32)
    requires l.Valid()
    ensures l.minLifetime <= requested * 1_000_000 <= l.maxLifetime ==> l.Revise(requested) == requested
    ensures requested * 1_000_000 < l.minLifetime ==> l.Revise(requested) == l.minLifetime / 1_000_000
    ensures requested * 1_000_000 > l.maxLifetime ==> l.Revise(requested) == l.maxLifetime / 1_000_000
  {
  }

  // ---------------------------------------------------------------- one channel

  datatype Channel = Channel(current: Token, previous: Option<Token>, closed: bool)

  /** Renew: the superseded token stays acceptable beside the new one. */
  function Renew(c: Channel, token: Token): Channel {
    if c.closed then c else c.(current := token, previous := Some(c.current))
  }

  predicate Accepts(c: Channel, id: u32, now: Time) {
    && !c.closed
    && if id == c.current.id then !c.current.Expired(now)
       else c.previous.Some? && id == c.previous.value.id && !c.previous.value.Expired(now)
  }

  /** Use of the new token retires the old one, and so does finding the old one expired. */
  function AcceptToken(c: Channel, id: u32, now: Time): Channel {
    if c.closed then c
    else if id == c.current.id then (if c.current.Expired(now) then c else c.(previous := None))
    else if c.previous.Some? && id == c.previous.value.id && c.previous.value.Expired(now) then c.(previous := None)
    else c
  }

  predicate Expired(c: Channel, now: Time) {
    !(c.previous.Some? && !c.previous.value.Expired(now)) && c.current.Expired(now)
  }

  /** The two tokens of one channel carry one identifier only after the counter has come all the way round. */
  predicate Distinct(c: Channel) {
    c.previous.Some? ==> c.previous.value.id != c.current.id
  }

  /** A live token hidden behind an expired one of the same identifier. */
  predicate Shadowed(c: Channel, now: Time) {
    c.previous.Some? && c.previous.value.id == c.current.id && c.current.Expired(now) && !c.previous.value.Expired(now)
  }

  /** An open channel is expired exactly when it would accept no token, unless a live token is shadowed. */
  lemma ExpiredExactly(c: Channel, now: Time)
    requires !c.closed
    ensures (Expired(c, now) <==> forall id: u32 :: !Accepts(c, id, now)) <==> !Shadowed(c, now)
    ensures Distinct(c) ==> (Expired(c, now) <==> forall id: u32 :: !Accepts(c, id, now))
  {
    if c.previous.Some? {
      assert Accepts(c, c.previous.value.id, now) <==> if c.previous.value.id == c.current.id then !c.current.Expired(now) else !c.previous.value.Expired(now);
    }
    assert Accepts(c, c.current.id, now) <==> !c.current.Expired(now);
  }

  /** The counter that numbers tokens, which skips zero. */
  function NextTokenId(id: u32): u32 { if id == MAX_ID then 1 else id + 1 }

  function TokenIdAfter(id: u32, n: nat): u32 {
    if n == 0 then id else NextTokenId(TokenIdAfter(id, n - 1))
  }

  lemma {:induction false} TokenIdsCount(id: u32, n: nat)
    requires id != 0
    ensures TokenIdAfter(id, n) == (id - 1 + n) % 0xFFFF_FFFF + 1
  {
    if n > 0 {
      TokenIdsCount(id, n - 1);
    }
  }

  lemma WholeTurns(x: nat, q: nat)
    requires x < 2 * 0xFFFF_FFFF
    ensures (x + q * 0xFFFF_FFFF) % 0xFFFF_FFFF == if x < 0xFFFF_FFFF then x else x - 0xFFFF_FFFF
  {
  }

  /** A token identifier comes round again after exactly 2^32-1 tokens, and no sooner. */
  lemma TokenIdsComeRound(id: u32, n: nat)
    requires id != 0 && 0 < n
    ensures TokenIdAfter(id, n) == id <==> n % 0xFFFF_FFFF == 0
  {
    hide TokenIdAfter;
    TokenIdsCount(id, n);
    var (q, r) := (n / 0xFFFF_FFFF, n % 0xFFFF_FFFF);
    assert id - 1 + n == (id - 1 + r) + q * 0xFFFF_FFFF;
    WholeTurns(id - 1 + r, q);
  }

  /**
   * A channel with a token of forty-six days whose renewal falls on that token's own
   * identifier, 2^32-1 tokens and forty days later, with a lifetime of ten seconds:
   * when the new token has expired and the old one has not, the channel accepts
   * nothing and yet is not expired.
   */
  lemma ShadowedChannel()
    ensures var renewed := 40 * 86_400_000_000_000;
      var c := Renew(Channel(Token(7, 0, 4_000_000_000), None, false), Token(TokenIdAfter(7, 0xFFFF_FFFF), renewed, 10_000));
      var now := renewed + 11_000_000_000;
      Shadowed(c, now) && !Expired(c, now) && forall id: u32 :: !Accepts(c, id, now)
  {
    TokenIdsComeRound(7, 0xFFFF_FFFF);
  }

  datatype Event = Renewed(token: Token) | Offered(id: u32, now: Time) | Closed

  function Step(c: Channel, e: Event): Channel {
    match e
    case Renewed(token) => Renew(c, token)
    case Offered(id, now) => AcceptToken(c, id, now)
    case Closed => c.(closed := true)
  }

  /** Each renewal carries an identifier above the one before it: the counter has not wrapped. */
  predicate Rising(c: Channel, events: seq<Event>)
    decreases |events|
  {
    events == [] || ((events[0].Renewed? && !c.closed ==> c.current.id < events[0].token.id) && Rising(Step(c, events[0]), events[1..]))
  }

  /** The identifiers accepted in a run, in order. */
  function Accepted(c: Channel, events: seq<Event>): seq<u32>
    decreases |events|
  {
    if events == [] then []
    else
      (if events[0].Offered? && Accepts(c, events[0].id, events[0].now) then [events[0].id] else []) + Accepted(Step(c, events[0]), events[1..])
  }

  /** The oldest identifier the channel may still accept. */
  function Floor(c: Channel): u32 {
    if c.previous.Some? then c.previous.value.id else c.current.id
  }

  predicate Ordered(c: Channel) {
    c.previous.Some? ==> c.previous.value.id < c.current.id
  }

  predicate NonDecreasing(s: seq<u32>) {
    forall i, j :: 0 <= i < j < |s| ==> s[i] <= s[j]
  }

  lemma StepRaisesFloor(c: Channel, e: Event)
    requires Ordered(c) && (e.Renewed? && !c.closed ==> c.current.id < e.token.id)
    ensures Ordered(Step(c, e)) && Floor(c) <= Floor(Step(c, e))
    ensures e.Offered? && Accepts(c, e.id, e.now) ==> Floor(c) <= e.id <= Floor(Step(c, e))
  {
  }

  /** In every run the tokens accepted on a channel never go back: their identifiers are in issue order. */
  lemma {:induction false} TokensNeverGoBack(c: Channel, events: seq<Event>)
    requires Ordered(c) && Rising(c, events)
    ensures NonDecreasing(Accepted(c, events)) && forall i :: 0 <= i < |Accepted(c, events)| ==> Floor(c) <= Accepted(c, events)[i]
    decreases |events|
  {
    if events != [] {
      StepRaisesFloor(c, events[0]);
      TokensNeverGoBack(Step(c, events[0]), events[1..]);
    }
  }

  /** The token was made less than its lifetime ago, in milliseconds. */
  ghost predicate InTime(token: Token, now: Time) {
    now < token.createdAt + token.lifetime * 1_000_000
  }

  /** A token is accepted exactly on an open channel that holds it, current or, under another identifier, superseded, and in time. */
  lemma AcceptedTokensAreLive(c: Channel, id: u32, now: Time)
    ensures Accepts(c, id, now)
      <==> !c.closed && ((c.current.id == id && InTime(c.current, now))
                         || (c.current.id != id && c.previous.Some? && c.previous.value.id == id && InTime(c.previous.value, now)))
  {
  }

  /** What is refused changes nothing, except that finding the superseded token out of time drops it. */
  lemma RefusalKeepsTheRest(c: Channel, id: u32, now: Time)
    requires !Accepts(c, id, now)
    ensures AcceptToken(c, id, now)
      == if !c.closed && id != c.current.id && c.previous.Some? && c.previous.value.id == id then c.(previous := None) else c
  {
  }

  /**
   * After a renewal both tokens are accepted, each as long as it lasts; using the
   * old one changes nothing, and from the first use of the new one on the old one
   * is refused.
   */
  lemma RenewalOverlaps(c: Channel, token: Token, used: Time, now: Time)
    requires !c.closed && token.id != c.current.id
    ensures var d := Renew(c, token);
      && (Accepts(d, token.id, now) <==> InTime(token, now)) && (Accepts(d, c.current.id, now) <==> InTime(c.current, now))
      && (InTime(c.current, used) ==> AcceptToken(d, c.current.id, used) == d)
      && (InTime(token, used) ==> !Accepts(AcceptToken(d, token.id, used), c.current.id, now))
      && (InTime(token, used) ==> (Accepts(AcceptToken(d, token.id, used), token.id, now) <==> InTime(token, now)))
  {
  }

  // ---------------------------------------------------------------- the registry

  /** How many increments lead from one identifier to another, past the wrap. */
  function Gap(from: u32, to: u32): nat {
    if to > from then to - from else to + 0x1_0000_0000 - from
  }

  function Succ(x: u32): u32 { if x == MAX_ID then 0 else x + 1 }

  /** The identifiers from 1 to n. */
  function Ids(n: nat): set<int> {
    if n == 0 then {} else Ids(n - 1) + {n}
  }

  lemma {:induction false} IdsAre(n: nat)
    ensures |Ids(n)| == n && forall x :: x in Ids(n) <==> 1 <= x <= n
  {
    if n > 0 {
      IdsAre(n - 1);
    }
  }

  lemma {:induction false} Outside<T>(a: set<T>, b: set<T>) returns (x: T)
    requires |a| < |b|
    ensures x in b && x !in a
  {
    if a == {} {
      x :| x in b;
    } else {
      var y :| y in a;
      if y in b {
        x := Outside(a - {y}, b - {y});
      } else {
        x := Outside(a - {y}, b);
      }
    }
  }

  lemma FreeAmong(taken: set<int>, n: nat) returns (x: int)
    requires |taken| < n
    ensures 1 <= x <= n && x !in taken
  {
    IdsAre(n);
    x := Outside(taken, Ids(n));
  }

  lemma {:induction false} AtMost(taken: set<int>, n: nat)
    requires forall x <- taken :: 1 <= x <= n
    ensures |taken| <= n
  {
    if n > 0 {
      AtMost(taken - {n}, n - 1);
    } else {
      assert forall x :: x in taken ==> 1 <= x <= n;
      assert taken == {};
    }
  }

  /** The search for an identifier ends exactly short of every one of them being taken. */
  lemma FreeIdExactly(taken: set<u32>)
    requires 0 !in taken
    ensures (exists id: u32 :: id != 0 && id !in taken) <==> |taken| < 0xFFFF_FFFF
  {
    var ints: set<int> := taken;
    if |taken| < 0xFFFF_FFFF {
      var id := FreeAmong(ints, 0xFFFF_FFFF);
      assert id != 0 && id !in taken;
    } else if id: u32 :| id != 0 && id !in taken {
      AtMost(ints + {id}, 0xFFFF_FFFF);
    }
  }

  class ChannelRegistry {
    const limits: Limits
    var channels: map<u32, Channel>
    var nextChannelId: u32
    var nextTokenId: u32

    ghost predicate Valid()
      reads this
    {
      limits.Valid() && |channels| <= limits.maxChannels && 0 !in channels && forall id <- channels :: !channels[id].closed
    }

    /** Every token issued so far is at or below the counter: it has not wrapped. */
    ghost predicate Unwrapped()
      reads this
    {
      forall id <- channels :: channels[id].current.id <= nextTokenId && Ordered(channels[id])
    }

    constructor (limits: Limits, channelSeed: u32, tokenSeed: u32)
      requires limits.Valid()
      ensures Valid() && channels == map[] && this.limits == limits
    {
      this.limits := limits;
      channels, nextChannelId, nextTokenId := map[], channelSeed, tokenSeed;
    }

    /** Terminates whenever some identifier is free, with the next one in counting order that is unused and not zero. */
    method AllocateChannelId(ghost free: u32) returns (id: u32)
      requires free != 0 && free !in channels
      modifies this`nextChannelId
      ensures id != 0 && id !in channels && nextChannelId == id
      ensures forall x: u32 :: Gap(old(nextChannelId), x) < Gap(old(nextChannelId), id) ==> x == 0 || x in channels
    {
      ghost var start := nextChannelId;
      while true
        invariant nextChannelId == start || Gap(start, nextChannelId) + Gap(nextChannelId, free) == Gap(start, free)
        invariant nextChannelId != start ==> nextChannelId == 0 || nextChannelId in channels
        invariant forall x: u32 :: nextChannelId != start && Gap(start, x) <= Gap(start, nextChannelId) ==> x == 0 || x in channels
        decreases Gap(nextChannelId, free)
      {
        nextChannelId := Succ(nextChannelId);
        if nextChannelId == 0 {
          continue;
        }
        if nextChannelId !in channels {
          return nextChannelId;
        }
      }
    }

    method AllocateTokenId() returns (id: u32)
      modifies this`nextTokenId
      ensures nextTokenId == id && id == if old(nextTokenId) == 0xFFFF_FFFF then 1 else old(nextTokenId) + 1
    {
      nextTokenId := Succ(nextTokenId);
      if nextTokenId == 0 {
        nextTokenId := 1;
      }
      return nextTokenId;
    }

    /**
     * Issue: refused exactly for a mode that is not provided or at the limit;
     * otherwise one new open channel under an identifier no other has. With every
     * identifier taken and room left under the limit the source would search for
     * ever, which is the one state excluded.
     */
    method Issue(supported: bool, requested: u32, now: Time) returns (r: Option<u32>)
      requires Valid() && (|channels| < 0xFFFF_FFFF || limits.maxChannels <= |channels| || !supported)
      modifies this
      ensures Valid() && (r.None? <==> !supported || |old(channels)| >= limits.maxChannels)
      ensures r.None? ==> channels == old(channels)
      ensures r.Some? ==> r.value != 0 && r.value !in old(channels) && r.value in channels && channels == old(channels)[r.value := channels[r.value]]
      ensures r.Some? ==> channels[r.value] == Channel(Token(nextTokenId, now, limits.Revise(requested)), None, false)
      ensures old(Unwrapped()) && old(nextTokenId) < MAX_ID ==> Unwrapped()
    {
      if !supported || |channels| >= limits.maxChannels {
        return None;
      }
      FreeIdExactly(channels.Keys);
      ghost var free: u32 :| free != 0 && free !in channels.Keys;
      var id := AllocateChannelId(free);
      var token := AllocateTokenId();
      channels := channels[id := Channel(Token(token, now, limits.Revise(requested)), None, false)];
      return Some(id);
    }

    /** Renew: the channel gets a token above the last one issued, unless the counter wraps. */
    method RenewChannel(id: u32, requested: u32, now: Time) returns (ok: bool)
      requires Valid()
      modifies this`channels, this`nextTokenId
      ensures Valid() && ok == (id in old(channels))
      ensures !ok ==> channels == old(channels)
      ensures old(Unwrapped()) && old(nextTokenId) < MAX_ID ==> Unwrapped() && (ok ==> old(channels)[id].current.id < nextTokenId)
      ensures ok ==> channels == old(channels)[id := Renew(old(channels)[id], Token(nextTokenId, now, limits.Revise(requested)))]
    {
      if id !in channels {
        return false;
      }
      var token := AllocateTokenId();
      channels := channels[id := Renew(channels[id], Token(token, now, limits.Revise(requested)))];
      return true;
    }

    method Accept(id: u32, token: u32, now: Time) returns (ok: bool)
      requires Valid()
      modifies this`channels
      ensures Valid() && ok == (id in old(channels) && Accepts(old(channels)[id], token, now))
      ensures channels == if id in old(channels) then old(channels)[id := AcceptToken(old(channels)[id], token, now)] else old(channels)
      ensures old(Unwrapped()) ==> Unwrapped()
    {
      if id !in channels {
        return false;
      }
      var c := channels[id];
      if token == c.current.id {
        ok := !c.current.Expired(now);
        if ok {
          c := c.(previous := None);
        }
      } else if c.previous.Some? && token == c.previous.value.id {
        ok := !c.previous.value.Expired(now);
        if !ok {
          c := c.(previous := None);
        }
      } else {
        ok := false;
      }
      channels := channels[id := c];
    }

    method Close(id: u32) returns (ok: bool)
      requires Valid()
      modifies this`channels
      ensures Valid() && ok == (id in old(channels)) && channels == old(channels) - {id}
    {
      ok := id in channels;
      if ok {
        RemoveOne(channels, id);
      }
      channels := channels - {id};
    }

    /** ExpireStale reclaims exactly the channels all of whose tokens have expired. */
    method ExpireStale(now: Time) returns (removed: nat)
      requires Valid()
      modifies this`channels
      ensures forall id :: id in channels <==> id in old(channels) && !Expired(old(channels)[id], now)
      ensures Valid() && channels == Live(old(channels), now) && removed == |old(channels)| - |channels|
    {
      var todo := channels.Keys;
      ghost var all := channels;
      removed := 0;
      while todo != {}
        invariant todo <= all.Keys && channels.Keys <= all.Keys && removed + |channels| == |all|
        invariant forall id <- channels :: channels[id] == all[id]
        invariant forall id <- all :: id in channels <==> id in todo || !Expired(all[id], now)
        decreases |todo|
      {
        var key :| key in todo;
        todo := todo - {key};
        if Expired(channels[key], now) {
          RemoveOne(channels, key);
          channels := channels - {key};
          removed := removed + 1;
        }
      }
      assert channels == Live(all, now);
    }
  }

  function Live(channels: map<u32, Channel>, now: Time): map<u32, Channel> {
    map id | id in channels && !Expired(channels[id], now) :: channels[id]
  }

  lemma RemoveOne(channels: map<u32, Channel>, key: u32)
    requires key in channels
    ensures |channels - {key}| + 1 == |channels|
  {
  }
}
